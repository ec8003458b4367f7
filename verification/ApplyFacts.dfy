/**
 * What an apply leaves in the store (src/plan/executor.ts:572-848, 964-973), in the plan's
 * own terms: which actions run, what each records, and when the promotion can succeed.
 */
module ApplyFacts {
  import opened Common
  import opened Models
  import opened Intervals
  import opened Query
  import opened Graph
  import opened Fingerprints
  import opened Store
  import opened Planner
  import opened PlanFacts
  import opened Executor
  import opened Fixpoint
  import B = Backfills

  function KeyOf(a: Action): SnapKey {
    SnapKey(a.name, a.fp)
  }

  ghost predicate DistinctActions(actions: seq<Action>) {
    forall i, j | 0 <= i < j < |actions| :: actions[i].name != actions[j].name
  }

  // ----- the rows -----

  /** The row of a version recorded for the first time. */
  ghost predicate NewRow(row: Snapshot, a: Action, m: Model, now: int) {
    && row.physFp == a.physFp && row.ast == a.ast && row.version == FINGERPRINT_VERSION
    && row.createdAt == now && row.orphanedAt.None?
    && (row.kind.ViewSnap? <==> m.kind.View?) && (row.kind.EmbeddedSnap? <==> m.kind.Embedded?)
  }

  /** The row of a version recorded again: as it was, but young and without an orphan mark. */
  ghost predicate Revived(row: Snapshot, before: Snapshot, now: int) {
    && row.physFp == before.physFp && row.ast == before.ast && row.kind == before.kind
    && row.version == before.version && row.createdAt == now && row.orphanedAt.None?
  }

  /** Some working action among the first `k` has this name and fingerprint. */
  ghost predicate WorksOn(models: map<Name, Model>, actions: seq<Action>, k: nat, key: SnapKey)
    requires AllRunnable(models, actions) && k <= |actions|
  {
    exists j: nat :: j < k && KeyOf(actions[j]) == key && Working(actions[j], models[actions[j].name])
  }

  /** What one action does to the rows. */
  ghost predicate OneRow(s: State, a: Action, m: Model, now: int, t: State, key: SnapKey) {
    if key == KeyOf(a) && Working(a, m) then
      key in t.snapshots
      && if key in s.snapshots then Revived(t.snapshots[key], s.snapshots[key], now)
         else NewRow(t.snapshots[key], a, m, now)
    else
      (key in t.snapshots <==> key in s.snapshots)
      && (key in s.snapshots ==> t.snapshots[key] == s.snapshots[key])
  }

  lemma {:induction false} BatchesKeepRest(s: State, fp: Fp, batches: seq<Interval>, step: int)
    requires step > 0
    ensures var t := MarkBatches(s, fp, batches, step);
            t.snapshots == s.snapshots && t.envs == s.envs && t.locks == s.locks
  {
    if batches != [] { BatchesKeepRest(s, fp, batches[..|batches| - 1], step); }
  }

  lemma ApplyOneRow(s: State, a: Action, m: Model, now: int, key: SnapKey)
    requires Runnable(a, m)
    ensures OneRow(s, a, m, now, ApplyOne(s, a, m, now), key)
    ensures ApplyOne(s, a, m, now).envs == s.envs && ApplyOne(s, a, m, now).locks == s.locks
  {
    hide MarkRows, BatchesOf, InheritedIntervals, MarkBatches, Working;
    if Working(a, m) && m.kind.TimeRange? {
      var inherited := Marked(s, a.fp, InheritedIntervals(s, a.reusedFrom), Done);
      var recorded := Upserted(inherited, SnapshotFor(a, m), now);
      BatchesKeepRest(recorded, a.fp, BatchesOf(a, m), UnitMillis(m.kind.unit));
    }
  }

  /** The row of a version after the first `k` actions. */
  ghost predicate RowAfter(s: State, models: map<Name, Model>, actions: seq<Action>, now: int, k: nat, t: State,
                           key: SnapKey)
    requires AllRunnable(models, actions) && k <= |actions|
  {
    && (key in t.snapshots <==> key in s.snapshots || WorksOn(models, actions, k, key))
    && (key in s.snapshots && !WorksOn(models, actions, k, key) ==> t.snapshots[key] == s.snapshots[key])
    && (key in s.snapshots && WorksOn(models, actions, k, key) ==>
          Revived(t.snapshots[key], s.snapshots[key], now))
    && (key !in s.snapshots ==> forall j: nat | j < k && KeyOf(actions[j]) == key
                                               && Working(actions[j], models[actions[j].name]) ::
          NewRow(t.snapshots[key], actions[j], models[actions[j].name], now))
  }

  /**
   * After the actions of a plan a version has a row exactly if it had one or a working action
   * recorded it; a new row is the action's, an old one is renewed, no other is touched.
   */
  lemma {:induction false} RowsAfter(s: State, models: map<Name, Model>, actions: seq<Action>, now: int, k: nat,
                                     key: SnapKey)
    requires AllRunnable(models, actions) && DistinctActions(actions) && k <= |actions|
    ensures RowAfter(s, models, actions, now, k, ApplyUpTo(s, models, actions, now, k), key)
    ensures ApplyUpTo(s, models, actions, now, k).envs == s.envs
    ensures ApplyUpTo(s, models, actions, now, k).locks == s.locks
    decreases k
  {
    hide ApplyOne, Working, NewRow, Revived;
    if k > 0 {
      var a, before := actions[k - 1], ApplyUpTo(s, models, actions, now, k - 1);
      RowsAfter(s, models, actions, now, k - 1, key);
      ApplyOneRow(before, a, models[a.name], now, key);
      if KeyOf(a) == key && Working(a, models[a.name]) {
        assert WorksOn(models, actions, k, key);
        assert !WorksOn(models, actions, k - 1, key);
      }
    }
  }

  // ----- over a planned request -----

  lemma PlanIsDistinct(r: Request, canon: Canon, acc: Acc)
    requires Planned(r, canon, acc)
    ensures DistinctActions(acc.actions) && |acc.actions| == |r.order|
    ensures forall k | 0 <= k < |acc.actions| :: acc.actions[k].name == r.order[k] && acc.actions[k].name in r.models
  {
    hide PlanUpTo;
    ActionsFollowOrder(r, canon, acc);
    forall k | 0 <= k < |acc.actions| ensures acc.actions[k].name in r.models {
      DepsEarlier(r.models, r.order, k);
    }
    assert NoDup(r.order);
  }

  /** A model that sits the apply out without a row to promote. */
  ghost predicate Unrecorded(r: Request, a: Action)
    requires a.name in r.models
  {
    !r.models[a.name].kind.External? && !Working(a, r.models[a.name]) && KeyOf(a) !in r.store.snapshots
  }

  /**
   * The promotion of a completed apply succeeds exactly if every model that sat it out and is
   * not external had its row before: the working ones have just got theirs.
   */
  lemma PromotableExact(r: Request, canon: Canon, acc: Acc, at: int)
    requires Planned(r, canon, acc) && AllRunnable(r.models, acc.actions)
    ensures Promotable(ApplyUpTo(r.store, r.models, acc.actions, at, |acc.actions|), EntriesOf(r.models, acc.actions))
            <==> forall k | 0 <= k < |acc.actions| :: !Unrecorded(r, acc.actions[k])
  {
    hide Planned, ApplyUpTo, Working;
    PlanIsDistinct(r, canon, acc);
    var n := |acc.actions|;
    var t, entries := ApplyUpTo(r.store, r.models, acc.actions, at, n), EntriesOf(r.models, acc.actions);
    forall k: nat | k < n ensures Alive(t, entries[k]) <==> !Unrecorded(r, acc.actions[k]) {
      var a := acc.actions[k];
      RowsAfter(r.store, r.models, acc.actions, at, n, KeyOf(a));
      WorksOnOwn(r.models, acc.actions, k);
    }
  }

  lemma WorksOnOwn(models: map<Name, Model>, actions: seq<Action>, k: nat)
    requires AllRunnable(models, actions) && DistinctActions(actions) && k < |actions|
    ensures WorksOn(models, actions, |actions|, KeyOf(actions[k])) <==> Working(actions[k], models[actions[k].name])
  {
    hide Working;
  }

  // ----- which actions run -----

  /** Some wanted slot is in neither ledger the action goes by, or there is a done interval to look back on. */
  ghost predicate HasTimeToDo(r: Request, a: Action, m: Model) {
    m.kind.TimeRange? &&
    ((exists iv :: iv in WantedOf(r, m) && !HasDone(r, a, iv.start))
     || (m.kind.lookback > 0 && exists start :: HasDone(r, a, start)))
  }

  /** Done in the version's own ledger or in the one it inherits. */
  predicate HasDone(r: Request, a: Action, start: int) {
    IsDone(r.store, a.fp, start) || (a.reusedFrom.Some? && IsDone(r.store, a.reusedFrom.value, start))
  }

  lemma BackfillNonEmpty(wanted: seq<Interval>, done: map<int, int>, lookback: nat)
    ensures Backfill(wanted, done, lookback) != [] <==>
              (exists iv :: iv in wanted && iv.start !in done) || (lookback > 0 && exists s :: s in done)
  {
    hide SortByStart, Missing, Tail;
    var missing, tail := Missing(wanted, done.Keys), Tail(done, lookback);
    var sorted := SortByStart(missing + tail);
    if sorted != [] {
      MergeNonEmpty(MergeOne([], sorted[0]), sorted[1..]);
    }
    assert |sorted| == |missing| + |tail|;
    NonEmptyHasMember(missing);
    if iv :| iv in wanted && iv.start !in done { assert iv in missing; }
    TailNonEmpty(done, lookback);
  }

  lemma TailNonEmpty(done: map<int, int>, lookback: nat)
    ensures Tail(done, lookback) != [] <==> lookback > 0 && exists s :: s in done
  {
    var sorted := ByStart(done);
    NonEmptyHasMember(sorted);
    if s :| s in done { assert Interval(s, done[s]) in sorted; }
  }

  /**
   * An action runs exactly if its model is not external and there is a version to build, time
   * to compute, or a kind that is refreshed by every apply.
   */
  lemma WorksExact(r: Request, canon: Canon, acc: Acc, k: nat)
    requires Planned(r, canon, acc) && k < |r.order|
    ensures k < |acc.actions| && acc.actions[k].name == r.order[k] && r.order[k] in r.models
    ensures var a, m := acc.actions[k], r.models[r.order[k]];
            Working(a, m) <==>
              !m.kind.External? &&
              ((!a.change.Unchanged? && KeyOf(a) !in r.store.snapshots)
               || HasTimeToDo(r, a, m) || m.kind.UniqueKey? || m.kind.Scd2?)
  {
    hide PlanUpTo, Decide, Backfill, DoneFor, WantedOf;
    ActionShape(r, canon, acc, k);
    BuildShape(r, canon, acc, k);
    var a, m := acc.actions[k], r.models[r.order[k]];
    if m.kind.TimeRange? {
      var done := DoneFor(r.store, a.fp, a.reusedFrom);
      forall start ensures start in done <==> HasDone(r, a, start) {
        DoneForMembers(r.store, a.fp, a.reusedFrom, start);
      }
      BackfillNonEmpty(WantedOf(r, m), done, m.kind.lookback);
    }
  }

  lemma BuildShape(r: Request, canon: Canon, acc: Acc, k: nat)
    requires Planned(r, canon, acc) && k < |r.order|
    ensures k < |acc.actions| && r.order[k] in r.models
    ensures var a, m := acc.actions[k], r.models[r.order[k]];
            && (a.build <==> !m.kind.External? && !a.change.Unchanged? && KeyOf(a) !in r.store.snapshots)
            && (a.refresh <==> m.kind.UniqueKey? || m.kind.Scd2?)
            && (!m.kind.TimeRange? ==> a.backfill == [])
  {
    hide PlanUpTo, Decide, Backfill, Wanted;
    PlanLocal(r, canon, acc, k);
  }

  /** The physics of the version inherited from, or the version's own. */
  function PhysicsOf(s: State, a: Action): Fp {
    if a.reusedFrom.Some? && SnapKey(a.name, a.reusedFrom.value) in s.snapshots
    then s.snapshots[SnapKey(a.name, a.reusedFrom.value)].physFp else a.fp
  }

  /** What a plan's action says of its version: its fingerprint, its query, and the physics it goes on. */
  lemma PlannedAction(r: Request, canon: Canon, acc: Acc, k: nat)
    requires Planned(r, canon, acc) && k < |r.order|
    ensures k < |acc.actions| && r.order[k] in r.models && Ordered(r.models, r.order)
    ensures var a, m := acc.actions[k], r.models[r.order[k]];
            && a.name == r.order[k] && a.fp == Fps(r.models, r.order, canon)[a.name]
            && a.ast == (if m.kind.External? || m.kind.Seed? then None else Some(canon(m.text)))
            && (a.reusedFrom.Some? ==> SnapKey(a.name, a.reusedFrom.value) in r.store.snapshots)
            && (KeyOf(a) !in r.store.snapshots ==> a.physFp == PhysicsOf(r.store, a))
  {
    hide PlanUpTo, Overridden, OwnChange, OldAst, BackfillFor, Fps, ShiftedByParentsOnly, IndirectReuse, Cascades;
    PlanLocal(r, canon, acc, k);
    DepsEarlier(r.models, r.order, k);
  }

  /** The row of a version a plan has worked on: renewed, or new with its canonical query over its physics. */
  ghost predicate RowOfPlan(r: Request, canon: Canon, a: Action, m: Model, at: int, row: Snapshot) {
    if KeyOf(a) in r.store.snapshots then Revived(row, r.store.snapshots[KeyOf(a)], at)
    else
      && NewRow(row, a, m, at) && row.physFp == PhysicsOf(r.store, a)
      && row.ast == if m.kind.Seed? then None else Some(canon(m.text))
  }

  /** After the actions of a plan every version it worked on is recorded, as the plan says. */
  lemma PlannedRow(r: Request, canon: Canon, acc: Acc, at: int, k: nat)
    requires Planned(r, canon, acc) && AllRunnable(r.models, acc.actions) && k < |acc.actions|
    requires Working(acc.actions[k], r.models[acc.actions[k].name])
    ensures acc.actions[k].name in r.models && Ordered(r.models, r.order)
    ensures acc.actions[k].fp == Fps(r.models, r.order, canon)[acc.actions[k].name]
    ensures var a := acc.actions[k];
            var t := ApplyUpTo(r.store, r.models, acc.actions, at, |acc.actions|);
            KeyOf(a) in t.snapshots && RowOfPlan(r, canon, a, r.models[a.name], at, t.snapshots[KeyOf(a)])
  {
    hide Planned, ApplyUpTo, Fps, Revived;
    PlanIsDistinct(r, canon, acc);
    PlannedAction(r, canon, acc, k);
    var a := acc.actions[k];
    RowsAfter(r.store, r.models, acc.actions, at, |acc.actions|, KeyOf(a));
    assert WorksOn(r.models, acc.actions, |acc.actions|, KeyOf(a));
  }

  /**
   * The batches an apply runs for a version of its own are those `Backfills` is about: the
   * planned ranges in pieces of the batch size, over the version's own ledger.
   */
  lemma PlannedBatches(r: Request, canon: Canon, acc: Acc, k: nat)
    requires Planned(r, canon, acc) && k < |r.order| && k < |acc.actions| && r.order[k] in r.models
    requires Runnable(acc.actions[k], r.models[r.order[k]]) && r.models[r.order[k]].kind.TimeRange?
    requires acc.actions[k].reusedFrom.None?
    ensures var a, kind := acc.actions[k], r.models[r.order[k]].kind;
            && BatchesOf(a, r.models[r.order[k]]) == B.Planned(kind, r.store, a.fp, r.now)
            && B.Planned(kind, r.store, a.fp, r.now)
               == ChopAll(Backfill(Wanted(kind.unit, kind.start, r.now), DoneOf(r.store, a.fp), kind.lookback),
                          kind.batchSize * UnitMillis(kind.unit))
  {
    hide PlanUpTo, Decide, Backfill, Wanted, DoneOf, ChopAll;
    ActionShape(r, canon, acc, k);
    var a, kind := acc.actions[k], r.models[r.order[k]].kind;
    BatchStepExact(kind.unit, kind.batchSize);
    assert DoneFor(r.store, a.fp, None) == DoneOf(r.store, a.fp);
  }
}
