/**
 * Planning again after a successful apply (src/plan/planner.ts, src/plan/executor.ts):
 * nothing has changed, nothing is to be built, and only the lookback tail is to be redone.
 */
module Fixpoint {
  import opened Common
  import opened Models
  import opened Intervals
  import opened Query
  import opened Graph
  import opened Fingerprints
  import opened Store
  import opened Planner
  import opened PlanFacts
  import opened Executor

  // ----- the ledger under an apply -----

  lemma {:induction false} BatchesDone(s: State, fp: Fp, batches: seq<Interval>, step: int, f: Fp, start: int)
    requires step > 0
    ensures IsDone(MarkBatches(s, fp, batches, step), f, start) <==>
              IsDone(s, f, start) || (f == fp && start in Starts(ChopAll(batches, step)))
  {
    hide Marked, IsDone;
    if batches != [] {
      var n := |batches| - 1;
      BatchesDone(s, fp, batches[..n], step, f, start);
      MarkedDone(MarkBatches(s, fp, batches[..n], step), fp, Chop(batches[n], step), f, start);
      ChopAllNext(batches, n, step);
      assert batches[..n + 1] == batches;
      StartsConcat(ChopAll(batches[..n], step), Chop(batches[n], step));
    }
  }

  lemma StartsConcat(xs: seq<Interval>, ys: seq<Interval>)
    ensures Starts(xs + ys) == Starts(xs) + Starts(ys)
  {
  }

  lemma InheritedStarts(s: State, reusedFrom: Option<Fp>, start: int)
    ensures start in Starts(InheritedIntervals(s, reusedFrom)) <==>
              reusedFrom.Some? && IsDone(s, reusedFrom.value, start)
  {
    if reusedFrom.Some? {
      DoneOfMembers(s, reusedFrom.value, start);
      var done := DoneOf(s, reusedFrom.value);
      if start in done {
        assert Interval(start, done[start]) in ByStart(done);
      }
    }
  }

  /** The starts an action marks done. */
  predicate Marks(s: State, a: Action, m: Model, start: int)
    requires Runnable(a, m)
  {
    Working(a, m) && m.kind.TimeRange? &&
    ((a.reusedFrom.Some? && IsDone(s, a.reusedFrom.value, start))
     || start in Starts(ChopAll(BatchesOf(a, m), UnitMillis(m.kind.unit))))
  }

  lemma ApplyOneDone(s: State, a: Action, m: Model, now: int, f: Fp, start: int)
    requires Runnable(a, m)
    ensures IsDone(ApplyOne(s, a, m, now), f, start) <==>
              IsDone(s, f, start) || (f == a.fp && Marks(s, a, m, start))
  {
    hide MarkBatches, BatchesOf, Marked;
    if Working(a, m) && m.kind.TimeRange? {
      var inherited := Marked(s, a.fp, InheritedIntervals(s, a.reusedFrom), Done);
      var recorded := Upserted(inherited, SnapshotFor(a, m), now);
      MarkedDone(s, a.fp, InheritedIntervals(s, a.reusedFrom), f, start);
      InheritedStarts(s, a.reusedFrom, start);
      BatchesDone(recorded, a.fp, BatchesOf(a, m), UnitMillis(m.kind.unit), f, start);
    }
  }

  lemma {:induction false} DoneGrows(s: State, models: map<Name, Model>, actions: seq<Action>, now: int, j: nat, k: nat,
                                     f: Fp, start: int)
    requires AllRunnable(models, actions) && j <= k <= |actions|
    requires IsDone(ApplyUpTo(s, models, actions, now, j), f, start)
    ensures IsDone(ApplyUpTo(s, models, actions, now, k), f, start)
    decreases k
  {
    hide ApplyOne, IsDone;
    if j < k {
      DoneGrows(s, models, actions, now, j, k - 1, f, start);
      var before, a := ApplyUpTo(s, models, actions, now, k - 1), actions[k - 1];
      ApplyOneDone(before, a, models[a.name], now, f, start);
    }
  }

  /** With distinct fingerprints, what a fingerprint's ledger gains comes from its own action. */
  lemma {:induction false} DoneOnlyByOwn(s: State, models: map<Name, Model>, actions: seq<Action>, now: int, k: nat,
                                         own: nat, start: int)
    requires AllRunnable(models, actions) && k <= |actions| && own < |actions|
    requires forall i, j | 0 <= i < j < |actions| :: actions[i].fp != actions[j].fp
    requires !Working(actions[own], models[actions[own].name])
    requires IsDone(ApplyUpTo(s, models, actions, now, k), actions[own].fp, start)
    ensures IsDone(s, actions[own].fp, start)
  {
    hide ApplyOne, IsDone;
    if k > 0 {
      var before := ApplyUpTo(s, models, actions, now, k - 1);
      ApplyOneDone(before, actions[k - 1], models[actions[k - 1].name], now, actions[own].fp, start);
      DoneOnlyByOwn(s, models, actions, now, k - 1, own, start);
    }
  }

  // ----- what is left to plan -----

  lemma InsertsLast(xs: seq<Interval>, x: Interval)
    requires xs == [] || xs[|xs| - 1].start <= x.start
    ensures InsertByStart(xs, x) == xs + [x]
  {
  }

  lemma {:induction false} SortedIsSorted(xs: seq<Interval>)
    requires Increasing(xs)
    ensures SortByStart(xs) == xs
  {
    hide InsertByStart;
    if xs != [] {
      var n := |xs| - 1;
      SortedIsSorted(xs[..n]);
      InsertsLast(xs[..n], xs[n]);
      assert xs == xs[..n] + [xs[n]];
    }
  }

  lemma NothingMissing(wanted: seq<Interval>, done: map<int, int>)
    ensures Missing(wanted, done.Keys) == [] <==> forall iv | iv in wanted :: iv.start in done
  {
    var missing := Missing(wanted, done.Keys);
    NonEmptyHasMember(missing);
    if forall iv | iv in wanted :: iv.start in done {
      assert forall iv :: iv !in missing;
    }
    if missing == [] {
      forall iv | iv in wanted ensures iv.start in done {
        assert iv !in missing;
      }
    }
  }

  /** With nothing missing, the backfill is the lookback tail. */
  lemma OnlyTheTail(wanted: seq<Interval>, done: map<int, int>, lookback: nat)
    requires forall iv | iv in wanted :: iv.start in done
    ensures Backfill(wanted, done, lookback) == Merge(Tail(done, lookback))
    ensures lookback == 0 ==> Backfill(wanted, done, lookback) == []
  {
    NothingMissing(wanted, done);
    var tail := Tail(done, lookback);
    assert [] + tail == tail;
    SortedIsSorted(tail);
  }

  lemma {:induction false} MergeNonEmpty(merged: seq<Interval>, xs: seq<Interval>)
    ensures merged != [] ==> MergeOnto(merged, xs) != []
    decreases |xs|
  {
    if xs != [] {
      MergeNonEmpty(MergeOne(merged, xs[0]), xs[1..]);
    }
  }

  /** No ranges planned means nothing was missing. */
  lemma EmptyBackfill(wanted: seq<Interval>, done: map<int, int>, lookback: nat)
    requires Backfill(wanted, done, lookback) == []
    ensures forall iv | iv in wanted :: iv.start in done
  {
    var all := Missing(wanted, done.Keys) + Tail(done, lookback);
    var sorted := SortByStart(all);
    if sorted != [] {
      MergeNonEmpty(MergeOne([], sorted[0]), sorted[1..]);
    }
    assert |sorted| == |all|;
    NothingMissing(wanted, done);
  }

  // ----- the second plan -----

  /** The same project at the same time, over the store the apply left. */
  ghost function Again(r: Request, env: Env, s: State): Request {
    Request(r.models, r.order, r.versions, s, CurrentOf(s, env), r.now, [], map[])
  }

  ghost predicate AppliedFrom(r: Request, canon: Canon, acc: Acc, env: Env, at: int, s: State) {
    && Planned(r, canon, acc) && AllRunnable(r.models, acc.actions)
    && Promotable(ApplyUpTo(r.store, r.models, acc.actions, at, |acc.actions|), EntriesOf(r.models, acc.actions))
    && s == Applied(r.store, env, r.models, acc.actions, at)
  }

  lemma ActionsFollowOrder(r: Request, canon: Canon, acc: Acc)
    requires Planned(r, canon, acc)
    ensures |acc.actions| == |r.order|
    ensures forall k | 0 <= k < |r.order| ::
              r.order[k] in r.versions && acc.actions[k].name == r.order[k]
              && acc.actions[k].fp == r.versions[r.order[k]].fp
  {
    hide PlanUpTo, Decide;
    AccKeys(r, canon, |r.order|);
    forall k | 0 <= k < |r.order|
      ensures r.order[k] in r.versions && acc.actions[k].name == r.order[k]
              && acc.actions[k].fp == r.versions[r.order[k]].fp
    {
      PlanLocal(r, canon, acc, k);
    }
  }

  /** The rows of one environment after its promotion. */
  lemma PromotedRows(envs: map<EnvKey, Fp>, env: Env, entries: seq<Entry>, name: Name)
    requires DistinctNames(entries)
    ensures var rows := EnvRows(OtherEnvs(envs, env), env, entries);
            && (forall k | 0 <= k < |entries| && entries[k].name == name ::
                  EnvKey(env, name) in rows && rows[EnvKey(env, name)] == entries[k].fp)
            && (EnvKey(env, name) in rows ==> exists k :: 0 <= k < |entries| && entries[k].name == name)
  {
    EnvRowsAt(OtherEnvs(envs, env), env, entries, EnvKey(env, name));
  }

  /** After the apply the environment serves exactly the project's fingerprints. */
  lemma EnvironmentServes(r: Request, canon: Canon, acc: Acc, env: Env, at: int, s: State)
    requires AppliedFrom(r, canon, acc, env, at, s)
    ensures CurrentOf(s, env).Keys == r.models.Keys == r.versions.Keys
    ensures forall x | x in r.models :: CurrentOf(s, env)[x] == r.versions[x].fp
  {
    hide PlanUpTo, ApplyUpTo, EnvRows, OtherEnvs, RemarkAll, AllAlive, DistinctNames;
    ActionsFollowOrder(r, canon, acc);
    var before := ApplyUpTo(r.store, r.models, acc.actions, at, |acc.actions|);
    var entries := EntriesOf(r.models, acc.actions);
    assert s.envs == EnvRows(OtherEnvs(before.envs, env), env, entries);
    forall x | x in r.models ensures EnvKey(env, x) in s.envs && s.envs[EnvKey(env, x)] == r.versions[x].fp {
      assert x in Elems(r.order);
      var k :| 0 <= k < |r.order| && r.order[k] == x;
      PromotedRows(before.envs, env, entries, x);
      assert entries[k].name == x && entries[k].fp == r.versions[x].fp;
    }
    forall x | x in CurrentOf(s, env) ensures x in r.models {
      PromotedRows(before.envs, env, entries, x);
      var i :| 0 <= i < |entries| && entries[i].name == x;
      DepsEarlier(r.models, r.order, i);
    }
  }

  lemma SecondDecision(r: Request, env: Env, s: State, changeOf: map<Name, Change>, reused: set<Name>, x: Name)
    requires x in r.models && x in r.versions && x in CurrentOf(s, env) && CurrentOf(s, env)[x] == r.versions[x].fp
    ensures Decide(Again(r, env, s), changeOf, reused, x)
            == Ok(Decision(Unchanged, None, None, r.versions[x].fp, false))
  {
  }

  /** One turn of the second plan's loop. */
  lemma SecondStep(r: Request, env: Env, s: State, k: nat)
    requires Known(Again(r, env, s)) && k < |r.order| && PlanUpTo(Again(r, env, s), k).Ok?
    requires var x := r.order[k];
             x in CurrentOf(s, env) && CurrentOf(s, env)[x] == r.versions[x].fp
    ensures var x := r.order[k];
            && PlanUpTo(Again(r, env, s), k + 1).Ok?
            && PlanUpTo(Again(r, env, s), k + 1).value.actions
               == PlanUpTo(Again(r, env, s), k).value.actions
                  + [ActionFor(Again(r, env, s), x, Decision(Unchanged, None, None, r.versions[x].fp, false))]
  {
    hide Decide, ActionFor, CurrentOf;
    var before := PlanUpTo(Again(r, env, s), k).value;
    SecondDecision(r, env, s, before.changeOf, before.reused, r.order[k]);
  }

  lemma {:induction false} SecondPlanUpTo(r: Request, canon: Canon, acc: Acc, env: Env, at: int, s: State, k: nat)
    requires AppliedFrom(r, canon, acc, env, at, s) && k <= |r.order|
    ensures Known(Again(r, env, s)) && PlanUpTo(Again(r, env, s), k).Ok?
    ensures |PlanUpTo(Again(r, env, s), k).value.actions| == k
    ensures forall i | 0 <= i < k ::
              r.order[i] in r.models && r.order[i] in r.versions
              && PlanUpTo(Again(r, env, s), k).value.actions[i]
                 == ActionFor(Again(r, env, s), r.order[i],
                              Decision(Unchanged, None, None, r.versions[r.order[i]].fp, false))
  {
    hide PlanUpTo, ActionFor, AppliedFrom, CurrentOf, Known, Again, Applied;
    EnvironmentServes(r, canon, acc, env, at, s);
    SecondKnown(r, canon, acc, env, at, s);
    if k > 0 {
      SecondPlanUpTo(r, canon, acc, env, at, s, k - 1);
      assert r.order[k - 1] in r.models;
      SecondStep(r, env, s, k - 1);
    }
  }

  lemma SecondKnown(r: Request, canon: Canon, acc: Acc, env: Env, at: int, s: State)
    requires AppliedFrom(r, canon, acc, env, at, s)
    ensures Known(Again(r, env, s)) && PlanUpTo(Again(r, env, s), 0) == Ok(Acc(map[], {}, []))
    ensures forall i | 0 <= i < |r.order| :: r.order[i] in r.models && r.order[i] in r.versions
  {
  }

  // ----- the wanted intervals are done -----

  /** The inherited and own rows of one time-range model are grain intervals of its unit. */
  ghost predicate GrainRows(r: Request, a: Action, m: Model) {
    m.kind.TimeRange? ==> GrainLedger(DoneFor(r.store, a.fp, a.reusedFrom), UnitMillis(m.kind.unit))
  }

  function WantedOf(r: Request, m: Model): seq<Interval> {
    if m.kind.TimeRange? then Wanted(m.kind.unit, m.kind.start, r.now) else []
  }

  lemma ActionShape(r: Request, canon: Canon, acc: Acc, k: nat)
    requires Planned(r, canon, acc) && k < |r.order|
    ensures r.order[k] in r.models && r.order[k] in r.versions && k < |acc.actions|
    ensures var m, a := r.models[r.order[k]], acc.actions[k];
            && a.name == r.order[k] && a.fp == r.versions[r.order[k]].fp
            && (m.kind.TimeRange? ==>
                  a.backfill == Backfill(WantedOf(r, m), DoneFor(r.store, a.fp, a.reusedFrom), m.kind.lookback))
  {
    hide PlanUpTo, Decide;
    PlanLocal(r, canon, acc, k);
  }

  lemma DoneForMembers(s: State, fp: Fp, reusedFrom: Option<Fp>, start: int)
    ensures start in DoneFor(s, fp, reusedFrom) <==>
              IsDone(s, fp, start) || (reusedFrom.Some? && IsDone(s, reusedFrom.value, start))
  {
    DoneOfMembers(s, fp, start);
    if reusedFrom.Some? { DoneOfMembers(s, reusedFrom.value, start); }
  }

  /** A working action leaves every wanted interval done: own, inherited, or just computed. */
  lemma WorkCovers(r: Request, a: Action, m: Model, s: State, iv: Interval, now: int)
    requires Runnable(a, m) && Working(a, m) && m.kind.TimeRange? && GrainRows(r, a, m)
    requires a.backfill == Backfill(WantedOf(r, m), DoneFor(r.store, a.fp, a.reusedFrom), m.kind.lookback)
    requires forall f, start | IsDone(r.store, f, start) :: IsDone(s, f, start)
    requires iv in WantedOf(r, m)
    ensures IsDone(ApplyOne(s, a, m, now), a.fp, iv.start)
  {
    hide ApplyOne, IsDone;
    var u, wanted, done := m.kind.unit, WantedOf(r, m), DoneFor(r.store, a.fp, a.reusedFrom);
    WantedMembers(u, m.kind.start, r.now);
    BackfillTiles(wanted, done, m.kind.lookback, u, m.kind.batchSize);
    ApplyOneDone(s, a, m, now, a.fp, iv.start);
    DoneForMembers(r.store, a.fp, a.reusedFrom, iv.start);
    if iv.start !in done {
      assert iv in ChopAll(BatchesOf(a, m), UnitMillis(u));
      assert Marks(s, a, m, iv.start);
    }
  }

  /** A row after the batches is one of their pieces or stood before. */
  lemma {:induction false} BatchRow(s: State, fp: Fp, batches: seq<Interval>, step: int, start: int)
    requires step > 0 && IsDone(MarkBatches(s, fp, batches, step), fp, start)
    ensures var end := EndAt(MarkBatches(s, fp, batches, step), fp, start);
            Interval(start, end) in ChopAll(batches, step) || (IsDone(s, fp, start) && EndAt(s, fp, start) == end)
  {
    hide Chop, MarkRows;
    if batches != [] {
      var n := |batches| - 1;
      var before := MarkBatches(s, fp, batches[..n], step);
      MarkRowsAt(before.ledger, fp, Chop(batches[n], step), Done, Slot(fp, start));
      ChopAllNext(batches, n, step);
      assert batches[..n + 1] == batches;
      if start !in Starts(Chop(batches[n], step)) {
        BatchRow(s, fp, batches[..n], step, start);
      }
    }
  }

  /** A row after the inheritance is the other version's, or the version's own where that has none. */
  lemma InheritedRow(s: State, fp: Fp, reusedFrom: Option<Fp>, start: int)
    requires IsDone(Marked(s, fp, InheritedIntervals(s, reusedFrom), Done), fp, start)
    ensures var done := DoneFor(s, fp, reusedFrom);
            start in done && done[start] == EndAt(Marked(s, fp, InheritedIntervals(s, reusedFrom), Done), fp, start)
  {
    hide MarkRows;
    MarkRowsAt(s.ledger, fp, InheritedIntervals(s, reusedFrom), Done, Slot(fp, start));
    InheritedStarts(s, reusedFrom, start);
    DoneOfMembers(s, fp, start);
    if reusedFrom.Some? { DoneOfMembers(s, reusedFrom.value, start); }
  }

  /** A working action leaves its version a ledger of whole grains of the model's unit. */
  lemma WorkKeepsGrains(r: Request, a: Action, m: Model, now: int)
    requires Runnable(a, m) && Working(a, m) && m.kind.TimeRange? && GrainRows(r, a, m)
    requires a.backfill == Backfill(WantedOf(r, m), DoneFor(r.store, a.fp, a.reusedFrom), m.kind.lookback)
    ensures GrainLedger(DoneOf(ApplyOne(r.store, a, m, now), a.fp), UnitMillis(m.kind.unit))
  {
    hide DoneFor, WantedOf, Backfill, MarkBatches, BatchesOf, ToRecompute, IsGrain, Marked;
    var u, wanted, done := m.kind.unit, WantedOf(r, m), DoneFor(r.store, a.fp, a.reusedFrom);
    var step := UnitMillis(u);
    var inherited := Marked(r.store, a.fp, InheritedIntervals(r.store, a.reusedFrom), Done);
    var recorded := Upserted(inherited, SnapshotFor(a, m), now);
    var after := ApplyOne(r.store, a, m, now);
    PlannedGrains(r, a, m);
    forall start | start in DoneOf(after, a.fp) ensures IsGrain(Interval(start, DoneOf(after, a.fp)[start]), step) {
      DoneOfMembers(after, a.fp, start);
      BatchRow(recorded, a.fp, BatchesOf(a, m), step, start);
      var iv := Interval(start, EndAt(after, a.fp, start));
      if iv !in ChopAll(BatchesOf(a, m), step) {
        InheritedRow(r.store, a.fp, a.reusedFrom, start);
        assert IsGrain(Interval(start, done[start]), step);
      }
    }
  }

  /** A working action makes done exactly what it wants and what it inherits, for its own version alone. */
  lemma WorkDoneExact(r: Request, a: Action, m: Model, now: int, f: Fp, start: int)
    requires Runnable(a, m) && Working(a, m) && m.kind.TimeRange? && GrainRows(r, a, m)
    requires a.backfill == Backfill(WantedOf(r, m), DoneFor(r.store, a.fp, a.reusedFrom), m.kind.lookback)
    ensures IsDone(ApplyOne(r.store, a, m, now), f, start) <==>
              || IsDone(r.store, f, start)
              || (f == a.fp && a.reusedFrom.Some? && IsDone(r.store, a.reusedFrom.value, start))
              || (f == a.fp && start in Starts(WantedOf(r, m)))
  {
    hide ApplyOne, IsDone, DoneFor, Backfill, ToRecompute, Later, IsGrain;
    var u, wanted, done := m.kind.unit, WantedOf(r, m), DoneFor(r.store, a.fp, a.reusedFrom);
    ApplyOneDone(r.store, a, m, now, f, start);
    DoneForMembers(r.store, a.fp, a.reusedFrom, start);
    WantedMembers(u, m.kind.start, r.now);
    BackfillTiles(wanted, done, m.kind.lookback, u, m.kind.batchSize);
    var marked := ChopAll(BatchesOf(a, m), UnitMillis(u));
    if start in Starts(marked) {
      var iv :| iv in marked && iv.start == start;
    }
    if start in Starts(wanted) && start !in done {
      var iv :| iv in wanted && iv.start == start;
      assert iv in marked;
    }
  }

  lemma PlannedGrains(r: Request, a: Action, m: Model)
    requires Runnable(a, m) && m.kind.TimeRange? && GrainRows(r, a, m)
    requires a.backfill == Backfill(WantedOf(r, m), DoneFor(r.store, a.fp, a.reusedFrom), m.kind.lookback)
    ensures forall iv | iv in ChopAll(BatchesOf(a, m), UnitMillis(m.kind.unit)) :: IsGrain(iv, UnitMillis(m.kind.unit))
  {
    hide DoneFor, IsGrain;
    var u, done := m.kind.unit, DoneFor(r.store, a.fp, a.reusedFrom);
    WantedMembers(u, m.kind.start, r.now);
    BackfillTiles(WantedOf(r, m), done, m.kind.lookback, u, m.kind.batchSize);
    ToRecomputeGrains(WantedOf(r, m), done, m.kind.lookback, UnitMillis(u));
  }

  /** An idle action left every wanted interval done already, counting inherited ones. */
  lemma IdleCovers(r: Request, a: Action, m: Model, iv: Interval)
    requires m.kind.TimeRange? && a.backfill == []
    requires a.backfill == Backfill(WantedOf(r, m), DoneFor(r.store, a.fp, a.reusedFrom), m.kind.lookback)
    requires iv in WantedOf(r, m)
    ensures IsDone(r.store, a.fp, iv.start) || (a.reusedFrom.Some? && IsDone(r.store, a.reusedFrom.value, iv.start))
  {
    EmptyBackfill(WantedOf(r, m), DoneFor(r.store, a.fp, a.reusedFrom), m.kind.lookback);
    DoneForMembers(r.store, a.fp, a.reusedFrom, iv.start);
  }

  ghost predicate AllDone(s: State, fp: Fp, wanted: seq<Interval>) {
    forall iv | iv in wanted :: IsDone(s, fp, iv.start)
  }

  lemma StartDone(r: Request, canon: Canon, acc: Acc, at: int, k: nat)
    requires Planned(r, canon, acc) && AllRunnable(r.models, acc.actions) && k <= |acc.actions|
    ensures forall f, start | IsDone(r.store, f, start) ::
              IsDone(ApplyUpTo(r.store, r.models, acc.actions, at, k), f, start)
  {
    hide IsDone, ApplyOne, PlanUpTo;
    forall f, start | IsDone(r.store, f, start)
      ensures IsDone(ApplyUpTo(r.store, r.models, acc.actions, at, k), f, start)
    {
      DoneGrows(r.store, r.models, acc.actions, at, 0, k, f, start);
    }
  }

  lemma WorkingCovered(r: Request, canon: Canon, acc: Acc, env: Env, at: int, s: State, k: nat)
    requires AppliedFrom(r, canon, acc, env, at, s) && k < |r.order|
    requires r.order[k] in r.models && k < |acc.actions|
    requires var m := r.models[r.order[k]];
             m.kind.TimeRange? && Working(acc.actions[k], m) && GrainRows(r, acc.actions[k], m)
    ensures AllDone(s, acc.actions[k].fp, WantedOf(r, r.models[r.order[k]]))
  {
    hide IsDone, ApplyOne, PlanUpTo, Decide;
    ActionShape(r, canon, acc, k);
    var a, m, n := acc.actions[k], r.models[r.order[k]], |acc.actions|;
    var before := ApplyUpTo(r.store, r.models, acc.actions, at, k);
    StartDone(r, canon, acc, at, k);
    forall iv | iv in WantedOf(r, m) ensures IsDone(s, a.fp, iv.start) {
      WorkCovers(r, a, m, before, iv, at);
      DoneGrows(r.store, r.models, acc.actions, at, k + 1, n, a.fp, iv.start);
      var applied := ApplyUpTo(r.store, r.models, acc.actions, at, n);
      LedgerKept(applied, env, EntriesOf(r.models, acc.actions), at, a.fp, iv.start);
    }
  }

  lemma LedgerKept(s: State, env: Env, entries: seq<Entry>, at: int, fp: Fp, start: int)
    ensures IsDone(Promoted(s, env, entries, at), fp, start) <==> IsDone(s, fp, start)
  {
  }

  lemma IdleCovered(r: Request, canon: Canon, acc: Acc, env: Env, at: int, s: State, k: nat)
    requires AppliedFrom(r, canon, acc, env, at, s) && k < |r.order|
    requires r.order[k] in r.models && k < |acc.actions|
    requires var m := r.models[r.order[k]];
             m.kind.TimeRange? && !Working(acc.actions[k], m) && acc.actions[k].reusedFrom.None?
    ensures AllDone(s, acc.actions[k].fp, WantedOf(r, r.models[r.order[k]]))
  {
    hide IsDone, ApplyOne, PlanUpTo, Decide;
    ActionShape(r, canon, acc, k);
    var a, m, n := acc.actions[k], r.models[r.order[k]], |acc.actions|;
    StartDone(r, canon, acc, at, n);
    forall iv | iv in WantedOf(r, m) ensures IsDone(s, a.fp, iv.start) {
      IdleCovers(r, a, m, iv);
      var applied := ApplyUpTo(r.store, r.models, acc.actions, at, n);
      LedgerKept(applied, env, EntriesOf(r.models, acc.actions), at, a.fp, iv.start);
    }
  }

  ghost predicate DistinctFps(actions: seq<Action>) {
    forall i, j | 0 <= i < j < |actions| :: actions[i].fp != actions[j].fp
  }

  /**
   * After a successful apply every wanted interval of a time-range model is done, exactly
   * unless the model sat the apply out on the strength of a ledger it would have had to
   * inherit: an already recorded version with nothing left to do never marks those rows.
   */
  lemma CoverageExact(r: Request, canon: Canon, acc: Acc, env: Env, at: int, s: State, k: nat)
    requires AppliedFrom(r, canon, acc, env, at, s) && k < |r.order| && DistinctFps(acc.actions)
    requires r.order[k] in r.models && k < |acc.actions|
    requires r.models[r.order[k]].kind.TimeRange? && GrainRows(r, acc.actions[k], r.models[r.order[k]])
    ensures var m, a := r.models[r.order[k]], acc.actions[k];
            AllDone(s, a.fp, WantedOf(r, m)) <==>
              Working(a, m) || a.reusedFrom.None? || AllDone(r.store, a.fp, WantedOf(r, m))
  {
    hide IsDone, ApplyOne, PlanUpTo, Decide;
    var m, a, n := r.models[r.order[k]], acc.actions[k], |acc.actions|;
    if Working(a, m) {
      WorkingCovered(r, canon, acc, env, at, s, k);
    } else if a.reusedFrom.None? {
      IdleCovered(r, canon, acc, env, at, s, k);
    } else {
      ActionsFollowOrder(r, canon, acc);
      StartDone(r, canon, acc, at, n);
      forall iv | iv in WantedOf(r, m) ensures IsDone(s, a.fp, iv.start) <==> IsDone(r.store, a.fp, iv.start) {
        var done := ApplyUpTo(r.store, r.models, acc.actions, at, n);
        LedgerKept(done, env, EntriesOf(r.models, acc.actions), at, a.fp, iv.start);
        if IsDone(done, a.fp, iv.start) {
          DoneOnlyByOwn(r.store, r.models, acc.actions, at, n, k, iv.start);
        }
      }
    }
  }

  // ----- the fixpoint -----

  /** The action of a settled model: nothing changed, nothing to build, the last done intervals to redo. */
  ghost predicate Settled(a: Action, m: Model, s: State) {
    && a.change.Unchanged? && !a.build && a.reusedFrom.None?
    && (!m.kind.TimeRange? ==> a.backfill == [])
    && (m.kind.TimeRange? ==>
          exists recent :: RecentOnes(DoneOf(s, a.fp), m.kind.lookback, recent) && a.backfill == Merge(recent))
    && (m.kind.TimeRange? && m.kind.lookback == 0 ==> a.backfill == [])
  }

  // ----- planned time, counted -----

  function TotalLength(xs: seq<Interval>): int {
    if xs == [] then 0 else TotalLength(xs[..|xs| - 1]) + xs[|xs| - 1].end - xs[|xs| - 1].start
  }

  lemma {:induction false} LengthConcat(xs: seq<Interval>, ys: seq<Interval>)
    ensures TotalLength(xs + ys) == TotalLength(xs) + TotalLength(ys)
  {
    if ys == [] {
      assert xs + ys == xs;
    } else {
      var n := |ys| - 1;
      assert (xs + ys)[..|xs + ys| - 1] == xs + ys[..n];
      LengthConcat(xs, ys[..n]);
    }
  }

  lemma MergeOneLength(merged: seq<Interval>, x: Interval)
    ensures TotalLength(MergeOne(merged, x)) == TotalLength(merged) + TotalLength([x])
  {
    var n := |merged|;
    assert [x][..0] == [];
    if n > 0 && merged[n - 1].end == x.start {
      assert MergeOne(merged, x)[..n - 1] == merged[..n - 1];
    } else {
      LengthConcat(merged, [x]);
    }
  }

  /** Merging neither loses time nor counts it twice. */
  lemma {:induction false} MergeLength(merged: seq<Interval>, xs: seq<Interval>)
    ensures TotalLength(MergeOnto(merged, xs)) == TotalLength(merged) + TotalLength(xs)
    decreases |xs|
  {
    if xs != [] {
      MergeOneLength(merged, xs[0]);
      MergeLength(MergeOne(merged, xs[0]), xs[1..]);
      LengthConcat([xs[0]], xs[1..]);
      assert [xs[0]] + xs[1..] == xs;
    }
  }

  lemma {:induction false} InsertLength(sorted: seq<Interval>, x: Interval)
    ensures TotalLength(InsertByStart(sorted, x)) == TotalLength(sorted) + TotalLength([x])
  {
    var n := |sorted|;
    if n == 0 || sorted[n - 1].start <= x.start {
      LengthConcat(sorted, [x]);
    } else {
      InsertLength(sorted[..n - 1], x);
      var r := InsertByStart(sorted[..n - 1], x);
      assert InsertByStart(sorted, x) == r + [sorted[n - 1]];
      LengthConcat(r, [sorted[n - 1]]);
      LengthConcat(sorted[..n - 1], [sorted[n - 1]]);
      assert sorted[..n - 1] + [sorted[n - 1]] == sorted;
    }
  }

  lemma {:induction false} SortLength(xs: seq<Interval>)
    ensures TotalLength(SortByStart(xs)) == TotalLength(xs)
  {
    hide InsertByStart;
    if xs != [] {
      var n := |xs| - 1;
      SortLength(xs[..n]);
      InsertLength(SortByStart(xs[..n]), xs[n]);
      LengthConcat(xs[..n], [xs[n]]);
      assert xs[..n] + [xs[n]] == xs;
    }
  }

  lemma {:induction false} PositiveLength(xs: seq<Interval>)
    requires forall iv | iv in xs :: iv.start < iv.end
    ensures TotalLength(xs) >= 0 && (TotalLength(xs) == 0 <==> xs == [])
  {
    if xs != [] {
      var last := xs[|xs| - 1];
      assert last in xs;
      PositiveLength(xs[..|xs| - 1]);
    }
  }

  /** The backfill is the lookback tail and no more exactly when nothing is missing. */
  lemma TailExact(wanted: seq<Interval>, done: map<int, int>, lookback: nat)
    requires forall iv | iv in wanted :: iv.start < iv.end
    ensures Backfill(wanted, done, lookback) == Merge(Tail(done, lookback)) <==>
              forall iv | iv in wanted :: iv.start in done
  {
    hide Missing, Tail, SortByStart;
    var missing, tail := Missing(wanted, done.Keys), Tail(done, lookback);
    if forall iv | iv in wanted :: iv.start in done {
      OnlyTheTail(wanted, done, lookback);
    }
    if Backfill(wanted, done, lookback) == Merge(tail) {
      MergeLength([], SortByStart(missing + tail));
      MergeLength([], tail);
      SortLength(missing + tail);
      LengthConcat(missing, tail);
      PositiveLength(missing);
      NothingMissing(wanted, done);
    }
  }

  lemma SettledExact(r: Request, env: Env, s: State, x: Name)
    requires x in r.models && x in r.versions
    ensures Settled(ActionFor(Again(r, env, s), x, Decision(Unchanged, None, None, r.versions[x].fp, false)),
                    r.models[x], s)
            <==> AllDone(s, r.versions[x].fp, WantedOf(r, r.models[x]))
  {
    hide Backfill, DoneOf, Tail, RecentOnes;
    var m, fp := r.models[x], r.versions[x].fp;
    assert DoneFor(s, fp, None) == DoneOf(s, fp);
    if m.kind.TimeRange? {
      var wanted, done := WantedOf(r, m), DoneOf(s, fp);
      WantedMembers(m.kind.unit, m.kind.start, r.now);
      forall iv | iv in wanted ensures iv.start in done <==> IsDone(s, fp, iv.start) {
        DoneOfMembers(s, fp, iv.start);
      }
      TailExact(wanted, done, m.kind.lookback);
      NoTail(done, m.kind.lookback);
      forall recent ensures RecentOnes(done, m.kind.lookback, recent) <==> recent == Tail(done, m.kind.lookback) {
        RecentOnesExact(done, m.kind.lookback, recent);
      }
    }
  }

  lemma NoTail(done: map<int, int>, lookback: nat)
    ensures lookback == 0 ==> Merge(Tail(done, lookback)) == []
  {
  }

  /** No model sat the apply out while the rows it leaned on were only another version's. */
  ghost predicate LeansOnNothing(r: Request, acc: Acc) {
    forall k | 0 <= k < |acc.actions| && acc.actions[k].name in r.models ::
      Stands(r, acc.actions[k], r.models[acc.actions[k].name])
  }

  ghost predicate Stands(r: Request, a: Action, m: Model) {
    Working(a, m) || a.reusedFrom.None? || AllDone(r.store, a.fp, WantedOf(r, m))
  }

  ghost predicate AllGrainRows(r: Request, acc: Acc) {
    forall k | 0 <= k < |acc.actions| && acc.actions[k].name in r.models ::
      GrainRows(r, acc.actions[k], r.models[acc.actions[k].name])
  }

  /** Nothing changed, nothing to build, and the backfill is exactly the merged lookback tail, model by model. */
  ghost predicate AllSettled(r: Request, plan: seq<Action>, s: State) {
    |plan| == |r.order|
    && forall k | 0 <= k < |r.order| ::
         r.order[k] in r.models && plan[k].name == r.order[k] && Settled(plan[k], r.models[r.order[k]], s)
  }

  /** The model at a position has all it wants done after the apply. */
  ghost predicate CoveredAt(r: Request, acc: Acc, s: State, k: nat)
    requires k < |r.order| && k < |acc.actions|
  {
    r.order[k] in r.models && AllDone(s, acc.actions[k].fp, WantedOf(r, r.models[r.order[k]]))
  }

  lemma StandingIsCovered(r: Request, canon: Canon, acc: Acc, env: Env, at: int, s: State, k: nat)
    requires AppliedFrom(r, canon, acc, env, at, s) && AllGrainRows(r, acc)
    requires k < |r.order| && k < |acc.actions| && r.order[k] in r.models && acc.actions[k].name == r.order[k]
    ensures Stands(r, acc.actions[k], r.models[r.order[k]]) ==> CoveredAt(r, acc, s, k)
    ensures DistinctFps(acc.actions) ==>
              (Stands(r, acc.actions[k], r.models[r.order[k]]) <==> CoveredAt(r, acc, s, k))
  {
    hide AppliedFrom, Working, IsDone;
    var m, a := r.models[r.order[k]], acc.actions[k];
    assert GrainRows(r, a, m);
    if m.kind.TimeRange? {
      if Working(a, m) {
        WorkingCovered(r, canon, acc, env, at, s, k);
      } else if a.reusedFrom.None? {
        IdleCovered(r, canon, acc, env, at, s, k);
      } else if AllDone(r.store, a.fp, WantedOf(r, m)) {
        StoredCovered(r, canon, acc, env, at, s, k);
      } else if DistinctFps(acc.actions) {
        CoverageExact(r, canon, acc, env, at, s, k);
      }
    }
  }

  lemma StoredCovered(r: Request, canon: Canon, acc: Acc, env: Env, at: int, s: State, k: nat)
    requires AppliedFrom(r, canon, acc, env, at, s) && k < |r.order| && k < |acc.actions| && r.order[k] in r.models
    requires AllDone(r.store, acc.actions[k].fp, WantedOf(r, r.models[r.order[k]]))
    ensures AllDone(s, acc.actions[k].fp, WantedOf(r, r.models[r.order[k]]))
  {
    hide IsDone, ApplyOne, PlanUpTo;
    var fp, n := acc.actions[k].fp, |acc.actions|;
    StartDone(r, canon, acc, at, n);
    forall iv | iv in WantedOf(r, r.models[r.order[k]]) ensures IsDone(s, fp, iv.start) {
      var applied := ApplyUpTo(r.store, r.models, acc.actions, at, n);
      LedgerKept(applied, env, EntriesOf(r.models, acc.actions), at, fp, iv.start);
    }
  }

  /** The second plan, action by action. */
  lemma SecondPlan(r: Request, canon: Canon, acc: Acc, env: Env, at: int, s: State)
    requires AppliedFrom(r, canon, acc, env, at, s)
    ensures Known(Again(r, env, s)) && PlanUpTo(Again(r, env, s), |r.order|).Ok?
    ensures Gone(Again(r, env, s)) == []
    ensures var plan := PlanOf(Again(r, env, s));
            |plan| == |r.order| == |acc.actions|
            && forall k | 0 <= k < |r.order| ::
                 r.order[k] in r.models && acc.actions[k].name == plan[k].name == r.order[k]
                 && (Settled(plan[k], r.models[r.order[k]], s) <==> CoveredAt(r, acc, s, k))
  {
    hide Decide, ActionFor, Applied, CurrentOf, Settled, PlanUpTo, Working;
    SecondPlanUpTo(r, canon, acc, env, at, s, |r.order|);
    EnvironmentServes(r, canon, acc, env, at, s);
    NothingGone(Again(r, env, s));
    ActionsFollowOrder(r, canon, acc);
    NamesOfActions(r, env, s);
    forall k | 0 <= k < |r.order|
      ensures r.order[k] in r.models && r.order[k] in r.versions
              && (Settled(ActionFor(Again(r, env, s), r.order[k],
                                    Decision(Unchanged, None, None, r.versions[r.order[k]].fp, false)),
                          r.models[r.order[k]], s)
                  <==> CoveredAt(r, acc, s, k))
    {
      DepsEarlier(r.models, r.order, k);
      SettledExact(r, env, s, r.order[k]);
    }
  }

  /**
   * Planning again at the same time finds no environment row to remove, and everything
   * settled if, and with distinct fingerprints only if, every time-range model that sat the
   * apply out on an inherited ledger had all it wants in its own ledger before.
   */
  lemma PlanApplyFixpoint(r: Request, canon: Canon, acc: Acc, env: Env, at: int, s: State)
    requires AppliedFrom(r, canon, acc, env, at, s) && AllGrainRows(r, acc)
    ensures Known(Again(r, env, s)) && PlanUpTo(Again(r, env, s), |r.order|).Ok?
    ensures Gone(Again(r, env, s)) == []
    ensures LeansOnNothing(r, acc) ==> AllSettled(r, PlanOf(Again(r, env, s)), s)
    ensures DistinctFps(acc.actions) ==> (AllSettled(r, PlanOf(Again(r, env, s)), s) <==> LeansOnNothing(r, acc))
  {
    hide AppliedFrom, PlanOf, PlanUpTo, Settled, CoveredAt, Stands, Gone, AllGrainRows, DistinctFps;
    SecondPlan(r, canon, acc, env, at, s);
    var plan := PlanOf(Again(r, env, s));
    forall k | 0 <= k < |r.order|
      ensures Stands(r, acc.actions[k], r.models[r.order[k]]) ==> Settled(plan[k], r.models[r.order[k]], s)
      ensures DistinctFps(acc.actions) ==>
                (Stands(r, acc.actions[k], r.models[r.order[k]]) <==> Settled(plan[k], r.models[r.order[k]], s))
    {
      StandingIsCovered(r, canon, acc, env, at, s, k);
    }
  }

  lemma NothingGone(r: Request)
    requires r.current.Keys <= r.models.Keys
    ensures Gone(r) == [] && RemovedActions(r) == []
  {
    assert r.current.Keys - r.models.Keys == {};
  }

  lemma NamesOfActions(r: Request, env: Env, s: State)
    ensures forall x, d | x in r.models && x in r.versions :: ActionFor(Again(r, env, s), x, d).name == x
  {
  }
}
