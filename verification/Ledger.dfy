/**
 * What "done" in the interval ledger means over whole histories of applies, failures,
 * inheritance, restates, promotions and janitor passes: the ledger is keyed by a version's
 * fingerprint, the rows sit in physics several versions may share, and the two are kept
 * together only by the order of the executor's steps (src/plan/executor.ts:772-848).
 * Nothing ties a step to the store its plan was made from: a plan may have gone stale.
 * A pass of the janitor is taken as one step here; Janitors has its interleavings.
 */
module Ledgers {
  import opened Common
  import opened Models
  import opened Intervals
  import opened Query
  import opened Fingerprints
  import opened Store
  import opened Planner
  import opened PlanFacts
  import opened Executor
  import J = Janitors
  import B = Backfills

  /**
   * `tables`: for each physical table the moments it was loaded for, with the version that
   * loaded them last. `sharers`: every version ever prepared over a table.
   */
  datatype Sys = Sys(store: State, tables: map<J.Table, map<int, Fp>>, sharers: set<(J.Table, Fp)>)

  /** Steps of the apply of one time-range action (any other action inherits nothing), and of everything else. */
  datatype Event =
    /** Inherit, create if absent, record: everything before the batches. */
    | Prepare(a: Action, m: Model, now: int)
    /** The same, failing after the inheritance and before the record. */
    | Break(a: Action, created: bool)
    /** One batch of an action over the physics its plan named. */
    | Batch(name: Name, fp: Fp, physFp: Fp, range: Interval, step: int)
    | BatchFails(name: Name, fp: Fp, physFp: Fp, range: Interval, step: int, loaded: bool)
    | Clear(fp: Fp, from: int, until: int)
    | PromoteEnv(env: Env, entries: seq<Entry>, now: int)
    | Sweep(name: Name, fp: Fp, deadline: int)

  const START := Sys(EMPTY, map[], {})

  ghost predicate Ready(e: Event) {
    match e
    case Prepare(a, m, _) => a.name == m.name
    case Batch(_, _, _, _, step) => step > 0
    case BatchFails(_, _, _, _, step, _) => step > 0
    case _ => true
  }

  /** A batch's table exists and an action prepared it for this version; nothing else is checked. */
  ghost predicate Enabled(s: Sys, e: Event) {
    && Ready(e)
    && (e.Batch? || e.BatchFails? ==>
          J.Table(e.name, e.physFp) in s.tables && (J.Table(e.name, e.physFp), e.fp) in s.sharers)
  }

  // ----- the store -----

  function Inheriting(s: State, a: Action): State {
    Marked(s, a.fp, InheritedIntervals(s, a.reusedFrom), Done)
  }

  ghost function StoreAfter(s: State, e: Event): State
    requires Ready(e)
  {
    match e
    case Prepare(a, m, now) => Upserted(Inheriting(s, a), SnapshotFor(a, m), now)
    case Break(a, _) => Inheriting(s, a)
    case Batch(_, fp, _, range, step) => Marked(s, fp, Chop(range, step), Done)
    case BatchFails(_, fp, _, range, step, _) => Marked(s, fp, Chop(range, step), Status.Failed)
    case Clear(fp, from, until) => Cleared(s, fp, from, until)
    case PromoteEnv(env, entries, now) => Promoted(s, env, entries, now)
    case Sweep(name, fp, deadline) => Claimed(s, name, fp, deadline)
  }

  // ----- the engine -----

  type Tables = map<J.Table, map<int, Fp>>

  function Created(tables: Tables, t: J.Table): Tables {
    if t in tables then tables else tables[t := map[]]
  }

  function Moments(iv: Interval): set<int> {
    set u | iv.start <= u < iv.end && Within(iv, u)
  }

  function Loaded(tables: Tables, t: J.Table, fp: Fp, range: Interval): Tables {
    if t in tables then tables[t := tables[t] + map u | u in Moments(range) :: fp] else tables
  }

  /** The claimed row's table goes unless a surviving snapshot has the same physical fingerprint. */
  function Swept(s: Sys, name: Name, fp: Fp, deadline: int): Tables {
    var key := SnapKey(name, fp);
    if !Doomed(s.store, key, deadline) then s.tables else
      var t := TableOfKey(s.store, key);
      if t.fp in J.InUse(Claimed(s.store, name, fp, deadline)) then s.tables else s.tables - {t}
  }

  function TableOfKey(s: State, key: SnapKey): J.Table
    requires key in s.snapshots
  {
    J.TableOf(key, s.snapshots[key])
  }

  function TablesAfter(s: Sys, e: Event): Tables {
    match e
    case Prepare(a, _, _) => Created(s.tables, J.Table(a.name, a.physFp))
    case Break(a, created) => if created then Created(s.tables, J.Table(a.name, a.physFp)) else s.tables
    case Batch(name, fp, physFp, range, _) => Loaded(s.tables, J.Table(name, physFp), fp, range)
    case BatchFails(name, fp, physFp, range, _, loaded) =>
      if loaded then Loaded(s.tables, J.Table(name, physFp), fp, range) else s.tables
    case Sweep(name, fp, deadline) => Swept(s, name, fp, deadline)
    case _ => s.tables
  }

  function SharersAfter(sharers: set<(J.Table, Fp)>, e: Event): set<(J.Table, Fp)> {
    if e.Prepare? then sharers + {(J.Table(e.a.name, e.a.physFp), e.a.fp)} else sharers
  }

  ghost function Next(s: Sys, e: Event): Sys
    requires Ready(e)
  {
    Sys(StoreAfter(s.store, e), TablesAfter(s, e), SharersAfter(s.sharers, e))
  }

  // ----- soundness -----

  /** The ledger calls this moment done for the fingerprint, by the interval that starts there. */
  predicate DoneAt(s: State, fp: Fp, start: int, u: int) {
    IsDone(s, fp, start) && start <= u < EndAt(s, fp, start)
  }

  /** The ledger says of a live version recorded over the table that it holds this moment. */
  predicate Claims(s: State, t: J.Table, key: SnapKey, start: int, u: int) {
    key in s.snapshots && TableOfKey(s, key) == t && DoneAt(s, key.fp, start, u)
  }

  ghost predicate Covered(s: State, t: J.Table, u: int) {
    exists key, start :: Claims(s, t, key, start, u)
  }

  predicate Holds(tables: Tables, t: J.Table, u: int) {
    t in tables && u in tables[t]
  }

  /** Every moment of every done interval of a live version was loaded into that version's physics. */
  ghost predicate Sound(s: Sys) {
    forall t, u | Covered(s.store, t, u) :: Holds(s.tables, t, u)
  }

  predicate HasRecord(s: State, fp: Fp) {
    exists k | k in s.snapshots :: k.fp == fp
  }

  /** No done ledger rows without a snapshot to own them. */
  ghost predicate Owned(s: State) {
    forall fp, start | IsDone(s, fp, start) :: HasRecord(s, fp)
  }

  /** Whoever loaded a moment was prepared over that very table. */
  ghost predicate SharedOnly(s: Sys) {
    && (forall key | key in s.store.snapshots :: (TableOfKey(s.store, key), key.fp) in s.sharers)
    && (forall t, u | Holds(s.tables, t, u) :: (t, s.tables[t][u]) in s.sharers)
  }

  ghost predicate Inv(s: Sys) {
    Sound(s) && Owned(s.store) && SharedOnly(s)
  }

  // ----- when a step is harmless, as the store alone can tell -----

  /** After the inheritance the ledger calls this moment done for the action's fingerprint. */
  ghost predicate Comes(s: State, a: Action, u: int) {
    exists start :: DoneAt(Inheriting(s, a), a.fp, start, u)
  }

  /** The physics the action's own row is over once it is recorded: an earlier row keeps its physics. */
  function OwnTable(s: State, a: Action): J.Table {
    var own := SnapKey(a.name, a.fp);
    if own in s.snapshots then TableOfKey(s, own) else J.Table(a.name, a.physFp)
  }

  /** Whatever comes by inheritance, some version over the table has already. */
  ghost predicate Backed(s: State, a: Action, t: J.Table) {
    forall u | Comes(s, a, u) :: Covered(s, t, u)
  }

  ghost predicate RecordsBacked(s: State, a: Action) {
    forall k | k in s.snapshots && k.fp == a.fp :: Backed(s, a, TableOfKey(s, k))
  }

  /** The batch is over the row's own physics, or brings the row nothing it does not have. */
  ghost predicate Suits(s: State, e: Event, k: SnapKey)
    requires e.Batch? && k in s.snapshots
  {
    || TableOfKey(s, k) == J.Table(e.name, e.physFp)
    || forall u | Within(e.range, u) :: Covered(s, TableOfKey(s, k), u)
  }

  /**
   * An inheritance is harmless if what it brings is covered over every table a version of
   * this fingerprint is recorded over; a batch, if every such version is over the batch's
   * table or has the range already. Neither may leave marks that no snapshot owns.
   */
  ghost predicate Careful(s: State, e: Event) {
    match e
    case Prepare(a, _, _) => RecordsBacked(s, a) && Backed(s, a, OwnTable(s, a))
    case Break(a, _) =>
      RecordsBacked(s, a) && (HasRecord(s, a.fp) || forall start :: !IsDone(Inheriting(s, a), a.fp, start))
    case Batch(_, fp, _, range, _) =>
      range.start < range.end ==> HasRecord(s, fp) && forall k | k in s.snapshots && k.fp == fp :: Suits(s, e, k)
    case _ => true
  }

  /** Whatever tables the ledger has been sound over, the step leaves it sound. */
  ghost predicate Harmless(store: State, e: Event)
    requires Ready(e)
  {
    forall tables, sharers ::
      var s := Sys(store, tables, sharers);
      Inv(s) && Enabled(s, e) ==> Inv(Next(s, e))
  }

  // ----- what a step adds to what the ledger covers -----

  predicate LoadsAt(e: Event, t: J.Table, u: int) {
    e.Batch? && t == J.Table(e.name, e.physFp) && Within(e.range, u)
  }

  /** All a step newly covers it also loads, and it leaves no unowned marks. */
  ghost predicate Earned(s: State, e: Event)
    requires Ready(e)
  {
    && Owned(StoreAfter(s, e))
    && forall t, u | Covered(StoreAfter(s, e), t, u) :: Covered(s, t, u) || LoadsAt(e, t, u)
  }

  lemma SnapshotsKept(s: State, fp: Fp, marks: seq<Interval>, status: Status)
    ensures Marked(s, fp, marks, status).snapshots == s.snapshots
  {
  }

  lemma LoadedHolds(tables: Tables, t: J.Table, fp: Fp, range: Interval, x: J.Table, u: int)
    ensures Holds(Loaded(tables, t, fp, range), x, u)
            <==> Holds(tables, x, u) || (t in tables && x == t && Within(range, u))
    ensures Holds(Loaded(tables, t, fp, range), x, u) ==>
              Loaded(tables, t, fp, range)[x][u]
              == if t in tables && x == t && Within(range, u) then fp else tables[x][u]
  {
    assert u in Moments(range) <==> Within(range, u);
  }

  lemma SweptHolds(s: Sys, name: Name, fp: Fp, deadline: int, x: J.Table, u: int)
    ensures Holds(Swept(s, name, fp, deadline), x, u) ==> Holds(s.tables, x, u)
    ensures Holds(Swept(s, name, fp, deadline), x, u) ==> Swept(s, name, fp, deadline)[x] == s.tables[x]
    ensures Covered(Claimed(s.store, name, fp, deadline), x, u) && Holds(s.tables, x, u)
            ==> Holds(Swept(s, name, fp, deadline), x, u)
  {
    hide IsDone;
    var after := Claimed(s.store, name, fp, deadline);
    if Covered(after, x, u) && Holds(s.tables, x, u) {
      var key, start :| Claims(after, x, key, start, u);
      assert after.snapshots[key].physFp in J.InUse(after);
    }
  }

  lemma EngineStep(s: Sys, e: Event, t: J.Table, u: int)
    requires Enabled(s, e)
    ensures Covered(StoreAfter(s.store, e), t, u) && (Holds(s.tables, t, u) || LoadsAt(e, t, u))
            ==> Holds(TablesAfter(s, e), t, u)
    ensures Holds(TablesAfter(s, e), t, u) ==>
              || (Holds(s.tables, t, u) && TablesAfter(s, e)[t][u] == s.tables[t][u])
              || ((e.Batch? || e.BatchFails?) && t == J.Table(e.name, e.physFp) && TablesAfter(s, e)[t][u] == e.fp)
  {
    hide Covered, Loaded, Swept, Within, Marked, Claimed, Promoted, Cleared, Upserted;
    match e
    case Batch(name, fp, physFp, range, _) => LoadedHolds(s.tables, J.Table(name, physFp), fp, range, t, u);
    case BatchFails(name, fp, physFp, range, _, loaded) =>
      LoadedHolds(s.tables, J.Table(name, physFp), fp, range, t, u);
    case Sweep(name, fp, deadline) => SweptHolds(s, name, fp, deadline, t, u);
    case _ =>
  }

  /** Rows appear only through a preparation and never change physics. */
  lemma RecordsAfter(s: State, e: Event, key: SnapKey)
    requires Ready(e) && key in StoreAfter(s, e).snapshots
    ensures key in s.snapshots ==> TableOfKey(StoreAfter(s, e), key) == TableOfKey(s, key)
    ensures key !in s.snapshots ==>
              e.Prepare? && key == SnapKey(e.a.name, e.a.fp)
              && TableOfKey(StoreAfter(s, e), key) == J.Table(e.a.name, e.a.physFp)
  {
    hide Marked;
    match e
    case Prepare(a, m, now) => SnapshotsKept(s, a.fp, InheritedIntervals(s, a.reusedFrom), Done);
    case Break(a, _) => SnapshotsKept(s, a.fp, InheritedIntervals(s, a.reusedFrom), Done);
    case Batch(_, fp, _, range, step) => SnapshotsKept(s, fp, Chop(range, step), Done);
    case BatchFails(_, fp, _, range, step, _) => SnapshotsKept(s, fp, Chop(range, step), Status.Failed);
    case _ =>
  }

  lemma EarnedKeeps(s: Sys, e: Event)
    requires Inv(s) && Enabled(s, e) && Earned(s.store, e)
    ensures Inv(Next(s, e))
  {
    hide Covered, StoreAfter, TablesAfter, Enabled, Owned;
    BatchPrepared(s, e);
    var n := Next(s, e);
    forall t, u | Covered(n.store, t, u) ensures Holds(n.tables, t, u) {
      EngineStep(s, e, t, u);
    }
    forall key | key in n.store.snapshots ensures (TableOfKey(n.store, key), key.fp) in n.sharers {
      RecordsAfter(s.store, e, key);
    }
    forall t, u | Holds(n.tables, t, u) ensures (t, n.tables[t][u]) in n.sharers {
      EngineStep(s, e, t, u);
    }
  }

  lemma BatchPrepared(s: Sys, e: Event)
    requires Enabled(s, e)
    ensures Ready(e)
    ensures e.Batch? || e.BatchFails? ==> (J.Table(e.name, e.physFp), e.fp) in s.sharers
  {
  }

  // ----- the least tables a sound ledger can be over -----

  function CoveredSlots(s: State, t: J.Table): set<Slot> {
    set key, slot | key in s.snapshots && slot in s.ledger
                    && TableOfKey(s, key) == t && slot.fp == key.fp && s.ledger[slot].status.Done? :: slot
  }

  function CoveredMoments(s: State, t: J.Table): set<int> {
    set slot, u | slot in CoveredSlots(s, t) && u in Moments(Interval(slot.start, EndAt(s, slot.fp, slot.start))) :: u
  }

  lemma CoveredMomentsExact(s: State, t: J.Table, u: int)
    ensures u in CoveredMoments(s, t) <==> Covered(s, t, u)
  {
    if u in CoveredMoments(s, t) {
      var slot :| slot in CoveredSlots(s, t) && u in Moments(Interval(slot.start, EndAt(s, slot.fp, slot.start)));
      var key :| key in s.snapshots && TableOfKey(s, key) == t && slot.fp == key.fp;
      assert Claims(s, t, key, slot.start, u);
    }
    if Covered(s, t, u) {
      var key, start :| Claims(s, t, key, start, u);
      var slot := Slot(key.fp, start);
      assert slot in CoveredSlots(s, t);
      assert u in Moments(Interval(slot.start, EndAt(s, slot.fp, slot.start)));
    }
  }

  function TableSet(s: State, extra: set<J.Table>): set<J.Table> {
    (set key | key in s.snapshots :: TableOfKey(s, key)) + extra
  }

  ghost function Least(s: State, extra: set<J.Table>, writer: Fp): Tables {
    map t | t in TableSet(s, extra) :: map u | u in CoveredMoments(s, t) :: writer
  }

  ghost function LeastSys(s: State, e: Event): Sys {
    var writer := if e.Batch? || e.BatchFails? then e.fp else Foreign(0);
    var extra := if e.Batch? || e.BatchFails? then {J.Table(e.name, e.physFp)} else {};
    Sys(s, Least(s, extra, writer),
        (set key | key in s.snapshots :: (TableOfKey(s, key), key.fp))
        + (set t | t in TableSet(s, extra) :: (t, writer)))
  }

  lemma LeastHolds(s: State, extra: set<J.Table>, writer: Fp, t: J.Table, u: int)
    ensures Holds(Least(s, extra, writer), t, u) <==> Covered(s, t, u)
    ensures Holds(Least(s, extra, writer), t, u) ==> t in TableSet(s, extra) && Least(s, extra, writer)[t][u] == writer
  {
    CoveredMomentsExact(s, t, u);
    if Covered(s, t, u) {
      var key, start :| Claims(s, t, key, start, u);
      assert t in TableSet(s, extra);
    }
  }

  lemma LeastInv(s: State, e: Event)
    requires Owned(s) && Ready(e)
    ensures Inv(LeastSys(s, e)) && Enabled(LeastSys(s, e), e) && LeastSys(s, e).store == s
    ensures forall t, u | Holds(LeastSys(s, e).tables, t, u) :: Covered(s, t, u)
  {
    hide Covered, Owned, Least;
    var writer := if e.Batch? || e.BatchFails? then e.fp else Foreign(0);
    var extra := if e.Batch? || e.BatchFails? then {J.Table(e.name, e.physFp)} else {};
    var l := LeastSys(s, e);
    assert l.tables.Keys == TableSet(s, extra) by { LeastKeys(s, extra, writer); }
    forall t, u ensures Holds(l.tables, t, u) <==> Covered(s, t, u) {
      LeastHolds(s, extra, writer, t, u);
    }
    forall t, u | Holds(l.tables, t, u) ensures (t, l.tables[t][u]) in l.sharers {
      LeastHolds(s, extra, writer, t, u);
    }
    forall key | key in s.snapshots ensures (TableOfKey(s, key), key.fp) in l.sharers {
    }
    if e.Batch? || e.BatchFails? {
      var t := J.Table(e.name, e.physFp);
      assert t in TableSet(s, extra);
      assert (t, writer) in l.sharers;
    }
  }

  lemma LeastKeys(s: State, extra: set<J.Table>, writer: Fp)
    ensures Least(s, extra, writer).Keys == TableSet(s, extra)
  {
  }

  lemma OnlyLoadsAdd(s: Sys, e: Event, t: J.Table, u: int)
    requires Enabled(s, e) && !e.BatchFails?
    ensures Holds(TablesAfter(s, e), t, u) ==> Holds(s.tables, t, u) || LoadsAt(e, t, u)
  {
    hide Covered, Loaded, Swept, Within;
    match e
    case Batch(name, fp, physFp, range, _) => LoadedHolds(s.tables, J.Table(name, physFp), fp, range, t, u);
    case Sweep(name, fp, deadline) => SweptHolds(s, name, fp, deadline, t, u);
    case _ =>
  }

  /** No step of these kinds marks anything done. */
  lemma OthersEarned(s: State, e: Event)
    requires Owned(s) && Ready(e) && !e.Prepare? && !e.Break? && !e.Batch?
    ensures Earned(s, e)
  {
    var after := StoreAfter(s, e);
    forall fp, start | IsDone(after, fp, start)
      ensures IsDone(s, fp, start) && EndAt(after, fp, start) == EndAt(s, fp, start) && HasRecord(after, fp)
    {
      OthersMarkNothing(s, e, fp, start);
    }
    forall t, u | Covered(after, t, u) ensures Covered(s, t, u) {
      var key, start :| Claims(after, t, key, start, u);
      RecordsAfter(s, e, key);
      assert Claims(s, t, key, start, u);
    }
  }

  lemma OthersMarkNothing(s: State, e: Event, fp: Fp, start: int)
    requires Owned(s) && Ready(e) && !e.Prepare? && !e.Break? && !e.Batch?
    requires IsDone(StoreAfter(s, e), fp, start)
    ensures IsDone(s, fp, start) && EndAt(StoreAfter(s, e), fp, start) == EndAt(s, fp, start)
    ensures HasRecord(StoreAfter(s, e), fp)
  {
    hide Chop;
    var after := StoreAfter(s, e);
    if e.BatchFails? { MarkRowsAt(s.ledger, e.fp, Chop(e.range, e.step), Status.Failed, Slot(fp, start)); }
    assert IsDone(s, fp, start);
    var k :| k in s.snapshots && k.fp == fp;
    assert k in after.snapshots;
  }

  /** A failed batch leaves none of its intervals done, and every other as it was. */
  lemma FailedBatchUnmarks(s: State, e: Event, fp: Fp, start: int)
    requires Ready(e) && e.BatchFails?
    ensures IsDone(StoreAfter(s, e), fp, start) <==>
              IsDone(s, fp, start) && !(fp == e.fp && start in Starts(Chop(e.range, e.step)))
    ensures StoreAfter(s, e).snapshots == s.snapshots
  {
    hide Chop;
    MarkRowsAt(s.ledger, e.fp, Chop(e.range, e.step), Status.Failed, Slot(fp, start));
  }

  /**
   * A pass over one row takes a table away exactly if the row is doomed, the table is its own
   * and no surviving row has its physical fingerprint; no surviving row uses that table.
   */
  lemma SweepExact(s: Sys, name: Name, fp: Fp, deadline: int, t: J.Table)
    ensures var after := Next(s, Sweep(name, fp, deadline));
            && (t in s.tables && t !in after.tables <==>
                  && t in s.tables && Doomed(s.store, SnapKey(name, fp), deadline)
                  && t == J.Table(name, s.store.snapshots[SnapKey(name, fp)].physFp)
                  && forall k | k in after.store.snapshots :: after.store.snapshots[k].physFp != t.fp)
            && (t in after.tables ==> t in s.tables && after.tables[t] == s.tables[t])
            && (t in s.tables && t !in after.tables ==> !J.Used(after.store, t))
  {
    hide Mark, DropLedger;
    var after := Next(s, Sweep(name, fp, deadline));
    if t in s.tables && t !in after.tables && J.Used(after.store, t) {
      J.UsedSurvives(after.store, t);
    }
    assert t.fp in J.InUse(after.store) <==>
             exists k :: k in after.store.snapshots && after.store.snapshots[k].physFp == t.fp;
  }

  /** A step is harmless exactly when it earns what it adds to the ledger. */
  lemma HarmlessIsEarned(s: State, e: Event)
    requires Owned(s) && Ready(e)
    ensures Harmless(s, e) <==> Earned(s, e)
  {
    hide Covered, StoreAfter, Enabled, TablesAfter, LeastSys;
    if Earned(s, e) {
      forall tables, sharers | Inv(Sys(s, tables, sharers)) && Enabled(Sys(s, tables, sharers), e)
        ensures Inv(Next(Sys(s, tables, sharers), e))
      {
        EarnedKeeps(Sys(s, tables, sharers), e);
      }
    }
    if e.BatchFails? {
      OthersEarned(s, e);
    } else if Harmless(s, e) {
      LeastInv(s, e);
      var l := LeastSys(s, e);
      assert l == Sys(s, l.tables, l.sharers);
      assert Inv(Next(l, e));
      forall t, u | Covered(StoreAfter(s, e), t, u) ensures Covered(s, t, u) || LoadsAt(e, t, u) {
        assert Holds(Next(l, e).tables, t, u);
        OnlyLoadsAdd(l, e, t, u);
      }
    }
  }

  // ----- the inheriting steps -----

  lemma InheritsElsewhere(s: State, a: Action, fp: Fp, start: int)
    requires fp != a.fp
    ensures IsDone(Inheriting(s, a), fp, start) <==> IsDone(s, fp, start)
    ensures IsDone(s, fp, start) ==> EndAt(Inheriting(s, a), fp, start) == EndAt(s, fp, start)
  {
    hide InheritedIntervals;
    MarkRowsAt(s.ledger, a.fp, InheritedIntervals(s, a.reusedFrom), Done, Slot(fp, start));
  }

  /** Inheriting adds the done starts of the other version and undoes nothing. */
  lemma InheritedDone(s: State, a: Action, start: int)
    ensures IsDone(Inheriting(s, a), a.fp, start) <==>
              IsDone(s, a.fp, start) || (a.reusedFrom.Some? && IsDone(s, a.reusedFrom.value, start))
    ensures IsDone(Inheriting(s, a), a.fp, start) ==>
              EndAt(Inheriting(s, a), a.fp, start)
              == if a.reusedFrom.Some? && IsDone(s, a.reusedFrom.value, start)
                 then EndAt(s, a.reusedFrom.value, start) else EndAt(s, a.fp, start)
  {
    hide MarkRows;
    MarkRowsAt(s.ledger, a.fp, InheritedIntervals(s, a.reusedFrom), Done, Slot(a.fp, start));
    if a.reusedFrom.Some? {
      DoneOfMembers(s, a.reusedFrom.value, start);
      var done := DoneOf(s, a.reusedFrom.value);
      if start in done {
        assert Interval(start, done[start]) in ByStart(done);
      }
    }
  }

  /** What the ledger covers after an inheritance, table by table. */
  lemma CoveredAfter(s: State, a: Action, after: State, t: J.Table, u: int)
    requires after.ledger == Inheriting(s, a).ledger
    requires forall k | k in s.snapshots :: k in after.snapshots && TableOfKey(after, k) == TableOfKey(s, k)
    requires forall k | k in after.snapshots && k !in s.snapshots :: k == SnapKey(a.name, a.fp)
    ensures Covered(after, t, u) ==>
              Covered(s, t, u)
              || (Comes(s, a, u) && exists k :: k in after.snapshots && k.fp == a.fp && TableOfKey(after, k) == t)
    ensures forall k | k in after.snapshots && k.fp == a.fp && TableOfKey(after, k) == t ::
              Comes(s, a, u) ==> Covered(after, t, u)
  {
    hide Inheriting;
    if Covered(after, t, u) {
      var key, start :| Claims(after, t, key, start, u);
      if key.fp != a.fp {
        InheritsElsewhere(s, a, key.fp, start);
        assert Claims(s, t, key, start, u);
      } else {
        assert DoneAt(Inheriting(s, a), a.fp, start, u);
      }
    }
    forall k | k in after.snapshots && k.fp == a.fp && TableOfKey(after, k) == t && Comes(s, a, u)
      ensures Covered(after, t, u)
    {
      var start :| DoneAt(Inheriting(s, a), a.fp, start, u);
      assert Claims(after, t, k, start, u);
    }
  }

  lemma OwnedAfter(s: State, a: Action, after: State)
    requires Owned(s) && after.ledger == Inheriting(s, a).ledger && s.snapshots.Keys <= after.snapshots.Keys
    ensures Owned(after) <==> HasRecord(after, a.fp) || forall start :: !IsDone(Inheriting(s, a), a.fp, start)
  {
    hide Inheriting;
    forall fp, start | fp != a.fp && IsDone(after, fp, start) ensures HasRecord(after, fp) {
      InheritsElsewhere(s, a, fp, start);
      var k :| k in s.snapshots && k.fp == fp;
      assert k in after.snapshots;
    }
    forall start ensures IsDone(after, a.fp, start) <==> IsDone(Inheriting(s, a), a.fp, start) {
    }
  }

  lemma BreakExact(s: State, a: Action, created: bool)
    requires Owned(s)
    ensures Harmless(s, Break(a, created)) <==> Careful(s, Break(a, created))
  {
    hide Covered, Comes, Inheriting, Harmless;
    var e := Break(a, created);
    HarmlessIsEarned(s, e);
    var after := StoreAfter(s, e);
    InheritingKeeps(s, a);
    OwnedAfter(s, a, after);
    assert HasRecord(after, a.fp) <==> HasRecord(s, a.fp);
    forall t, u ensures Covered(after, t, u) ==>
        Covered(s, t, u)
        || (Comes(s, a, u) && exists k :: k in after.snapshots && k.fp == a.fp && TableOfKey(after, k) == t)
    {
      CoveredAfter(s, a, after, t, u);
    }
    if Earned(s, e) {
      forall k, u | k in s.snapshots && k.fp == a.fp && Comes(s, a, u) ensures Covered(s, TableOfKey(s, k), u) {
        CoveredAfter(s, a, after, TableOfKey(s, k), u);
      }
    }
  }

  lemma InheritingKeeps(s: State, a: Action)
    ensures Inheriting(s, a).snapshots == s.snapshots
  {
  }

  /**
   * Preparing an action is harmless, whatever tables the ledger was sound over, exactly when
   * what it inherits is covered already over all physics recorded under its fingerprint.
   */
  lemma PrepareExact(s: State, a: Action, m: Model, now: int)
    requires Owned(s) && a.name == m.name
    ensures Harmless(s, Prepare(a, m, now)) <==> Careful(s, Prepare(a, m, now))
  {
    hide Covered, Comes, Inheriting, Harmless;
    var e, own := Prepare(a, m, now), SnapKey(a.name, a.fp);
    HarmlessIsEarned(s, e);
    var after := StoreAfter(s, e);
    InheritingKeeps(s, a);
    OwnedAfter(s, a, after);
    assert own in after.snapshots && TableOfKey(after, own) == OwnTable(s, a);
    forall t, u ensures Covered(after, t, u) ==>
        Covered(s, t, u)
        || (Comes(s, a, u) && exists k :: k in after.snapshots && k.fp == a.fp && TableOfKey(after, k) == t)
    {
      CoveredAfter(s, a, after, t, u);
    }
    if Earned(s, e) {
      forall k, u | k in after.snapshots && k.fp == a.fp && Comes(s, a, u)
        ensures Covered(s, TableOfKey(after, k), u)
      {
        CoveredAfter(s, a, after, TableOfKey(after, k), u);
      }
      forall k, u | k in s.snapshots && k.fp == a.fp && Comes(s, a, u) ensures Covered(s, TableOfKey(s, k), u) {
        assert k in after.snapshots;
      }
      assert Backed(s, a, OwnTable(s, a));
    }
    if Careful(s, e) {
      forall t, u | Covered(after, t, u) ensures Covered(s, t, u) {
        forall k | k in after.snapshots && k.fp == a.fp && TableOfKey(after, k) == t ensures Backed(s, a, t) {
          assert k != own ==> k in s.snapshots;
        }
      }
    }
  }

  // ----- batches -----

  /** Chopping repeats no start. */
  lemma {:induction false} ChopStarts(range: Interval, step: int, x: Interval, y: Interval)
    requires step > 0 && x in Chop(range, step) && y in Chop(range, step) && x.start == y.start
    ensures x == y
    decreases range.end - range.start
  {
    var rest := Interval(range.start + step, range.end);
    BatchLength(rest, step);
    if x in Chop(rest, step) && y in Chop(rest, step) {
      ChopStarts(rest, step, x, y);
    }
  }

  lemma ChopNonEmpty(range: Interval, step: int)
    requires step > 0
    ensures Chop(range, step) == [] <==> range.start >= range.end
  {
  }

  lemma BatchDone(s: State, fp: Fp, range: Interval, step: int, u: int)
    requires step > 0
    ensures var after := Marked(s, fp, Chop(range, step), Done);
            && (Within(range, u) ==> exists start :: DoneAt(after, fp, start, u))
            && (forall start | DoneAt(after, fp, start, u) :: Within(range, u) || DoneAt(s, fp, start, u))
  {
    hide Chop, MarkRows;
    var pieces, after := Chop(range, step), Marked(s, fp, Chop(range, step), Done);
    B.ChopCovers(range, step, u);
    if Within(range, u) {
      var b :| b in pieces && Within(b, u);
      MarkRowsAt(s.ledger, fp, pieces, Done, Slot(fp, b.start));
      assert b.start in Starts(pieces);
      ChopStarts(range, step, b, Interval(b.start, EndAt(after, fp, b.start)));
      assert DoneAt(after, fp, b.start, u);
    }
    forall start | DoneAt(after, fp, start, u) ensures Within(range, u) || DoneAt(s, fp, start, u) {
      MarkRowsAt(s.ledger, fp, pieces, Done, Slot(fp, start));
      var b := Interval(start, EndAt(after, fp, start));
      assert b in pieces ==> Within(b, u);
    }
  }

  lemma MarkedElsewhere(s: State, f: Fp, marks: seq<Interval>, fp: Fp, start: int)
    requires fp != f
    ensures IsDone(Marked(s, f, marks, Done), fp, start) <==> IsDone(s, fp, start)
    ensures IsDone(s, fp, start) ==> EndAt(Marked(s, f, marks, Done), fp, start) == EndAt(s, fp, start)
  {
    MarkRowsAt(s.ledger, f, marks, Done, Slot(fp, start));
  }

  lemma CoveredAfterBatch(s: State, fp: Fp, range: Interval, step: int, t: J.Table, u: int)
    requires step > 0
    ensures var after := Marked(s, fp, Chop(range, step), Done);
            && (Covered(after, t, u) ==>
                  || Covered(s, t, u)
                  || (Within(range, u) && exists k :: k in s.snapshots && k.fp == fp && TableOfKey(s, k) == t))
            && (forall k | k in s.snapshots && k.fp == fp && TableOfKey(s, k) == t ::
                  Within(range, u) ==> Covered(after, t, u))
  {
    hide Marked, Chop, IsDone;
    var after := Marked(s, fp, Chop(range, step), Done);
    SnapshotsKept(s, fp, Chop(range, step), Done);
    BatchDone(s, fp, range, step, u);
    if Covered(after, t, u) {
      var key, start :| Claims(after, t, key, start, u);
      if key.fp != fp {
        MarkedElsewhere(s, fp, Chop(range, step), key.fp, start);
        assert Claims(s, t, key, start, u);
      } else {
        assert DoneAt(after, fp, start, u);
        assert DoneAt(s, fp, start, u) ==> Claims(s, t, key, start, u);
      }
    }
    forall k | k in s.snapshots && k.fp == fp && TableOfKey(s, k) == t && Within(range, u)
      ensures Covered(after, t, u)
    {
      var start :| DoneAt(after, fp, start, u);
      assert Claims(after, t, k, start, u);
    }
  }

  lemma OwnedAfterBatch(s: State, fp: Fp, range: Interval, step: int)
    requires Owned(s) && step > 0
    ensures Owned(Marked(s, fp, Chop(range, step), Done)) <==> range.start >= range.end || HasRecord(s, fp)
  {
    hide Marked, Chop, IsDone;
    var pieces, after := Chop(range, step), Marked(s, fp, Chop(range, step), Done);
    SnapshotsKept(s, fp, pieces, Done);
    ChopNonEmpty(range, step);
    if pieces != [] {
      assert pieces[0] in pieces;
      assert pieces[0].start in Starts(pieces);
      MarkedDone(s, fp, pieces, fp, pieces[0].start);
    }
    forall f, start | IsDone(after, f, start) ensures HasRecord(after, f) || (f == fp && pieces != []) {
      MarkedDone(s, fp, pieces, f, start);
      if IsDone(s, f, start) {
        var k :| k in s.snapshots && k.fp == f;
        assert k in after.snapshots;
      }
    }
    if HasRecord(s, fp) {
      var k :| k in s.snapshots && k.fp == fp;
      assert k in after.snapshots;
    }
    if HasRecord(after, fp) {
      var k :| k in after.snapshots && k.fp == fp;
      assert k in s.snapshots;
    }
  }

  /** A batch is harmless exactly when every row under its fingerprint is over its table or has the range. */
  lemma BatchExact(s: State, name: Name, fp: Fp, physFp: Fp, range: Interval, step: int)
    requires Owned(s) && step > 0
    ensures Harmless(s, Batch(name, fp, physFp, range, step)) <==> Careful(s, Batch(name, fp, physFp, range, step))
  {
    hide Covered, Harmless, Marked, Within;
    var e, x := Batch(name, fp, physFp, range, step), J.Table(name, physFp);
    HarmlessIsEarned(s, e);
    OwnedAfterBatch(s, fp, range, step);
    var after := StoreAfter(s, e);
    NonEmptyRange(range);
    if Earned(s, e) {
      forall k | k in s.snapshots && k.fp == fp ensures Suits(s, e, k) {
        forall u | Within(range, u) ensures Covered(s, TableOfKey(s, k), u) || TableOfKey(s, k) == x {
          CoveredAfterBatch(s, fp, range, step, TableOfKey(s, k), u);
        }
      }
    }
    if Careful(s, e) {
      forall t, u | Covered(after, t, u) ensures Covered(s, t, u) || LoadsAt(e, t, u) {
        CoveredAfterBatch(s, fp, range, step, t, u);
        forall k | k in s.snapshots && k.fp == fp && TableOfKey(s, k) == t && Within(range, u)
          ensures Covered(s, t, u) || LoadsAt(e, t, u)
        {
          assert Suits(s, e, k);
        }
      }
    }
  }

  lemma NonEmptyRange(range: Interval)
    ensures forall u | Within(range, u) :: range.start < range.end
  {
  }

  /** The condition on the store is exact for every kind of step. */
  lemma CarefulExact(s: State, e: Event)
    requires Owned(s) && Ready(e)
    ensures Harmless(s, e) <==> Careful(s, e)
  {
    hide Harmless, Owned, Earned;
    match e
    case Prepare(a, m, now) => PrepareExact(s, a, m, now);
    case Break(a, created) => BreakExact(s, a, created);
    case Batch(name, fp, physFp, range, step) => BatchExact(s, name, fp, physFp, range, step);
    case _ =>
      OthersEarned(s, e);
      HarmlessIsEarned(s, e);
  }

  // ----- whole histories -----

  ghost predicate Runs(s: Sys, es: seq<Event>)
    decreases |es|
  {
    es == [] || (Enabled(s, es[0]) && Runs(Next(s, es[0]), es[1..]))
  }

  ghost function Run(s: Sys, es: seq<Event>): Sys
    requires Runs(s, es)
    decreases |es|
  {
    if es == [] then s else Run(Next(s, es[0]), es[1..])
  }

  ghost predicate CarefulRun(s: Sys, es: seq<Event>)
    requires Runs(s, es)
    decreases |es|
  {
    es == [] || (Careful(s.store, es[0]) && CarefulRun(Next(s, es[0]), es[1..]))
  }

  lemma StepKeeps(s: Sys, e: Event)
    requires Inv(s) && Enabled(s, e) && Careful(s.store, e)
    ensures Inv(Next(s, e))
  {
    hide Sound, SharedOnly, Careful, Next;
    CarefulExact(s.store, e);
    assert s == Sys(s.store, s.tables, s.sharers);
  }

  lemma {:induction false} InvRun(s: Sys, es: seq<Event>)
    requires Inv(s) && Runs(s, es) && CarefulRun(s, es)
    ensures Inv(Run(s, es))
    decreases |es|
  {
    hide Inv, Next, Careful;
    if es != [] {
      assert Enabled(s, es[0]);
      StepKeeps(s, es[0]);
      InvRun(Next(s, es[0]), es[1..]);
    }
  }

  lemma StartInv()
    ensures Inv(START)
  {
  }

  /**
   * Over every history of careful steps, of stale plans and swept versions as well: each moment
   * of an interval marked done for a live version was loaded into that version's physics, by a
   * version prepared over the same physics.
   */
  lemma LedgerSound(es: seq<Event>, key: SnapKey, start: int, u: int)
    requires Runs(START, es) && CarefulRun(START, es)
    requires var s := Run(START, es).store;
             key in s.snapshots && IsDone(s, key.fp, start) && start <= u < EndAt(s, key.fp, start)
    ensures var s := Run(START, es);
            var t := TableOfKey(s.store, key);
            Holds(s.tables, t, u) && (t, s.tables[t][u]) in s.sharers
  {
    hide Run, Runs, CarefulRun;
    StartInv();
    InvRun(START, es);
    var s := Run(START, es);
    assert Claims(s.store, TableOfKey(s.store, key), key, start, u);
  }

  // ----- what the condition comes to -----

  /** What the planner guarantees about an action over the store it read. */
  ghost predicate Describes(a: Action, s: State) {
    var existing := SnapshotOf(s, a.name, a.fp);
    && (a.reusedFrom.Some? ==> SnapshotOf(s, a.name, a.reusedFrom.value).Some?)
    && a.physFp ==
       if existing.Some? then existing.value.physFp
       else if a.reusedFrom.Some? then SnapshotOf(s, a.name, a.reusedFrom.value).value.physFp
       else a.fp
  }

  /** Every action of a plan describes the store the plan was made from. */
  lemma PlansDescribe(r: Request, canon: Canon, acc: Acc, k: nat)
    requires PlanFacts.Planned(r, canon, acc) && k < |r.order|
    ensures k < |acc.actions| && Describes(acc.actions[k], r.store)
  {
    hide PlanUpTo, Overridden, OwnChange, OldAst, BackfillFor;
    PlanLocal(r, canon, acc, k);
  }

  /** No other model's version has this fingerprint. */
  ghost predicate OwnFingerprint(s: State, name: Name, fp: Fp) {
    forall k | k in s.snapshots && k.fp == fp :: k.name == name
  }

  /** The version inherited from has this moment done. */
  ghost predicate Offered(s: State, a: Action, u: int) {
    a.reusedFrom.Some? && exists start :: DoneAt(s, a.reusedFrom.value, start, u)
  }

  lemma ComesFrom(s: State, a: Action, u: int)
    ensures Comes(s, a, u) ==> Offered(s, a, u) || exists start :: DoneAt(s, a.fp, start, u)
    ensures Offered(s, a, u) ==> Comes(s, a, u)
  {
    hide Inheriting;
    if Comes(s, a, u) {
      var start :| DoneAt(Inheriting(s, a), a.fp, start, u);
      InheritedDone(s, a, start);
      assert DoneAt(s, a.fp, start, u) || (a.reusedFrom.Some? && DoneAt(s, a.reusedFrom.value, start, u));
    }
    if Offered(s, a, u) {
      var start :| DoneAt(s, a.reusedFrom.value, start, u);
      InheritedDone(s, a, start);
      assert DoneAt(Inheriting(s, a), a.fp, start, u);
    }
  }

  /** With a row of its own, a version may inherit exactly what is covered over its own physics. */
  lemma OwnRowExact(s: State, a: Action, m: Model, now: int, created: bool)
    requires Owned(s) && OwnFingerprint(s, a.name, a.fp) && SnapKey(a.name, a.fp) in s.snapshots && a.name == m.name
    ensures var t := TableOfKey(s, SnapKey(a.name, a.fp));
            && (Careful(s, Prepare(a, m, now)) <==> forall u | Offered(s, a, u) :: Covered(s, t, u))
            && (Careful(s, Break(a, created)) <==> Careful(s, Prepare(a, m, now)))
  {
    hide Comes, Offered, Covered, Inheriting;
    var own := SnapKey(a.name, a.fp);
    var t := TableOfKey(s, own);
    assert forall k | k in s.snapshots && k.fp == a.fp :: k == own;
    assert Careful(s, Prepare(a, m, now)) <==> Backed(s, a, t);
    forall u ensures Comes(s, a, u) ==> Offered(s, a, u) || Covered(s, t, u) {
      ComesFrom(s, a, u);
      OwnCovered(s, own, u);
    }
    forall u | Offered(s, a, u) ensures Comes(s, a, u) { ComesFrom(s, a, u); }
  }

  lemma OwnCovered(s: State, own: SnapKey, u: int)
    requires own in s.snapshots
    ensures (exists start :: DoneAt(s, own.fp, start, u)) ==> Covered(s, TableOfKey(s, own), u)
  {
    if start :| DoneAt(s, own.fp, start, u) {
      assert Claims(s, TableOfKey(s, own), own, start, u);
    }
  }

  /** It may if it shares the other version's physics, or has each interval as long itself. */
  lemma OwnRowCareful(s: State, a: Action, m: Model, now: int)
    requires Owned(s) && OwnFingerprint(s, a.name, a.fp) && SnapKey(a.name, a.fp) in s.snapshots && a.name == m.name
    requires a.reusedFrom.Some? && SnapKey(a.name, a.reusedFrom.value) in s.snapshots
    requires || TableOfKey(s, SnapKey(a.name, a.fp)) == TableOfKey(s, SnapKey(a.name, a.reusedFrom.value))
             || forall start | IsDone(s, a.reusedFrom.value, start) ::
                  IsDone(s, a.fp, start) && EndAt(s, a.reusedFrom.value, start) <= EndAt(s, a.fp, start)
    ensures Careful(s, Prepare(a, m, now))
  {
    hide Comes, Covered, Owned, Careful;
    OwnRowExact(s, a, m, now, true);
    var own, other := SnapKey(a.name, a.fp), SnapKey(a.name, a.reusedFrom.value);
    forall u | Offered(s, a, u) ensures Covered(s, TableOfKey(s, own), u) {
      var start :| DoneAt(s, other.fp, start, u);
      OwnCovered(s, other, u);
      assert TableOfKey(s, own) != TableOfKey(s, other) ==> DoneAt(s, own.fp, start, u);
      OwnCovered(s, own, u);
    }
  }

  /** Without a row a described action may always inherit; failing before the record, only nothing. */
  lemma FreshRowExact(s: State, a: Action, m: Model, now: int, created: bool)
    requires Owned(s) && OwnFingerprint(s, a.name, a.fp) && SnapKey(a.name, a.fp) !in s.snapshots && a.name == m.name
    requires Describes(a, s)
    ensures Careful(s, Prepare(a, m, now))
    ensures Careful(s, Break(a, created)) <==>
              a.reusedFrom.None? || forall start :: !IsDone(s, a.reusedFrom.value, start)
  {
    hide Covered, Inheriting;
    assert forall k | k in s.snapshots :: k.fp != a.fp;
    assert !HasRecord(s, a.fp);
    assert forall start :: !IsDone(s, a.fp, start);
    forall u | Comes(s, a, u) ensures Covered(s, OwnTable(s, a), u) {
      ComesFrom(s, a, u);
      OwnCovered(s, SnapKey(a.name, a.reusedFrom.value), u);
    }
    forall start ensures IsDone(Inheriting(s, a), a.fp, start) <==>
                           a.reusedFrom.Some? && IsDone(s, a.reusedFrom.value, start)
    {
      InheritedDone(s, a, start);
    }
  }

  // ----- two names under one fingerprint -----

  ghost predicate NamesApart(s: State) {
    forall k, l | k in s.snapshots && l in s.snapshots && k.fp == l.fp :: k == l
  }

  lemma Uncovered(s: State, t: J.Table) returns (u: int)
    ensures !Covered(s, t, u)
  {
    var moments := CoveredMoments(s, t);
    u := if moments == {} then 0 else SetMin(moments) - 1;
    CoveredMomentsExact(s, t, u);
  }

  /**
   * A batch over its own row's physics is harmless, whatever its range, exactly when no other
   * model's version has the fingerprint.
   */
  lemma NamesApartExact(s: State, step: int)
    requires Owned(s) && step > 0
    ensures NamesApart(s) <==>
              forall k, range | k in s.snapshots ::
                Harmless(s, Batch(k.name, k.fp, s.snapshots[k].physFp, range, step))
  {
    hide Harmless, Covered, Owned;
    forall k, range | k in s.snapshots
      ensures Harmless(s, Batch(k.name, k.fp, s.snapshots[k].physFp, range, step))
              <==> Careful(s, Batch(k.name, k.fp, s.snapshots[k].physFp, range, step))
    {
      BatchExact(s, k.name, k.fp, s.snapshots[k].physFp, range, step);
    }
    if !NamesApart(s) {
      var k, l :| k in s.snapshots && l in s.snapshots && k.fp == l.fp && k != l;
      var u := Uncovered(s, TableOfKey(s, l));
      var range := Interval(u, u + 1);
      assert Within(range, u);
      assert !Suits(s, Batch(k.name, k.fp, s.snapshots[k].physFp, range, step), l);
      assert !Careful(s, Batch(k.name, k.fp, s.snapshots[k].physFp, range, step));
    }
  }

  // ----- the link to the executor -----

  /** The steps of one time-range action that succeeds. */
  function EventsOf(a: Action, m: Model, now: int, batches: seq<Interval>, step: int): seq<Event>
    decreases |batches|
  {
    if batches == [] then [Prepare(a, m, now)] else
      var n := |batches| - 1;
      EventsOf(a, m, now, batches[..n], step) + [Batch(a.name, a.fp, a.physFp, batches[n], step)]
  }

  lemma {:induction false} RunAppend(s: Sys, es: seq<Event>, e: Event)
    requires Runs(s, es) && Enabled(Run(s, es), e)
    ensures Runs(s, es + [e]) && Run(s, es + [e]) == Next(Run(s, es), e)
    decreases |es|
  {
    hide Next;
    if es == [] {
      assert ([] + [e])[1..] == [];
    } else {
      assert (es + [e])[1..] == es[1..] + [e];
      RunAppend(Next(s, es[0]), es[1..], e);
    }
  }

  /** The table an action prepared stays, for this version, through its batches. */
  ghost predicate Prepared(s: Sys, a: Action) {
    J.Table(a.name, a.physFp) in s.tables && (J.Table(a.name, a.physFp), a.fp) in s.sharers
  }

  lemma {:induction false} EventsRun(s: Sys, a: Action, m: Model, now: int, batches: seq<Interval>, step: int)
    requires step > 0 && a.name == m.name
    ensures var es := EventsOf(a, m, now, batches, step);
            && Runs(s, es) && Prepared(Run(s, es), a)
            && Run(s, es).store == MarkBatches(Next(s, Prepare(a, m, now)).store, a.fp, batches, step)
    decreases |batches|
  {
    hide Marked, Upserted;
    if batches == [] {
      var es := [Prepare(a, m, now)];
      assert es[1..] == [];
      assert Run(s, es) == Next(s, es[0]);
    } else {
      var n := |batches| - 1;
      EventsRun(s, a, m, now, batches[..n], step);
      RunAppend(s, EventsOf(a, m, now, batches[..n], step), Batch(a.name, a.fp, a.physFp, batches[n], step));
    }
  }

  /** An action the executor completes is its preparation and its batches, in that order. */
  lemma ApplyOneIsItsEvents(s: Sys, a: Action, m: Model, now: int)
    requires Runnable(a, m) && Working(a, m) && m.kind.TimeRange?
    ensures var es := EventsOf(a, m, now, BatchesOf(a, m), UnitMillis(m.kind.unit));
            Runs(s, es) && Run(s, es).store == ApplyOne(s.store, a, m, now)
  {
    hide Runs, Run;
    EventsRun(s, a, m, now, BatchesOf(a, m), UnitMillis(m.kind.unit));
  }
}
