/**
 * What applying a plan does to the state store (src/plan/executor.ts): which actions do
 * work, what they record, and the promotion. The engine side is in Backfills and Scd2.
 */
module Executor {
  import opened Common
  import opened Models
  import opened Intervals
  import opened Query
  import opened Fingerprints
  import opened Store
  import opened Planner

  /** The actions an apply runs: something to build, to catch up or to refresh. */
  predicate Working(a: Action, m: Model) {
    (a.build || a.backfill != [] || a.refresh) && !m.kind.External?
  }

  function SnapKindOf(kind: Kind): SnapKind {
    if kind.View? then ViewSnap else if kind.Embedded? then EmbeddedSnap else TableSnap
  }

  function SnapshotFor(a: Action, m: Model): NewSnapshot {
    NewSnapshot(a.name, a.fp, a.physFp, a.ast, SnapKindOf(m.kind), FINGERPRINT_VERSION)
  }

  /** The done rows of the version whose physics is inherited, as intervals to mark. */
  function InheritedIntervals(s: State, reusedFrom: Option<Fp>): seq<Interval> {
    if reusedFrom.None? then [] else ByStart(DoneOf(s, reusedFrom.value))
  }

  function MarkBatches(s: State, fp: Fp, batches: seq<Interval>, step: int): State
    requires step > 0
  {
    if batches == [] then s else
      var n := |batches| - 1;
      Marked(MarkBatches(s, fp, batches[..n], step), fp, Chop(batches[n], step), Done)
  }

  predicate Runnable(a: Action, m: Model) {
    a.name == m.name && (m.kind.TimeRange? ==> m.kind.batchSize >= 1)
  }

  /** One action that succeeds: inherit, record, then mark batch after batch. */
  function ApplyOne(s: State, a: Action, m: Model, now: int): State
    requires Runnable(a, m)
  {
    if !Working(a, m) then s
    else if !m.kind.TimeRange? then Upserted(s, SnapshotFor(a, m), now)
    else
      var inherited := Marked(s, a.fp, InheritedIntervals(s, a.reusedFrom), Done);
      var recorded := Upserted(inherited, SnapshotFor(a, m), now);
      MarkBatches(recorded, a.fp, BatchesOf(a, m), UnitMillis(m.kind.unit))
  }

  function BatchesOf(a: Action, m: Model): seq<Interval>
    requires Runnable(a, m) && m.kind.TimeRange?
  {
    ChopAll(a.backfill, BatchStep(m.kind.unit, m.kind.batchSize))
  }

  ghost predicate AllRunnable(models: map<Name, Model>, actions: seq<Action>) {
    forall i | 0 <= i < |actions| :: actions[i].name in models && Runnable(actions[i], models[actions[i].name])
  }

  function ApplyUpTo(s: State, models: map<Name, Model>, actions: seq<Action>, now: int, k: nat): State
    requires AllRunnable(models, actions) && k <= |actions|
  {
    if k == 0 then s else
      ApplyOne(ApplyUpTo(s, models, actions, now, k - 1), actions[k - 1], models[actions[k - 1].name], now)
  }

  function EntriesOf(models: map<Name, Model>, actions: seq<Action>): seq<Entry> {
    seq(|actions|, i requires 0 <= i < |actions| =>
      Entry(actions[i].name, actions[i].fp, actions[i].name in models && !models[actions[i].name].kind.External?))
  }

  /** A successful apply of the actions that are not removals, up to and including promotion. */
  ghost function Applied(s: State, env: Env, models: map<Name, Model>, actions: seq<Action>, now: int): State
    requires AllRunnable(models, actions)
  {
    Promoted(ApplyUpTo(s, models, actions, now, |actions|), env, EntriesOf(models, actions), now)
  }

  /** `backfill.flatMap(range => splitIntoBatches(range, ...))`. */
  method SplitBackfill(a: Action, m: Model) returns (batches: seq<Interval>)
    requires Runnable(a, m) && m.kind.TimeRange?
    ensures batches == BatchesOf(a, m)
    ensures batches == ChopAll(a.backfill, m.kind.batchSize * UnitMillis(m.kind.unit))
  {
    BatchStepExact(m.kind.unit, m.kind.batchSize);
    var step := BatchStep(m.kind.unit, m.kind.batchSize);
    batches := [];
    for i := 0 to |a.backfill|
      invariant batches == ChopAll(a.backfill[..i], step)
    {
      var split := SplitIntoBatches(a.backfill[i], m.kind.unit, m.kind.batchSize);
      ChopAllNext(a.backfill, i, step);
      batches := batches + split.value;
    }
    assert a.backfill[..|a.backfill|] == a.backfill;
  }

  lemma ChopAllNext(ranges: seq<Interval>, i: nat, step: int)
    requires step > 0 && i < |ranges|
    ensures ChopAll(ranges[..i + 1], step) == ChopAll(ranges[..i], step) + Chop(ranges[i], step)
  {
    assert ranges[..i + 1] == ranges[..i] + [ranges[i]];
    ChopAllConcat(ranges[..i], [ranges[i]], step);
  }

  lemma NothingMarked(s: State, fp: Fp)
    ensures Marked(s, fp, [], Done) == s
  {
  }

  method RunTimeRange(store: StateStore, a: Action, m: Model, now: int)
    requires Runnable(a, m) && Working(a, m) && m.kind.TimeRange?
    modifies store
    ensures store.View() == ApplyOne(old(store.View()), a, m, now)
  {
    hide Marked, Upserted, BatchesOf, DoneOf, ChopAll, Chop, ByStart, BatchStep;
    ghost var s0 := store.View();
    NothingMarked(s0, a.fp);
    if a.reusedFrom.Some? {
      var inherited := ByStart(DoneOf(store.View(), a.reusedFrom.value));
      store.MarkIntervals(a.fp, inherited, Done);
    }
    store.UpsertSnapshot(SnapshotFor(a, m), now);
    ghost var recorded := store.View();
    var batches := SplitBackfill(a, m);
    for i := 0 to |batches|
      invariant store.View() == MarkBatches(recorded, a.fp, batches[..i], UnitMillis(m.kind.unit))
    {
      assert batches[..i + 1][..i] == batches[..i];
      var marks := IntervalsWithin(batches[i], m.kind.unit);
      store.MarkIntervals(a.fp, marks, Done);
    }
    assert batches[..|batches|] == batches;
  }

  /** The apply itself, on the store: every working action in order, then one promotion. */
  method ApplyPlan(store: StateStore, env: Env, models: map<Name, Model>, actions: seq<Action>, now: int)
    returns (r: Result<(), PromoteError>)
    requires AllRunnable(models, actions)
    modifies store
    ensures store.View() == Applied(old(store.View()), env, models, actions, now)
    ensures r.Ok? <==>
              Promotable(ApplyUpTo(old(store.View()), models, actions, now, |actions|), EntriesOf(models, actions))
  {
    ghost var s0 := store.View();
    for i := 0 to |actions|
      invariant store.View() == ApplyUpTo(s0, models, actions, now, i)
    {
      var a := actions[i];
      var m := models[a.name];
      if Working(a, m) {
        if m.kind.TimeRange? {
          RunTimeRange(store, a, m, now);
        } else {
          store.UpsertSnapshot(SnapshotFor(a, m), now);
        }
      }
    }
    r := store.Promote(env, EntriesOf(models, actions), now);
  }
}
