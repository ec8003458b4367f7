/**
 * Restating a past range (src/plan/restate.ts): it clears ledger rows and leaves the
 * recomputation to the next plan. Bounds are milliseconds; `None` is text that is not
 * an ISO time.
 */
module Restates {
  import opened Common
  import opened Models
  import opened Intervals
  import opened Graph
  import opened Query
  import opened Fingerprints
  import opened Store
  import opened Planner
  import opened Fixpoint

  datatype RestateError =
    | UnknownModel
    | WrongKind
    | NotIso
    | NotAligned
    | EmptyRange
    | NotInEnvironment

  datatype Target = Target(name: Name, fp: Fp)

  predicate TimeRanged(graph: ModelGraph, name: Name) {
    name in graph.models && graph.models[name].kind.TimeRange?
  }

  /** The model itself, and its time-range descendants present in the environment. */
  ghost predicate Chosen(graph: ModelGraph, current: map<Name, Fp>, model: Name, name: Name) {
    name in current && (name == model
      || (Reaches(graph.dependents, model, name) && TimeRanged(graph, name)))
  }

  function ParseBound(bound: Option<int>, unit: Unit): Result<int, RestateError> {
    if bound.None? then Err(NotIso)
    else if FloorTo(unit, bound.value) != bound.value then Err(NotAligned)
    else Ok(bound.value)
  }

  /** A bound passes exactly if it is a time on the unit's grid. */
  lemma BoundExact(bound: Option<int>, unit: Unit)
    ensures ParseBound(bound, unit).Ok? <==> bound.Some? && bound.value % UnitMillis(unit) == 0
    ensures ParseBound(bound, unit).Ok? ==> ParseBound(bound, unit).value == bound.value
    ensures ParseBound(bound, unit).Err? ==> (ParseBound(bound, unit).error.NotIso? <==> bound.None?)
  {
  }

  predicate OnGrid(bound: Option<int>, unit: Unit) {
    bound.Some? && bound.value % UnitMillis(unit) == 0
  }

  ghost predicate Accepts(graph: ModelGraph, current: map<Name, Fp>, model: Name, from: Option<int>,
                          until: Option<int>)
  {
    && TimeRanged(graph, model)
    && OnGrid(from, graph.models[model].kind.unit) && OnGrid(until, graph.models[model].kind.unit)
    && from.value < until.value && model in current
  }

  function ClearAll(s: State, targets: seq<Target>, from: int, until: int): State {
    if targets == [] then s else
      var n := |targets| - 1;
      Cleared(ClearAll(s, targets[..n], from, until), targets[n].fp, from, until)
  }

  ghost predicate TargetsOf(graph: ModelGraph, current: map<Name, Fp>, model: Name, targets: seq<Target>) {
    && (forall i | 0 <= i < |targets| ::
          Chosen(graph, current, model, targets[i].name) && targets[i].fp == current[targets[i].name])
    && (forall x | x in graph.order && Chosen(graph, current, model, x) ::
          exists i :: 0 <= i < |targets| && targets[i] == Target(x, current[x]))
  }

  method PickTargets(graph: ModelGraph, current: map<Name, Fp>, model: Name) returns (targets: seq<Target>)
    requires model in current
    ensures TargetsOf(graph, current, model, targets)
  {
    var descendants := TransitiveDependents(graph, model);
    targets := [];
    for i := 0 to |graph.order|
      invariant forall k | 0 <= k < |targets| ::
                  Chosen(graph, current, model, targets[k].name) && targets[k].fp == current[targets[k].name]
      invariant forall j | 0 <= j < i && Chosen(graph, current, model, graph.order[j]) ::
                  exists k :: 0 <= k < |targets| && targets[k] == Target(graph.order[j], current[graph.order[j]])
    {
      var name := graph.order[i];
      ghost var before := targets;
      if name == model || (name in descendants && name in current && TimeRanged(graph, name)) {
        targets := targets + [Target(name, current[name])];
        assert targets[|before|] == Target(name, current[name]);
      }
      forall j | 0 <= j < i && Chosen(graph, current, model, graph.order[j])
        ensures exists k :: 0 <= k < |targets| && targets[k] == Target(graph.order[j], current[graph.order[j]])
      {
        var k :| 0 <= k < |before| && before[k] == Target(graph.order[j], current[graph.order[j]]);
        assert targets[k] == before[k];
      }
    }
  }

  /** Refuses what it cannot restate; otherwise clears the targets' rows, unless it is a dry run. */
  method Restate(store: StateStore, env: Env, graph: ModelGraph, model: Name, from: Option<int>, until: Option<int>,
                 dryRun: bool)
    returns (r: Result<seq<Target>, RestateError>)
    modifies store
    ensures r.Ok? <==> Accepts(graph, CurrentOf(old(store.View()), env), model, from, until)
    ensures r.Ok? ==> TargetsOf(graph, CurrentOf(old(store.View()), env), model, r.value)
    ensures store.View() ==
              if r.Ok? && !dryRun then ClearAll(old(store.View()), r.value, from.value, until.value)
              else old(store.View())
  {
    if model !in graph.models {
      return Err(UnknownModel);
    }
    if !graph.models[model].kind.TimeRange? {
      return Err(WrongKind);
    }
    var unit := graph.models[model].kind.unit;
    BoundExact(from, unit);
    BoundExact(until, unit);
    var fromMs := ParseBound(from, unit);
    if fromMs.Err? {
      return Err(fromMs.error);
    }
    var untilMs := ParseBound(until, unit);
    if untilMs.Err? {
      return Err(untilMs.error);
    }
    if fromMs.value >= untilMs.value {
      return Err(EmptyRange);
    }
    var current := CurrentOf(store.View(), env);
    if model !in current {
      return Err(NotInEnvironment);
    }
    var targets := PickTargets(graph, current, model);
    r := Ok(targets);
    if !dryRun {
      ghost var before := store.View();
      for i := 0 to |targets|
        invariant store.View() == ClearAll(before, targets[..i], fromMs.value, untilMs.value)
      {
        assert targets[..i + 1][..i] == targets[..i];
        store.ClearIntervals(targets[i].fp, fromMs.value, untilMs.value);
      }
      assert targets[..|targets|] == targets;
    }
  }

  // ----- what clearing does to the ledger -----

  lemma {:induction false} ClearedRows(s: State, targets: seq<Target>, from: int, until: int, slot: Slot)
    ensures slot in ClearAll(s, targets, from, until).ledger <==>
              slot in s.ledger
              && !(from <= slot.start < until && exists i :: 0 <= i < |targets| && targets[i].fp == slot.fp)
    ensures slot in ClearAll(s, targets, from, until).ledger ==>
              ClearAll(s, targets, from, until).ledger[slot] == s.ledger[slot]
    ensures ClearAll(s, targets, from, until).envs == s.envs
    ensures ClearAll(s, targets, from, until).snapshots == s.snapshots
  {
    if targets != [] {
      var n := |targets| - 1;
      ClearedRows(s, targets[..n], from, until, slot);
      if i :| 0 <= i < n && targets[..n][i].fp == slot.fp {
        assert targets[i].fp == slot.fp;
      }
      if i :| 0 <= i < n && targets[i].fp == slot.fp {
        assert targets[..n][i].fp == slot.fp;
      }
    }
  }

  // ----- what the next plan makes of it -----

  /** The starts the planner will recompute for one model. */
  function Recomputed(r: Request, x: Name): seq<Interval>
    requires x in r.models && x in r.versions && r.models[x].kind.TimeRange?
  {
    ChopAll(BackfillFor(r, x, None), UnitMillis(r.models[x].kind.unit))
  }

  lemma NotDoneIsRecomputed(r: Request, x: Name, iv: Interval)
    requires x in r.models && x in r.versions && r.models[x].kind.TimeRange?
    requires GrainLedger(DoneOf(r.store, r.versions[x].fp), UnitMillis(r.models[x].kind.unit))
    requires iv in WantedOf(r, r.models[x]) && !IsDone(r.store, r.versions[x].fp, iv.start)
    ensures iv in Recomputed(r, x)
  {
    var kind, fp := r.models[x].kind, r.versions[x].fp;
    var done := DoneOf(r.store, fp);
    assert DoneFor(r.store, fp, None) == done;
    DoneOfMembers(r.store, fp, iv.start);
    WantedMembers(kind.unit, kind.start, r.now);
    ToRecomputeGrains(WantedOf(r, r.models[x]), done, kind.lookback, UnitMillis(kind.unit));
    MergeOntoTiles([], ToRecompute(WantedOf(r, r.models[x]), done, kind.lookback), UnitMillis(kind.unit));
  }

  lemma GrainLedgerShrinks(s: State, targets: seq<Target>, from: int, until: int, fp: Fp, step: int)
    requires step > 0 && GrainLedger(DoneOf(s, fp), step)
    ensures GrainLedger(DoneOf(ClearAll(s, targets, from, until), fp), step)
  {
    var t := ClearAll(s, targets, from, until);
    forall start | start in DoneOf(t, fp) ensures IsGrain(Interval(start, DoneOf(t, fp)[start]), step) {
      DoneOfMembers(t, fp, start);
      DoneOfMembers(s, fp, start);
      ClearedRows(s, targets, from, until, Slot(fp, start));
    }
  }

  /** Some restated version has this fingerprint: the model's own, or a time-range descendant's. */
  ghost predicate Restated(graph: ModelGraph, current: map<Name, Fp>, model: Name, fp: Fp) {
    exists x :: x in current && current[x] == fp
                && (x == model
                    || (Reaches(graph.dependents, model, x) && x in graph.models && graph.models[x].kind.TimeRange?))
  }

  /**
   * After the clear, planning the unchanged project recomputes every wanted interval of
   * every target that starts in the range; the rows of other versions, and the targets' own
   * outside the range, have not moved.
   */
  lemma RestateCovers(r: Request, graph: ModelGraph, model: Name, targets: seq<Target>, from: int, until: int, s: State,
                      x: Name)
    requires TargetsOf(graph, r.current, model, targets) && x in r.current && x in graph.order
    requires x == model || (Reaches(graph.dependents, model, x) && x in graph.models && graph.models[x].kind.TimeRange?)
    requires r.store == ClearAll(s, targets, from, until)
    requires x in r.models && r.models[x].kind.TimeRange? && x in r.versions && r.versions[x].fp == r.current[x]
    requires GrainLedger(DoneOf(s, r.versions[x].fp), UnitMillis(r.models[x].kind.unit))
    ensures forall iv | iv in WantedOf(r, r.models[x]) && from <= iv.start < until :: iv in Recomputed(r, x)
    ensures forall slot | slot in s.ledger
                          && !(from <= slot.start < until && Restated(graph, r.current, model, slot.fp)) ::
              slot in r.store.ledger && r.store.ledger[slot] == s.ledger[slot]
  {
    hide Recomputed, WantedOf, GrainLedger, Reaches;
    assert Chosen(graph, r.current, model, x);
    var fp := r.versions[x].fp;
    GrainLedgerShrinks(s, targets, from, until, fp, UnitMillis(r.models[x].kind.unit));
    forall iv | iv in WantedOf(r, r.models[x]) && from <= iv.start < until ensures iv in Recomputed(r, x) {
      ClearedRows(s, targets, from, until, Slot(fp, iv.start));
      NotDoneIsRecomputed(r, x, iv);
    }
    forall slot | slot in s.ledger && !(from <= slot.start < until && Restated(graph, r.current, model, slot.fp))
      ensures slot in r.store.ledger && r.store.ledger[slot] == s.ledger[slot]
    {
      ClearedRows(s, targets, from, until, slot);
    }
  }

  // ----- descendants of another grain -----

  predicate Overlaps(iv: Interval, from: int, until: int) {
    iv.start < until && from < iv.end
  }

  function SlotAt(unit: Unit, t: int): Interval {
    Interval(FloorTo(unit, t), FloorTo(unit, t) + UnitMillis(unit))
  }

  lemma SlotUnique(unit: Unit, t: int, iv: Interval)
    requires IsGrain(iv, UnitMillis(unit)) && iv.start <= t < iv.end
    ensures iv == SlotAt(unit, t)
  {
    var step, f := UnitMillis(unit), FloorTo(unit, t);
    if iv.start < f { AlignedApart(iv.start, f, step); }
    if f < iv.start { AlignedApart(f, iv.start, step); }
  }

  /**
   * The clear goes by interval starts. It reaches every wanted interval the range overlaps
   * exactly when `from` is aligned to that model's grain, or the slot `from` falls into is
   * not wanted: restating an hour leaves the day of a daily descendant alone.
   */
  lemma OverlapReachedExactly(unit: Unit, startMs: int, nowMs: int, from: int, until: int)
    requires from < until
    ensures (forall iv | iv in Wanted(unit, startMs, nowMs) && Overlaps(iv, from, until) :: from <= iv.start < until)
            <==> FloorTo(unit, from) == from || SlotAt(unit, from) !in Wanted(unit, startMs, nowMs)
  {
    var wanted, slot := Wanted(unit, startMs, nowMs), SlotAt(unit, from);
    WantedMembers(unit, startMs, nowMs);
    forall iv | iv in wanted && Overlaps(iv, from, until) && iv.start < from ensures iv == slot {
      SlotUnique(unit, from, iv);
    }
    if FloorTo(unit, from) != from && slot in wanted {
      assert Overlaps(slot, from, until) && slot.start < from;
    }
  }

  /** A bound aligned to a unit is aligned to every finer one. */
  lemma AlignedToFiner(coarse: Unit, fine: Unit, from: int)
    requires UnitMillis(fine) <= UnitMillis(coarse) && from % UnitMillis(coarse) == 0
    ensures FloorTo(fine, from) == from
  {
    if fine != coarse {
      UnitLengths();
      var d := from / UnitMillis(Day);
      assert from == (d * 24) * UnitMillis(Hour);
      ModOfMultiple(d * 24, UnitMillis(Hour));
    }
  }

  /**
   * The bounds are aligned to the restated model, so in every target of the same or a finer
   * grain the next plan recomputes all wanted intervals the range overlaps.
   */
  lemma FinerTargetsRecomputed(r: Request, graph: ModelGraph, model: Name, targets: seq<Target>, from: int,
                               until: int, s: State, x: Name)
    requires Accepts(graph, r.current, model, Some(from), Some(until))
    requires TargetsOf(graph, r.current, model, targets) && x in r.current && x in graph.order
    requires x == model || (Reaches(graph.dependents, model, x) && x in graph.models && graph.models[x].kind.TimeRange?)
    requires r.store == ClearAll(s, targets, from, until)
    requires x in r.models && r.models[x].kind.TimeRange? && x in r.versions && r.versions[x].fp == r.current[x]
    requires GrainLedger(DoneOf(s, r.versions[x].fp), UnitMillis(r.models[x].kind.unit))
    requires UnitMillis(r.models[x].kind.unit) <= UnitMillis(graph.models[model].kind.unit)
    ensures forall iv | iv in WantedOf(r, r.models[x]) && Overlaps(iv, from, until) :: iv in Recomputed(r, x)
  {
    hide TargetsOf, Reaches, Recomputed, GrainLedger, ClearAll, FloorTo, IsGrain, Wanted;
    RestateCovers(r, graph, model, targets, from, until, s, x);
    var kind := r.models[x].kind;
    AlignedToFiner(graph.models[model].kind.unit, kind.unit, from);
    OverlapReachedExactly(kind.unit, kind.start, r.now, from, until);
  }
}
