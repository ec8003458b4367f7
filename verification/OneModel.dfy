/** The smallest project there is, one time-range model with no dependencies, for concrete plans. */
module OneModel {
  import opened Common
  import opened Models
  import opened Intervals
  import opened Query
  import opened Graph
  import opened Fingerprints
  import opened Store
  import opened Planner
  import opened PlanFacts

  const PROD: Env := "prod"
  const NAME: Name := 1
  const DAY := 86_400_000
  const HOUR := 3_600_000

  /** Every text is an AST of its own, so any edit is breaking. */
  const CANON: Canon := (t: Text) => Other(t)

  function Solo(unit: Unit, text: Text): Model {
    Model(NAME, {}, TimeRange(0, 0, unit, 1, 0), text, None, [], [], None)
  }

  function SoloFp(m: Model): Fp {
    Hash(Some(Other(m.text)), MetaOf(m), [])
  }

  predicate IsSolo(m: Model) {
    m.name == NAME && m.deps == {} && m.kind.TimeRange?
  }

  /** A snapshot of the version over the given physics. */
  function SoloRow(m: Model, physFp: Fp): Snapshot {
    Snapshot(physFp, Some(Other(m.text)), TableSnap, FINGERPRINT_VERSION, 0, None)
  }

  /** A store whose environment serves one version of the model. */
  function Serving(fp: Fp, snapshots: map<SnapKey, Snapshot>, ledger: map<Slot, Record>): State {
    State(snapshots, map[EnvKey(PROD, NAME) := fp], ledger, map[])
  }

  /** What planChanges reads for this project over a store. */
  function SoloRequest(m: Model, store: State, now: int, flagged: bool): Request {
    Request(map[NAME := m], [NAME], map[NAME := Version(SoloFp(m), Some(Other(m.text)))], store,
            CurrentOf(store, PROD), now, if flagged then [NAME] else [], map[])
  }

  lemma SoloWellFormed(m: Model, store: State, now: int, flagged: bool)
    requires IsSolo(m)
    ensures WellFormed(SoloRequest(m, store, now, flagged), CANON)
  {
    var models, order := map[NAME := m], [NAME];
    var g := DepMap(models);
    assert Elems(order) == {NAME} == models.Keys;
    assert order[..0] == [];
    assert DepsBefore(g, order, 0);
    assert Ordered(models, order);
    FpUnfold(models, order, CANON, NAME);
    assert |Sorted({})| == 0;
    assert Signature({}, Fps(models, order, CANON)) == [];
    assert Fps(models, order, CANON) == map[NAME := SoloFp(m)];
    assert Versions(models, order, CANON) == map[NAME := Version(SoloFp(m), Some(Other(m.text)))];
  }

  lemma SoloCurrent(fp: Fp, snapshots: map<SnapKey, Snapshot>, ledger: map<Slot, Record>)
    ensures CurrentOf(Serving(fp, snapshots, ledger), PROD) == map[NAME := fp]
  {
    var s := Serving(fp, snapshots, ledger);
    assert EnvKey(PROD, NAME) in s.envs;
    assert NAME in CurrentOf(s, PROD);
  }

  /** The plan is the one model's decision. */
  lemma SoloPlan(m: Model, store: State, now: int, flagged: bool, d: Decision)
    requires IsSolo(m) && Decide(SoloRequest(m, store, now, flagged), map[], {}, NAME) == Ok(d)
    ensures var r := SoloRequest(m, store, now, flagged);
            Planned(r, CANON, Acc(map[NAME := d.change], if d.reuses then {NAME} else {}, [ActionFor(r, NAME, d)]))
  {
    hide Decide, ActionFor, WellFormed, CurrentOf;
    var r := SoloRequest(m, store, now, flagged);
    SoloWellFormed(m, store, now, flagged);
    WellFormedKnown(r, CANON);
    assert PlanUpTo(r, 0) == Ok(Acc(map[], {}, []));
    assert r.order[0] == NAME && |r.order| == 1;
    assert PlanUpTo(r, 1) == Ok(Extend(r, Acc(map[], {}, []), NAME, d));
    assert [] + [ActionFor(r, NAME, d)] == [ActionFor(r, NAME, d)];
    assert {} + {NAME} == {NAME};
  }

  /** With the model's text edited: flagged, the plan keeps the served physics; not flagged, it starts anew. */
  lemma EditedDecision(was: Model, m: Model, snapshots: map<SnapKey, Snapshot>, ledger: map<Slot, Record>, now: int,
                       flagged: bool)
    requires IsSolo(was) && IsSolo(m) && was.text != m.text
    requires SnapKey(NAME, SoloFp(was)) in snapshots
    requires snapshots[SnapKey(NAME, SoloFp(was))] == SoloRow(was, SoloFp(was))
    ensures Decide(SoloRequest(m, Serving(SoloFp(was), snapshots, ledger), now, flagged), map[], {}, NAME)
            == Ok(if flagged then Decision(ForwardOnly, None, Some(SoloFp(was)), SoloFp(was), false)
                  else Decision(Breaking, None, None, SoloFp(m), false))
  {
    SoloCurrent(SoloFp(was), snapshots, ledger);
  }

  lemma WantedDays()
    ensures Wanted(Day, 0, DAY) == [Interval(0, DAY)]
    ensures Wanted(Day, 0, 2 * DAY) == [Interval(0, DAY), Interval(DAY, 2 * DAY)]
  {
    assert GrainsFrom(DAY, DAY, DAY) == [] == GrainsFrom(2 * DAY, 2 * DAY, DAY);
    assert GrainsFrom(DAY, 2 * DAY, DAY) == [Interval(DAY, 2 * DAY)] + GrainsFrom(2 * DAY, 2 * DAY, DAY);
    assert GrainsFrom(0, 2 * DAY, DAY) == [Interval(0, DAY)] + GrainsFrom(DAY, 2 * DAY, DAY);
    assert GrainsFrom(0, DAY, DAY) == [Interval(0, DAY)] + GrainsFrom(DAY, DAY, DAY);
  }

  lemma MissingOne(iv: Interval, covered: set<int>)
    ensures Missing([iv], covered) == if iv.start in covered then [] else [iv]
  {
    assert [iv][1..] == [] && Missing([], covered) == [];
  }

  lemma SortOne(iv: Interval)
    ensures SortByStart([]) == [] && SortByStart([iv]) == [iv]
  {
    assert [iv][..0] == [];
    assert InsertByStart([], iv) == [iv];
  }

  lemma MergeFew(iv: Interval)
    ensures Merge([]) == [] && Merge([iv]) == [iv]
  {
    assert MergeOne([], iv) == [iv] && [iv][1..] == [];
    assert MergeOnto([iv], []) == [iv];
  }

  /** Without lookback, one slot is planned or not by its start alone. */
  lemma OneSlot(iv: Interval, done: map<int, int>)
    ensures Backfill([iv], done, 0) == if iv.start in done then [] else [iv]
  {
    hide Missing, SortByStart, Merge;
    MissingOne(iv, done.Keys);
    SortOne(iv);
    MergeFew(iv);
    var missing := Missing([iv], done.Keys);
    assert missing + [] == missing;
  }

  /** Two slots of which the first is known: the second is planned or not by its start alone. */
  lemma SecondSlot(x: Interval, y: Interval, done: map<int, int>)
    requires x.start in done
    ensures Backfill([x, y], done, 0) == if y.start in done then [] else [y]
  {
    hide SortByStart, Merge;
    assert [x, y][1..] == [y];
    assert Missing([x, y], done.Keys) == Missing([y], done.Keys);
    OneSlot(y, done);
  }
}
