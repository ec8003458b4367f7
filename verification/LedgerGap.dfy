/**
 * Three histories after which the ledger calls an interval done that its version's physics
 * does not hold: an apply that dies between inheritance and record (src/plan/executor.ts:781-828),
 * a version that inherits although it has physics of its own, and two models under one
 * fingerprint (src/plan/fingerprint.ts:160-170).
 */
module LedgerGap {
  import opened Common
  import opened Models
  import opened Intervals
  import opened Query
  import opened Graph
  import opened Fingerprints
  import opened Store
  import opened Planner
  import opened PlanFacts
  import opened Executor
  import opened Ledgers
  import opened OneModel
  import J = Janitors

  const WAS: Model := Solo(Day, 0)
  const NOW: Model := Solo(Day, 1)
  const G: Fp := SoloFp(WAS)
  const F: Fp := SoloFp(NOW)
  const KEY_G: SnapKey := SnapKey(NAME, G)
  const KEY_F: SnapKey := SnapKey(NAME, F)
  const FIRST_DAY := Interval(0, DAY)

  /** The action of a plan over the store, given the decision the planner comes to. */
  function ActionOver(store: State, now: int, flagged: bool, d: Decision): Action {
    ActionFor(SoloRequest(NOW, store, now, flagged), NAME, d)
  }

  const KEEP := Decision(ForwardOnly, None, Some(G), G, false)
  const RENEW := Decision(Breaking, None, None, F, false)

  /** That action is what planChanges returns. */
  ghost predicate IsPlanned(store: State, now: int, flagged: bool, d: Decision) {
    Planned(SoloRequest(NOW, store, now, flagged), CANON,
            Acc(map[NAME := d.change], if d.reuses then {NAME} else {}, [ActionOver(store, now, flagged, d)]))
  }

  /** The old version serves, its first day done and loaded. */
  const LEDGER_G: map<Slot, Record> := map[Slot(G, 0) := Record(DAY, Done)]
  const STORE_G := Serving(G, map[KEY_G := SoloRow(WAS, G)], LEDGER_G)

  function FullDay(): map<int, Fp> {
    map u | u in Moments(FIRST_DAY) :: G
  }

  const BEFORE: Sys := Sys(STORE_G, map[J.Table(NAME, G) := FullDay()], {(J.Table(NAME, G), G)})

  lemma BeforeInv()
    ensures Inv(BEFORE)
  {
    forall t, u | Covered(STORE_G, t, u) ensures Holds(BEFORE.tables, t, u) {
      var key, start :| Claims(STORE_G, t, key, start, u);
      assert Within(FIRST_DAY, u);
    }
    forall fp, start | IsDone(STORE_G, fp, start) ensures HasRecord(STORE_G, fp) {
      assert KEY_G in STORE_G.snapshots;
    }
  }

  // ----- the late failure -----

  lemma ActionFields(store: State, now: int, flagged: bool, d: Decision)
    ensures var a := ActionOver(store, now, flagged, d);
            && a.name == NAME && a.fp == F && a.reusedFrom == d.reusedFrom
            && a.physFp == if KEY_F in store.snapshots then store.snapshots[KEY_F].physFp else d.physFp
  {
    hide BackfillFor;
  }

  ghost function Broken(s: Sys, a: Action, created: bool): Sys {
    Next(s, Break(a, created))
  }

  /** Breaking after the inheritance leaves the mark, and neither a snapshot nor a table. */
  lemma BrokenStore(s: Sys, a: Action, created: bool)
    requires a.name == NAME && a.fp == F && a.physFp == G && a.reusedFrom == Some(G)
    requires J.Table(NAME, F) !in s.tables && IsDone(s.store, G, 0)
    ensures var broken := Broken(s, a, created);
            && broken.store == s.store.(ledger := broken.store.ledger)
            && DoneAt(broken.store, F, 0, 0) == (EndAt(s.store, G, 0) > 0)
            && J.Table(NAME, F) !in broken.tables
  {
    hide MarkRows, InheritedIntervals;
    InheritedDone(s.store, a, 0);
  }

  lemma PlannedOver(was: Model, m: Model, snapshots: map<SnapKey, Snapshot>, ledger: map<Slot, Record>, now: int,
                    flagged: bool)
    requires was == WAS && m == NOW && KEY_G in snapshots && snapshots[KEY_G] == SoloRow(was, G)
    ensures IsPlanned(Serving(G, snapshots, ledger), now, flagged, if flagged then KEEP else RENEW)
  {
    hide Decide, Planned, ActionFor;
    EditedDecision(was, m, snapshots, ledger, now, flagged);
    SoloPlan(m, Serving(G, snapshots, ledger), now, flagged, if flagged then KEEP else RENEW);
  }

  /** A slot the ledger has under the action's own fingerprint is left out of its backfill. */
  lemma DoneSkipped(store: State, flagged: bool, d: Decision)
    requires IsDone(store, F, 0) || (d.reusedFrom.Some? && IsDone(store, d.reusedFrom.value, 0))
    ensures ActionOver(store, DAY, flagged, d).backfill == []
  {
    hide Wanted, Backfill, DoneOf;
    WantedDays();
    DoneOfMembers(store, F, 0);
    if d.reusedFrom.Some? { DoneOfMembers(store, d.reusedFrom.value, 0); }
    OneSlot(FIRST_DAY, DoneFor(store, F, d.reusedFrom));
  }

  lemma NothingInherited(store: State, a: Action)
    requires a.reusedFrom.None?
    ensures Inheriting(store, a) == store
  {
  }

  /** The action has no batches: preparing it is all of its apply, and the ledger is not sound then. */
  ghost predicate CompletesUnsound(s: Sys, b: Action, at: int) {
    && b.name == NAME && b.build && b.backfill == []
    && Next(s, Prepare(b, NOW, at)).store == ApplyOne(s.store, b, NOW, at)
    && !Sound(Next(s, Prepare(b, NOW, at)))
  }

  /** Recording over a fresh table what the ledger already calls done. */
  lemma EmptyButDone(s: Sys, b: Action, at: int)
    requires b.name == NAME && b.fp == b.physFp == F && b.reusedFrom.None? && b.backfill == [] && b.build
    requires KEY_F !in s.store.snapshots && J.Table(NAME, F) !in s.tables && DoneAt(s.store, F, 0, 0)
    ensures CompletesUnsound(s, b, at)
  {
    hide DoneAt, IsDone;
    NothingInherited(s.store, b);
    var after := Next(s, Prepare(b, NOW, at));
    SameDone(s.store, after.store, F, 0, 0);
    assert Claims(after.store, J.Table(NAME, F), KEY_F, 0, 0);
    assert !Holds(after.tables, J.Table(NAME, F), 0);
  }

  lemma SameDone(s: State, t: State, fp: Fp, start: int, u: int)
    requires s.ledger == t.ledger
    ensures DoneAt(s, fp, start, u) <==> DoneAt(t, fp, start, u)
  {
  }

  /**
   * A forward-only apply breaks after inheriting; the regular plan made next takes the mark
   * for the version's own, leaves the day out, and its completed apply serves a day that is
   * marked done and was never loaded.
   */
  lemma LateFailureLosesRows(created: bool, at: int)
    ensures Inv(BEFORE) && IsPlanned(STORE_G, DAY, true, KEEP)
    ensures var broken := Broken(BEFORE, ActionOver(STORE_G, DAY, true, KEEP), created);
            && IsPlanned(broken.store, DAY, false, RENEW)
            && CompletesUnsound(broken, ActionOver(broken.store, DAY, false, RENEW), at)
  {
    hide ActionOver, Decide, IsPlanned, Inv, CompletesUnsound, Broken;
    BeforeInv();
    PlannedOver(WAS, NOW, STORE_G.snapshots, STORE_G.ledger, DAY, true);
    var a := ActionOver(STORE_G, DAY, true, KEEP);
    ActionFields(STORE_G, DAY, true, KEEP);
    assert KEY_F !in STORE_G.snapshots;
    BrokenStore(BEFORE, a, created);
    var broken := Broken(BEFORE, a, created);
    assert broken.store == Serving(G, STORE_G.snapshots, broken.store.ledger);
    PlannedOver(WAS, NOW, STORE_G.snapshots, broken.store.ledger, DAY, false);
    ActionFields(broken.store, DAY, false, RENEW);
    BuildsNew(broken.store, false, RENEW);
    DoneSkipped(broken.store, false, RENEW);
    EmptyButDone(broken, ActionOver(broken.store, DAY, false, RENEW), at);
  }

  lemma BuildsNew(store: State, flagged: bool, d: Decision)
    requires KEY_F !in store.snapshots && !d.change.Unchanged?
    ensures ActionOver(store, DAY, flagged, d).build
  {
    hide BackfillFor;
  }

  // ----- inheriting over physics of one's own -----

  /** The new version has a row and an empty table of its own, left by an earlier apply. */
  const TWO_STORE := Serving(G, map[KEY_G := SoloRow(WAS, G), KEY_F := SoloRow(NOW, F)], LEDGER_G)
  const TWO: Sys := Sys(TWO_STORE, map[J.Table(NAME, G) := FullDay(), J.Table(NAME, F) := map[]],
                        {(J.Table(NAME, G), G), (J.Table(NAME, F), F)})

  lemma TwoInv()
    ensures Inv(TWO)
  {
    forall t, u | Covered(TWO_STORE, t, u) ensures Holds(TWO.tables, t, u) {
      var key, start :| Claims(TWO_STORE, t, key, start, u);
      assert Within(FIRST_DAY, u);
    }
    forall fp, start | IsDone(TWO_STORE, fp, start) ensures HasRecord(TWO_STORE, fp) {
      assert KEY_G in TWO_STORE.snapshots;
    }
  }

  lemma SecondDayOnly()
    ensures ActionOver(TWO_STORE, 2 * DAY, true, KEEP).backfill == [Interval(DAY, 2 * DAY)]
  {
    hide Wanted, Backfill, DoneOf;
    WantedDays();
    var done := DoneFor(TWO_STORE, F, Some(G));
    DoneOfMembers(TWO_STORE, G, 0);
    DoneOfMembers(TWO_STORE, G, DAY);
    DoneOfMembers(TWO_STORE, F, DAY);
    SecondSlot(FIRST_DAY, Interval(DAY, 2 * DAY), done);
  }

  /** Inheriting a mark over a table that lacks the day. */
  lemma MarkedOverOwn(s: Sys, a: Action, at: int)
    requires a.name == NAME && a.fp == a.physFp == F && a.reusedFrom == Some(G)
    requires KEY_F in s.store.snapshots && s.store.snapshots[KEY_F].physFp == F
    requires IsDone(s.store, G, 0) && EndAt(s.store, G, 0) > 0 && !Holds(s.tables, J.Table(NAME, F), 0)
    ensures !Sound(Next(s, Prepare(a, NOW, at)))
  {
    hide Inheriting;
    InheritedDone(s.store, a, 0);
    InheritingKeeps(s.store, a);
    var after := Next(s, Prepare(a, NOW, at));
    assert DoneAt(after.store, F, 0, 0);
    assert Claims(after.store, J.Table(NAME, F), KEY_F, 0, 0);
    assert !Holds(after.tables, J.Table(NAME, F), 0);
  }

  /** A flagged plan builds on the version's own table, plans the second day alone, and inherits the first. */
  lemma OwnPhysicsInheritsMarks(at: int)
    ensures Inv(TWO) && IsPlanned(TWO_STORE, 2 * DAY, true, KEEP)
    ensures var a := ActionOver(TWO_STORE, 2 * DAY, true, KEEP);
            && a.name == NAME && a.physFp == F && a.backfill == [Interval(DAY, 2 * DAY)]
            && !Sound(Next(TWO, Prepare(a, NOW, at)))
  {
    hide ActionOver, Decide, IsPlanned, Inv, Sound, Next;
    TwoInv();
    PlannedOver(WAS, NOW, TWO_STORE.snapshots, LEDGER_G, 2 * DAY, true);
    ActionFields(TWO_STORE, 2 * DAY, true, KEEP);
    SecondDayOnly();
    MarkedOverOwn(TWO, ActionOver(TWO_STORE, 2 * DAY, true, KEEP), at);
  }

  // ----- two models under one fingerprint -----

  const TWIN: Name := 2
  const KEY_TWIN: SnapKey := SnapKey(TWIN, F)

  const TWIN_MODELS: map<Name, Model> := map[NAME := NOW, TWIN := NOW.(name := TWIN)]
  const TWIN_ORDER: seq<Name> := [NAME, TWIN]

  /** The same model under two names has one fingerprint in a project that holds both. */
  lemma TwinsShareFingerprint()
    ensures Ordered(TWIN_MODELS, TWIN_ORDER)
    ensures Fps(TWIN_MODELS, TWIN_ORDER, CANON)[NAME] == F == Fps(TWIN_MODELS, TWIN_ORDER, CANON)[TWIN]
  {
    var g := DepMap(TWIN_MODELS);
    assert Elems(TWIN_ORDER) == {NAME, TWIN} == TWIN_MODELS.Keys;
    assert TWIN_ORDER[..0] == [] && TWIN_ORDER[..1] == [NAME];
    assert DepsBefore(g, TWIN_ORDER, 0) && DepsBefore(g, TWIN_ORDER, 1);
    FpUnfold(TWIN_MODELS, TWIN_ORDER, CANON, NAME);
    assert |Sorted({})| == 0;
    assert Signature({}, Fps(TWIN_MODELS, TWIN_ORDER, CANON)) == [];
    NamesShareFingerprints(TWIN_MODELS, TWIN_ORDER, CANON, NAME, TWIN);
  }

  /** Both are recorded over tables of their own; nothing is loaded yet. */
  const TWINS: Sys := Sys(
    EMPTY.(snapshots := map[KEY_F := SoloRow(NOW, F), KEY_TWIN := SoloRow(NOW, F)]),
    map[J.Table(NAME, F) := map[], J.Table(TWIN, F) := map[]],
    {(J.Table(NAME, F), F), (J.Table(TWIN, F), F)})

  lemma OneDay()
    ensures Chop(FIRST_DAY, DAY) == [FIRST_DAY]
  {
    ChopGrain(FIRST_DAY, DAY);
  }

  /** One batch of the first model marks the second's day done, and nobody loads it. */
  lemma NamesakeTakesMarks()
    ensures Inv(TWINS) && Enabled(TWINS, Batch(NAME, F, F, FIRST_DAY, DAY))
    ensures var after := Next(TWINS, Batch(NAME, F, F, FIRST_DAY, DAY));
            && Claims(after.store, J.Table(TWIN, F), KEY_TWIN, 0, 0)
            && !Holds(after.tables, J.Table(TWIN, F), 0)
            && !Sound(after)
  {
    OneDay();
    MarkRowsAt(map[], F, [FIRST_DAY], Done, Slot(F, 0));
    assert Starts([FIRST_DAY]) == {0} by {
      assert FIRST_DAY in [FIRST_DAY];
    }
    var after := Next(TWINS, Batch(NAME, F, F, FIRST_DAY, DAY));
    assert after.store.ledger == MarkRows(map[], F, [FIRST_DAY], Done);
    assert Claims(after.store, J.Table(TWIN, F), KEY_TWIN, 0, 0);
  }

  /** A claim leaves another live row its done marks exactly when it is not a namesake with any. */
  lemma ClaimSparesExact(s: State, key: SnapKey, other: SnapKey, deadline: int)
    requires Doomed(s, key, deadline) && other in s.snapshots && other != key
    ensures other in Claimed(s, key.name, key.fp, deadline).snapshots
    ensures (forall start :: IsDone(Claimed(s, key.name, key.fp, deadline), other.fp, start)
                             <==> IsDone(s, other.fp, start))
            <==> other.fp != key.fp || forall start :: !IsDone(s, other.fp, start)
  {
    assert SnapKey(key.name, key.fp) == key;
    var after := Claimed(s, key.name, key.fp, deadline);
    forall start ensures IsDone(after, other.fp, start) <==> IsDone(s, other.fp, start) && other.fp != key.fp {
    }
  }
}
