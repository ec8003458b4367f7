/**
 * Nothing weaker than staying will do. A plan looks at verdicts, not at data: other bodies
 * and other data may lie behind the same verdicts. `Reuse.ReuseSound` holds for all of them
 * exactly when the model stays; otherwise some edit below it can be written out, together
 * with the data, so that the plan is the same and the inherited table is stale.
 */
module ReuseExactness {
  import opened Common
  import opened Models
  import opened Query
  import opened Graph
  import opened Fingerprints
  import opened Store
  import opened Planner
  import opened PlanFacts
  import opened Reuse

  // ----- the same projects with other bodies -----

  /** A body for every model, in the old project and in the new one. */
  datatype Bodies = Bodies(was: Name -> Ast, now: Name -> Ast)

  /** Every model's text is its own. */
  function Retext(models: map<Name, Model>): map<Name, Model> {
    map x | x in models :: models[x].(text := x)
  }

  lemma RetextOrdered(models: map<Name, Model>, order: seq<Name>)
    requires Ordered(models, order)
    ensures DepMap(Retext(models)) == DepMap(models)
    ensures Ordered(Retext(models), order)
  {
    assert DepMap(Retext(models)) == DepMap(models);
    assert Retext(models).Keys == models.Keys;
  }

  function OldWith(p: OldProject, b: Bodies): OldProject {
    OldProject(Retext(p.models), p.order, b.was)
  }

  ghost function OldFps(p: OldProject, b: Bodies): (fps: map<Name, Fp>)
    requires Ordered(p.models, p.order)
    ensures fps.Keys == p.models.Keys
  {
    RetextOrdered(p.models, p.order);
    Fps(Retext(p.models), p.order, b.was)
  }

  ghost function NewFps(r: Request, b: Bodies): (fps: map<Name, Fp>)
    requires Ordered(r.models, r.order)
    ensures fps.Keys == r.models.Keys
  {
    RetextOrdered(r.models, r.order);
    Fps(Retext(r.models), r.order, b.now)
  }

  /** The row the store keeps of an old version, with the body it would have had. */
  function RowWith(row: Snapshot, fp: Fp): Snapshot {
    row.(ast := if fp.Hash? && row.version == FINGERPRINT_VERSION then fp.ast else None)
  }

  predicate HasRow(r: Request, x: Name) {
    x in r.current && SnapKey(x, r.current[x]) in r.store.snapshots
  }

  ghost function StoreWith(r: Request, fps: map<Name, Fp>): State {
    EMPTY.(snapshots :=
      map k: SnapKey | k in (set x | x in fps && HasRow(r, x) :: SnapKey(x, fps[x])) ::
        if HasRow(r, k.name) then RowWith(r.store.snapshots[SnapKey(k.name, r.current[k.name])], k.fp)
        else Snapshot(k.fp, None, TableSnap, 0, 0, None))
  }

  lemma RowsWith(r: Request, fps: map<Name, Fp>, x: Name)
    requires x in fps
    ensures SnapKey(x, fps[x]) in StoreWith(r, fps).snapshots <==> HasRow(r, x)
    ensures HasRow(r, x) ==>
              StoreWith(r, fps).snapshots[SnapKey(x, fps[x])]
              == RowWith(r.store.snapshots[SnapKey(x, r.current[x])], fps[x])
  {
  }

  ghost function Rebodied(r: Request, p: OldProject, b: Bodies): Request
    requires Ordered(r.models, r.order) && Ordered(p.models, p.order)
  {
    RetextOrdered(r.models, r.order);
    var fps := OldFps(p, b);
    Request(Retext(r.models), r.order, Versions(Retext(r.models), r.order, b.now), StoreWith(r, fps), fps,
            r.now, r.forwardOnly, r.reclassify)
  }

  // ----- bodies that look the same to the planner -----

  predicate Queried(m: Model) {
    !SourceKind(PayloadOf(m.kind))
  }

  /** The AST comparison of one model comes out as it did. */
  ghost predicate LooksSame(r: Request, canon: Canon, p: OldProject, b: Bodies, x: Name)
    requires x in r.models && x in p.models && x in r.current && x in r.versions
  {
    Queried(r.models[x]) && Queried(p.models[x]) ==>
      var was, now := p.canon(p.models[x].text), canon(r.models[x].text);
      && (r.current[x] == r.versions[x].fp ==> b.was(x) == b.now(x))
      && (was != now ==> b.was(x) != b.now(x))
      && (HasRow(r, x) && r.store.snapshots[SnapKey(x, r.current[x])].version == FINGERPRINT_VERSION ==>
            && OwnChange(Some(b.was(x)), Some(b.now(x))) == OwnChange(Some(was), Some(now))
            && DropsColumns(b.was(x), b.now(x)) == DropsColumns(was, now))
  }

  ghost predicate AllLookSame(r: Request, canon: Canon, p: OldProject, b: Bodies)
    requires r.current.Keys == p.models.Keys && r.versions.Keys == r.models.Keys
  {
    forall x | x in r.models && x in p.models :: LooksSame(r, canon, p, b, x)
  }

  /** Everything the construction starts from. */
  ghost predicate Given(r: Request, canon: Canon, acc: Acc, p: OldProject) {
    && Setting(r, canon, acc, p)
    && r.current.Keys == p.models.Keys && r.versions.Keys == r.models.Keys && acc.changeOf.Keys == r.models.Keys
    && Ordered(r.models, r.order) && Ordered(p.models, p.order)
  }

  lemma OldUnfold(p: OldProject, b: Bodies, x: Name)
    requires Ordered(p.models, p.order) && x in p.models
    ensures p.models[x].deps <= p.models.Keys
    ensures OldFps(p, b)[x] == Hash(if Queried(p.models[x]) then Some(b.was(x)) else None, MetaOf(p.models[x]),
                                    Signature(p.models[x].deps, OldFps(p, b)))
  {
    hide Signature, Topological;
    RetextOrdered(p.models, p.order);
    FpUnfold(Retext(p.models), p.order, b.was, x);
  }

  lemma NewUnfold(r: Request, b: Bodies, x: Name)
    requires Ordered(r.models, r.order) && x in r.models
    ensures r.models[x].deps <= r.models.Keys
    ensures NewFps(r, b)[x] == Hash(if Queried(r.models[x]) then Some(b.now(x)) else None, MetaOf(r.models[x]),
                                    Signature(r.models[x].deps, NewFps(r, b)))
  {
    hide Signature, Topological;
    RetextOrdered(r.models, r.order);
    FpUnfold(Retext(r.models), r.order, b.now, x);
  }

  ghost predicate SameMovement(r: Request, p: OldProject, b: Bodies, x: Name)
    requires Ordered(r.models, r.order) && Ordered(p.models, p.order)
    requires r.current.Keys == p.models.Keys && r.versions.Keys == r.models.Keys
  {
    x in r.models && x in p.models ==>
      (OldFps(p, b)[x] == NewFps(r, b)[x] <==> r.current[x] == r.versions[x].fp)
  }

  /** One model, given its common dependencies. */
  lemma MovementStep(r: Request, canon: Canon, acc: Acc, p: OldProject, b: Bodies, x: Name)
    requires Given(r, canon, acc, p) && AllLookSame(r, canon, p, b) && x in r.models && x in p.models
    requires forall d | d in r.models[x].deps && d in p.models[x].deps :: SameMovement(r, p, b, d)
    ensures SameMovement(r, p, b, x)
  {
    hide Signature, Setting, OldFps, NewFps, StoreHonest, Topological, LooksSame, AstOf, MetaOf, Queried, Ordered;
    SettingParts(r, canon, acc, p);
    BothVersions(r, canon, p, x);
    OldUnfold(p, b, x);
    NewUnfold(r, b, x);
    var deps, deps0 := r.models[x].deps, p.models[x].deps;
    var fps := Fps(r.models, r.order, canon);
    SignatureTells(deps0, r.current, deps, fps);
    SignatureTells(deps0, OldFps(p, b), deps, NewFps(r, b));
    forall d | d in deps && d in deps0 ensures r.current[d] == fps[d] <==> OldFps(p, b)[d] == NewFps(r, b)[d] {
      VersionOf(r, canon, d);
      assert SameMovement(r, p, b, d);
    }
    assert LooksSame(r, canon, p, b, x);
    BodyEquality(r, canon, p, b, x);
  }

  /** Exactly the fingerprints that moved move. */
  lemma {:induction false} MovementKept(r: Request, canon: Canon, acc: Acc, p: OldProject, b: Bodies, k: nat)
    requires Given(r, canon, acc, p) && AllLookSame(r, canon, p, b) && k < |r.order|
    ensures SameMovement(r, p, b, r.order[k])
    decreases k
  {
    hide Setting, SameMovement, AllLookSame, Topological;
    var x := r.order[k];
    DepsEarlier(r.models, r.order, k);
    if x in p.models {
      forall d | d in r.models[x].deps && d in p.models[x].deps ensures SameMovement(r, p, b, d) {
        assert d in Elems(r.order[..k]);
        var j :| 0 <= j < k && r.order[..k][j] == d;
        MovementKept(r, canon, acc, p, b, j);
      }
      MovementStep(r, canon, acc, p, b, x);
    } else {
      NothingToCompare(r, p, b, x);
    }
  }

  lemma NothingToCompare(r: Request, p: OldProject, b: Bodies, x: Name)
    requires Ordered(r.models, r.order) && Ordered(p.models, p.order)
    requires r.current.Keys == p.models.Keys && r.versions.Keys == r.models.Keys && x !in p.models
    ensures SameMovement(r, p, b, x)
  {
  }

  /** If the rest of the payload stood, the body decides, and it decides as before. */
  lemma BodyEquality(r: Request, canon: Canon, p: OldProject, b: Bodies, x: Name)
    requires x in r.models && x in p.models && x in r.current && x in r.versions && LooksSame(r, canon, p, b, x)
    ensures var asks, asked := Queried(r.models[x]), Queried(p.models[x]);
            && AstOf(canon, r.models[x]).Some? == asks && AstOf(p.canon, p.models[x]).Some? == asked
            && (asks && asked && r.current[x] == r.versions[x].fp ==> b.was(x) == b.now(x))
            && (asks && asked && b.was(x) == b.now(x) ==> AstOf(p.canon, p.models[x]) == AstOf(canon, r.models[x]))
  {
  }

  // ----- the plan is the same -----

  ghost function PrevOf(r: Request, x: Name): Option<Snapshot> {
    if x in r.current then SnapshotOf(r.store, x, r.current[x]) else None
  }

  lemma RebodiedFields(r: Request, p: OldProject, b: Bodies)
    requires Ordered(r.models, r.order) && Ordered(p.models, p.order)
    ensures var s := Rebodied(r, p, b);
            && s.models == Retext(r.models) && s.order == r.order && s.current == OldFps(p, b)
            && s.store == StoreWith(r, OldFps(p, b)) && s.now == r.now
            && s.forwardOnly == r.forwardOnly && s.reclassify == r.reclassify
  {
  }

  lemma RebodiedWellFormed(r: Request, p: OldProject, b: Bodies)
    requires Ordered(r.models, r.order) && Ordered(p.models, p.order)
    ensures WellFormed(Rebodied(r, p, b), b.now) && Serves(Rebodied(r, p, b), OldWith(p, b))
    ensures Rebodied(r, p, b).versions == Versions(Retext(r.models), r.order, b.now)
  {
    hide Topological, Versions, StoreWith;
    RetextOrdered(r.models, r.order);
    RetextOrdered(p.models, p.order);
  }

  lemma VersionsAre(models: map<Name, Model>, order: seq<Name>, canon: Canon)
    requires Ordered(models, order)
    ensures Versions(models, order, canon).Keys == models.Keys
    ensures forall x | x in models ::
              Versions(models, order, canon)[x] == Version(Fps(models, order, canon)[x], AstOf(canon, models[x]))
  {
    hide FpsUpTo, Topological;
  }

  lemma RebodiedVersions(r: Request, p: OldProject, b: Bodies)
    requires Ordered(r.models, r.order) && Ordered(p.models, p.order)
    ensures var s := Rebodied(r, p, b);
            s.versions.Keys == r.models.Keys
            && forall x | x in r.models ::
                 s.versions[x] == Version(NewFps(r, b)[x], if Queried(r.models[x]) then Some(b.now(x)) else None)
  {
    hide Ordered, Rebodied, Fps, Versions;
    RetextOrdered(r.models, r.order);
    RebodiedWellFormed(r, p, b);
    VersionsAre(Retext(r.models), r.order, b.now);
  }

  lemma RebodiedHonest(r: Request, p: OldProject, b: Bodies)
    requires Ordered(r.models, r.order) && Ordered(p.models, p.order)
    ensures StoreHonest(StoreWith(r, OldFps(p, b)))
  {
    hide Topological, Signature;
    forall x | x in p.models ensures OldFps(p, b)[x].Hash? {
      OldUnfold(p, b, x);
    }
  }

  lemma RebodiedParts(r: Request, p: OldProject, b: Bodies)
    requires Ordered(r.models, r.order) && Ordered(p.models, p.order)
    ensures var s := Rebodied(r, p, b);
            && WellFormed(s, b.now) && Serves(s, OldWith(p, b)) && StoreHonest(s.store)
            && s.models == Retext(r.models) && s.order == r.order && s.current == OldFps(p, b)
            && s.store == StoreWith(r, OldFps(p, b)) && s.now == r.now
            && s.forwardOnly == r.forwardOnly && s.reclassify == r.reclassify
            && s.models.Keys == r.models.Keys && s.current.Keys == p.models.Keys && s.versions.Keys == r.models.Keys
            && (forall x | x in r.models ::
                  s.versions[x] == Version(NewFps(r, b)[x], if Queried(r.models[x]) then Some(b.now(x)) else None))
  {
    hide Rebodied, StoreHonest, WellFormed, Serves, Ordered, StoreWith;
    RebodiedFields(r, p, b);
    RebodiedWellFormed(r, p, b);
    RebodiedVersions(r, p, b);
    RebodiedHonest(r, p, b);
  }

  /** The previous row is there or not, and of the version it was. */
  lemma PrevKept(r: Request, canon: Canon, acc: Acc, p: OldProject, b: Bodies, x: Name)
    requires Given(r, canon, acc, p) && x in r.current && NotLater(r, x)
    ensures var s := Rebodied(r, p, b);
            && x in s.current
            && PrevOf(s, x).Some? == PrevOf(r, x).Some?
            && (PrevOf(r, x).Some? ==> PrevOf(s, x).value.version == PrevOf(r, x).value.version)
            && OldAst(PrevOf(r, x))
               == (if Compared(r, x) && Queried(p.models[x]) then Some(p.canon(p.models[x].text)) else None)
            && OldAst(PrevOf(s, x)) == (if Compared(r, x) && Queried(p.models[x]) then Some(b.was(x)) else None)
  {
    hide Signature, Topological, Planned;
    RowsWith(r, OldFps(p, b), x);
    OldUnfold(p, b, x);
    FpUnfold(p.models, p.order, p.canon, x);
    assert OldFps(p, b)[x].Hash?;
  }

  /** The snapshot is there, and not of a later algorithm nor of an earlier one. */
  predicate Compared(r: Request, x: Name) {
    HasRow(r, x) && r.store.snapshots[SnapKey(x, r.current[x])].version == FINGERPRINT_VERSION
  }

  predicate NotLater(r: Request, x: Name) {
    HasRow(r, x) ==> r.store.snapshots[SnapKey(x, r.current[x])].version <= FINGERPRINT_VERSION
  }

  lemma ParentsOnlyKept(r: Request, canon: Canon, acc: Acc, p: OldProject, b: Bodies, x: Name)
    requires Given(r, canon, acc, p) && AllLookSame(r, canon, p, b) && x in r.models && x in r.current
    requires Queried(r.models[x]) && Queried(p.models[x])
    requires b.was(x) == b.now(x) <==> p.canon(p.models[x].text) == canon(r.models[x].text)
    ensures ShiftedByParentsOnly(Rebodied(r, p, b), x, Rebodied(r, p, b).current[x])
            <==> ShiftedByParentsOnly(r, x, r.current[x])
  {
    hide Signature, ShiftedByParentsOnly, Planned, StoreHonest, AllLookSame, StoreWith, Ordered, OldFps, NewFps, Fps,
         Rebodied;
    GivenParts(r, canon, acc, p);
    var s, q := Rebodied(r, p, b), OldWith(p, b);
    RebodiedParts(r, p, b);
    RetextOrdered(p.models, p.order);
    ParentsOnlyExact(r, canon, p.models, p.order, p.canon, x);
    ParentsOnlyExact(s, b.now, q.models, q.order, q.canon, x);
  }

  /** The override depends on the comparison alone. */
  lemma OverrideKept(r: Request, s: Request, x: Name, change: Change, o: Option<Ast>, a: Option<Ast>,
                     o': Option<Ast>, a': Option<Ast>)
    requires s.reclassify == r.reclassify && o.Some? == o'.Some? && a.Some? == a'.Some?
    requires o.Some? && a.Some? ==> DropsColumns(o.value, a.value) == DropsColumns(o'.value, a'.value)
    ensures Overridden(s, x, change, o', a') == Overridden(r, x, change, o, a)
    ensures Overridden(r, x, change, o, a).Ok? && Overridden(r, x, change, o, a).value.0.Indirect? ==> change.Indirect?
  {
  }

  lemma RetextSame(m: Model, x: Name, changeOf: map<Name, Change>, reused: set<Name>)
    ensures Cascades(m.(text := x), changeOf) == Cascades(m, changeOf)
    ensures IndirectReuse(m.(text := x), changeOf, reused) == IndirectReuse(m, changeOf, reused)
  {
    assert ChangedParents(m.(text := x), changeOf) == ChangedParents(m, changeOf);
  }

  /** All a decision looks at, for two requests that differ in bodies. */
  ghost predicate SameSignals(r: Request, s: Request, x: Name, change: Change)
    requires x in r.models && x in r.versions && x in s.models && x in s.versions && x in r.current && x in s.current
  {
    var o, a, o', a' := OldAst(PrevOf(r, x)), r.versions[x].ast, OldAst(PrevOf(s, x)), s.versions[x].ast;
    && s.models[x] == r.models[x].(text := x) && s.forwardOnly == r.forwardOnly && s.reclassify == r.reclassify
    && PrevOf(s, x).Some? == PrevOf(r, x).Some?
    && (PrevOf(r, x).Some? ==> PrevOf(s, x).value.version == PrevOf(r, x).value.version)
    && o.Some? == o'.Some? && a.Some? == a'.Some?
    && OwnChange(o, a) == change && OwnChange(o', a') == change
    && (o.Some? && a.Some? ==> DropsColumns(o.value, a.value) == DropsColumns(o'.value, a'.value))
    && (change.Indirect? ==> ShiftedByParentsOnly(s, x, s.current[x]) == ShiftedByParentsOnly(r, x, r.current[x]))
  }

  lemma SignalsDecide(r: Request, s: Request, x: Name, change: Change, changeOf: map<Name, Change>, reused: set<Name>)
    requires x in r.models && x in r.versions && x in s.models && x in s.versions && x in r.current && x in s.current
    requires r.current[x] != r.versions[x].fp && s.current[x] != s.versions[x].fp
    requires SameSignals(r, s, x, change) && Decide(r, changeOf, reused, x).Ok?
    ensures Decide(s, changeOf, reused, x).Ok?
    ensures Decide(s, changeOf, reused, x).value.change == Decide(r, changeOf, reused, x).value.change
    ensures Decide(s, changeOf, reused, x).value.reuses == Decide(r, changeOf, reused, x).value.reuses
  {
    hide OldAst, OwnChange, Overridden, DropsColumns, ShiftedByParentsOnly, Cascades, IndirectReuse;
    OverrideKept(r, s, x, change, OldAst(PrevOf(r, x)), r.versions[x].ast, OldAst(PrevOf(s, x)), s.versions[x].ast);
    RetextSame(r.models[x], x, changeOf, reused);
  }

  lemma NotLaterIfDecided(r: Request, x: Name, changeOf: map<Name, Change>, reused: set<Name>)
    requires x in r.models && x in r.versions && x in r.current && r.current[x] != r.versions[x].fp
    requires Decide(r, changeOf, reused, x).Ok?
    ensures NotLater(r, x)
  {
  }

  /** Whether the shift is by parents only, asked only when the bodies agree. */
  lemma ShiftKept(r: Request, canon: Canon, acc: Acc, p: OldProject, b: Bodies, x: Name)
    requires Given(r, canon, acc, p) && AllLookSame(r, canon, p, b)
    requires x in r.models && x in r.current && x in r.versions
    requires NotLater(r, x) && OwnChange(OldAst(PrevOf(r, x)), r.versions[x].ast).Indirect?
    ensures ShiftedByParentsOnly(Rebodied(r, p, b), x, Rebodied(r, p, b).current[x])
            <==> ShiftedByParentsOnly(r, x, r.current[x])
  {
    hide Signature, StoreHonest, OldAst, ShiftedByParentsOnly, Ordered, StoreWith, DropsColumns, PrevOf, OwnChange,
         Rebodied, WellFormed, Serves, Given, OldFps, NewFps, Fps;
    GivenParts(r, canon, acc, p);
    PrevKept(r, canon, acc, p, b, x);
    VersionOf(r, canon, x);
    assert LooksSame(r, canon, p, b, x);
    NothingCompared(OldAst(PrevOf(r, x)), r.versions[x].ast);
    IndirectIsSame(p.canon(p.models[x].text), canon(r.models[x].text));
    IndirectIsSame(b.was(x), b.now(x));
    ParentsOnlyKept(r, canon, acc, p, b, x);
  }

  lemma SignalsKept(r: Request, canon: Canon, acc: Acc, p: OldProject, b: Bodies, x: Name)
    requires Given(r, canon, acc, p) && AllLookSame(r, canon, p, b) && x in r.models && x in r.current && NotLater(r, x)
    ensures var s := Rebodied(r, p, b);
            x in s.models && x in s.versions && x in s.current
            && SameSignals(r, s, x, OwnChange(OldAst(PrevOf(r, x)), r.versions[x].ast))
  {
    hide Signature, StoreHonest, OldAst, ShiftedByParentsOnly, Ordered, StoreWith, DropsColumns, PrevOf, OwnChange,
         Rebodied, WellFormed, Serves, Given, OldFps, NewFps, Fps, Setting;
    GivenParts(r, canon, acc, p);
    var s := Rebodied(r, p, b);
    RebodiedParts(r, p, b);
    PrevKept(r, canon, acc, p, b, x);
    VersionOf(r, canon, x);
    assert LooksSame(r, canon, p, b, x);
    NothingCompared(OldAst(PrevOf(r, x)), r.versions[x].ast);
    NothingCompared(OldAst(PrevOf(s, x)), s.versions[x].ast);
    if OwnChange(OldAst(PrevOf(r, x)), r.versions[x].ast).Indirect? {
      ShiftKept(r, canon, acc, p, b, x);
    }
  }

  lemma NothingCompared(o: Option<Ast>, a: Option<Ast>)
    ensures o.None? || a.None? ==> OwnChange(o, a) == Breaking
  {
  }

  lemma IndirectIsSame(a: Ast, c: Ast)
    ensures OwnChange(Some(a), Some(c)).Indirect? <==> a == c
  {
  }

  /** One decision: same verdict, same reuse. */
  lemma DecideKept(r: Request, canon: Canon, acc: Acc, p: OldProject, b: Bodies, x: Name,
                   changeOf: map<Name, Change>, reused: set<Name>)
    requires Given(r, canon, acc, p) && AllLookSame(r, canon, p, b) && x in r.models && SameMovement(r, p, b, x)
    requires Decide(r, changeOf, reused, x).Ok?
    ensures var s := Rebodied(r, p, b);
            && x in s.models && x in s.versions && Decide(s, changeOf, reused, x).Ok?
            && Decide(s, changeOf, reused, x).value.change == Decide(r, changeOf, reused, x).value.change
            && Decide(s, changeOf, reused, x).value.reuses == Decide(r, changeOf, reused, x).value.reuses
  {
    hide Signature, Topological, Planned, StoreHonest, OwnChange, OldAst, ShiftedByParentsOnly, Inherit, Overridden,
         Ordered, StoreWith, AllLookSame, SameSignals, Rebodied, Setting;
    var s := Rebodied(r, p, b);
    RebodiedParts(r, p, b);
    VersionOf(r, canon, x) by { GivenParts(r, canon, acc, p); }
    if x in r.current && r.current[x] != r.versions[x].fp {
      NotLaterIfDecided(r, x, changeOf, reused);
      SignalsKept(r, canon, acc, p, b, x);
      SignalsDecide(r, s, x, OwnChange(OldAst(PrevOf(r, x)), r.versions[x].ast), changeOf, reused);
    }
  }

  lemma GivenParts(r: Request, canon: Canon, acc: Acc, p: OldProject)
    requires Given(r, canon, acc, p)
    ensures Setting(r, canon, acc, p) && WellFormed(r, canon) && Serves(r, p)
    ensures Ordered(r.models, r.order) && Ordered(p.models, p.order)
    ensures r.current.Keys == p.models.Keys && r.versions.Keys == r.models.Keys && acc.changeOf.Keys == r.models.Keys
  {
  }

  /** The loop goes on when the decision does. */
  lemma PlanGoesOn(r: Request, k: nat)
    requires Known(r) && k < |r.order| && PlanUpTo(r, k).Ok?
    requires Decide(r, PlanUpTo(r, k).value.changeOf, PlanUpTo(r, k).value.reused, r.order[k]).Ok?
    ensures PlanUpTo(r, k + 1).Ok?
    ensures var before := PlanUpTo(r, k).value;
            PlanUpTo(r, k + 1).value
            == Extend(r, before, r.order[k], Decide(r, before.changeOf, before.reused, r.order[k]).value)
  {
    hide Decide, Extend;
  }

  lemma ExtendMaps(r: Request, acc: Acc, x: Name, d: Decision)
    requires x in r.models && x in r.versions
    ensures Extend(r, acc, x, d).changeOf == acc.changeOf[x := d.change]
    ensures Extend(r, acc, x, d).reused == if d.reuses then acc.reused + {x} else acc.reused
  {
    hide ActionFor;
  }

  lemma OrderInModels(r: Request, k: nat)
    requires Known(r) && k <= |r.order|
    ensures forall i | 0 <= i < k :: r.order[i] in r.models && r.order[i] in r.versions
  {
  }

  /** The whole plan: same verdicts, same reuse. */
  lemma {:induction false} PlanKept(r: Request, canon: Canon, acc: Acc, p: OldProject, b: Bodies, k: nat)
    requires Given(r, canon, acc, p) && AllLookSame(r, canon, p, b) && Known(r) && k <= |r.order|
    requires PlanUpTo(r, k).Ok?
    ensures var s := Rebodied(r, p, b);
            && Known(s) && |s.order| == |r.order| && PlanUpTo(s, k).Ok?
            && PlanUpTo(s, k).value.changeOf == PlanUpTo(r, k).value.changeOf
            && PlanUpTo(s, k).value.reused == PlanUpTo(r, k).value.reused
  {
    hide Decide, Extend, AllLookSame, SameMovement, PlanUpTo, WellFormed, StoreWith, Ordered, Rebodied, Given, Known,
         OldFps, NewFps,
         Fps, Serves, Setting;
    GivenParts(r, canon, acc, p);
    var s := Rebodied(r, p, b);
    RebodiedParts(r, p, b);
    WellFormedKnown(s, b.now);
    OrderInModels(r, k);
    PlanStart(r);
    PlanStart(s);
    if k > 0 {
      var x := r.order[k - 1];
      PlanStep(r, k - 1);
      PlanKept(r, canon, acc, p, b, k - 1);
      var before, after := PlanUpTo(r, k - 1).value, PlanUpTo(s, k - 1).value;
      MovementKept(r, canon, acc, p, b, k - 1);
      DecideKept(r, canon, acc, p, b, x, before.changeOf, before.reused);
      assert s.order[k - 1] == x;
      PlanGoesOn(s, k - 1);
      ExtendMaps(r, before, x, Decide(r, before.changeOf, before.reused, x).value);
      ExtendMaps(s, after, x, Decide(s, before.changeOf, before.reused, x).value);
    }
  }

  // ----- where a movement starts and how it gets through -----

  /** A model whose own edit may move its columns, and the dependencies it gets through by. */
  datatype Plot = Plot(root: Name, link: map<Name, Name>)

  /** The verdicts that keep a body or only lengthen its select list. */
  predicate Carries(r: Request, acc: Acc, p: OldProject, c: Name)
    requires acc.changeOf.Keys == r.models.Keys
  {
    && c in r.models && c in p.models && OwnStays(r, acc, p, c) && !NoInputs(r, acc, c)
    && (acc.changeOf[c].Indirect? || acc.changeOf[c].NonBreaking?)
  }

  /** Every link carries, goes to a dependency both versions declare, and ends at the root. */
  ghost predicate Leads(r: Request, acc: Acc, p: OldProject, plot: Plot, x: Name)
    requires acc.changeOf.Keys == r.models.Keys
  {
    && plot.root in r.models && plot.root !in plot.link && !OwnStays(r, acc, p, plot.root)
    && Downstream(r.models, plot.root, x)
    && (x == plot.root || x in plot.link)
    && (forall c | c in plot.link ::
          && Carries(r, acc, p, c) && Downstream(r.models, c, x)
          && plot.link[c] in r.models[c].deps && plot.link[c] in p.models[c].deps
          && (plot.link[c] == plot.root || plot.link[c] in plot.link))
  }

  lemma {:induction false} PlotExists(r: Request, acc: Acc, p: OldProject, k: nat) returns (plot: Plot)
    requires Ordered(r.models, r.order) && acc.changeOf.Keys == r.models.Keys && k < |r.order| && !Stays(r, acc, p, k)
    requires Ordered(p.models, p.order)
    ensures r.order[k] in r.models && Leads(r, acc, p, plot, r.order[k])
    ensures plot.root == r.order[k] || plot.root in p.models
    ensures plot.link.Keys + {plot.root} <= Elems(r.order[..k + 1])
    decreases k
  {
    hide OwnStays, NoInputs, Topological, Downstream, Leads;
    var x := r.order[k];
    DepsEarlier(r.models, r.order, k);
    assert r.order[..k + 1] == r.order[..k] + [x];
    ElemsAppend(r.order[..k], x);
    if !OwnStays(r, acc, p, x) {
      plot := Plot(x, map[]);
      LeadsAtRoot(r, acc, p, x);
    } else {
      StaysOpen(r, acc, p, x);
      var j :| 0 <= j < k && r.order[j] in r.models[x].deps * p.models[x].deps && !Stays(r, acc, p, j);
      var below := PlotExists(r, acc, p, j);
      var d := r.order[j];
      plot := below.(link := below.link[x := d]);
      PrefixElems(r.order, j + 1, k);
      DepsClosed(p, x);
      LeadsOn(r, acc, p, below, d, x);
    }
  }

  lemma LeadsAtRoot(r: Request, acc: Acc, p: OldProject, x: Name)
    requires acc.changeOf.Keys == r.models.Keys && x in r.models && !OwnStays(r, acc, p, x)
    ensures Leads(r, acc, p, Plot(x, map[]), x)
  {
    hide OwnStays;
  }

  /** One dependent further. */
  lemma LeadsOn(r: Request, acc: Acc, p: OldProject, below: Plot, d: Name, x: Name)
    requires acc.changeOf.Keys == r.models.Keys && Leads(r, acc, p, below, d) && Carries(r, acc, p, x)
    requires d in r.models[x].deps && d in p.models[x].deps && x !in below.link && x != below.root
    requires r.models[x].deps <= r.models.Keys
    ensures Leads(r, acc, p, below.(link := below.link[x := d]), x)
  {
    hide OwnStays, Downstream;
    assert forall c | c in below.link :: c in r.models;
    hide Carries;
    forall c | c in below.link || c == below.root ensures Downstream(r.models, c, x) {
      DownstreamStep(r.models, c, d, x);
    }
    DownstreamSelf(r.models, x);
  }

  lemma DepsClosed(p: OldProject, x: Name)
    requires Ordered(p.models, p.order) && x in p.models
    ensures p.models[x].deps <= p.models.Keys
  {
    assert x in Elems(p.order);
    var k :| 0 <= k < |p.order| && p.order[k] == x;
    DepsEarlier(p.models, p.order, k);
  }

  lemma PrefixElems(order: seq<Name>, j: nat, k: nat)
    requires j <= k <= |order|
    ensures Elems(order[..j]) <= Elems(order[..k])
  {
    forall x | x in Elems(order[..j]) ensures x in Elems(order[..k]) {
      var i :| 0 <= i < j && order[..j][i] == x;
      assert order[..k][i] == x;
    }
  }

  lemma StaysOpen(r: Request, acc: Acc, p: OldProject, x: Name)
    requires acc.changeOf.Keys == r.models.Keys && x in r.models && OwnStays(r, acc, p, x) && !NoInputs(r, acc, x)
    ensures Carries(r, acc, p, x)
  {
  }

  // ----- bodies that carry the movement -----

  /** How the new body relates to the old one, as far as the planner compares them. */
  datatype Edit = Stands | Grows | Rewritten(drops: bool)

  predicate KeepsBody(c: Change) {
    c.Unchanged? || c.Indirect? || c.NonBreaking?
  }

  function EditOf(was: Ast, now: Ast): Edit {
    if was == now then Stands
    else if CategorizeAstChange(was, now).IsNonBreaking? then Grows
    else Rewritten(DropsColumns(was, now))
  }

  /** The edit as it was, except that the root is rewritten wherever its verdict allows it. */
  function EditAt(r: Request, canon: Canon, acc: Acc, p: OldProject, plot: Plot, x: Name): Edit
    requires acc.changeOf.Keys == r.models.Keys
  {
    if x !in r.models || x !in p.models then Stands else
      var was, now := p.canon(p.models[x].text), canon(r.models[x].text);
      if x == plot.root && !KeepsBody(acc.changeOf[x]) then Rewritten(DropsColumns(was, now)) else EditOf(was, now)
  }

  /** The root reads its bounds, a link its dependency's first column, any other model a constant. */
  function Reads(plot: Plot, x: Name): Item {
    Item(0, if x in plot.link then Col(0, 0) else if x == plot.root then Bound(true) else Const(0))
  }

  function RestAt(plot: Plot, x: Name): Rest {
    Rest(if x in plot.link then [plot.link[x]] else [], Const(1))
  }

  const EXTRA: Item := Item(1, Const(0))
  const MOVED: Item := Item(0, Const(1000))

  function WasBody(plot: Plot, x: Name, e: Edit): Ast {
    Select(if e.Rewritten? && e.drops then [Reads(plot, x), EXTRA] else [Reads(plot, x)], RestAt(plot, x))
  }

  function NowBody(plot: Plot, x: Name, e: Edit): Ast {
    match e
    case Stands => WasBody(plot, x, e)
    case Grows => Select([Reads(plot, x), EXTRA], RestAt(plot, x))
    case Rewritten(_) => Select([MOVED], RestAt(plot, x))
  }

  /** The new bodies compare as the edit says. */
  lemma BodiesCompare(plot: Plot, x: Name, e: Edit)
    ensures var a, c := WasBody(plot, x, e), NowBody(plot, x, e);
            && (a == c <==> e.Stands?)
            && EditOf(a, c) == e
            && OwnChange(Some(a), Some(c))
               == (if e.Stands? then Indirect else if e.Grows? then NonBreaking else Breaking)
            && DropsColumns(a, c) == (e.Rewritten? && e.drops)
  {
    var a, c := WasBody(plot, x, e), NowBody(plot, x, e);
    assert Reads(plot, x) != MOVED;
    match e {
      case Stands =>
      case Grows =>
        assert c.list[..1] == a.list;
      case Rewritten(drops) =>
        assert a.list[0] != c.list[0];
        assert CategorizeAstChange(a, c) == IsBreaking;
    }
  }

  lemma EditCompares(was: Ast, now: Ast)
    ensures var e := EditOf(was, now);
            && OwnChange(Some(was), Some(now))
               == (if e.Stands? then Indirect else if e.Grows? then NonBreaking else Breaking)
            && DropsColumns(was, now) == (e.Rewritten? && e.drops)
  {
    if CategorizeAstChange(was, now).IsNonBreaking? {
      NonBreakingIsSuffix(was, now);
      var suffix: seq<Item> :| suffix != [] && now == Select(was.list + suffix, was.rest);
    }
  }

  function BodiesOf(r: Request, canon: Canon, acc: Acc, p: OldProject, plot: Plot): Bodies
    requires acc.changeOf.Keys == r.models.Keys
  {
    Bodies(x => WasBody(plot, x, EditAt(r, canon, acc, p, plot, x)),
           x => NowBody(plot, x, EditAt(r, canon, acc, p, plot, x)))
  }

  /** A breaking verdict without flag or override comes from the comparison, where there is one. */
  lemma BreakingCompared(r: Request, canon: Canon, acc: Acc, p: OldProject, x: Name)
    requires Given(r, canon, acc, p) && x in r.models && x in p.models && !Flagged(r, x) && x !in r.reclassify
    requires !KeepsBody(acc.changeOf[x]) && !acc.changeOf[x].ForwardOnly? && Compared(r, x)
    requires Queried(r.models[x]) && Queried(p.models[x])
    ensures EditOf(p.canon(p.models[x].text), canon(r.models[x].text)).Rewritten?
  {
    hide Signature, PlanUpTo, Ordered, CategorizeAstChange;
    GivenParts(r, canon, acc, p);
    PlanLocalName(r, canon, acc, x);
    VersionOf(r, canon, x);
    FpUnfold(p.models, p.order, p.canon, x);
    EditCompares(p.canon(p.models[x].text), canon(r.models[x].text));
  }

  lemma PlotLooksSame(r: Request, canon: Canon, acc: Acc, p: OldProject, plot: Plot, x: Name)
    requires Given(r, canon, acc, p) && x in r.models && x in p.models
    requires plot.root in r.models && !OwnStays(r, acc, p, plot.root)
    requires !Flagged(r, plot.root) && plot.root !in r.reclassify && !acc.changeOf[plot.root].ForwardOnly?
    ensures LooksSame(r, canon, p, BodiesOf(r, canon, acc, p, plot), x)
  {
    hide Signature, PlanUpTo, Ordered, CategorizeAstChange, WasBody, NowBody, Setting, DropsColumns, OwnChange;
    GivenParts(r, canon, acc, p);
    var was, now := p.canon(p.models[x].text), canon(r.models[x].text);
    var e := EditAt(r, canon, acc, p, plot, x);
    BodiesCompare(plot, x, e);
    EditCompares(was, now);
    VersionOf(r, canon, x);
    FpUnfold(p.models, p.order, p.canon, x);
    VerdictsByFingerprint(r, canon, acc, x);
    if x == plot.root && !KeepsBody(acc.changeOf[x]) && Queried(r.models[x]) && Queried(p.models[x]) && Compared(r, x) {
      BreakingCompared(r, canon, acc, p, x);
    }
  }

  // ----- data on which the movement shows -----

  /**
   * The root's old source holds 50 and any other 51; bounds start at 100 where there is a
   * range and at 0 elsewhere; an accumulating kind adds the number of columns it was given,
   * and 7 under the root's old metadata.
   */
  function Telling(m0: Meta): World {
    World((op: int, a: Value, c: Value) => 0,
          (k: KindPayload) => [map[0 := if k == m0.kind then 50 else 51]],
          (id: int) => [],
          (m: Meta, rel: Relation) =>
            if |rel| > 0 && 0 in rel[0] then [map[0 := rel[0][0] + |rel[0]| + if m == m0 then 7 else 0]] else rel,
          [Bounds(100, 100)])
  }

  predicate HasFirst(rel: Relation, v: Value) {
    |rel| == 1 && 0 in rel[0] && rel[0][0] == v
  }

  predicate ShortList(list: seq<Item>) {
    |list| > 0 && list[0].name == 0 && (|list| == 1 || list == [list[0], EXTRA])
  }

  lemma RowOf(ops: Ops, list: seq<Item>, b: seq<Row>, at: Bounds)
    requires ShortList(list)
    ensures var row := Project(ops, list, b, at);
            0 in row && row[0] == EvalExpr(ops, list[0].expr, b, at) && |row| == |list|
  {
    var first := list[0];
    assert [first][..0] == [];
    var narrow := Project(ops, [first], b, at);
    var empty: Row := map[];
    assert Project(ops, [], b, at) == empty;
    assert narrow == Project(ops, [first][..0], b, at)[0 := EvalExpr(ops, first.expr, b, at)];
    if |list| == 2 {
      assert list[..1] == [first] && list[1] == EXTRA;
      assert Project(ops, list, b, at) == narrow[EXTRA.name := EvalExpr(ops, EXTRA.expr, b, at)];
      assert |narrow| == 1 && 1 !in narrow;
    } else {
      assert list == [first];
    }
  }

  /** No FROM entry, or one with one row: the answer is one row. */
  lemma AnswerOf(ops: Ops, list: seq<Item>, from: seq<Name>, rels: seq<Relation>, at: Bounds)
    requires ShortList(list) && |rels| == |from| && (rels == [] || (|rels| == 1 && |rels[0]| == 1))
    ensures var b := if rels == [] then [] else [rels[0][0]];
            EvalSelect(ops, list, Rest(from, Const(1)), rels, at) == [Project(ops, list, b, at)]
  {
    var b := if rels == [] then [] else [rels[0][0]];
    assert Product([]) == [[]];
    if rels != [] {
      var row := rels[0][0];
      assert rels[0] == [row] && rels[1..] == [];
      assert Prefix(row, [[]]) == [[row]] by {
        assert [row] + [] == [row];
        assert Prefix(row, [[]][1..]) == [];
      }
      assert PairUp([row], [[]]) == [[row]] by { assert [row][1..] == []; }
    }
    assert Product(rels) == [b];
    OneBinding(ops, list, b, at);
  }

  lemma OneBinding(ops: Ops, list: seq<Item>, b: seq<Row>, at: Bounds)
    ensures SelectRows(ops, list, Const(1), [b], at) == [Project(ops, list, b, at)]
  {
    assert [b][1..] == [];
    assert SelectRows(ops, list, Const(1), [], at) == [];
  }

  function StartAt(meta: Meta): Bounds {
    if meta.kind.TimeRangeP? then Bounds(100, 100) else NO_BOUNDS
  }

  /** The first column of the table a kind makes of a one-row answer. */
  function TableValue(m0: Meta, meta: Meta, v: Value, columns: nat): Value {
    if Accumulates(meta.kind) then v + columns + (if meta == m0 then 7 else 0) else v
  }

  lemma TableOf(m0: Meta, fp: Fp, list: seq<Item>, from: seq<Name>, rels: seq<Relation>)
    requires fp.Hash? && fp.ast == Some(Select(list, Rest(from, Const(1)))) && ShortList(list)
    requires FromRels(Telling(m0), fp, from) == rels && (rels == [] || (|rels| == 1 && |rels[0]| == 1))
    ensures var b := if rels == [] then [] else [rels[0][0]];
            var v := EvalExpr(Telling(m0).ops, list[0].expr, b, StartAt(fp.meta));
            HasFirst(Content(Telling(m0), fp), TableValue(m0, fp.meta, v, |list|))
  {
    hide EvalSelect, Project, FromRels;
    var w, rest := Telling(m0), Rest(from, Const(1));
    var at := StartAt(fp.meta);
    var b := if rels == [] then [] else [rels[0][0]];
    AnswerOf(w.ops, list, from, rels, at);
    RowOf(w.ops, list, b, at);
    if fp.meta.kind.TimeRangeP? {
      assert w.ranges[1..] == [];
      assert Ranged(w.ops, list, rest, rels, w.ranges) == EvalSelect(w.ops, list, rest, rels, at) + [];
    }
  }

  lemma NoInputTable(m0: Meta, fp: Fp, list: seq<Item>)
    requires fp.Hash? && fp.ast == Some(Select(list, Rest([], Const(1)))) && ShortList(list)
    ensures var v := EvalExpr(Telling(m0).ops, list[0].expr, [], StartAt(fp.meta));
            HasFirst(Content(Telling(m0), fp), TableValue(m0, fp.meta, v, |list|))
  {
    hide Content;
    assert FromRels(Telling(m0), fp, []) == [];
    TableOf(m0, fp, list, [], []);
  }

  lemma OneInputTable(m0: Meta, fp: Fp, list: seq<Item>, deps: set<Name>, fps: map<Name, Fp>, d: Name, v: Value)
    requires fp.Hash? && fp.ast == Some(Select(list, Rest([d], Const(1))))
    requires ShortList(list) && list[0].expr == Col(0, 0)
    requires fp.parents == Signature(deps, fps) && d in deps && d in fps
    requires HasFirst(Content(Telling(m0), fps[d]), v)
    ensures HasFirst(Content(Telling(m0), fp), TableValue(m0, fp.meta, v, |list|))
    ensures FromRels(Telling(m0), fp, [d]) == [Content(Telling(m0), fps[d])]
  {
    hide Content, Signature;
    var w := Telling(m0);
    SignatureContent(w, fp, deps, fps, d);
    assert [d][..0] == [];
    assert FromRels(w, fp, [d]) == [ParentOf(w, fp, d)];
    TableOf(m0, fp, list, [d], [Content(w, fps[d])]);
  }

  // ----- the movement starts at the root -----

  /** The first column of the root's table: before, and after. */
  function WasValue(m0: Meta, e: Edit): Value {
    if SourceKind(m0.kind) then 50
    else TableValue(m0, m0, if m0.kind.TimeRangeP? then 100 else 0, if e.Rewritten? && e.drops then 2 else 1)
  }

  function NowValue(m0: Meta, m1: Meta, e: Edit): Value {
    if SourceKind(m1.kind) then (if m1.kind == m0.kind then 50 else 51)
    else
      TableValue(m0, m1, if e.Rewritten? then 1000 else if m1.kind.TimeRangeP? then 100 else 0,
                 if e.Grows? then 2 else 1)
  }

  lemma RootWas(r: Request, canon: Canon, acc: Acc, p: OldProject, plot: Plot)
    requires Given(r, canon, acc, p) && plot.root in r.models && plot.root in p.models && plot.root !in plot.link
    ensures var x := plot.root;
            var b := BodiesOf(r, canon, acc, p, plot);
            HasFirst(Content(Telling(MetaOf(p.models[x])), OldFps(p, b)[x]),
                     WasValue(MetaOf(p.models[x]), EditAt(r, canon, acc, p, plot, x)))
  {
    hide Content, Signature, OldFps, NewFps, Setting, HasFirst, TableValue, EditAt, Ordered, Given, DropsColumns;
    GivenParts(r, canon, acc, p);
    var x := plot.root;
    var m0, b := MetaOf(p.models[x]), BodiesOf(r, canon, acc, p, plot);
    OldUnfold(p, b, x);
    if Queried(p.models[x]) {
      NoInputTable(m0, OldFps(p, b)[x], WasBody(plot, x, EditAt(r, canon, acc, p, plot, x)).list);
    } else {
      SourceTable(m0, OldFps(p, b)[x]);
    }
  }

  lemma RootNow(r: Request, canon: Canon, acc: Acc, p: OldProject, plot: Plot)
    requires Given(r, canon, acc, p) && plot.root in r.models && plot.root in p.models && plot.root !in plot.link
    ensures var x := plot.root;
            var m0, m1, b := MetaOf(p.models[x]), MetaOf(r.models[x]), BodiesOf(r, canon, acc, p, plot);
            HasFirst(Content(Telling(m0), NewFps(r, b)[x]), NowValue(m0, m1, EditAt(r, canon, acc, p, plot, x)))
  {
    hide Content, Signature, OldFps, NewFps, Setting, HasFirst, TableValue, EditAt, Ordered, Given, DropsColumns;
    GivenParts(r, canon, acc, p);
    var x := plot.root;
    var m0, b := MetaOf(p.models[x]), BodiesOf(r, canon, acc, p, plot);
    NewUnfold(r, b, x);
    if Queried(r.models[x]) {
      NoInputTable(m0, NewFps(r, b)[x], NowBody(plot, x, EditAt(r, canon, acc, p, plot, x)).list);
    } else {
      SourceTable(m0, NewFps(r, b)[x]);
    }
  }

  lemma RootTables(r: Request, canon: Canon, acc: Acc, p: OldProject, plot: Plot)
    requires Given(r, canon, acc, p) && plot.root in r.models && plot.root in p.models && plot.root !in plot.link
    ensures var x := plot.root;
            var m0, m1, b := MetaOf(p.models[x]), MetaOf(r.models[x]), BodiesOf(r, canon, acc, p, plot);
            var e := EditAt(r, canon, acc, p, plot, x);
            && HasFirst(Content(Telling(m0), OldFps(p, b)[x]), WasValue(m0, e))
            && HasFirst(Content(Telling(m0), NewFps(r, b)[x]), NowValue(m0, m1, e))
  {
    hide Content, OldFps, NewFps, Setting, HasFirst, WasValue, NowValue, EditAt, Given, BodiesOf;
    RootWas(r, canon, acc, p, plot);
    RootNow(r, canon, acc, p, plot);
  }

  /** Every way a model's own edit can fail to stay shows in the first column. */
  lemma RootMoves(r: Request, canon: Canon, acc: Acc, p: OldProject, plot: Plot)
    requires Given(r, canon, acc, p) && plot.root in r.models && plot.root in p.models
    requires !OwnStays(r, acc, p, plot.root) && !acc.changeOf[plot.root].ForwardOnly?
    requires RootVerdict(r, canon, acc, p, plot.root)
    ensures var x := plot.root;
            var e := EditAt(r, canon, acc, p, plot, x);
            WasValue(MetaOf(p.models[x]), e) != NowValue(MetaOf(p.models[x]), MetaOf(r.models[x]), e)
  {
    hide EditOf, DropsColumns, Given;
  }

  lemma SourceTable(m0: Meta, fp: Fp)
    requires fp.Hash? && fp.ast.None?
    ensures HasFirst(Content(Telling(m0), fp), if fp.meta.kind == m0.kind then 50 else 51)
  {
  }

  /** What a verdict says of the edit behind it, for a model without flag or override. */
  ghost predicate RootVerdict(r: Request, canon: Canon, acc: Acc, p: OldProject, x: Name)
    requires x in r.models && x in p.models && acc.changeOf.Keys == r.models.Keys
  {
    var e := EditOf(p.canon(p.models[x].text), canon(r.models[x].text));
    && (acc.changeOf[x].Indirect? ==> Queried(r.models[x]) && Queried(p.models[x]) && e.Stands?)
    && (acc.changeOf[x].NonBreaking? ==> Queried(r.models[x]) && Queried(p.models[x]) && e.Grows?)
  }

  lemma VerdictEdit(r: Request, canon: Canon, acc: Acc, p: OldProject, x: Name)
    requires Given(r, canon, acc, p) && x in r.models && x in p.models && x !in r.reclassify
    ensures RootVerdict(r, canon, acc, p, x)
  {
    hide Signature, PlanUpTo, Ordered, Decide;
    GivenParts(r, canon, acc, p);
    PlanLocalName(r, canon, acc, x);
    if acc.changeOf[x].Indirect? || acc.changeOf[x].NonBreaking? {
      ComparedShape(r, acc, x);
      VersionOf(r, canon, x);
      FpUnfold(p.models, p.order, p.canon, x);
      assert SnapKey(x, r.current[x]) in r.store.snapshots;
      GrownIsNotKept(p.canon(p.models[x].text));
    }
  }

  lemma GrownIsNotKept(a: Ast)
    ensures CategorizeAstChange(a, a) == IsBreaking
  {
  }

  // ----- it gets through every link -----

  /** The first columns of one model's tables, before and after, differ. */
  ghost predicate Moves(r: Request, p: OldProject, b: Bodies, m0: Meta, c: Name)
    requires Ordered(r.models, r.order) && Ordered(p.models, p.order)
  {
    c in r.models && c in p.models
    && exists v, u :: v != u && HasFirst(Content(Telling(m0), OldFps(p, b)[c]), v)
                      && HasFirst(Content(Telling(m0), NewFps(r, b)[c]), u)
  }

  lemma LinkMoves(r: Request, canon: Canon, acc: Acc, p: OldProject, plot: Plot, m0: Meta, c: Name)
    requires Given(r, canon, acc, p) && c in plot.link && c != plot.root && Carries(r, acc, p, c)
    requires RootVerdict(r, canon, acc, p, c)
    requires var d := plot.link[c];
             d in r.models[c].deps && d in p.models[c].deps && Moves(r, p, BodiesOf(r, canon, acc, p, plot), m0, d)
    ensures Moves(r, p, BodiesOf(r, canon, acc, p, plot), m0, c)
    ensures FirstIsThere(p, BodiesOf(r, canon, acc, p, plot), m0, plot.link[c])
  {
    hide Content, Signature, OldFps, NewFps, Setting, HasFirst, TableValue, EditOf, Ordered, Given, OwnStays;
    GivenParts(r, canon, acc, p);
    var d, b := plot.link[c], BodiesOf(r, canon, acc, p, plot);
    var e := EditAt(r, canon, acc, p, plot, c);
    var v, u :| v != u && HasFirst(Content(Telling(m0), OldFps(p, b)[d]), v)
                && HasFirst(Content(Telling(m0), NewFps(r, b)[d]), u);
    OldUnfold(p, b, c);
    NewUnfold(r, b, c);
    var was, now := WasBody(plot, c, e).list, NowBody(plot, c, e).list;
    OneInputTable(m0, OldFps(p, b)[c], was, p.models[c].deps, OldFps(p, b), d, v);
    OneInputTable(m0, NewFps(r, b)[c], now, r.models[c].deps, NewFps(r, b), d, u);
    CarriedApart(r, canon, acc, p, m0, c, v, u, |was|, |now|);
  }

  /** A kind that carries keeps two values apart. */
  lemma CarriedApart(r: Request, canon: Canon, acc: Acc, p: OldProject, m0: Meta, c: Name,
                     v: Value, u: Value, n: nat, k: nat)
    requires acc.changeOf.Keys == r.models.Keys && Carries(r, acc, p, c) && v != u
    requires acc.changeOf[c].Indirect? ==> n == k
    ensures TableValue(m0, MetaOf(p.models[c]), v, n) != TableValue(m0, MetaOf(r.models[c]), u, k)
  {
  }

  ghost predicate FirstIsThere(p: OldProject, b: Bodies, m0: Meta, d: Name)
    requires Ordered(p.models, p.order)
  {
    d in p.models && exists v :: HasFirst(Content(Telling(m0), OldFps(p, b)[d]), v)
  }

  /** Nothing below an unflagged model and its unflagged dependencies is forward-only. */
  lemma {:induction false} NoForwardOnlyBelow(r: Request, canon: Canon, acc: Acc, k: nat)
    requires Planned(r, canon, acc) && acc.changeOf.Keys == r.models.Keys && k < |r.order|
    requires forall y | y in r.models && Downstream(r.models, y, r.order[k]) :: !Flagged(r, y)
    ensures r.order[k] in acc.changeOf && !acc.changeOf[r.order[k]].ForwardOnly?
    decreases k
  {
    hide PlanUpTo, Downstream, Flagged, Topological;
    var x := r.order[k];
    DepsEarlier(r.models, r.order, k);
    assert Downstream(r.models, x, x) by { DownstreamSelf(r.models, x); }
    if acc.changeOf[x].ForwardOnly? {
      ForwardOnlyHasCause(r, canon, acc, x);
      var d :| d in r.models[x].deps && d in r.models && d in acc.changeOf && acc.changeOf[d].ForwardOnly?;
      assert d in Elems(r.order[..k]);
      var j :| 0 <= j < k && r.order[..k][j] == d;
      forall y | y in r.models && Downstream(r.models, y, d) ensures !Flagged(r, y) {
        DownstreamStep(r.models, y, d, x);
      }
      NoForwardOnlyBelow(r, canon, acc, j);
    }
  }

  lemma DownstreamSelf(models: map<Name, Model>, x: Name)
    ensures Downstream(models, x, x)
  {
  }

  /** What the models of a plot have in common. */
  ghost predicate PlotPlain(r: Request, canon: Canon, acc: Acc, p: OldProject, plot: Plot)
    requires acc.changeOf.Keys == r.models.Keys
  {
    forall c | c == plot.root || c in plot.link ::
      c in r.models && c in p.models && !Flagged(r, c) && c !in r.reclassify && !acc.changeOf[c].ForwardOnly?
  }

  lemma {:induction false} PlotMoves(r: Request, canon: Canon, acc: Acc, p: OldProject, plot: Plot, x: Name, k: nat)
    requires Given(r, canon, acc, p) && Leads(r, acc, p, plot, x) && PlotPlain(r, canon, acc, p, plot)
    requires k < |r.order| && (r.order[k] == plot.root || r.order[k] in plot.link)
    ensures Moves(r, p, BodiesOf(r, canon, acc, p, plot), MetaOf(p.models[plot.root]), r.order[k])
    ensures r.order[k] in plot.link ==>
              FirstIsThere(p, BodiesOf(r, canon, acc, p, plot), MetaOf(p.models[plot.root]), plot.link[r.order[k]])
    decreases k
  {
    hide Setting, Ordered, OldFps, NewFps, Content, OwnStays, Moves, FirstIsThere, Downstream, Flagged, Carries;
    GivenParts(r, canon, acc, p);
    var c := r.order[k];
    DepsEarlier(r.models, r.order, k);
    VerdictEdit(r, canon, acc, p, c);
    if c == plot.root {
      RootTables(r, canon, acc, p, plot);
      RootMoves(r, canon, acc, p, plot);
      RootShows(r, canon, acc, p, plot);
    } else {
      var d := plot.link[c];
      assert d in Elems(r.order[..k]);
      var j :| 0 <= j < k && r.order[..k][j] == d;
      PlotMoves(r, canon, acc, p, plot, x, j);
      LinkMoves(r, canon, acc, p, plot, MetaOf(p.models[plot.root]), c);
    }
  }

  lemma RootShows(r: Request, canon: Canon, acc: Acc, p: OldProject, plot: Plot)
    requires Given(r, canon, acc, p) && plot.root in r.models && plot.root in p.models
    requires var x := plot.root;
             var m0, m1, b := MetaOf(p.models[x]), MetaOf(r.models[x]), BodiesOf(r, canon, acc, p, plot);
             var e := EditAt(r, canon, acc, p, plot, x);
             && HasFirst(Content(Telling(m0), OldFps(p, b)[x]), WasValue(m0, e))
             && HasFirst(Content(Telling(m0), NewFps(r, b)[x]), NowValue(m0, m1, e))
             && WasValue(m0, e) != NowValue(m0, m1, e)
    ensures Moves(r, p, BodiesOf(r, canon, acc, p, plot), MetaOf(p.models[plot.root]), plot.root)
  {
    hide Setting, Ordered, OldFps, NewFps, Content, OwnStays, HasFirst, WasValue, NowValue, EditAt;
  }

  // ----- the written-out plan is one of those the theorem speaks of -----

  lemma BodyShape(plot: Plot, y: Name, e: Edit)
    ensures NowBody(plot, y, e).Select? && WasBody(plot, y, e).Select?
    ensures DistinctItems(NowBody(plot, y, e).list) && ShortList(WasBody(plot, y, e).list)
    ensures WasBody(plot, y, e).rest == NowBody(plot, y, e).rest == RestAt(plot, y)
    ensures WasBody(plot, y, e).list[0] == Reads(plot, y)
  {
  }

  /** A written body has distinct columns and reads declared dependencies only. */
  lemma BodyFits(m: Model, canon: Canon, plot: Plot, y: Name, e: Edit, now: bool)
    requires y in plot.link ==> plot.link[y] in m.deps
    requires m.text == y && canon(y) == (if now then NowBody(plot, y, e) else WasBody(plot, y, e))
    ensures now ==> RowWiseAst(AstOf(canon, m))
    ensures RefsIn(AstOf(canon, m), m.deps)
  {
    hide NowBody, WasBody;
    BodyShape(plot, y, e);
    assert RestAt(plot, y).from == [] || RestAt(plot, y).from == [plot.link[y]];
  }

  lemma TypedShort(list: seq<Item>, row: Row)
    requires ShortList(list) && list[0].expr == Col(0, 0) && 0 in row
    ensures QueryTyped(list, Const(1), Product([[row]]))
  {
    var b: seq<Row> := [row];
    assert Product([]) == [[]];
    assert [[row]][1..] == [] && [row][1..] == [] && [row] + [] == b;
    assert Prefix(row, [[]]) == [b] by { assert Prefix(row, [[]][1..]) == []; }
    assert PairUp([row], [[]]) == [b];
    assert ListTyped(list, b);
  }

  lemma TypedConstant(list: seq<Item>, bs: seq<seq<Row>>)
    requires ShortList(list) && !list[0].expr.Col? && !list[0].expr.Apply?
    ensures QueryTyped(list, Const(1), bs)
  {
  }

  lemma BodyEvaluable(p: OldProject, b: Bodies, plot: Plot, e: Edit, m0: Meta, y: Name)
    requires Ordered(p.models, p.order) && y in p.models && b.was(y) == WasBody(plot, y, e)
    requires y in plot.link ==> plot.link[y] in p.models[y].deps && FirstIsThere(p, b, m0, plot.link[y])
    ensures Evaluable(Telling(m0), OldFps(p, b)[y])
  {
    hide Ordered, OldFps, Content, Signature, WasBody, NowBody, QueryTyped, Telling, FromRels;
    OldUnfold(p, b, y);
    BodyShape(plot, y, e);
    var fp, list := OldFps(p, b)[y], WasBody(plot, y, e).list;
    if Queried(p.models[y]) {
      if y in plot.link {
        var d := plot.link[y];
        var v :| HasFirst(Content(Telling(m0), OldFps(p, b)[d]), v);
        OneInputTable(m0, fp, list, p.models[y].deps, OldFps(p, b), d, v);
        var row := Content(Telling(m0), OldFps(p, b)[d])[0];
        assert Content(Telling(m0), OldFps(p, b)[d]) == [row];
        TypedShort(list, row);
      } else {
        TypedConstant(list, Product(FromRels(Telling(m0), fp, [])));
      }
    }
  }

  /** The bodies and the dependencies agree, so every unflagged model is in the fragment. */
  lemma BodiesPlain(r: Request, canon: Canon, acc: Acc, p: OldProject, plot: Plot, m0: Meta, y: Name, s: Request,
                    b: Bodies)
    requires Given(r, canon, acc, p) && y in r.models && !Flagged(r, y) && y !in r.reclassify
    requires b == BodiesOf(r, canon, acc, p, plot) && s == Rebodied(r, p, b)
    requires y in plot.link ==>
               && plot.link[y] in r.models[y].deps && y in p.models && plot.link[y] in p.models[y].deps
               && FirstIsThere(p, b, m0, plot.link[y])
    ensures y in s.models && Plain(Telling(m0), s, b.now, OldWith(p, b), y)
  {
    hide Setting, Ordered, NewFps, OldFps, Content, Rebodied, NowBody, WasBody, EditAt, Evaluable, RowWiseAst, RefsIn,
         FirstIsThere, StoreWith, WellFormed, Serves, StoreHonest;
    GivenParts(r, canon, acc, p);
    RebodiedParts(r, p, b);
    var e := EditAt(r, canon, acc, p, plot, y);
    BodyFits(s.models[y], b.now, plot, y, e, true);
    if y in p.models {
      BodyFits(OldWith(p, b).models[y], b.was, plot, y, e, false);
      BodyEvaluable(p, b, plot, e, m0, y);
    }
  }

  // ----- exactly -----

  /** Another plan of the same shape and verdicts, in the fragment below `x`. */
  ghost predicate Variant(r: Request, acc: Acc, p: OldProject, x: Name,
                          w: World, s: Request, canon: Canon, acc': Acc, q: OldProject) {
    && Setting(s, canon, acc', q) && PlainBelow(w, s, canon, q, x)
    && Retext(s.models) == Retext(r.models) && s.order == r.order
    && Retext(q.models) == Retext(p.models) && q.order == p.order
    && s.forwardOnly == r.forwardOnly && s.reclassify == r.reclassify
    && acc'.changeOf == acc.changeOf && acc'.reused == acc.reused
  }

  ghost predicate VariantKept(r: Request, acc: Acc, p: OldProject, x: Name,
                              w: World, s: Request, canon: Canon, acc': Acc, q: OldProject) {
    Variant(r, acc, p, x, w, s, canon, acc', q) ==>
      x in s.versions && x in acc'.changeOf && Steady(w, s, acc', x)
  }

  /** Whatever the bodies and the data behind these verdicts, the model's old columns stay. */
  ghost predicate AlwaysKept(r: Request, acc: Acc, p: OldProject, x: Name) {
    forall w, s, canon, acc', q :: VariantKept(r, acc, p, x, w, s, canon, acc', q)
  }

  lemma RetextTells(a: map<Name, Model>, b: map<Name, Model>, x: Name)
    requires Retext(a) == Retext(b)
    ensures x in a <==> x in b
    ensures x in a ==> a[x].deps == b[x].deps && a[x].kind == b[x].kind && MetaOf(a[x]) == MetaOf(b[x])
  {
    assert x in a <==> x in Retext(a);
    assert x in b <==> x in Retext(b);
    if x in a {
      assert Retext(a)[x] == Retext(b)[x];
    }
  }

  /** Staying is about dependencies, metadata and verdicts. */
  lemma {:induction false} StaysRetext(r: Request, acc: Acc, p: OldProject, s: Request, acc': Acc, q: OldProject,
                                       k: nat)
    requires Ordered(r.models, r.order) && Ordered(s.models, s.order) && k < |r.order|
    requires acc.changeOf.Keys == r.models.Keys && acc'.changeOf == acc.changeOf && acc.changeOf.Keys == s.models.Keys
    requires Retext(s.models) == Retext(r.models) && s.order == r.order && Retext(q.models) == Retext(p.models)
    requires Stays(r, acc, p, k)
    ensures Stays(s, acc', q, k)
    decreases k
  {
    hide Topological, Alike;
    DepsEarlier(r.models, r.order, k);
    DepsEarlier(s.models, s.order, k);
    var x := r.order[k];
    RetextTells(s.models, r.models, x);
    RetextTells(q.models, p.models, x);
    if !NoInputs(r, acc, x) {
      forall j | 0 <= j < k && s.order[j] in s.models[x].deps * q.models[x].deps ensures Stays(s, acc', q, j) {
        StaysRetext(r, acc, p, s, acc', q, j);
      }
    }
  }

  lemma VariantStays(r: Request, acc: Acc, p: OldProject, x: Name,
                     w: World, s: Request, canon: Canon, acc': Acc, q: OldProject)
    requires Variant(r, acc, p, x, w, s, canon, acc', q) && x in r.models
    requires Ordered(r.models, r.order) && acc.changeOf.Keys == r.models.Keys && StaysAt(r, acc, p, x)
    ensures VariantKept(r, acc, p, x, w, s, canon, acc', q)
  {
    hide Stays, Planned, StoreHonest, Serves, PlainBelow, Content;
    SettingParts(s, canon, acc', q);
    RetextTells(s.models, r.models, x);
    SameKeys(s.models, r.models);
    PlanKeys(s, canon, acc', q);
    var k :| 0 <= k < |r.order| && r.order[k] == x && Stays(r, acc, p, k);
    StaysRetext(r, acc, p, s, acc', q, k);
    assert StaysAt(s, acc', q, x);
    ReuseSound(w, s, canon, acc', q, x);
  }

  lemma SameKeys(a: map<Name, Model>, b: map<Name, Model>)
    requires Retext(a) == Retext(b)
    ensures a.Keys == b.Keys
  {
    forall x ensures x in a <==> x in b { RetextTells(a, b, x); }
  }

  lemma PlanKeys(r: Request, canon: Canon, acc: Acc, p: OldProject)
    requires Setting(r, canon, acc, p)
    ensures acc.changeOf.Keys == r.models.Keys && r.versions.Keys == r.models.Keys
    ensures Given(r, canon, acc, p)
  {
    hide PlanUpTo, Signature;
    WellFormedKnown(r, canon);
    AccKeys(r, canon, |r.order|);
    assert r.order[..|r.order|] == r.order;
  }

  lemma AllPlotLookSame(r: Request, canon: Canon, acc: Acc, p: OldProject, plot: Plot, x: Name)
    requires Given(r, canon, acc, p) && Leads(r, acc, p, plot, x) && PlotPlain(r, canon, acc, p, plot)
    ensures AllLookSame(r, canon, p, BodiesOf(r, canon, acc, p, plot))
  {
    hide Stays, Signature, PlanUpTo, OwnStays, WasBody, NowBody, EditAt, LooksSame, Setting, Ordered, Downstream,
         Carries;
    forall y | y in r.models && y in p.models ensures LooksSame(r, canon, p, BodiesOf(r, canon, acc, p, plot), y) {
      PlotLooksSame(r, canon, acc, p, plot, y);
    }
  }

  lemma WrittenPlan(r: Request, canon: Canon, acc: Acc, p: OldProject, b: Bodies) returns (acc': Acc)
    requires Given(r, canon, acc, p) && AllLookSame(r, canon, p, b)
    ensures Setting(Rebodied(r, p, b), b.now, acc', OldWith(p, b))
    ensures acc'.changeOf == acc.changeOf && acc'.reused == acc.reused
  {
    hide PlanUpTo, Ordered, Rebodied, OldFps, NewFps, StoreWith, WellFormed, Serves, StoreHonest, AllLookSame, Known;
    GivenParts(r, canon, acc, p);
    RebodiedParts(r, p, b);
    var s := Rebodied(r, p, b);
    WellFormedKnown(s, b.now);
    PlanKept(r, canon, acc, p, b, |r.order|);
    acc' := PlanUpTo(s, |s.order|).value;
  }

  lemma WrittenPlain(r: Request, canon: Canon, acc: Acc, p: OldProject, x: Name, plot: Plot, s: Request, b: Bodies)
    requires Given(r, canon, acc, p) && Leads(r, acc, p, plot, x) && PlotPlain(r, canon, acc, p, plot)
    requires forall y | y in r.models && Downstream(r.models, y, x) :: !Flagged(r, y) && y !in r.reclassify
    requires b == BodiesOf(r, canon, acc, p, plot) && s == Rebodied(r, p, b)
    ensures PlainBelow(Telling(MetaOf(p.models[plot.root])), s, b.now, OldWith(p, b), x)
  {
    hide Stays, Setting, Ordered, OwnStays, WasBody, NowBody, EditAt, OldFps, NewFps, StoreWith, Plain, Rebodied,
         Carries, Telling, Reaches, Content, FirstIsThere, Moves;
    GivenParts(r, canon, acc, p);
    RebodiedFields(r, p, b);
    RetextOrdered(r.models, r.order);
    forall y | y in s.models && Downstream(s.models, y, x)
      ensures Plain(Telling(MetaOf(p.models[plot.root])), s, b.now, OldWith(p, b), y)
    {
      if y in plot.link {
        var k := IndexOf(r.models, r.order, y);
        PlotMoves(r, canon, acc, p, plot, x, k);
      }
      BodiesPlain(r, canon, acc, p, plot, MetaOf(p.models[plot.root]), y, s, b);
    }
  }

  lemma IndexOf(models: map<Name, Model>, order: seq<Name>, y: Name) returns (k: nat)
    requires Ordered(models, order) && y in models
    ensures k < |order| && order[k] == y
  {
    assert y in Elems(order);
    k :| 0 <= k < |order| && order[k] == y;
  }

  /** The plan written out is a variant. */
  lemma WrittenOut(r: Request, canon: Canon, acc: Acc, p: OldProject, x: Name, plot: Plot) returns (acc': Acc)
    requires Given(r, canon, acc, p) && Leads(r, acc, p, plot, x) && PlotPlain(r, canon, acc, p, plot)
    requires forall y | y in r.models && Downstream(r.models, y, x) :: !Flagged(r, y) && y !in r.reclassify
    ensures var b := BodiesOf(r, canon, acc, p, plot);
            Variant(r, acc, p, x, Telling(MetaOf(p.models[plot.root])), Rebodied(r, p, b), b.now, acc', OldWith(p, b))
    ensures acc'.changeOf == acc.changeOf
  {
    hide Setting, PlainBelow, Ordered, Telling, Rebodied, Leads, PlotPlain, Downstream, Flagged;
    GivenParts(r, canon, acc, p);
    var b := BodiesOf(r, canon, acc, p, plot);
    AllPlotLookSame(r, canon, acc, p, plot, x);
    acc' := WrittenPlan(r, canon, acc, p, b);
    RebodiedFields(r, p, b);
    WrittenPlain(r, canon, acc, p, x, plot, Rebodied(r, p, b), b);
    RetextTwice(r.models);
    RetextTwice(p.models);
  }

  lemma RetextTwice(models: map<Name, Model>)
    ensures Retext(Retext(models)) == Retext(models)
  {
  }

  /**
   * Reuse is sound for every body and all data behind a plan's verdicts exactly when the
   * model stays: its own edit and those of the dependencies both versions share are, by
   * their verdicts and kinds, harmless.
   */
  lemma ReuseExact(w: World, r: Request, canon: Canon, acc: Acc, p: OldProject, x: Name)
    requires Setting(r, canon, acc, p) && PlainBelow(w, r, canon, p, x) && x in r.models && x in p.models
    requires Ordered(r.models, r.order) && acc.changeOf.Keys == r.models.Keys
    ensures AlwaysKept(r, acc, p, x) <==> StaysAt(r, acc, p, x)
  {
    hide Stays, Setting, Content, Variant, VariantKept, Steady, Topological, PlainBelow;
    if StaysAt(r, acc, p, x) {
      forall w', s, canon', acc', q ensures VariantKept(r, acc, p, x, w', s, canon', acc', q) {
        VariantOrNot(r, acc, p, x, w', s, canon', acc', q);
      }
    } else {
      var w', s, canon', acc', q := CounterVariant(w, r, canon, acc, p, x);
      assert !VariantKept(r, acc, p, x, w', s, canon', acc', q);
    }
  }

  lemma VariantOrNot(r: Request, acc: Acc, p: OldProject, x: Name,
                     w: World, s: Request, canon: Canon, acc': Acc, q: OldProject)
    requires x in r.models && Ordered(r.models, r.order) && acc.changeOf.Keys == r.models.Keys && StaysAt(r, acc, p, x)
    ensures VariantKept(r, acc, p, x, w, s, canon, acc', q)
  {
    hide Stays, Setting, Steady, Variant, StaysAt;
    if Variant(r, acc, p, x, w, s, canon, acc', q) {
      VariantStays(r, acc, p, x, w, s, canon, acc', q);
    }
  }

  lemma UnflaggedBelow(w: World, r: Request, canon: Canon, p: OldProject, x: Name)
    requires PlainBelow(w, r, canon, p, x)
    ensures forall y | y in r.models && Downstream(r.models, y, x) :: !Flagged(r, y) && y !in r.reclassify
  {
    hide Downstream;
    forall y | y in r.models && Downstream(r.models, y, x) ensures !Flagged(r, y) && y !in r.reclassify {
      assert Plain(w, r, canon, p, y);
    }
  }

  /** The stale plan, written out. */
  lemma CounterVariant(w: World, r: Request, canon: Canon, acc: Acc, p: OldProject, x: Name)
    returns (w': World, s: Request, canon': Canon, acc': Acc, q: OldProject)
    requires Setting(r, canon, acc, p) && PlainBelow(w, r, canon, p, x) && x in r.models && x in p.models
    requires Ordered(r.models, r.order) && acc.changeOf.Keys == r.models.Keys && !StaysAt(r, acc, p, x)
    ensures Variant(r, acc, p, x, w', s, canon', acc', q) && !VariantKept(r, acc, p, x, w', s, canon', acc', q)
  {
    hide Stays, Setting, Ordered, Rebodied, Steady, Variant, PlotPlain, Leads, Moves, PlainBelow, Downstream, Telling;
    PlanKeys(r, canon, acc, p);
    GivenParts(r, canon, acc, p);
    var k := IndexOf(r.models, r.order, x);
    var plot := PlotExists(r, acc, p, k);
    PlotIsPlain(w, r, canon, acc, p, plot, x);
    UnflaggedBelow(w, r, canon, p, x);
    var b := BodiesOf(r, canon, acc, p, plot);
    acc' := WrittenOut(r, canon, acc, p, x, plot);
    w', s, canon', q := Telling(MetaOf(p.models[plot.root])), Rebodied(r, p, b), b.now, OldWith(p, b);
    LeadsTop(r, acc, p, plot, x);
    PlotMoves(r, canon, acc, p, plot, x, k);
    MovedIsNotSteady(r, canon, acc, p, b, MetaOf(p.models[plot.root]), x, acc');
  }

  lemma LeadsTop(r: Request, acc: Acc, p: OldProject, plot: Plot, x: Name)
    requires acc.changeOf.Keys == r.models.Keys && Leads(r, acc, p, plot, x)
    ensures x == plot.root || x in plot.link
  {
  }

  lemma PlotIsPlain(w: World, r: Request, canon: Canon, acc: Acc, p: OldProject, plot: Plot, x: Name)
    requires Given(r, canon, acc, p) && PlainBelow(w, r, canon, p, x) && Leads(r, acc, p, plot, x)
    requires plot.root in p.models
    ensures PlotPlain(r, canon, acc, p, plot)
  {
    hide OwnStays, Topological, Setting, NoInputs;
    GivenParts(r, canon, acc, p);
    forall c | c == plot.root || c in plot.link
      ensures c in r.models && c in p.models && !Flagged(r, c) && c !in r.reclassify && !acc.changeOf[c].ForwardOnly?
    {
      assert Plain(w, r, canon, p, c);
      if c == plot.root { NotForwardOnlyAt(w, r, canon, acc, p, c, x); }
    }
  }

  lemma NotForwardOnlyAt(w: World, r: Request, canon: Canon, acc: Acc, p: OldProject, c: Name, x: Name)
    requires Given(r, canon, acc, p) && PlainBelow(w, r, canon, p, x) && c in r.models && Downstream(r.models, c, x)
    ensures !acc.changeOf[c].ForwardOnly?
  {
    hide PlanUpTo, Topological, Evaluable, RowWiseAst, RefsIn, Reaches;
    GivenParts(r, canon, acc, p);
    assert c in Elems(r.order);
    var k :| 0 <= k < |r.order| && r.order[k] == c;
    forall y | y in r.models && Downstream(r.models, y, c) ensures !Flagged(r, y) {
      DownstreamThrough(r.models, y, c, x);
      assert Plain(w, r, canon, p, y);
    }
    NoForwardOnlyBelow(r, canon, acc, k);
  }

  lemma DownstreamThrough(models: map<Name, Model>, y: Name, c: Name, x: Name)
    requires Downstream(models, y, c) && Downstream(models, c, x)
    ensures Downstream(models, y, x)
  {
    hide Reaches;
    if y != c && c != x {
      ReachesThrough(DependentsOf(DepMap(models)), y, c, x);
    }
  }

  lemma MovedIsNotSteady(r: Request, canon: Canon, acc: Acc, p: OldProject, b: Bodies, m0: Meta, x: Name, acc': Acc)
    requires Given(r, canon, acc, p) && Moves(r, p, b, m0, x) && acc'.changeOf == acc.changeOf
    ensures var s := Rebodied(r, p, b);
            x in s.versions && x in acc'.changeOf && !Steady(Telling(m0), s, acc', x)
  {
    hide Content, Rebodied, OldFps, NewFps, Setting;
    GivenParts(r, canon, acc, p);
    RebodiedParts(r, p, b);
  }
}
