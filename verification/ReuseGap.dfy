/**
 * Three plans in which inherited physics is stale, one for each thing the verdict
 * non-breaking does not look at (src/plan/planner.ts:302-305): a parent that broke, a kind
 * that changed, a kind that keeps history. In each a base table's SELECT list grew and the
 * mart over it, untouched, inherits its old table.
 */
module ReuseGap {
  import opened Common
  import opened Models
  import opened Intervals
  import opened Query
  import opened Graph
  import opened Fingerprints
  import opened Store
  import opened Planner
  import opened PlanFacts
  import opened Reuse

  const SRC: Name := 1
  const BASE: Name := 2
  const MART: Name := 3

  const ITEM: Item := Item(0, Col(0, 0))
  const WIDE: Item := Item(1, Col(0, 1))
  const ON_SRC: Rest := Rest([SRC], Const(1))
  const ON_BASE: Rest := Rest([BASE], Const(1))

  const NARROW_AST: Ast := Select([ITEM], ON_SRC)
  const WIDE_AST: Ast := Select([ITEM, WIDE], ON_SRC)
  const MART_AST: Ast := Select([ITEM], ON_BASE)

  const CANON: Canon := (t: Text) => if t == 0 then NARROW_AST else if t == 1 then WIDE_AST else MART_AST

  /** Which source the project reads now (0 before), and the base's kind before and now. */
  datatype Edit = Edit(at: int, was: Kind, now: Kind)

  const MOVED_SOURCE := Edit(1, Full, Full)
  const CHANGED_KIND := Edit(0, Full, TimeRange(0, 0, Day, 1, 0))
  const KEPT_HISTORY := Edit(0, UniqueKey([0]), UniqueKey([0]))

  predicate IsGap(g: Edit) {
    g == MOVED_SOURCE || g == CHANGED_KIND || g == KEPT_HISTORY
  }

  function Source(at: int): Model {
    Model(SRC, {}, External(at), 0, None, [], [], None)
  }

  function Base(kind: Kind, text: Text): Model {
    Model(BASE, {SRC}, kind, text, None, [], [], None)
  }

  const MART_MODEL: Model := Model(MART, {BASE}, Full, 2, None, [], [], None)

  function ModelsOf(at: int, kind: Kind, text: Text): map<Name, Model> {
    map[SRC := Source(at), BASE := Base(kind, text), MART := MART_MODEL]
  }

  const ORDER: seq<Name> := [SRC, BASE, MART]

  function SourceFp(at: int): Fp {
    Hash(None, Meta(ExternalP(at), None, [], [], None), [])
  }

  function BaseFp(kind: Kind, ast: Ast, at: int): Fp {
    Hash(Some(ast), Meta(PayloadOf(kind), None, [], [], None), [Parent(SRC, SourceFp(at))])
  }

  function MartFp(kind: Kind, ast: Ast, at: int): Fp {
    Hash(Some(MART_AST), Meta(FullP, None, [], [], None), [Parent(BASE, BaseFp(kind, ast, at))])
  }

  function FpsOf(kind: Kind, ast: Ast, at: int): map<Name, Fp> {
    map[SRC := SourceFp(at), BASE := BaseFp(kind, ast, at), MART := MartFp(kind, ast, at)]
  }

  lemma SingleSignature(d: Name, fps: map<Name, Fp>)
    requires d in fps
    ensures Signature({d}, fps) == [Parent(d, fps[d])]
  {
    var names := Sorted({d});
    assert |names| == 1;
    var x := names[0];
    assert x in names;
    assert x == d;
  }

  lemma NoSignature(fps: map<Name, Fp>)
    ensures Signature({}, fps) == []
  {
    assert |Sorted({})| == 0;
  }

  lemma ProjectOrdered(at: int, kind: Kind, text: Text)
    ensures Ordered(ModelsOf(at, kind, text), ORDER)
  {
    var models := ModelsOf(at, kind, text);
    var g := DepMap(models);
    assert Elems(ORDER) == {SRC, BASE, MART};
    assert models.Keys == {SRC, BASE, MART};
    assert ORDER[..0] == [] && ORDER[..1] == [SRC] && ORDER[..2] == [SRC, BASE];
    assert Elems([SRC]) == {SRC} && SRC in Elems([SRC]);
    assert Elems([SRC, BASE]) == {SRC, BASE};
    assert DepsBefore(g, ORDER, 0) && DepsBefore(g, ORDER, 1) && DepsBefore(g, ORDER, 2);
  }

  lemma ProjectFps(at: int, kind: Kind, text: Text)
    requires (text == 0 || text == 1) && !kind.External? && !kind.Seed?
    ensures Ordered(ModelsOf(at, kind, text), ORDER)
    ensures Fps(ModelsOf(at, kind, text), ORDER, CANON) == FpsOf(kind, CANON(text), at)
  {
    hide Topological, Signature, FpsUpTo;
    ProjectOrdered(at, kind, text);
    var models := ModelsOf(at, kind, text);
    var fps := Fps(models, ORDER, CANON);
    FpUnfold(models, ORDER, CANON, SRC);
    FpUnfold(models, ORDER, CANON, BASE);
    FpUnfold(models, ORDER, CANON, MART);
    NoSignature(fps);
    SingleSignature(SRC, fps);
    SingleSignature(BASE, fps);
  }

  /** The store after the old project was applied once. */
  function StoreOf(g: Edit): State {
    EMPTY.(snapshots := map[
      SnapKey(BASE, BaseFp(g.was, NARROW_AST, 0)) :=
        Snapshot(BaseFp(g.was, NARROW_AST, 0), Some(NARROW_AST), TableSnap, FINGERPRINT_VERSION, 0, None),
      SnapKey(MART, MartFp(g.was, NARROW_AST, 0)) :=
        Snapshot(MartFp(g.was, NARROW_AST, 0), Some(MART_AST), TableSnap, FINGERPRINT_VERSION, 0, None)])
  }

  function VersionsOf(g: Edit): map<Name, Version> {
    map[SRC := Version(SourceFp(g.at), None),
        BASE := Version(BaseFp(g.now, WIDE_AST, g.at), Some(WIDE_AST)),
        MART := Version(MartFp(g.now, WIDE_AST, g.at), Some(MART_AST))]
  }

  function RequestOf(g: Edit): Request {
    Request(ModelsOf(g.at, g.now, 1), ORDER, VersionsOf(g), StoreOf(g), FpsOf(g.was, NARROW_AST, 0), 0, [], map[])
  }

  function OldOf(g: Edit): OldProject {
    OldProject(ModelsOf(0, g.was, 0), ORDER, CANON)
  }

  function SourceChange(g: Edit): Change {
    if g.at == 0 then Unchanged else Breaking
  }

  lemma SourceVerdict(g: Edit)
    ensures Decide(RequestOf(g), map[], {}, SRC) == Ok(Decision(SourceChange(g), None, None, SourceFp(g.at), false))
  {
  }

  lemma BaseLooksNonBreaking(g: Edit, changeOf: map<Name, Change>)
    requires IsGap(g)
    ensures Decide(RequestOf(g), changeOf, {}, BASE)
            == Ok(Decision(NonBreaking, None, None, BaseFp(g.now, WIDE_AST, g.at), false))
  {
    assert [ITEM, WIDE][..1] == [ITEM];
    assert CategorizeAstChange(NARROW_AST, WIDE_AST) == IsNonBreaking;
  }

  lemma MartReuses(g: Edit, changeOf: map<Name, Change>)
    requires BASE in changeOf && changeOf[BASE] == NonBreaking
    ensures Decide(RequestOf(g), changeOf, {}, MART)
            == Ok(Decision(Indirect, None, Some(MartFp(g.was, NARROW_AST, 0)), MartFp(g.was, NARROW_AST, 0), true))
  {
    SingleSignature(BASE, RequestOf(g).current);
    assert ShiftedByParentsOnly(RequestOf(g), MART, MartFp(g.was, NARROW_AST, 0));
    assert ChangedParents(MART_MODEL, changeOf) == {BASE};
  }

  function Changes(g: Edit): map<Name, Change> {
    map[SRC := SourceChange(g), BASE := NonBreaking, MART := Indirect]
  }

  lemma ThePlan(g: Edit)
    requires IsGap(g)
    ensures Known(RequestOf(g)) && PlanUpTo(RequestOf(g), 3).Ok?
    ensures PlanUpTo(RequestOf(g), 3).value.changeOf == Changes(g) && PlanUpTo(RequestOf(g), 3).value.reused == {MART}
    ensures |PlanUpTo(RequestOf(g), 3).value.actions| == 3
    ensures PlanUpTo(RequestOf(g), 3).value.actions[2].physFp == MartFp(g.was, NARROW_AST, 0)
  {
    hide Decide, BackfillFor;
    var r := RequestOf(g);
    SourceVerdict(g);
    BaseLooksNonBreaking(g, map[SRC := SourceChange(g)]);
    MartReuses(g, map[SRC := SourceChange(g), BASE := NonBreaking]);
    assert PlanUpTo(r, 0) == Ok(Acc(map[], {}, []));
    assert PlanUpTo(r, 1).Ok? && PlanUpTo(r, 1).value.changeOf == map[SRC := SourceChange(g)];
    assert PlanUpTo(r, 1).value.reused == {};
    assert PlanUpTo(r, 2).Ok?;
    assert PlanUpTo(r, 2).value.changeOf == map[SRC := SourceChange(g), BASE := NonBreaking];
    assert PlanUpTo(r, 2).value.reused == {} && |PlanUpTo(r, 2).value.actions| == 2;
  }

  /**
   * The source's only row says which source it is; no range is covered; an accumulating
   * table keeps narrow rows and not the ones that grew.
   */
  const WORLD: World := World(
    (op: int, a: Value, b: Value) => 0,
    (k: KindPayload) => if k.ExternalP? then [map[0 := k.source, 1 := k.source]] else [],
    (id: int) => [],
    (m: Meta, rel: Relation) => if |rel| == 1 && 1 in rel[0] then [] else rel,
    [])

  lemma OneRow(row: Row, list: seq<Item>, at: Bounds)
    ensures Product([[row]]) == [[row]]
    ensures SelectRows(WORLD.ops, list, Const(1), [[row]], at) == [Project(WORLD.ops, list, [row], at)]
  {
    assert Product([]) == [[]];
    assert [[row]][1..] == [];
    assert Prefix(row, [[]]) == [[row]] by {
      assert [row] + [] == [row];
      assert Prefix(row, [[]][1..]) == [];
    }
    assert PairUp([row], [[]]) == [[row]];
    assert [[row]][1..] == [];
  }

  function BaseRow(ast: Ast, at: int): Row {
    if ast == WIDE_AST then map[0 := at, 1 := at] else map[0 := at]
  }

  lemma BaseAnswer(kind: Kind, ast: Ast, at: int)
    requires (ast == NARROW_AST || ast == WIDE_AST) && !kind.External? && !kind.Seed?
    ensures FromRels(WORLD, BaseFp(kind, ast, at), [SRC]) == [[map[0 := at, 1 := at]]]
    ensures EvalSelect(WORLD.ops, ast.list, ON_SRC, [[map[0 := at, 1 := at]]], NO_BOUNDS) == [BaseRow(ast, at)]
  {
    var fp := BaseFp(kind, ast, at);
    var row: Row := map[0 := at, 1 := at];
    assert Content(WORLD, SourceFp(at)) == [row];
    assert ParentContent(WORLD, fp, 1, SRC) == [row];
    assert [SRC][..0] == [];
    OneRow(row, ast.list, NO_BOUNDS);
    BaseProjected(at);
  }

  lemma BaseProjected(at: int)
    ensures var row: Row := map[0 := at, 1 := at];
            && Project(WORLD.ops, [ITEM], [row], NO_BOUNDS) == map[0 := at]
            && Project(WORLD.ops, [ITEM, WIDE], [row], NO_BOUNDS) == map[0 := at, 1 := at]
  {
    var row: Row := map[0 := at, 1 := at];
    var empty: Row := map[];
    assert [ITEM, WIDE][..1] == [ITEM] && [ITEM][..0] == [];
    assert Project(WORLD.ops, [], [row], NO_BOUNDS) == empty;
    assert Project(WORLD.ops, [ITEM], [row], NO_BOUNDS) == empty[0 := at];
  }

  /** What the base holds: its row, unless its kind covers no range or dropped the grown row. */
  function BaseRows(kind: Kind, ast: Ast, at: int): Relation {
    if kind.TimeRange? || (kind.UniqueKey? && ast == WIDE_AST) then [] else [BaseRow(ast, at)]
  }

  lemma BaseContent(kind: Kind, ast: Ast, at: int)
    requires (ast == NARROW_AST || ast == WIDE_AST) && (kind.Full? || kind.TimeRange? || kind.UniqueKey?)
    ensures Content(WORLD, BaseFp(kind, ast, at)) == BaseRows(kind, ast, at)
  {
    hide FromRels, EvalSelect;
    BaseAnswer(kind, ast, at);
  }

  lemma MartContent(kind: Kind, ast: Ast, at: int)
    requires (ast == NARROW_AST || ast == WIDE_AST) && (kind.Full? || kind.TimeRange? || kind.UniqueKey?)
    ensures Content(WORLD, MartFp(kind, ast, at)) == if BaseRows(kind, ast, at) == [] then [] else [map[0 := at]]
  {
    hide BaseRows;
    var fp := MartFp(kind, ast, at);
    BaseContent(kind, ast, at);
    var rows := BaseRows(kind, ast, at);
    assert ParentContent(WORLD, fp, 1, BASE) == rows;
    assert [BASE][..0] == [];
    assert FromRels(WORLD, fp, [BASE]) == [rows];
    MartAnswer(kind, ast, at);
  }

  lemma MartAnswer(kind: Kind, ast: Ast, at: int)
    requires ast == NARROW_AST || ast == WIDE_AST
    ensures var rows := BaseRows(kind, ast, at);
            EvalSelect(WORLD.ops, [ITEM], ON_BASE, [rows], NO_BOUNDS) == if rows == [] then [] else [map[0 := at]]
  {
    var rows := BaseRows(kind, ast, at);
    if rows == [] {
      assert PairUp([], Product([])) == [];
    } else {
      OneRow(BaseRow(ast, at), [ITEM], NO_BOUNDS);
      assert [ITEM][..0] == [];
    }
  }

  lemma StaleData(g: Edit)
    requires IsGap(g)
    ensures Content(WORLD, MartFp(g.was, NARROW_AST, 0)) != Content(WORLD, MartFp(g.now, WIDE_AST, g.at))
  {
    hide Content;
    MartContent(g.was, NARROW_AST, 0);
    MartContent(g.now, WIDE_AST, g.at);
    var a: Relation, b: Relation := [map[0 := 0]], [map[0 := 1]];
    assert a[0][0] == 0 && b[0][0] == 1;
  }

  lemma TheSetting(g: Edit)
    requires IsGap(g)
    ensures Known(RequestOf(g)) && PlanUpTo(RequestOf(g), 3).Ok?
    ensures Setting(RequestOf(g), CANON, PlanUpTo(RequestOf(g), 3).value, OldOf(g))
  {
    hide PlanUpTo, Fps, Topological;
    ThePlan(g);
    ProjectFps(g.at, g.now, 1);
    ProjectFps(0, g.was, 0);
    VersionsAreTheirs(g);
  }

  lemma VersionsAreTheirs(g: Edit)
    requires IsGap(g)
    ensures Ordered(ModelsOf(g.at, g.now, 1), ORDER)
    ensures Versions(ModelsOf(g.at, g.now, 1), ORDER, CANON) == VersionsOf(g)
  {
    hide FpsUpTo, Topological;
    ProjectFps(g.at, g.now, 1);
  }

  /** The mart does not stay: in each plan the base's own edit or its parent's may move it. */
  lemma MartDoesNotStay(g: Edit, acc: Acc)
    requires IsGap(g) && acc.changeOf == Changes(g) && Ordered(RequestOf(g).models, ORDER)
    ensures !StaysAt(RequestOf(g), acc, OldOf(g), MART)
  {
    hide Topological, Ordered;
    var r, p := RequestOf(g), OldOf(g);
    assert g == MOVED_SOURCE ==> !Stays(r, acc, p, 0);
    assert ORDER[0] == SRC && ORDER[1] == BASE && ORDER[2] == MART;
    assert !Stays(r, acc, p, 1);
    assert !Stays(r, acc, p, 2);
  }

  /** The mart is planned to inherit, does not stay, and its inherited table is not what a rebuild holds. */
  ghost predicate InheritsStale(g: Edit, acc: Acc) {
    var r := RequestOf(g);
    && Setting(r, CANON, acc, OldOf(g)) && Ordered(r.models, r.order) && acc.changeOf.Keys == r.models.Keys
    && acc.changeOf == Changes(g) && MART in acc.reused && |acc.actions| == 3
    && !StaysAt(r, acc, OldOf(g), MART)
    && Content(WORLD, acc.actions[2].physFp) != Content(WORLD, MartFp(g.now, WIDE_AST, g.at))
  }

  /** The parent broke, the kind changed, or the kind keeps history: each plan is stale. */
  lemma UnguardedReuseIsStale(g: Edit)
    requires g == MOVED_SOURCE || g == CHANGED_KIND || g == KEPT_HISTORY
    ensures Known(RequestOf(g)) && PlanUpTo(RequestOf(g), 3).Ok?
    ensures InheritsStale(g, PlanUpTo(RequestOf(g), 3).value)
  {
    hide Content, PlanUpTo, Decide, Setting, StaysAt, Topological;
    ThePlan(g);
    TheSetting(g);
    ProjectOrdered(g.at, g.now, 1);
    MartDoesNotStay(g, PlanUpTo(RequestOf(g), 3).value);
    StaleData(g);
  }
}
