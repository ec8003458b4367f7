/**
 * Why inherited physics may stand in for a rebuild (src/plan/planner.ts,
 * src/plan/categorize.ts), and when it may not. A fingerprint is a tree of payloads, so
 * it has a meaning of its own: the relation its version's query evaluates to.
 */
module Reuse {
  import opened Common
  import opened Models
  import opened Query
  import opened Graph
  import opened Fingerprints
  import opened Store
  import opened Planner
  import opened PlanFacts

  /**
   * The data outside the project: what the operators compute, what sources and files
   * hold, which ranges the incremental models cover, and how the kinds that accumulate
   * over applies (unique key, SCD type 2) turn a query's result into a table.
   */
  datatype World = World(
    ops: Ops,
    source: KindPayload -> Relation,
    foreign: int -> Relation,
    accumulate: (Meta, Relation) -> Relation,
    ranges: seq<Bounds>)

  const NO_BOUNDS := Bounds(0, 0)

  function Content(w: World, fp: Fp): Relation
    decreases fp, 2, 0
  {
    match fp
    case Foreign(id) => w.foreign(id)
    case Hash(None, meta, _) => w.source(meta.kind)
    case Hash(Some(Other(_)), _, _) => []
    case Hash(Some(Select(list, rest)), meta, _) =>
      Materialize(w, meta, list, rest, FromRels(w, fp, rest.from))
  }

  /** The relations of the FROM entries, taken from the version's own parents. */
  function FromRels(w: World, fp: Fp, from: seq<Name>): (rels: seq<Relation>)
    requires fp.Hash?
    ensures |rels| == |from|
    decreases fp, 1, |from|
  {
    if from == [] then [] else
      var n := |from| - 1;
      FromRels(w, fp, from[..n]) + [ParentContent(w, fp, |fp.parents|, from[n])]
  }

  /** The content of the named parent among the first `k`. */
  function ParentContent(w: World, fp: Fp, k: nat, name: Name): Relation
    requires fp.Hash? && k <= |fp.parents|
    decreases fp, 0, k
  {
    if k == 0 then [] else
      var last := fp.parents[k - 1];
      if last.name == name then Content(w, last.fp) else ParentContent(w, fp, k - 1, name)
  }

  function ParentOf(w: World, fp: Fp, name: Name): Relation
    requires fp.Hash?
  {
    ParentContent(w, fp, |fp.parents|, name)
  }

  predicate Accumulates(kind: KindPayload) {
    kind.UniqueKeyP? || kind.Scd2P?
  }

  predicate SourceKind(kind: KindPayload) {
    kind.ExternalP? || kind.SeedP?
  }

  /** Both kinds turn a query's answer into a table in the same way. */
  predicate Alike(a: Meta, b: Meta) {
    && !SourceKind(a.kind) && !SourceKind(b.kind)
    && (a.kind.TimeRangeP? <==> b.kind.TimeRangeP?)
    && (Accumulates(a.kind) || Accumulates(b.kind) ==> a == b)
  }

  function Materialize(w: World, meta: Meta, list: seq<Item>, rest: Rest, rels: seq<Relation>): Relation {
    if meta.kind.TimeRangeP? then Ranged(w.ops, list, rest, rels, w.ranges)
    else if Accumulates(meta.kind) then w.accumulate(meta, EvalSelect(w.ops, list, rest, rels, NO_BOUNDS))
    else EvalSelect(w.ops, list, rest, rels, NO_BOUNDS)
  }

  /** An incremental table: the body over each covered range. */
  function Ranged(ops: Ops, list: seq<Item>, rest: Rest, rels: seq<Relation>, ranges: seq<Bounds>): Relation {
    if ranges == [] then [] else
      EvalSelect(ops, list, rest, rels, ranges[0]) + Ranged(ops, list, rest, rels, ranges[1..])
  }

  // ----- materialization respects widening -----

  lemma {:induction false} RangedStable(ops: Ops, list: seq<Item>, rest: Rest, a: seq<Relation>, b: seq<Relation>,
                                        ranges: seq<Bounds>)
    requires QueryTyped(list, rest.where, Product(a)) && RelsExtend(a, b)
    ensures Ranged(ops, list, rest, a, ranges) == Ranged(ops, list, rest, b, ranges)
  {
    if ranges != [] {
      SelectStable(ops, list, rest, a, b, ranges[0]);
      RangedStable(ops, list, rest, a, b, ranges[1..]);
    }
  }

  lemma {:induction false} RangedWidened(ops: Ops, list: seq<Item>, suffix: seq<Item>, rest: Rest,
                                         a: seq<Relation>, b: seq<Relation>, ranges: seq<Bounds>)
    requires QueryTyped(list, rest.where, Product(a)) && RelsExtend(a, b) && Names(list) !! Names(suffix)
    ensures Extends(Ranged(ops, list, rest, a, ranges), Ranged(ops, list + suffix, rest, b, ranges))
  {
    if ranges != [] {
      SelectWidened(ops, list, suffix, rest, a, b, ranges[0]);
      RangedWidened(ops, list, suffix, rest, a, b, ranges[1..]);
      ExtendsJoin(EvalSelect(ops, list, rest, a, ranges[0]), Ranged(ops, list, rest, a, ranges[1..]),
                  EvalSelect(ops, list + suffix, rest, b, ranges[0]), Ranged(ops, list + suffix, rest, b, ranges[1..]));
    }
  }

  lemma MaterializeStable(w: World, meta: Meta, meta': Meta, list: seq<Item>, rest: Rest,
                          a: seq<Relation>, b: seq<Relation>)
    requires QueryTyped(list, rest.where, Product(a)) && RelsExtend(a, b) && Alike(meta, meta')
    ensures Materialize(w, meta, list, rest, a) == Materialize(w, meta', list, rest, b)
  {
    RangedStable(w.ops, list, rest, a, b, w.ranges);
    SelectStable(w.ops, list, rest, a, b, NO_BOUNDS);
  }

  lemma MaterializeWidened(w: World, meta: Meta, meta': Meta, list: seq<Item>, suffix: seq<Item>, rest: Rest,
                           a: seq<Relation>, b: seq<Relation>)
    requires QueryTyped(list, rest.where, Product(a)) && RelsExtend(a, b) && Names(list) !! Names(suffix)
    requires Alike(meta, meta') && !Accumulates(meta'.kind)
    ensures Extends(Materialize(w, meta, list, rest, a), Materialize(w, meta', list + suffix, rest, b))
  {
    RangedWidened(w.ops, list, suffix, rest, a, b, w.ranges);
    SelectWidened(w.ops, list, suffix, rest, a, b, NO_BOUNDS);
  }

  // ----- a signature gives each dependency its own content -----

  ghost predicate DistinctParents(ps: seq<Parent>) {
    forall i, j | 0 <= i < j < |ps| :: ps[i].name != ps[j].name
  }

  lemma {:induction false} ParentAt(w: World, fp: Fp, k: nat, i: nat)
    requires fp.Hash? && DistinctParents(fp.parents) && i < k <= |fp.parents|
    ensures ParentContent(w, fp, k, fp.parents[i].name) == Content(w, fp.parents[i].fp)
    decreases k
  {
    if i < k - 1 {
      ParentAt(w, fp, k - 1, i);
    }
  }

  lemma SignatureContent(w: World, fp: Fp, deps: set<Name>, fps: map<Name, Fp>, d: Name)
    requires fp.Hash? && fp.parents == Signature(deps, fps) && d in deps && d in fps
    ensures ParentOf(w, fp, d) == Content(w, fps[d])
  {
    hide Content;
    var names := Sorted(deps);
    assert d in names;
    var i :| 0 <= i < |names| && names[i] == d;
    assert fp.parents[i] == Parent(d, fps[d]);
    ParentAt(w, fp, |fp.parents|, i);
  }

  ghost predicate AllIn(from: seq<Name>, deps: set<Name>) {
    forall i | 0 <= i < |from| :: from[i] in deps
  }

  lemma {:induction false} FromRelsExtend(w: World, p: Fp, q: Fp, from: seq<Name>)
    requires p.Hash? && q.Hash?
    requires forall i | 0 <= i < |from| :: Extends(ParentOf(w, p, from[i]), ParentOf(w, q, from[i]))
    ensures RelsExtend(FromRels(w, p, from), FromRels(w, q, from))
  {
    hide ParentContent, Extends;
    if from != [] {
      var n := |from| - 1;
      FromRelsExtend(w, p, q, from[..n]);
      assert Extends(ParentOf(w, p, from[n]), ParentOf(w, q, from[n]));
    }
  }

  // ----- hypotheses -----

  ghost predicate RefsIn(ast: Option<Ast>, deps: set<Name>) {
    ast.Some? && ast.value.Select? ==> AllIn(ast.value.rest.from, deps)
  }

  ghost predicate RowWiseAst(ast: Option<Ast>) {
    ast.Some? ==> ast.value.Select? && DistinctItems(ast.value.list)
  }

  ghost predicate DistinctItems(list: seq<Item>) {
    forall i, j | 0 <= i < j < |list| :: list[i].name != list[j].name
  }

  /** The old version was evaluable: its query reads only columns its parents had. */
  ghost predicate Evaluable(w: World, fp: Fp) {
    fp.Hash? && fp.ast.Some? && fp.ast.value.Select? ==>
      var q := fp.ast.value;
      QueryTyped(q.list, q.rest.where, Product(FromRels(w, fp, q.rest.from)))
  }

  /** Snapshots of the current algorithm store the AST their fingerprint hashes. */
  ghost predicate StoreHonest(s: State) {
    forall k | k in s.snapshots && s.snapshots[k].version == FINGERPRINT_VERSION ::
      k.fp.Hash? && s.snapshots[k].ast == k.fp.ast
  }

  /** The environment serves an earlier project. */
  datatype OldProject = OldProject(models: map<Name, Model>, order: seq<Name>, canon: Canon)

  ghost predicate Serves(r: Request, p: OldProject) {
    Ordered(p.models, p.order) && r.current == Fps(p.models, p.order, p.canon)
  }

  /** A plan over an environment that serves an earlier project, from an honest store. */
  ghost predicate Setting(r: Request, canon: Canon, acc: Acc, p: OldProject) {
    Planned(r, canon, acc) && StoreHonest(r.store) && Serves(r, p)
  }

  /**
   * One model is in the fragment: a row-wise select with distinct columns over declared
   * dependencies, whose old version was evaluable, without operator flags.
   */
  ghost predicate Plain(w: World, r: Request, canon: Canon, p: OldProject, y: Name)
    requires y in r.models
  {
    && RowWiseAst(AstOf(canon, r.models[y])) && RefsIn(AstOf(canon, r.models[y]), r.models[y].deps)
    && (y in p.models ==> RefsIn(AstOf(p.canon, p.models[y]), p.models[y].deps))
    && (y in r.current ==> Evaluable(w, r.current[y]))
    && !Flagged(r, y) && y !in r.reclassify
  }

  /** `x` and everything it depends on are; the rest of the project may be anything. */
  ghost predicate PlainBelow(w: World, r: Request, canon: Canon, p: OldProject, x: Name) {
    forall y | y in r.models && Downstream(r.models, y, x) :: Plain(w, r, canon, p, y)
  }

  // ----- what a plan leaves to chance -----

  /**
   * The model's own edit cannot move its old columns: it is none; the body stands and
   * its kind builds the same table of it; the select list grew and the kind keeps no
   * history; or it is a source of the same data.
   */
  predicate OwnStays(r: Request, acc: Acc, p: OldProject, x: Name)
    requires x in r.models && x in acc.changeOf
  {
    x in p.models &&
    var was, now := MetaOf(p.models[x]), MetaOf(r.models[x]);
    match acc.changeOf[x]
    case Unchanged => true
    case Indirect => Alike(was, now)
    case NonBreaking => Alike(was, now) && !Accumulates(now.kind)
    case _ => SourceKind(now.kind) && now.kind == was.kind
  }

  /** Nothing to inherit a movement from. */
  predicate NoInputs(r: Request, acc: Acc, x: Name)
    requires x in r.models && x in acc.changeOf
  {
    acc.changeOf[x].Unchanged? || SourceKind(PayloadOf(r.models[x].kind))
  }

  /** Its own edit cannot, nor can that of any dependency both versions declare. */
  ghost predicate Stays(r: Request, acc: Acc, p: OldProject, k: nat)
    requires Ordered(r.models, r.order) && acc.changeOf.Keys == r.models.Keys && k < |r.order|
    decreases k
  {
    DepsEarlier(r.models, r.order, k);
    var x := r.order[k];
    OwnStays(r, acc, p, x) &&
    (NoInputs(r, acc, x)
     || forall j | 0 <= j < k && r.order[j] in r.models[x].deps * p.models[x].deps :: Stays(r, acc, p, j))
  }

  ghost predicate StaysAt(r: Request, acc: Acc, p: OldProject, x: Name)
    requires Ordered(r.models, r.order) && acc.changeOf.Keys == r.models.Keys
  {
    exists k :: 0 <= k < |r.order| && r.order[k] == x && Stays(r, acc, p, k)
  }

  // ----- the facts a verdict stands for -----

  /** The facts the planner has established when it lets a model reuse. */
  lemma ReuseShape(r: Request, acc: Acc, x: Name)
    requires x in r.models && x in r.versions && Decide(r, acc.changeOf, acc.reused, x).Ok?
    requires Decide(r, acc.changeOf, acc.reused, x).value.reuses
    ensures x in r.current && ShiftedByParentsOnly(r, x, r.current[x])
    ensures IndirectReuse(r.models[x], acc.changeOf, acc.reused)
    ensures Decide(r, acc.changeOf, acc.reused, x).value.change.Indirect?
    ensures SnapKey(x, r.current[x]) in r.store.snapshots
    ensures Decide(r, acc.changeOf, acc.reused, x).value.physFp == r.store.snapshots[SnapKey(x, r.current[x])].physFp
  {
  }

  /** What is compared when a model is called indirect or non-breaking without an override. */
  lemma ComparedShape(r: Request, acc: Acc, x: Name)
    requires x in r.models && x in r.versions && Decide(r, acc.changeOf, acc.reused, x).Ok?
    requires x !in r.reclassify
    requires var c := Decide(r, acc.changeOf, acc.reused, x).value.change; c.NonBreaking? || c.Indirect?
    ensures x in r.current
    ensures var prev := SnapshotOf(r.store, x, r.current[x]);
            && prev.Some? && prev.value.version == FINGERPRINT_VERSION
            && prev.value.ast.Some? && r.versions[x].ast.Some?
            && (Decide(r, acc.changeOf, acc.reused, x).value.change.NonBreaking? ==>
                  CategorizeAstChange(prev.value.ast.value, r.versions[x].ast.value).IsNonBreaking?)
            && (Decide(r, acc.changeOf, acc.reused, x).value.change.Indirect? ==> prev.value.ast == r.versions[x].ast)
  {
  }

  lemma VersionOf(r: Request, canon: Canon, x: Name)
    requires WellFormed(r, canon) && x in r.models
    ensures r.models[x].deps <= r.models.Keys && x in r.versions
    ensures r.versions[x] == Version(Fps(r.models, r.order, canon)[x], AstOf(canon, r.models[x]))
    ensures r.versions[x].fp == Hash(AstOf(canon, r.models[x]), MetaOf(r.models[x]),
                                     Signature(r.models[x].deps, Fps(r.models, r.order, canon)))
  {
    FpUnfold(r.models, r.order, canon, x);
  }

  lemma NamesApart(list: seq<Item>, suffix: seq<Item>)
    requires DistinctItems(list + suffix)
    ensures Names(list) !! Names(suffix)
  {
    forall i, j | 0 <= i < |list| && 0 <= j < |suffix| ensures list[i].name != suffix[j].name {
      assert (list + suffix)[i] == list[i] && (list + suffix)[|list| + j] == suffix[j];
    }
  }

  // ----- the two inheritance arguments, one version at a time -----

  /** Same body, kinds alike, steady parents: the same relation. */
  lemma SameBodySameContent(w: World, p: Fp, q: Fp)
    requires p.Hash? && q.Hash? && p.ast == q.ast && Alike(p.meta, q.meta) && Evaluable(w, p)
    requires p.ast.Some? && p.ast.value.Select?
    requires var from := p.ast.value.rest.from;
             forall i | 0 <= i < |from| :: Extends(ParentOf(w, p, from[i]), ParentOf(w, q, from[i]))
    ensures Content(w, p) == Content(w, q)
  {
    hide ParentContent, Extends, Materialize;
    var Select(list, rest) := p.ast.value;
    FromRelsExtend(w, p, q, rest.from);
    MaterializeStable(w, p.meta, q.meta, list, rest, FromRels(w, p, rest.from), FromRels(w, q, rest.from));
  }

  /** A suffix on the SELECT list over steady parents: the same rows, further columns. */
  lemma SuffixBodyWidens(w: World, p: Fp, q: Fp, suffix: seq<Item>)
    requires p.Hash? && q.Hash? && Evaluable(w, p)
    requires p.ast.Some? && p.ast.value.Select?
    requires q.ast == Some(Select(p.ast.value.list + suffix, p.ast.value.rest))
    requires Alike(p.meta, q.meta) && !Accumulates(q.meta.kind)
    requires DistinctItems(p.ast.value.list + suffix)
    requires var from := p.ast.value.rest.from;
             forall i | 0 <= i < |from| :: Extends(ParentOf(w, p, from[i]), ParentOf(w, q, from[i]))
    ensures Extends(Content(w, p), Content(w, q))
  {
    hide ParentContent, Extends, Materialize;
    var Select(list, rest) := p.ast.value;
    NamesApart(list, suffix);
    FromRelsExtend(w, p, q, rest.from);
    MaterializeWidened(w, p.meta, q.meta, list, suffix, rest, FromRels(w, p, rest.from), FromRels(w, q, rest.from));
  }

  /** The parents of two signatures, one dependency at a time. */
  lemma ParentsExtend(w: World, p: Fp, q: Fp, depsP: set<Name>, depsQ: set<Name>, a: map<Name, Fp>, b: map<Name, Fp>,
                      from: seq<Name>)
    requires p.Hash? && q.Hash? && p.parents == Signature(depsP, a) && q.parents == Signature(depsQ, b)
    requires depsP <= a.Keys && depsQ <= b.Keys && AllIn(from, depsP) && AllIn(from, depsQ)
    requires forall d | d in depsP * depsQ :: Extends(Content(w, a[d]), Content(w, b[d]))
    ensures forall i | 0 <= i < |from| :: Extends(ParentOf(w, p, from[i]), ParentOf(w, q, from[i]))
  {
    hide Content, Extends, ParentContent, Signature;
    forall i | 0 <= i < |from| ensures Extends(ParentOf(w, p, from[i]), ParentOf(w, q, from[i])) {
      var d := from[i];
      assert d in depsP && d in depsQ && d in depsP * depsQ;
      SignatureContent(w, p, depsP, a, d);
      SignatureContent(w, q, depsQ, b, d);
    }
  }

  // ----- the induction over the DAG -----

  /** What staying means for the data: the old columns hold what they held. */
  ghost predicate Steady(w: World, r: Request, acc: Acc, x: Name)
    requires x in r.versions && x in acc.changeOf
  {
    && x in r.current && Extends(Content(w, r.current[x]), Content(w, r.versions[x].fp))
    && (!acc.changeOf[x].NonBreaking? ==> Content(w, r.versions[x].fp) == Content(w, r.current[x]))
  }

  /** What the fingerprints of an old and a new version look like from inside. */
  lemma BothVersions(r: Request, canon: Canon, p: OldProject, x: Name)
    requires WellFormed(r, canon) && Serves(r, p) && x in r.models && x in p.models && x in r.versions
    ensures x in r.current && p.models[x].deps <= r.current.Keys
    ensures r.current[x]
            == Hash(AstOf(p.canon, p.models[x]), MetaOf(p.models[x]), Signature(p.models[x].deps, r.current))
    ensures r.versions[x].fp == Hash(AstOf(canon, r.models[x]), MetaOf(r.models[x]),
                                     Signature(r.models[x].deps, Fps(r.models, r.order, canon)))
    ensures r.models[x].deps <= r.models.Keys
  {
    VersionOf(r, canon, x);
    FpUnfold(p.models, p.order, p.canon, x);
  }

  lemma CommonParentsExtend(w: World, r: Request, canon: Canon, acc: Acc, p: OldProject, x: Name, from: seq<Name>)
    requires Setting(r, canon, acc, p) && x in r.models && x in p.models && x in r.versions && x in r.current
    requires acc.changeOf.Keys == r.versions.Keys == r.models.Keys && r.current[x].Hash? && r.versions[x].fp.Hash?
    requires AllIn(from, p.models[x].deps) && AllIn(from, r.models[x].deps)
    requires forall d | d in r.models[x].deps * p.models[x].deps :: d in r.versions && Steady(w, r, acc, d)
    ensures forall i | 0 <= i < |from| ::
              Extends(ParentOf(w, r.current[x], from[i]), ParentOf(w, r.versions[x].fp, from[i]))
  {
    hide Content, Extends, ParentContent, Signature, Planned, StoreHonest, Serves;
    assert WellFormed(r, canon) && Serves(r, p) by { SettingParts(r, canon, acc, p); }
    BothVersions(r, canon, p, x);
    var fps := Fps(r.models, r.order, canon) by { SettingParts(r, canon, acc, p); }
    forall d | d in p.models[x].deps * r.models[x].deps ensures Extends(Content(w, r.current[d]), Content(w, fps[d])) {
      assert d in r.models[x].deps * p.models[x].deps;
      VersionOf(r, canon, d);
      assert Steady(w, r, acc, d);
    }
    ParentsExtend(w, r.current[x], r.versions[x].fp, p.models[x].deps, r.models[x].deps, r.current, fps, from);
  }

  lemma SettingParts(r: Request, canon: Canon, acc: Acc, p: OldProject)
    requires Setting(r, canon, acc, p)
    ensures WellFormed(r, canon) && Serves(r, p) && Ordered(r.models, r.order) && Ordered(p.models, p.order)
    ensures r.current.Keys == p.models.Keys
  {
  }

  /** One model whose own edit is harmless, over common dependencies that stayed. */
  lemma SteadyStep(w: World, r: Request, canon: Canon, acc: Acc, p: OldProject, x: Name)
    requires Setting(r, canon, acc, p) && x in r.models && Plain(w, r, canon, p, x)
    requires acc.changeOf.Keys == r.versions.Keys == r.models.Keys
    requires OwnStays(r, acc, p, x) && (acc.changeOf[x].Indirect? || acc.changeOf[x].NonBreaking?)
    requires forall d | d in r.models[x].deps * p.models[x].deps :: d in r.versions && Steady(w, r, acc, d)
    ensures Steady(w, r, acc, x)
  {
    hide Content, Extends, ParentContent, Signature, Decide, PlanUpTo, Evaluable;
    PlanLocalName(r, canon, acc, x);
    ComparedShape(r, acc, x);
    BothVersions(r, canon, p, x);
    var known, fp := r.current[x], r.versions[x].fp;
    assert SnapKey(x, known) in r.store.snapshots;
    var oldAst, newAst := known.ast.value, fp.ast.value;
    if acc.changeOf[x].Indirect? {
      CommonParentsExtend(w, r, canon, acc, p, x, newAst.rest.from);
      SameBodySameContent(w, known, fp);
      ContentExtendsItself(w, fp);
    } else {
      NonBreakingIsSuffix(oldAst, newAst);
      var suffix: seq<Item> :| suffix != [] && newAst == Select(oldAst.list + suffix, oldAst.rest);
      CommonParentsExtend(w, r, canon, acc, p, x, newAst.rest.from);
      SuffixBodyWidens(w, known, fp, suffix);
    }
  }

  lemma ContentExtendsItself(w: World, fp: Fp)
    ensures Extends(Content(w, fp), Content(w, fp))
  {
    hide Content;
    ExtendsSelf(Content(w, fp));
  }

  /** A version that did not move, and a source of the same data. */
  lemma ClosedIsSteady(w: World, r: Request, canon: Canon, acc: Acc, p: OldProject, x: Name)
    requires Setting(r, canon, acc, p) && x in r.models && acc.changeOf.Keys == r.versions.Keys == r.models.Keys
    requires OwnStays(r, acc, p, x) && NoInputs(r, acc, x)
    ensures Steady(w, r, acc, x)
  {
    hide Extends, ParentContent, FromRels, Materialize, Signature, Decide, PlanUpTo;
    BothVersions(r, canon, p, x);
    if acc.changeOf[x].Unchanged? {
      VerdictsByFingerprint(r, canon, acc, x);
    } else {
      SourcesHaveNoAst(r, canon, acc, p, x);
    }
    ContentExtendsItself(w, r.versions[x].fp);
  }

  lemma SourcesHaveNoAst(r: Request, canon: Canon, acc: Acc, p: OldProject, x: Name)
    requires Setting(r, canon, acc, p) && x in r.models && acc.changeOf.Keys == r.versions.Keys == r.models.Keys
    requires OwnStays(r, acc, p, x) && SourceKind(PayloadOf(r.models[x].kind)) && !acc.changeOf[x].Unchanged?
    ensures PayloadOf(p.models[x].kind) == PayloadOf(r.models[x].kind)
    ensures AstOf(canon, r.models[x]).None? && AstOf(p.canon, p.models[x]).None?
  {
  }

  lemma {:induction false} StaysIsSteady(w: World, r: Request, canon: Canon, acc: Acc, p: OldProject, k: nat)
    requires Setting(r, canon, acc, p) && acc.changeOf.Keys == r.versions.Keys == r.models.Keys
    requires k < |r.order| && PlainBelow(w, r, canon, p, r.order[k])
    requires Ordered(r.models, r.order) && Stays(r, acc, p, k)
    ensures r.order[k] in r.models && Steady(w, r, acc, r.order[k])
    decreases k
  {
    hide Content, Extends, Decide, PlanUpTo, Steady, Plain, Setting, OwnStays;
    var x := r.order[k];
    DepsEarlier(r.models, r.order, k);
    assert Downstream(r.models, x, x);
    if NoInputs(r, acc, x) {
      ClosedIsSteady(w, r, canon, acc, p, x);
    } else {
      OpenVerdict(r, acc, p, x);
      forall d | d in r.models[x].deps * p.models[x].deps ensures d in r.versions && Steady(w, r, acc, d) {
        assert d in Elems(r.order[..k]);
        var j :| 0 <= j < k && r.order[..k][j] == d;
        BelowDeps(w, r, canon, p, x, d);
        assert Stays(r, acc, p, j);
        StaysIsSteady(w, r, canon, acc, p, j);
      }
      SteadyStep(w, r, canon, acc, p, x);
    }
  }

  lemma OpenVerdict(r: Request, acc: Acc, p: OldProject, x: Name)
    requires x in r.models && x in acc.changeOf && OwnStays(r, acc, p, x) && !NoInputs(r, acc, x)
    ensures x in p.models && (acc.changeOf[x].Indirect? || acc.changeOf[x].NonBreaking?)
  {
  }

  lemma BelowDeps(w: World, r: Request, canon: Canon, p: OldProject, x: Name, d: Name)
    requires x in r.models && d in r.models && d in r.models[x].deps && PlainBelow(w, r, canon, p, x)
    ensures PlainBelow(w, r, canon, p, d)
  {
    hide Plain;
    forall y | y in r.models && Downstream(r.models, y, d) ensures Plain(w, r, canon, p, y) {
      DownstreamStep(r.models, y, d, x);
    }
  }

  /**
   * Reuse is sound, one model at a time. A model planned unchanged, or indirect with
   * reuse, evaluates to exactly what the environment's version does, and one planned
   * non-breaking to the same rows with further columns, as long as it stays: no edit
   * below it that the verdicts leave open can reach it. Models elsewhere do not matter.
   */
  lemma ReuseSound(w: World, r: Request, canon: Canon, acc: Acc, p: OldProject, x: Name)
    requires Setting(r, canon, acc, p) && PlainBelow(w, r, canon, p, x) && x in r.models
    requires Ordered(r.models, r.order) && acc.changeOf.Keys == r.versions.Keys == r.models.Keys
    requires StaysAt(r, acc, p, x)
    ensures x in r.current && Extends(Content(w, r.current[x]), Content(w, r.versions[x].fp))
    ensures !acc.changeOf[x].NonBreaking? ==> Content(w, r.versions[x].fp) == Content(w, r.current[x])
  {
    hide Content, Extends, Stays;
    var k :| 0 <= k < |r.order| && r.order[k] == x && Stays(r, acc, p, k);
    StaysIsSteady(w, r, canon, acc, p, k);
  }
}
