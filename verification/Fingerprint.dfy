/**
 * Fingerprints (src/plan/fingerprint.ts). The hash is taken to be injective on its
 * payload, so a fingerprint is the payload itself: a tree whose children are the
 * fingerprints of the direct dependencies. Note what the payload leaves out: the name.
 */
module Fingerprints {
  import opened Common
  import opened Models
  import opened Intervals
  import opened Query
  import opened Graph

  const FINGERPRINT_VERSION := 2

  /** `Foreign` is a hash no current payload produces: one of another algorithm version. */
  datatype Fp = Hash(ast: Option<Ast>, meta: Meta, parents: seq<Parent>) | Foreign(id: int)

  datatype Parent = Parent(name: Name, fp: Fp)

  datatype Meta = Meta(
    kind: KindPayload,
    grain: Option<seq<Column>>,
    columns: seq<Column>,
    families: seq<int>,
    target: Option<int>)

  datatype KindPayload =
    | FullP
    | ViewP
    | EmbeddedP
    | TimeRangeP(timeColumn: Column, unit: Unit)
    | UniqueKeyP(key: seq<Column>)
    | Scd2P(scdKey: seq<Column>, validFrom: Column, validTo: Column)
    | ExternalP(source: int)
    | SeedP(file: int, contents: int)

  datatype Version = Version(fp: Fp, ast: Option<Ast>)

  /** The part of the kind that affects data: not `start`, `batchSize` or `lookback`. */
  function PayloadOf(kind: Kind): KindPayload {
    match kind
    case Full => FullP
    case View => ViewP
    case Embedded => EmbeddedP
    case TimeRange(column, _, unit, _, _) => TimeRangeP(column, unit)
    case UniqueKey(key) => UniqueKeyP(key)
    case Scd2(key, from, until) => Scd2P(key, from, until)
    case External(source) => ExternalP(source)
    case Seed(file, contents) => SeedP(file, contents)
  }

  function MetaOf(m: Model): Meta {
    Meta(PayloadOf(m.kind), m.grain, m.columns, m.families, m.target)
  }

  function ModelFingerprint(m: Model, ast: Option<Ast>, parents: seq<Parent>): Fp {
    Hash(ast, MetaOf(m), parents)
  }

  /** The engine's canonicalizer, on texts that parse. */
  type Canon = Text -> Ast

  function AstOf(canon: Canon, m: Model): Option<Ast> {
    if m.kind.External? || m.kind.Seed? then None else Some(canon(m.text))
  }

  /** `[...deps].sort().map(dep => name=fingerprint)`. */
  function Signature(deps: set<Name>, fps: map<Name, Fp>): seq<Parent> {
    var names := Sorted(deps);
    seq(|names|, i requires 0 <= i < |names| => Parent(names[i], Lookup(fps, names[i])))
  }

  /** `versions.get(dep)!`; a dependency always precedes its dependents. */
  function Lookup(fps: map<Name, Fp>, name: Name): Fp {
    if name in fps then fps[name] else Foreign(0)
  }

  /** Two signatures agree exactly when every dependency's fingerprint agrees. */
  lemma SignatureExact(deps: set<Name>, a: map<Name, Fp>, b: map<Name, Fp>)
    requires deps <= a.Keys && deps <= b.Keys
    ensures Signature(deps, a) == Signature(deps, b) <==> forall d | d in deps :: a[d] == b[d]
  {
    var names := Sorted(deps);
    var s, t := Signature(deps, a), Signature(deps, b);
    if s == t {
      forall d | d in deps ensures a[d] == b[d] {
        assert d in names;
        var i :| 0 <= i < |names| && names[i] == d;
        assert s[i] == Parent(d, a[d]) && t[i] == Parent(d, b[d]);
      }
    }
    if forall d | d in deps :: a[d] == b[d] {
      forall i | 0 <= i < |names| ensures s[i] == t[i] {
        var d := names[i];
        assert d in names;
      }
    }
  }

  /** A signature tells its dependencies and each of their fingerprints. */
  lemma SignatureTells(a: set<Name>, f: map<Name, Fp>, b: set<Name>, g: map<Name, Fp>)
    requires a <= f.Keys && b <= g.Keys
    ensures Signature(a, f) == Signature(b, g) <==> a == b && forall d | d in a :: f[d] == g[d]
  {
    if Signature(a, f) == Signature(b, g) {
      var xs, ys := Sorted(a), Sorted(b);
      assert |xs| == |Signature(a, f)| == |ys|;
      forall i | 0 <= i < |xs| ensures xs[i] == ys[i] {
        assert Signature(a, f)[i].name == xs[i] && Signature(b, g)[i].name == ys[i];
      }
      assert xs == ys;
      assert forall x :: x in a <==> x in xs;
      assert a == b;
    }
    if a == b {
      SignatureExact(a, f, g);
    }
  }

  // ----- fingerprintGraph -----

  /** A graph whose order lists every model after its dependencies. */
  ghost predicate Ordered(models: map<Name, Model>, order: seq<Name>) {
    Elems(order) == models.Keys && Topological(DepMap(models), order)
  }

  function DepMap(models: map<Name, Model>): Deps {
    map x | x in models :: models[x].deps
  }

  lemma DepsEarlier(models: map<Name, Model>, order: seq<Name>, k: nat)
    requires Ordered(models, order) && k < |order|
    ensures order[k] in models && models[order[k]].deps <= Elems(order[..k])
    ensures order[k] !in Elems(order[..k])
  {
    assert DepsBefore(DepMap(models), order, k);
  }

  /** The fingerprints of the first `k` models of the order. */
  function FpsUpTo(models: map<Name, Model>, order: seq<Name>, canon: Canon, k: nat): map<Name, Fp>
    requires k <= |order| && AllKnown(models, order)
  {
    if k == 0 then map[] else
      var fps := FpsUpTo(models, order, canon, k - 1);
      fps[order[k - 1] := FpGiven(models[order[k - 1]], canon, fps)]
  }

  predicate AllKnown(models: map<Name, Model>, order: seq<Name>) {
    forall i | 0 <= i < |order| :: order[i] in models
  }

  lemma OrderedKnown(models: map<Name, Model>, order: seq<Name>)
    requires Ordered(models, order)
    ensures AllKnown(models, order)
  {
    forall i | 0 <= i < |order| ensures order[i] in models { DepsEarlier(models, order, i); }
  }

  function FpGiven(m: Model, canon: Canon, fps: map<Name, Fp>): Fp {
    ModelFingerprint(m, AstOf(canon, m), Signature(m.deps, fps))
  }

  lemma {:induction false} FpsKeys(models: map<Name, Model>, order: seq<Name>, canon: Canon, k: nat)
    requires AllKnown(models, order) && k <= |order|
    ensures FpsUpTo(models, order, canon, k).Keys == Elems(order[..k])
  {
    hide FpGiven;
    if k > 0 {
      FpsKeys(models, order, canon, k - 1);
      assert order[..k] == order[..k - 1] + [order[k - 1]];
      ElemsAppend(order[..k - 1], order[k - 1]);
    }
  }

  function Fps(models: map<Name, Model>, order: seq<Name>, canon: Canon): (fps: map<Name, Fp>)
    requires Ordered(models, order)
    ensures fps.Keys == models.Keys
  {
    assert order[..|order|] == order;
    OrderedKnown(models, order);
    FpsKeys(models, order, canon, |order|);
    FpsUpTo(models, order, canon, |order|)
  }

  lemma {:induction false} FpsGrow(models: map<Name, Model>, order: seq<Name>, canon: Canon, j: nat, k: nat, x: Name)
    requires AllKnown(models, order) && NoDup(order)
    requires j <= k <= |order| && x in FpsUpTo(models, order, canon, j)
    ensures Lookup(FpsUpTo(models, order, canon, k), x) == Lookup(FpsUpTo(models, order, canon, j), x)
    decreases k - j
  {
    hide FpGiven;
    if j < k {
      FpsKeeps(models, order, canon, j, x);
      FpsGrow(models, order, canon, j + 1, k, x);
    }
  }

  lemma FpsKeeps(models: map<Name, Model>, order: seq<Name>, canon: Canon, k: nat, x: Name)
    requires AllKnown(models, order) && NoDup(order)
    requires k < |order| && x in FpsUpTo(models, order, canon, k)
    ensures Lookup(FpsUpTo(models, order, canon, k + 1), x) == Lookup(FpsUpTo(models, order, canon, k), x)
  {
    FpsKeys(models, order, canon, k);
    assert x in Elems(order[..k]);
  }

  lemma SignatureSame(deps: set<Name>, a: map<Name, Fp>, b: map<Name, Fp>)
    requires deps <= a.Keys && deps <= b.Keys && forall d | d in deps :: a[d] == b[d]
    ensures Signature(deps, a) == Signature(deps, b)
  {
    SignatureExact(deps, a, b);
  }

  /** Each fingerprint is the hash of the model's own payload and its parents' final fingerprints. */
  lemma FpUnfold(models: map<Name, Model>, order: seq<Name>, canon: Canon, x: Name)
    requires Ordered(models, order) && x in models
    ensures models[x].deps <= models.Keys
    ensures Fps(models, order, canon)[x]
            == ModelFingerprint(models[x], AstOf(canon, models[x]),
                                Signature(models[x].deps, Fps(models, order, canon)))
  {
    assert x in Elems(order);
    var k :| 0 <= k < |order| && order[k] == x;
    DepsEarlier(models, order, k);
    OrderedKnown(models, order);
    FpsKeys(models, order, canon, k);
    var fps, all := FpsUpTo(models, order, canon, k), Fps(models, order, canon);
    forall d | d in models[x].deps ensures d in fps && d in all && fps[d] == all[d] {
      assert d in Elems(order[..k]);
      FpsGrow(models, order, canon, k, |order|, d);
    }
    SignatureSame(models[x].deps, fps, all);
    FpsGrow(models, order, canon, k + 1, |order|, x);
  }

  // ----- exactness -----

  // ----- what makes two models the same -----

  function OwnPayload(canon: Canon, m: Model): (Option<Ast>, Meta) {
    (AstOf(canon, m), MetaOf(m))
  }

  /** Kinds that build the same table: `start`, `batchSize` and `lookback` only say when and how much at once. */
  predicate SameKind(a: Kind, b: Kind) {
    match a
    case TimeRange(column, _, unit, _, _) => b.TimeRange? && b.timeColumn == column && b.unit == unit
    case _ => a == b
  }

  /** The two queries canonicalize alike; a source has none. */
  predicate SameBody(canonA: Canon, a: Model, canonB: Canon, b: Model) {
    a.kind.External? || a.kind.Seed? || canonA(a.text) == canonB(b.text)
  }

  /** Definitions that produce the same data at the same place, whatever their names. */
  predicate SameDefinition(canonA: Canon, a: Model, canonB: Canon, b: Model) {
    && SameBody(canonA, a, canonB, b) && SameKind(a.kind, b.kind) && a.grain == b.grain
    && a.columns == b.columns && a.families == b.families && a.target == b.target
  }

  /** The payload tells every field that matters, and no other. */
  lemma PayloadExact(canonA: Canon, a: Model, canonB: Canon, b: Model)
    ensures OwnPayload(canonA, a) == OwnPayload(canonB, b) <==> SameDefinition(canonA, a, canonB, b)
  {
  }

  predicate SameAt(canonA: Canon, a: Model, canonB: Canon, b: Model) {
    SameDefinition(canonA, a, canonB, b) && a.deps == b.deps
  }

  /** Two versions of a project that define every model but one alike. */
  ghost predicate AlikeBut(a: map<Name, Model>, b: map<Name, Model>, canonA: Canon, canonB: Canon, m: Name) {
    a.Keys == b.Keys && m in a && forall x | x in a && x != m :: SameAt(canonA, a[x], canonB, b[x])
  }

  ghost predicate Downstream(models: map<Name, Model>, m: Name, x: Name) {
    x == m || Reaches(DependentsOf(DepMap(models)), m, x)
  }

  /** Being downstream of `m` is being `m` or having a dependency downstream of `m`. */
  lemma DownstreamByParent(models: map<Name, Model>, m: Name, x: Name)
    requires m in models && x in models
    ensures Downstream(models, m, x) <==>
              x == m || exists d :: d in models[x].deps && d in models && Downstream(models, m, d)
  {
    var edges := DependentsOf(DepMap(models));
    if d :| d in models[x].deps && d in models && Downstream(models, m, d) {
      assert x in edges[d];
      ReachesStep(edges, m, d, x);
    }
    if Reaches(edges, m, x) {
      var p :| IsWalk(edges, m, x, p);
      var n := |p|;
      var d := p[n - 2];
      assert d in edges && x in edges[d];
      if n > 2 {
        assert IsWalk(edges, m, d, p[..n - 1]);
      }
      assert d in models[x].deps && Downstream(models, m, d);
    }
  }

  /** One model of the induction: it moved exactly if it is edited or one of its parents moved. */
  lemma ExactStep(a: map<Name, Model>, orderA: seq<Name>, canonA: Canon,
                  b: map<Name, Model>, orderB: seq<Name>, canonB: Canon, m: Name, x: Name)
    requires Ordered(a, orderA) && Ordered(b, orderB) && AlikeBut(a, b, canonA, canonB, m) && x in a
    ensures a[x].deps <= a.Keys
    ensures SameAt(canonA, a[x], canonB, b[x]) ==>
              (Fps(a, orderA, canonA)[x] != Fps(b, orderB, canonB)[x] <==>
                 exists d :: d in a[x].deps && Fps(a, orderA, canonA)[d] != Fps(b, orderB, canonB)[d])
    ensures !SameAt(canonA, a[x], canonB, b[x]) ==> Fps(a, orderA, canonA)[x] != Fps(b, orderB, canonB)[x]
  {
    hide SameDefinition, Topological, Fps;
    var fa, fb := Fps(a, orderA, canonA), Fps(b, orderB, canonB);
    FpUnfold(a, orderA, canonA, x);
    FpUnfold(b, orderB, canonB, x);
    SignatureTells(a[x].deps, fa, b[x].deps, fb);
    PayloadExact(canonA, a[x], canonB, b[x]);
  }

  lemma {:induction false} ExactUpTo(a: map<Name, Model>, orderA: seq<Name>, canonA: Canon,
                                     b: map<Name, Model>, orderB: seq<Name>, canonB: Canon, m: Name, k: nat)
    requires Ordered(a, orderA) && Ordered(b, orderB) && AlikeBut(a, b, canonA, canonB, m)
    requires k < |orderA|
    ensures orderA[k] in a
    ensures Fps(a, orderA, canonA)[orderA[k]] != Fps(b, orderB, canonB)[orderA[k]] <==>
              !SameAt(canonA, a[m], canonB, b[m]) && Downstream(a, m, orderA[k])
    decreases k
  {
    hide SameAt, Fps, Downstream, Topological;
    var x := orderA[k];
    DepsEarlier(a, orderA, k);
    ExactStep(a, orderA, canonA, b, orderB, canonB, m, x);
    DownstreamByParent(a, m, x);
    forall d | d in a[x].deps
      ensures Fps(a, orderA, canonA)[d] != Fps(b, orderB, canonB)[d] <==>
                !SameAt(canonA, a[m], canonB, b[m]) && Downstream(a, m, d)
    {
      assert d in Elems(orderA[..k]);
      var j :| 0 <= j < k && orderA[..k][j] == d;
      ExactUpTo(a, orderA, canonA, b, orderB, canonB, m, j);
    }
  }

  /**
   * Editing one model moves fingerprints exactly if the edit is to its canonical body, grain,
   * columns, families, target or dependencies, or to more of its kind than `start`,
   * `batchSize` and `lookback`; and then exactly its own and its transitive dependents'.
   */
  lemma FingerprintExactness(a: map<Name, Model>, orderA: seq<Name>, canonA: Canon,
                             b: map<Name, Model>, orderB: seq<Name>, canonB: Canon, m: Name)
    requires Ordered(a, orderA) && Ordered(b, orderB) && AlikeBut(a, b, canonA, canonB, m)
    ensures forall x | x in a ::
              Fps(a, orderA, canonA)[x] != Fps(b, orderB, canonB)[x]
              <==> !SameAt(canonA, a[m], canonB, b[m]) && (x == m || Reaches(DependentsOf(DepMap(a)), m, x))
  {
    hide SameAt, Fps, Reaches, Topological;
    forall x | x in a
      ensures Fps(a, orderA, canonA)[x] != Fps(b, orderB, canonB)[x] <==>
                !SameAt(canonA, a[m], canonB, b[m]) && Downstream(a, m, x)
    {
      assert x in Elems(orderA);
      var k :| 0 <= k < |orderA| && orderA[k] == x;
      ExactUpTo(a, orderA, canonA, b, orderB, canonB, m, k);
    }
  }

  /**
   * The payload omits the name, so fingerprints do not identify models: two names share one
   * fingerprint exactly when they are defined alike over the same dependencies.
   */
  lemma NamesShareFingerprints(models: map<Name, Model>, order: seq<Name>, canon: Canon, x: Name, y: Name)
    requires Ordered(models, order) && x in models && y in models
    ensures Fps(models, order, canon)[x] == Fps(models, order, canon)[y]
            <==> SameAt(canon, models[x], canon, models[y])
  {
    hide SameDefinition, Topological, Fps;
    FpUnfold(models, order, canon, x);
    FpUnfold(models, order, canon, y);
    PayloadExact(canon, models[x], canon, models[y]);
    SignatureTells(models[x].deps, Fps(models, order, canon), models[y].deps, Fps(models, order, canon));
  }

  // ----- the canonicalization cache -----

  datatype CacheKey = CacheKey(version: int, dialect: int, text: Text)

  type Cache = map<CacheKey, Ast>

  /** Rows written by this algorithm for this dialect hold what the engine would say. */
  ghost predicate CacheSound(cache: Cache, dialect: int, canon: Canon) {
    forall t: Text | CacheKey(FINGERPRINT_VERSION, dialect, t) in cache ::
      cache[CacheKey(FINGERPRINT_VERSION, dialect, t)] == canon(t)
  }

  function Versions(models: map<Name, Model>, order: seq<Name>, canon: Canon): map<Name, Version>
    requires Ordered(models, order)
  {
    VersionsOver(models, canon, Fps(models, order, canon))
  }

  /**
   * The graph run with a cache whose reads and writes may fail: the versions are those
   * of a run without any cache, and the cache stays sound.
   */
  method FingerprintGraph(models: map<Name, Model>, order: seq<Name>, canon: Canon, dialect: int,
                          cache0: Cache, unreadable: set<CacheKey>, unwritable: set<CacheKey>)
    returns (versions: map<Name, Version>, cache: Cache)
    requires Ordered(models, order) && CacheSound(cache0, dialect, canon)
    ensures versions == Versions(models, order, canon)
    ensures CacheKept(cache0, cache, dialect, canon)
  {
    hide VersionsOver, CacheKept, Signature;
    OrderedKnown(models, order);
    var fps: map<Name, Fp> := map[];
    NoVersions(models, canon, cache0, dialect);
    cache, versions := cache0, map[];
    for i := 0 to |order|
      invariant fps == FpsUpTo(models, order, canon, i)
      invariant versions == VersionsOver(models, canon, fps)
      invariant CacheKept(cache0, cache, dialect, canon)
    {
      DepsEarlier(models, order, i);
      var name := order[i];
      var model := models[name];
      var ast := None;
      if !model.kind.External? && !model.kind.Seed? {
        var canonical;
        canonical, cache := Canonicalize(canon, dialect, model.text, cache0, cache, unreadable, unwritable);
        ast := Some(canonical);
      }
      var fp := ModelFingerprint(model, ast, Signature(model.deps, fps));
      VersionsStep(models, canon, fps, name, fp);
      fps := fps[name := fp];
      versions := versions[name := Version(fp, ast)];
    }
  }

  /** The fingerprints so far, each with its canonical AST. */
  function VersionsOver(models: map<Name, Model>, canon: Canon, fps: map<Name, Fp>): map<Name, Version> {
    map x | x in fps && x in models :: Version(fps[x], AstOf(canon, models[x]))
  }

  lemma NoVersions(models: map<Name, Model>, canon: Canon, cache0: Cache, dialect: int)
    requires CacheSound(cache0, dialect, canon)
    ensures VersionsOver(models, canon, map[]) == map[]
    ensures CacheKept(cache0, cache0, dialect, canon)
  {
  }

  lemma VersionsStep(models: map<Name, Model>, canon: Canon, fps: map<Name, Fp>, name: Name, fp: Fp)
    requires name in models
    ensures VersionsOver(models, canon, fps[name := fp])
            == VersionsOver(models, canon, fps)[name := Version(fp, AstOf(canon, models[name]))]
  {
  }

  ghost predicate CacheKept(cache0: Cache, cache: Cache, dialect: int, canon: Canon) {
    CacheSound(cache, dialect, canon) && forall key | key in cache0 :: key in cache && cache[key] == cache0[key]
  }

  method Canonicalize(canon: Canon, dialect: int, text: Text, ghost cache0: Cache, before: Cache,
                      unreadable: set<CacheKey>, unwritable: set<CacheKey>)
    returns (canonical: Ast, cache: Cache)
    requires CacheKept(cache0, before, dialect, canon)
    ensures canonical == canon(text) && CacheKept(cache0, cache, dialect, canon)
  {
    var key := CacheKey(FINGERPRINT_VERSION, dialect, text);
    cache := before;
    if key in cache && key !in unreadable {
      return cache[key], cache;
    }
    canonical := canon(text);
    if key !in cache && key !in unwritable {
      cache := cache[key := canonical];
    }
  }
}
