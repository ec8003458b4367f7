/**
 * The row-wise SELECT fragment the reuse rules reason about, its meaning on relations,
 * and the categorization of an AST change (src/plan/categorize.ts).
 *
 * Every column reference names its FROM entry, so a new parent column cannot capture
 * it. A relation is a sequence of rows: the bag a query returns, in the order in which
 * the same plan enumerates it.
 */
module Query {
  import opened Common
  import opened Models

  type Value = int
  type Row = map<Column, Value>
  type Relation = seq<Row>

  datatype Expr =
    | Col(entry: nat, column: Column)
    | Const(value: Value)
    | Bound(isStart: bool)
    | Apply(op: int, left: Expr, right: Expr)

  datatype Item = Item(name: Column, expr: Expr)

  /** Everything outside the SELECT list: the FROM entries and the filter. */
  datatype Rest = Rest(from: seq<Name>, where: Expr)

  /** `Other` is any canonical AST without a top SELECT list. */
  datatype Ast = Select(list: seq<Item>, rest: Rest) | Other(id: int)

  datatype Bounds = Bounds(start: int, end: int)

  // ----- categorization -----

  datatype Verdict = IsBreaking | IsNonBreaking

  datatype Top = Top(list: seq<Item>, rest: Rest)

  function TopSelect(ast: Ast): Option<Top> {
    if ast.Select? then Some(Top(ast.list, ast.rest)) else None
  }

  function CategorizeAstChange(oldAst: Ast, newAst: Ast): Verdict {
    match (TopSelect(oldAst), TopSelect(newAst))
    case (Some(before), Some(after)) =>
      if before.rest != after.rest then IsBreaking
      else if |after.list| <= |before.list| then IsBreaking
      else if before.list == after.list[..|before.list|] then IsNonBreaking
      else IsBreaking
    case _ => IsBreaking
  }

  /** Non-breaking is exactly: the same tree with a non-empty suffix on the SELECT list. */
  lemma NonBreakingIsSuffix(oldAst: Ast, newAst: Ast)
    ensures CategorizeAstChange(oldAst, newAst) == IsNonBreaking <==>
              oldAst.Select? && exists suffix: seq<Item> ::
                suffix != [] && newAst == Select(oldAst.list + suffix, oldAst.rest)
  {
    if CategorizeAstChange(oldAst, newAst) == IsNonBreaking {
      var suffix := newAst.list[|oldAst.list|..];
      assert suffix != [] && newAst.list == oldAst.list + suffix;
    }
    if oldAst.Select? {
      forall suffix: seq<Item> | suffix != [] && newAst == Select(oldAst.list + suffix, oldAst.rest)
        ensures CategorizeAstChange(oldAst, newAst) == IsNonBreaking
      {
        assert newAst.list[..|oldAst.list|] == oldAst.list;
      }
    }
  }

  // ----- meaning -----

  /** The scalar operators of the engine; 0 stands for NULL and FALSE. */
  type Ops = (int, Value, Value) -> Value

  function EvalExpr(ops: Ops, e: Expr, b: seq<Row>, at: Bounds): Value {
    match e
    case Col(k, c) => if k < |b| && c in b[k] then b[k][c] else 0
    case Const(v) => v
    case Bound(isStart) => if isStart then at.start else at.end
    case Apply(op, l, r) => ops(op, EvalExpr(ops, l, b, at), EvalExpr(ops, r, b, at))
  }

  function Project(ops: Ops, list: seq<Item>, b: seq<Row>, at: Bounds): Row {
    if list == [] then map[] else
      var n := |list| - 1;
      Project(ops, list[..n], b, at)[list[n].name := EvalExpr(ops, list[n].expr, b, at)]
  }

  /** All combinations of one row per FROM entry. */
  function Product(rels: seq<Relation>): seq<seq<Row>> {
    if rels == [] then [[]] else PairUp(rels[0], Product(rels[1..]))
  }

  function PairUp(rows: Relation, rest: seq<seq<Row>>): seq<seq<Row>> {
    if rows == [] then [] else Prefix(rows[0], rest) + PairUp(rows[1..], rest)
  }

  function Prefix(row: Row, rest: seq<seq<Row>>): seq<seq<Row>> {
    if rest == [] then [] else [[row] + rest[0]] + Prefix(row, rest[1..])
  }

  function SelectRows(ops: Ops, list: seq<Item>, where: Expr, bs: seq<seq<Row>>, at: Bounds): Relation {
    if bs == [] then [] else
      (if EvalExpr(ops, where, bs[0], at) != 0 then [Project(ops, list, bs[0], at)] else [])
      + SelectRows(ops, list, where, bs[1..], at)
  }

  /** What a SELECT returns over the given relations of its FROM entries. */
  function EvalSelect(ops: Ops, list: seq<Item>, rest: Rest, rels: seq<Relation>, at: Bounds): Relation {
    SelectRows(ops, list, rest.where, Product(rels), at)
  }

  // ----- widening: the same rows, possibly with further columns -----

  ghost predicate RowExtends(a: Row, b: Row) {
    forall c | c in a :: c in b && b[c] == a[c]
  }

  ghost predicate Extends(a: Relation, b: Relation) {
    |a| == |b| && forall i | 0 <= i < |a| :: RowExtends(a[i], b[i])
  }

  ghost predicate BindingExtends(a: seq<Row>, b: seq<Row>) {
    |a| == |b| && forall i | 0 <= i < |a| :: RowExtends(a[i], b[i])
  }

  ghost predicate AllExtend(a: seq<seq<Row>>, b: seq<seq<Row>>) {
    |a| == |b| && forall i | 0 <= i < |a| :: BindingExtends(a[i], b[i])
  }

  ghost predicate RelsExtend(a: seq<Relation>, b: seq<Relation>) {
    |a| == |b| && forall i | 0 <= i < |a| :: Extends(a[i], b[i])
  }

  lemma ExtendsSelf(a: Relation)
    ensures Extends(a, a)
  {
  }

  /** The expression was valid over these rows: every column it reads is there. */
  ghost predicate ExprTyped(e: Expr, b: seq<Row>) {
    match e
    case Col(k, c) => k < |b| && c in b[k]
    case Apply(_, l, r) => ExprTyped(l, b) && ExprTyped(r, b)
    case _ => true
  }

  lemma {:induction false} ExprStable(ops: Ops, e: Expr, a: seq<Row>, b: seq<Row>, at: Bounds)
    requires ExprTyped(e, a) && BindingExtends(a, b)
    ensures EvalExpr(ops, e, a, at) == EvalExpr(ops, e, b, at)
  {
    match e
    case Col(k, c) => assert RowExtends(a[k], b[k]);
    case Apply(_, l, r) =>
      ExprStable(ops, l, a, b, at);
      ExprStable(ops, r, a, b, at);
    case _ =>
  }

  ghost predicate ListTyped(list: seq<Item>, b: seq<Row>) {
    forall i | 0 <= i < |list| :: ExprTyped(list[i].expr, b)
  }

  lemma {:induction false} ProjectStable(ops: Ops, list: seq<Item>, a: seq<Row>, b: seq<Row>, at: Bounds)
    requires ListTyped(list, a) && BindingExtends(a, b)
    ensures Project(ops, list, a, at) == Project(ops, list, b, at)
  {
    if list != [] {
      var n := |list| - 1;
      ProjectStable(ops, list[..n], a, b, at);
      ExprStable(ops, list[n].expr, a, b, at);
    }
  }

  function Names(list: seq<Item>): set<Column> {
    set i | 0 <= i < |list| :: list[i].name
  }

  lemma {:induction false} ProjectColumns(ops: Ops, list: seq<Item>, b: seq<Row>, at: Bounds, c: Column)
    requires c in Project(ops, list, b, at)
    ensures c in Names(list)
  {
    var n := |list| - 1;
    if c == list[n].name {
    } else {
      ProjectColumns(ops, list[..n], b, at, c);
      var i :| 0 <= i < n && list[..n][i].name == c;
      assert list[i].name == c;
    }
  }

  /** Suffix columns under new names leave the old columns of a projected row alone. */
  lemma {:induction false} ProjectSuffix(ops: Ops, list: seq<Item>, suffix: seq<Item>, b: seq<Row>, at: Bounds)
    requires Names(list) !! Names(suffix)
    ensures RowExtends(Project(ops, list, b, at), Project(ops, list + suffix, b, at))
  {
    if suffix == [] {
      assert list + suffix == list;
    } else {
      var n := |suffix| - 1;
      var init, last := suffix[..n], suffix[n];
      SuffixNames(suffix);
      ProjectSuffix(ops, list, init, b, at);
      assert list + suffix == (list + init) + [last];
      assert ((list + init) + [last])[..|list| + n] == list + init;
      var narrow := Project(ops, list, b, at);
      forall c | c in narrow ensures c != last.name { ProjectColumns(ops, list, b, at, c); }
    }
  }

  lemma SuffixNames(suffix: seq<Item>)
    requires suffix != []
    ensures Names(suffix[..|suffix| - 1]) <= Names(suffix)
    ensures suffix[|suffix| - 1].name in Names(suffix)
  {
    var n := |suffix| - 1;
    forall c | c in Names(suffix[..n]) ensures c in Names(suffix) {
      var i :| 0 <= i < n && suffix[..n][i].name == c;
      assert suffix[i].name == c;
    }
  }

  // ----- the product of widened relations is the widened product -----

  lemma {:induction false} PrefixExtends(x: Row, y: Row, a: seq<seq<Row>>, b: seq<seq<Row>>)
    requires RowExtends(x, y) && AllExtend(a, b)
    ensures AllExtend(Prefix(x, a), Prefix(y, b))
  {
    if a == [] {
    } else {
      assert BindingExtends(a[0], b[0]);
      assert BindingExtends([x] + a[0], [y] + b[0]);
      AllExtendTail(a, b);
      PrefixExtends(x, y, a[1..], b[1..]);
      AllExtendJoin([[x] + a[0]], Prefix(x, a[1..]), [[y] + b[0]], Prefix(y, b[1..]));
    }
  }

  lemma AllExtendTail(a: seq<seq<Row>>, b: seq<seq<Row>>)
    requires AllExtend(a, b) && a != []
    ensures AllExtend(a[1..], b[1..])
  {
  }

  lemma AllExtendJoin(a: seq<seq<Row>>, a': seq<seq<Row>>, b: seq<seq<Row>>, b': seq<seq<Row>>)
    requires AllExtend(a, b) && AllExtend(a', b')
    ensures AllExtend(a + a', b + b')
  {
  }

  lemma {:induction false} PairUpExtends(r: Relation, s: Relation, a: seq<seq<Row>>, b: seq<seq<Row>>)
    requires Extends(r, s) && AllExtend(a, b)
    ensures AllExtend(PairUp(r, a), PairUp(s, b))
  {
    if r == [] {
    } else {
      PrefixExtends(r[0], s[0], a, b);
      PairUpExtends(r[1..], s[1..], a, b);
      AllExtendJoin(Prefix(r[0], a), PairUp(r[1..], a), Prefix(s[0], b), PairUp(s[1..], b));
    }
  }

  lemma {:induction false} ProductExtends(r: seq<Relation>, s: seq<Relation>)
    requires RelsExtend(r, s)
    ensures AllExtend(Product(r), Product(s))
  {
    if r == [] {
    } else {
      ProductExtends(r[1..], s[1..]);
      PairUpExtends(r[0], s[0], Product(r[1..]), Product(s[1..]));
    }
  }

  // ----- a typed query cannot tell its parents were widened -----

  ghost predicate QueryTyped(list: seq<Item>, where: Expr, bs: seq<seq<Row>>) {
    forall i | 0 <= i < |bs| :: ListTyped(list, bs[i]) && ExprTyped(where, bs[i])
  }

  lemma {:induction false} RowsStable(ops: Ops, list: seq<Item>, where: Expr, a: seq<seq<Row>>, b: seq<seq<Row>>,
                                      at: Bounds)
    requires QueryTyped(list, where, a) && AllExtend(a, b)
    ensures SelectRows(ops, list, where, a, at) == SelectRows(ops, list, where, b, at)
  {
    if a != [] {
      assert BindingExtends(a[0], b[0]);
      ExprStable(ops, where, a[0], b[0], at);
      ProjectStable(ops, list, a[0], b[0], at);
      AllExtendTail(a, b);
      RowsStable(ops, list, where, a[1..], b[1..], at);
    }
  }

  lemma {:induction false} RowsSuffix(ops: Ops, list: seq<Item>, suffix: seq<Item>, where: Expr, bs: seq<seq<Row>>,
                                      at: Bounds)
    requires Names(list) !! Names(suffix)
    ensures Extends(SelectRows(ops, list, where, bs, at), SelectRows(ops, list + suffix, where, bs, at))
  {
    if bs != [] {
      ProjectSuffix(ops, list, suffix, bs[0], at);
      RowsSuffix(ops, list, suffix, where, bs[1..], at);
      var keep := EvalExpr(ops, where, bs[0], at) != 0;
      ExtendsJoin(if keep then [Project(ops, list, bs[0], at)] else [],
                  SelectRows(ops, list, where, bs[1..], at),
                  if keep then [Project(ops, list + suffix, bs[0], at)] else [],
                  SelectRows(ops, list + suffix, where, bs[1..], at));
    }
  }

  lemma ExtendsJoin(a: Relation, a': Relation, b: Relation, b': Relation)
    requires Extends(a, b) && Extends(a', b')
    ensures Extends(a + a', b + b')
  {
  }

  /** An untouched query over widened parents returns exactly what it returned before. */
  lemma SelectStable(ops: Ops, list: seq<Item>, rest: Rest, r: seq<Relation>, s: seq<Relation>, at: Bounds)
    requires QueryTyped(list, rest.where, Product(r)) && RelsExtend(r, s)
    ensures EvalSelect(ops, list, rest, r, at) == EvalSelect(ops, list, rest, s, at)
  {
    ProductExtends(r, s);
    RowsStable(ops, list, rest.where, Product(r), Product(s), at);
  }

  /**
   * A query with suffix columns over widened parents returns the old rows, in the old
   * order, unchanged on the old columns.
   */
  lemma SelectWidened(ops: Ops, list: seq<Item>, suffix: seq<Item>, rest: Rest,
                      r: seq<Relation>, s: seq<Relation>, at: Bounds)
    requires QueryTyped(list, rest.where, Product(r)) && RelsExtend(r, s)
    requires Names(list) !! Names(suffix)
    ensures Extends(EvalSelect(ops, list, rest, r, at), EvalSelect(ops, list + suffix, rest, s, at))
  {
    SelectStable(ops, list, rest, r, s, at);
    RowsSuffix(ops, list, suffix, rest.where, Product(s), at);
  }
}
