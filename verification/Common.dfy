/** Result types and the canonical sorted listing of a finite set, used by every module. */
module Common {

  datatype Option<+T> = None | Some(value: T)

  datatype Result<+T, +E> = Ok(value: T) | Err(error: E)

  /** Some element of a set known not to be empty. */
  ghost function Any<T>(s: set<T>): (x: T)
    requires s != {}
    ensures x in s
  {
    var x :| x in s;
    x
  }

  lemma DifferenceEmpty<T>(a: set<T>, b: set<T>)
    ensures a - b == {} <==> a <= b
  {
    if a - b == {} {
      forall x | x in a ensures x in b { assert x !in a - b; }
    }
  }

  /** Strictly ascending, hence without repetitions. */
  ghost predicate Ascending(xs: seq<int>) {
    forall i, j | 0 <= i < j < |xs| :: xs[i] < xs[j]
  }

  function SetMin(s: set<int>): (m: int)
    requires s != {}
    ensures m in s && forall x | x in s :: m <= x
  {
    LeastExists(s);
    var m :| m in s && forall x | x in s :: m <= x;
    m
  }

  lemma LeastExists(s: set<int>)
    requires s != {}
    ensures exists m | m in s :: forall x | x in s :: m <= x
    decreases |s|
  {
    var x := Any(s);
    var rest := s - {x};
    if rest == {} {
      assert s == {x};
      assert forall z | z in s :: x <= z;
    } else {
      LeastExists(rest);
      var m :| m in rest && forall z | z in rest :: m <= z;
      var least := if x < m then x else m;
      forall z | z in s ensures least <= z {
        assert z == x || z in rest;
      }
      assert least in s;
    }
  }

  lemma StrictSubsetIsSmaller<T>(a: set<T>, b: set<T>)
    requires a < b
    ensures |a| < |b|
  {
    assert b == a + (b - a);
    assert b - a == {} ==> a == b;
  }

  lemma SubsetIsSmaller<T>(a: set<T>, b: set<T>)
    requires a <= b
    ensures |a| <= |b|
  {
    if a != b { StrictSubsetIsSmaller(a, b); }
  }

  /** `[...set].sort()`: every element once, ascending. */
  function Sorted(s: set<int>): (xs: seq<int>)
    ensures Ascending(xs)
    ensures forall x :: x in xs <==> x in s
    ensures |xs| == |s|
    decreases |s|
  {
    if s == {} then [] else
      var m := SetMin(s);
      var rest := s - {m};
      [m] + Sorted(rest)
  }

  lemma NonEmptyHasMember<T>(xs: seq<T>)
    ensures xs != [] ==> exists x :: x in xs
  {
    if xs != [] { assert xs[0] in xs; }
  }

  /** Two ascending listings of the same elements are the same listing. */
  lemma {:induction false} AscendingUnique(xs: seq<int>, ys: seq<int>)
    requires Ascending(xs) && Ascending(ys)
    requires forall x :: x in xs <==> x in ys
    ensures xs == ys
    decreases |xs|
  {
    if xs == [] {
      NonEmptyHasMember(ys);
    } else {
      var x := xs[0];
      assert x in xs;
      var j :| 0 <= j < |ys| && ys[j] == x;
      var y := ys[0];
      assert y in ys;
      var i :| 0 <= i < |xs| && xs[i] == y;
      assert xs[0] == ys[0];
      forall x ensures x in xs[1..] <==> x in ys[1..] {
        if x in xs[1..] { assert x in xs && x != xs[0]; assert x in ys; }
        if x in ys[1..] { assert x in ys && x != ys[0]; assert x in xs; }
      }
      AscendingUnique(xs[1..], ys[1..]);
      assert xs == [xs[0]] + xs[1..] && ys == [ys[0]] + ys[1..];
    }
  }
}
