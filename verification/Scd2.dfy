/**
 * Slowly changing dimensions, type 2 (src/plan/executor.ts:655-694). A version is a row
 * of the query with the time it added and, once it is gone from the query, closed. A row
 * is compared as a whole (`IS NOT DISTINCT FROM` on every column), so an integer stands
 * for it; the declared key takes no part.
 */
module Scd2 {
  import opened Common

  datatype Version = Version(row: int, from: int, until: Option<int>)

  /** One apply: the clock in milliseconds and what the query returned. */
  datatype Apply = Apply(nowMs: int, query: seq<int>)

  /** `sqlTimestamp` keeps whole seconds (src/core/interval.ts:111-114). */
  function Seconds(ms: int): (r: int)
    ensures r <= ms < r + 1000 && r % 1000 == 0
  {
    ms / 1000 * 1000
  }

  // ----- the two statements -----

  function CloseOne(v: Version, query: seq<int>, ts: int): Version {
    if v.until.None? && v.row !in query then v.(until := Some(ts)) else v
  }

  /** UPDATE: an open version whose row is not in the query is closed. */
  function Closed(t: seq<Version>, query: seq<int>, ts: int): seq<Version> {
    seq(|t|, i requires 0 <= i < |t| => CloseOne(t[i], query, ts))
  }

  predicate OpenIn(t: seq<Version>, row: int) {
    exists i :: 0 <= i < |t| && t[i].row == row && t[i].until.None?
  }

  /** INSERT: the query's rows that are open in no version, each time they occur. */
  function Opened(t: seq<Version>, query: seq<int>, ts: int): (r: seq<Version>)
    ensures forall v :: v in r <==> v.row in query && !OpenIn(t, v.row) && v.from == ts && v.until == None
  {
    if query == [] then [] else
      var n := |query| - 1;
      assert query == query[..n] + [query[n]];
      Opened(t, query[..n], ts) + (if OpenIn(t, query[n]) then [] else [Version(query[n], ts, None)])
  }

  function Reconciled(t: seq<Version>, query: seq<int>, ts: int): seq<Version> {
    var closed := Closed(t, query, ts);
    closed + Opened(closed, query, ts)
  }

  class ScdTable {
    var versions: seq<Version>

    constructor ()
      ensures versions == []
    {
      versions := [];
    }

    method IsOpen(row: int) returns (open: bool)
      ensures open == OpenIn(versions, row)
    {
      for i := 0 to |versions|
        invariant forall k | 0 <= k < i :: !(versions[k].row == row && versions[k].until.None?)
      {
        if versions[i].row == row && versions[i].until.None? {
          return true;
        }
      }
      return false;
    }

    /** One transaction; the insert sees the table as the update left it. */
    method Reconcile(query: seq<int>, nowMs: int)
      modifies this
      ensures versions == Reconciled(old(versions), query, Seconds(nowMs))
    {
      var ts := Seconds(nowMs);
      ghost var before := versions;
      for i := 0 to |versions|
        invariant |versions| == |before|
        invariant forall k | 0 <= k < i :: versions[k] == CloseOne(before[k], query, ts)
        invariant forall k | i <= k < |versions| :: versions[k] == before[k]
      {
        if versions[i].until.None? && versions[i].row !in query {
          versions := versions[i := versions[i].(until := Some(ts))];
        }
      }
      assert versions == Closed(before, query, ts);
      var added := [];
      for i := 0 to |query|
        invariant versions == Closed(before, query, ts)
        invariant added == Opened(versions, query[..i], ts)
      {
        assert query[..i + 1][..i] == query[..i];
        var open := IsOpen(query[i]);
        if !open {
          added := added + [Version(query[i], ts, None)];
        }
      }
      assert query[..|query|] == query;
      versions := versions + added;
    }
  }

  // ----- one reconciliation -----

  /** What a closed version says is never rewritten, and no version is lost or moved. */
  lemma ClosedVersionsStand(t: seq<Version>, query: seq<int>, ts: int, i: nat)
    requires i < |t|
    ensures i < |Reconciled(t, query, ts)|
    ensures Reconciled(t, query, ts)[i].row == t[i].row && Reconciled(t, query, ts)[i].from == t[i].from
    ensures t[i].until.Some? || t[i].row in query ==> Reconciled(t, query, ts)[i] == t[i]
  {
  }

  /** Afterwards the open rows are the query's rows. */
  lemma OpenIsQuery(t: seq<Version>, query: seq<int>, ts: int, row: int)
    ensures OpenIn(Reconciled(t, query, ts), row) <==> row in query
  {
    var closed := Closed(t, query, ts);
    var added, r := Opened(closed, query, ts), Reconciled(t, query, ts);
    if OpenIn(r, row) {
      var i :| 0 <= i < |r| && r[i].row == row && r[i].until.None?;
      if i >= |closed| {
        assert added[i - |closed|] in added;
      }
    }
    if row in query {
      if OpenIn(closed, row) {
        var i :| 0 <= i < |closed| && closed[i].row == row && closed[i].until.None?;
        assert r[i] == closed[i];
      } else {
        assert Version(row, ts, None) in added;
        var i :| 0 <= i < |added| && added[i] == Version(row, ts, None);
        assert r[|closed| + i] == added[i];
      }
    }
  }

  function Copies(t: seq<Version>, v: Version): nat {
    multiset(t)[v]
  }

  function Occurrences(query: seq<int>, row: int): nat {
    multiset(query)[row]
  }

  lemma {:induction false} OpenedCopies(t: seq<Version>, query: seq<int>, ts: int, v: Version)
    ensures Copies(Opened(t, query, ts), v)
            == if v.from == ts && v.until.None? && !OpenIn(t, v.row) then Occurrences(query, v.row) else 0
  {
    hide OpenIn;
    if query != [] {
      var n := |query| - 1;
      OpenedCopies(t, query[..n], ts, v);
      assert query == query[..n] + [query[n]];
    }
  }

  /** The apply adds a version for every occurrence of a row that is open in none, and no other. */
  lemma AddedVersions(t: seq<Version>, query: seq<int>, ts: int, v: Version)
    ensures |Reconciled(t, query, ts)| >= |t|
    ensures Copies(Reconciled(t, query, ts)[|t|..], v)
            == if v.from == ts && v.until.None? && !OpenIn(t, v.row) then Occurrences(query, v.row) else 0
  {
    var closed := Closed(t, query, ts);
    assert Reconciled(t, query, ts)[|t|..] == Opened(closed, query, ts);
    OpenedCopies(closed, query, ts, v);
    if v.row in query {
      forall i | 0 <= i < |t| ensures closed[i].row == v.row && closed[i].until.None? <==>
                                      t[i].row == v.row && t[i].until.None? {
      }
      assert OpenIn(closed, v.row) <==> OpenIn(t, v.row) by {
        if OpenIn(t, v.row) {
          var i :| 0 <= i < |t| && t[i].row == v.row && t[i].until.None?;
          assert closed[i].row == v.row && closed[i].until.None?;
        }
        if OpenIn(closed, v.row) {
          var i :| 0 <= i < |closed| && closed[i].row == v.row && closed[i].until.None?;
          assert t[i].row == v.row && t[i].until.None?;
        }
      }
    }
  }

  lemma {:induction false} NothingOpened(t: seq<Version>, query: seq<int>, ts: int)
    requires forall row | row in query :: OpenIn(t, row)
    ensures Opened(t, query, ts) == []
  {
    if query != [] {
      var n := |query| - 1;
      assert query[n] in query;
      assert forall row | row in query[..n] :: row in query;
      NothingOpened(t, query[..n], ts);
    }
  }

  /** A query returning the same rows again, at any time, changes nothing: `from` does not jitter. */
  lemma ReapplyIsIdentity(t: seq<Version>, query: seq<int>, ts: int, again: seq<int>, later: int)
    requires forall row :: row in query <==> row in again
    ensures Reconciled(Reconciled(t, query, ts), again, later) == Reconciled(t, query, ts)
  {
    var once := Reconciled(t, query, ts);
    forall i | 0 <= i < |once| ensures CloseOne(once[i], again, later) == once[i] {
      if once[i].until.None? {
        assert OpenIn(once, once[i].row);
        OpenIsQuery(t, query, ts, once[i].row);
      }
    }
    assert Closed(once, again, later) == once;
    forall row | row in again ensures OpenIn(once, row) {
      OpenIsQuery(t, query, ts, row);
    }
    NothingOpened(once, again, later);
  }

  // ----- histories -----

  function History(applies: seq<Apply>): seq<Version> {
    if applies == [] then [] else
      var n := |applies| - 1;
      Reconciled(History(applies[..n]), applies[n].query, Seconds(applies[n].nowMs))
  }

  predicate ValidAt(v: Version, at: int) {
    v.from <= at && (v.until.Some? ==> at < v.until.value)
  }

  ghost predicate InAsOf(t: seq<Version>, at: int, row: int) {
    exists v :: v in t && v.row == row && ValidAt(v, at)
  }

  /** What the last apply not after `at` saw. */
  predicate Seen(applies: seq<Apply>, at: int, row: int) {
    applies != [] &&
    var n := |applies| - 1;
    if Seconds(applies[n].nowMs) <= at then row in applies[n].query else Seen(applies[..n], at, row)
  }

  ghost predicate Forward(applies: seq<Apply>) {
    forall i, j | 0 <= i < j < |applies| :: Seconds(applies[i].nowMs) <= Seconds(applies[j].nowMs)
  }

  /** Every time in the table is that of some apply so far, and none is later than the last. */
  ghost predicate NoLater(t: seq<Version>, ts: int) {
    forall v | v in t :: v.from <= ts && (v.until.Some? ==> v.until.value <= ts)
  }

  lemma {:induction false} TimesBounded(applies: seq<Apply>, ts: int)
    requires Forward(applies) && forall a | a in applies :: Seconds(a.nowMs) <= ts
    ensures NoLater(History(applies), ts)
  {
    hide Opened, NoLater, Reconciled, Seconds;
    if applies != [] {
      var n := |applies| - 1;
      assert applies[n] in applies;
      assert forall a | a in applies[..n] :: a in applies;
      TimesBounded(applies[..n], ts);
      NoLaterStep(History(applies[..n]), applies[n].query, Seconds(applies[n].nowMs), ts);
    } else {
      NothingLater(ts);
    }
  }

  lemma NothingLater(ts: int)
    ensures NoLater([], ts)
  {
  }

  lemma NoLaterStep(t: seq<Version>, query: seq<int>, at: int, ts: int)
    requires NoLater(t, ts) && at <= ts
    ensures NoLater(Reconciled(t, query, at), ts)
  {
    hide Opened;
    var closed := Closed(t, query, at);
    forall v | v in closed ensures v.from <= ts && (v.until.Some? ==> v.until.value <= ts) {
      var i :| 0 <= i < |closed| && closed[i] == v;
      assert t[i] in t;
    }
  }

  lemma BeforeUnchanged(t: seq<Version>, query: seq<int>, ts: int, at: int, row: int)
    requires at < ts
    ensures InAsOf(Reconciled(t, query, ts), at, row) <==> InAsOf(t, at, row)
  {
    var closed := Closed(t, query, ts);
    var added, r := Opened(closed, query, ts), Reconciled(t, query, ts);
    if InAsOf(r, at, row) {
      var v :| v in r && v.row == row && ValidAt(v, at);
      assert v !in added;
      var i :| 0 <= i < |closed| && closed[i] == v;
      assert t[i] in t;
    }
    if InAsOf(t, at, row) {
      var v :| v in t && v.row == row && ValidAt(v, at);
      var i :| 0 <= i < |t| && t[i] == v;
      assert closed[i] in closed && ValidAt(closed[i], at);
      assert closed[i] in r;
    }
  }

  lemma SinceIsQuery(t: seq<Version>, query: seq<int>, ts: int, at: int, row: int)
    requires ts <= at && NoLater(t, ts)
    ensures InAsOf(Reconciled(t, query, ts), at, row) <==> row in query
  {
    var closed := Closed(t, query, ts);
    var added, r := Opened(closed, query, ts), Reconciled(t, query, ts);
    OpenIsQuery(t, query, ts, row);
    forall v | v in r ensures v.from <= at && (v.until.Some? ==> v.until.value <= at) {
      if v !in added {
        var i :| 0 <= i < |closed| && closed[i] == v;
        assert t[i] in t;
      }
    }
    if InAsOf(r, at, row) {
      var v :| v in r && v.row == row && ValidAt(v, at);
      var i :| 0 <= i < |r| && r[i] == v;
      assert OpenIn(r, row);
    }
    if OpenIn(r, row) {
      var i :| 0 <= i < |r| && r[i].row == row && r[i].until.None?;
      assert r[i] in r && ValidAt(r[i], at);
    }
  }

  /**
   * As-of reconstruction: with a clock that does not go back, the versions valid at any
   * moment are the rows the query returned at the last apply not after it.
   */
  lemma {:induction false} AsOf(applies: seq<Apply>, at: int, row: int)
    requires Forward(applies)
    ensures InAsOf(History(applies), at, row) <==> Seen(applies, at, row)
  {
    hide Opened;
    if applies != [] {
      var n := |applies| - 1;
      var ts := Seconds(applies[n].nowMs);
      AsOf(applies[..n], at, row);
      if at < ts {
        BeforeUnchanged(History(applies[..n]), applies[n].query, ts, at, row);
      } else {
        forall a | a in applies[..n] ensures Seconds(a.nowMs) <= ts {
          var i :| 0 <= i < n && applies[i] == a;
        }
        TimesBounded(applies[..n], ts);
        SinceIsQuery(History(applies[..n]), applies[n].query, ts, at, row);
      }
    }
  }

  // ----- and only then -----

  /** The same clocks with other queries. */
  function WithQueries(clocks: seq<int>, query: nat -> seq<int>): seq<Apply> {
    seq(|clocks|, i requires 0 <= i < |clocks| => Apply(clocks[i], query(i)))
  }

  ghost predicate Reconstructs(applies: seq<Apply>) {
    forall at, row :: InAsOf(History(applies), at, row) <==> Seen(applies, at, row)
  }

  ghost predicate ClockForward(clocks: seq<int>) {
    forall i, j | 0 <= i < j < |clocks| :: Seconds(clocks[i]) <= Seconds(clocks[j])
  }

  /** A row that appears at apply `i` and stays. */
  function From(i: nat): nat -> seq<int> {
    k => if k < i then [] else [1]
  }

  lemma {:induction false} OpenedOnce(clocks: seq<int>, i: nat)
    requires i < |clocks|
    ensures History(WithQueries(clocks, From(i))) == [Version(1, Seconds(clocks[i]), None)]
  {
    var applies := WithQueries(clocks, From(i));
    var n := |clocks| - 1;
    assert applies[..n] == WithQueries(clocks[..n], From(i));
    var v := Version(1, Seconds(clocks[i]), None);
    if i < n {
      OpenedOnce(clocks[..n], i);
      assert Closed([v], [1], Seconds(clocks[n])) == [v];
      assert OpenIn([v], 1) by { assert [v][0] == v; }
      NothingOpened([v], [1], Seconds(clocks[n]));
    } else {
      NothingYet(clocks[..n], i);
      assert Opened([], [1][..0], Seconds(clocks[n])) == [];
      assert Opened([], [1], Seconds(clocks[n])) == [v];
    }
  }

  lemma {:induction false} NothingYet(clocks: seq<int>, i: nat)
    requires |clocks| <= i
    ensures History(WithQueries(clocks, From(i))) == []
  {
    if clocks != [] {
      var n := |clocks| - 1;
      assert WithQueries(clocks, From(i))[..n] == WithQueries(clocks[..n], From(i));
      NothingYet(clocks[..n], i);
    }
  }

  lemma {:induction false} StillSeen(clocks: seq<int>, i: nat, j: nat, at: int)
    requires i <= j < |clocks| && Seconds(clocks[j]) <= at
    ensures Seen(WithQueries(clocks, From(i)), at, 1)
  {
    var n := |clocks| - 1;
    assert WithQueries(clocks, From(i))[..n] == WithQueries(clocks[..n], From(i));
    if j < n { StillSeen(clocks[..n], i, j, at); }
  }

  /** A clock that never goes back, to the second, is exactly what reconstruction needs. */
  lemma ReconstructionExact(clocks: seq<int>)
    ensures (forall query :: Reconstructs(WithQueries(clocks, query))) <==> ClockForward(clocks)
  {
    if ClockForward(clocks) {
      forall query ensures Reconstructs(WithQueries(clocks, query)) {
        var applies := WithQueries(clocks, query);
        forall at, row ensures InAsOf(History(applies), at, row) <==> Seen(applies, at, row) {
          AsOf(applies, at, row);
        }
      }
    } else {
      var i, j :| 0 <= i < j < |clocks| && Seconds(clocks[i]) > Seconds(clocks[j]);
      var applies, at := WithQueries(clocks, From(i)), Seconds(clocks[j]);
      OpenedOnce(clocks, i);
      StillSeen(clocks, i, j, at);
      assert !InAsOf(History(applies), at, 1);
      assert !Reconstructs(applies);
    }
  }
}
