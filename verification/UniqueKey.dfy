/**
 * The unique-key kind (src/plan/executor.ts:630-655): one transaction deletes the rows
 * whose key the query returns and inserts the query. A one-column key; `None` is NULL,
 * which `IN` never finds.
 */
module UniqueKeys {
  import opened Common

  datatype Row = Row(key: Option<int>, payload: int)

  function Copies(t: seq<Row>, r: Row): nat {
    multiset(t)[r]
  }

  predicate HasKey(query: seq<Row>, key: Option<int>) {
    key.Some? && exists i :: 0 <= i < |query| && query[i].key == key
  }

  /** DELETE WHERE (key) IN (SELECT key FROM query). */
  function Kept(t: seq<Row>, query: seq<Row>): seq<Row> {
    if t == [] then [] else
      var n := |t| - 1;
      Kept(t[..n], query) + (if HasKey(query, t[n].key) then [] else [t[n]])
  }

  function Upserted(t: seq<Row>, query: seq<Row>): seq<Row> {
    Kept(t, query) + query
  }

  class KeyedTable {
    var rows: seq<Row>

    constructor ()
      ensures rows == []
    {
      rows := [];
    }

    method Upsert(query: seq<Row>)
      modifies this
      ensures rows == Upserted(old(rows), query)
    {
      var kept := [];
      for i := 0 to |rows|
        invariant rows == old(rows)
        invariant kept == Kept(rows[..i], query)
      {
        assert rows[..i + 1][..i] == rows[..i];
        if !HasKey(query, rows[i].key) {
          kept := kept + [rows[i]];
        }
      }
      assert rows[..|rows|] == rows;
      rows := kept + query;
    }
  }

  lemma {:induction false} KeptCopies(t: seq<Row>, query: seq<Row>, r: Row)
    ensures Copies(Kept(t, query), r) == if HasKey(query, r.key) then 0 else Copies(t, r)
  {
    if t != [] {
      var n := |t| - 1;
      KeptCopies(t[..n], query, r);
      assert t == t[..n] + [t[n]];
    }
  }

  lemma UpsertedCopies(t: seq<Row>, query: seq<Row>, r: Row)
    ensures Copies(Upserted(t, query), r) == (if HasKey(query, r.key) then 0 else Copies(t, r)) + Copies(query, r)
  {
    KeptCopies(t, query, r);
  }

  ghost predicate RerunSafe(query: seq<Row>) {
    forall t :: multiset(Upserted(Upserted(t, query), query)) == multiset(Upserted(t, query))
  }

  ghost predicate NoNullKey(query: seq<Row>) {
    forall r | r in query :: r.key.Some?
  }

  /** Refreshing twice is refreshing once exactly when the query returns no NULL key. */
  lemma RerunExact(query: seq<Row>)
    ensures RerunSafe(query) <==> NoNullKey(query)
  {
    if NoNullKey(query) {
      forall t ensures multiset(Upserted(Upserted(t, query), query)) == multiset(Upserted(t, query)) {
        var once := Upserted(t, query);
        forall r ensures multiset(Upserted(once, query))[r] == multiset(once)[r] {
          UpsertedCopies(t, query, r);
          UpsertedCopies(once, query, r);
          if r in query {
            var i :| 0 <= i < |query| && query[i] == r;
            assert HasKey(query, r.key);
          }
        }
      }
    } else {
      var r :| r in query && r.key.None?;
      var once := Upserted([], query);
      UpsertedCopies([], query, r);
      UpsertedCopies(once, query, r);
      assert multiset(Upserted(once, query))[r] != multiset(once)[r];
    }
  }

  // ----- histories -----

  function History(queries: seq<seq<Row>>): seq<Row> {
    if queries == [] then [] else
      var n := |queries| - 1;
      Upserted(History(queries[..n]), queries[n])
  }

  /** How often the last query that returned this key returned this row. */
  function LastWritten(queries: seq<seq<Row>>, r: Row): nat {
    if queries == [] then 0 else
      var n := |queries| - 1;
      if HasKey(queries[n], r.key) then Copies(queries[n], r) else LastWritten(queries[..n], r)
  }

  /** Under any key the table holds what the last query to return that key returned for it. */
  lemma {:induction false} LastWriteWins(queries: seq<seq<Row>>, r: Row)
    requires r.key.Some?
    ensures Copies(History(queries), r) == LastWritten(queries, r)
  {
    if queries != [] {
      var n := |queries| - 1;
      LastWriteWins(queries[..n], r);
      UpsertedCopies(History(queries[..n]), queries[n], r);
      if r in queries[n] {
        var i :| 0 <= i < |queries[n]| && queries[n][i] == r;
        assert HasKey(queries[n], r.key);
      }
    }
  }

  /** No key twice. */
  ghost predicate Unique(t: seq<Row>) {
    forall i, j | 0 <= i < j < |t| && t[i].key.Some? :: t[i].key != t[j].key
  }

  lemma {:induction false} KeptUnique(t: seq<Row>, query: seq<Row>)
    requires Unique(t)
    ensures Unique(Kept(t, query))
    ensures forall r | r in Kept(t, query) :: r in t && !HasKey(query, r.key)
  {
    if t != [] {
      var n := |t| - 1;
      KeptUnique(t[..n], query);
      var kept := Kept(t[..n], query);
      forall i | 0 <= i < |kept| && kept[i].key.Some? ensures kept[i].key != t[n].key {
        assert kept[i] in kept;
        var j :| 0 <= j < n && t[..n][j] == kept[i];
      }
    }
  }

  /** Queries without repeated keys keep the table without repeated keys. */
  lemma {:induction false} StaysUnique(queries: seq<seq<Row>>)
    requires forall i | 0 <= i < |queries| :: Unique(queries[i])
    ensures Unique(History(queries))
  {
    if queries != [] {
      var n := |queries| - 1;
      StaysUnique(queries[..n]);
      var kept, query := Kept(History(queries[..n]), queries[n]), queries[n];
      KeptUnique(History(queries[..n]), query);
      forall i, j | 0 <= i < |kept| && 0 <= j < |query| && kept[i].key.Some? ensures kept[i].key != query[j].key {
        assert kept[i] in kept;
        assert !HasKey(query, kept[i].key);
      }
    }
  }
}
