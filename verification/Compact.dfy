/**
 * Compaction of one dated partition (src/plan/compact.ts): list the files, merge them into
 * a temporary one, publish it by a rename, delete what was listed. It may die after any
 * step, and the lake's writer goes on appending files meanwhile. A file is its rows; a
 * reader of the lake sees the files named `.parquet`.
 */
module Compaction {
  import opened Common

  /** A row: its unique key, its place in `orderBy`, and the rest. */
  datatype Row = Row(key: int, order: int, payload: int)

  type Files = map<string, seq<Row>>

  /** `keyed`: whether the policy names a unique key. */
  datatype Policy = Policy(published: string, keyed: bool)

  predicate IsParquet(name: string) {
    |name| >= 8 && name[|name| - 8..] == ".parquet"
  }

  /** `<published>.<pid>.tmp`. */
  function WritePath(published: string, pid: string): (name: string)
    ensures !IsParquet(name) && name != published
  {
    var name := published + "." + pid + ".tmp";
    NotParquet(name);
    name
  }

  lemma NotParquet(name: string)
    requires |name| > 0 && name[|name| - 1] != 't'
    ensures !IsParquet(name)
  {
    assert |name| >= 8 ==> name[|name| - 8..][7] != 't';
  }

  /** The names a reader looks at are those with the suffix. */
  lemma ParquetNames(name: string)
    ensures IsParquet(name) <==> exists stem: string :: name == stem + ".parquet"
  {
    if IsParquet(name) {
      assert name == name[..|name| - 8] + ".parquet";
    }
    if stem :| name == stem + ".parquet" {
      assert name[|name| - 8..] == ".parquet";
    }
  }

  /** Processes do not share a temporary file. */
  lemma TempNamesApart(published: string, p: string, q: string)
    ensures WritePath(published, p) == WritePath(published, q) <==> p == q
  {
    var a, b := published + "." + p + ".tmp", published + "." + q + ".tmp";
    var n := |published| + 1;
    assert a[n..|a| - 4] == p && b[n..|b| - 4] == q;
  }

  function Listed(fs: Files): set<string> {
    set f | f in fs && IsParquet(f)
  }

  function RowsOf(fs: Files, names: set<string>): set<Row> {
    set f, r | f in names && f in fs && r in fs[f] :: r
  }

  function RowSet(rows: seq<Row>): set<Row> {
    set r | r in rows
  }

  function Visible(fs: Files): set<Row> {
    RowsOf(fs, Listed(fs))
  }

  // ----- the de-duplicated view -----

  ghost predicate IsFirst(rows: set<Row>, r: Row) {
    r in rows && forall q | q in rows && q.key == r.key :: r.order <= q.order
  }

  /** The first row of every key. */
  ghost function First(rows: set<Row>): set<Row> {
    set r | r in rows && IsFirst(rows, r)
  }

  ghost function View(fs: Files): set<Row> {
    First(Visible(fs))
  }

  /** `orderBy` tells any two different rows of a key apart. */
  ghost predicate Total(rows: set<Row>) {
    forall r, q | r in rows && q in rows && r.key == q.key && r.order == q.order :: r == q
  }

  lemma {:induction false} FirstExists(rows: set<Row>, key: int) returns (m: Row)
    requires exists r :: r in rows && r.key == key
    ensures IsFirst(rows, m) && m.key == key
    decreases rows
  {
    var r :| r in rows && r.key == key;
    var rest := rows - {r};
    if exists q :: q in rest && q.key == key {
      m := FirstExists(rest, key);
      if r.order < m.order { m := r; }
    } else {
      m := r;
    }
  }

  /** Rows that are not first can go: what is left has the same view. */
  lemma SameFirst(some: set<Row>, all: set<Row>)
    requires some <= all && First(all) <= some
    ensures First(some) == First(all)
  {
    forall r | r in First(some) ensures r in First(all) {
      var m := FirstExists(all, r.key);
      assert m in First(all);
    }
    forall r | r in First(all) ensures r in First(some) {
      assert IsFirst(some, r);
    }
  }

  // ----- the merge -----

  /** `_rn = 1`: one row of every key, first by the order; ties as the engine likes. */
  ghost predicate Deduplicated(rows: set<Row>, merged: seq<Row>) {
    && (forall r | r in merged :: IsFirst(rows, r))
    && (forall r | r in rows :: exists i :: 0 <= i < |merged| && merged[i].key == r.key)
    && (forall i, j | 0 <= i < j < |merged| :: merged[i].key != merged[j].key)
  }

  /** All rows of the files, file after file. */
  function Concatenated(fs: Files, names: seq<string>): seq<Row> {
    if names == [] then [] else
      var n := |names| - 1;
      Concatenated(fs, names[..n]) + (if names[n] in fs then fs[names[n]] else [])
  }

  ghost predicate Merges(p: Policy, fs: Files, names: seq<string>, merged: seq<Row>) {
    if p.keyed then Deduplicated(RowsOf(fs, Elems(names)), merged)
    else multiset(merged) == multiset(Concatenated(fs, names))
  }

  function Elems(names: seq<string>): set<string> {
    set f | f in names
  }

  ghost predicate Distinct(names: seq<string>) {
    forall i, j | 0 <= i < j < |names| :: names[i] != names[j]
  }

  /** A row of a new key is appended. */
  lemma AppendRow(rows: set<Row>, merged: seq<Row>, r: Row)
    requires Deduplicated(rows, merged) && forall k | 0 <= k < |merged| :: merged[k].key != r.key
    ensures Deduplicated(rows + {r}, merged + [r])
  {
    var all, next := rows + {r}, merged + [r];
    forall q | q in rows ensures q.key != r.key && exists k :: 0 <= k < |next| && next[k].key == q.key {
      var k :| 0 <= k < |merged| && merged[k].key == q.key;
      assert next[k].key == q.key;
    }
    assert next[|merged|].key == r.key;
    assert IsFirst(all, r);
    forall m | m in merged ensures IsFirst(all, m) {
      assert IsFirst(rows, m);
      var k :| 0 <= k < |merged| && merged[k] == m;
    }
  }

  /** A row no earlier than the one kept for its key changes nothing. */
  lemma KeepRow(rows: set<Row>, merged: seq<Row>, r: Row, i: nat)
    requires Deduplicated(rows, merged) && i < |merged| && merged[i].key == r.key && merged[i].order <= r.order
    ensures Deduplicated(rows + {r}, merged)
  {
    forall m | m in merged ensures IsFirst(rows + {r}, m) {
      assert IsFirst(rows, m);
      var k :| 0 <= k < |merged| && merged[k] == m;
      assert k != i ==> merged[k].key != merged[i].key;
    }
    assert merged[i].key == r.key;
  }

  /** An earlier one takes its place. */
  lemma ReplaceRow(rows: set<Row>, merged: seq<Row>, r: Row, i: nat)
    requires Deduplicated(rows, merged) && i < |merged| && merged[i].key == r.key && r.order < merged[i].order
    ensures Deduplicated(rows + {r}, merged[i := r])
  {
    var all, next := rows + {r}, merged[i := r];
    assert merged[i] in merged && IsFirst(rows, merged[i]);
    assert IsFirst(all, r);
    forall m | m in next ensures IsFirst(all, m) {
      var k :| 0 <= k < |next| && next[k] == m;
      if k != i {
        assert merged[k] in merged && IsFirst(rows, merged[k]);
        assert merged[k].key != r.key;
      }
    }
    forall q | q in all ensures exists k :: 0 <= k < |next| && next[k].key == q.key {
      if q in rows {
        var k :| 0 <= k < |merged| && merged[k].key == q.key;
        assert next[k].key == q.key;
      } else {
        assert next[i].key == q.key;
      }
    }
  }

  // ----- steps -----

  datatype Phase =
    | Idle
    | Snapped(paths: seq<string>, temp: string)
    | Written(paths: seq<string>, temp: string)
    | Unlinking(todo: seq<string>)

  /** `all`: every row ever written to the lake; `late`: the files that arrived since the snapshot. */
  datatype Sys = Sys(files: Files, phase: Phase, all: set<Row>, late: map<string, seq<Row>>)

  datatype Step =
    | Arrive(name: string, rows: seq<Row>)
    | Snap(paths: seq<string>, pid: string)
    | Write(merged: seq<Row>)
    | WriteFails
    | Publish
    | Unlink
    | Finish
    | Crash(leftover: Option<seq<Row>>)

  /** The writer appends files under new names of its own. */
  ghost predicate Enabled(p: Policy, s: Sys, e: Step) {
    match e
    case Arrive(name, _) => IsParquet(name) && name !in s.files && name != p.published
    case Snap(paths, _) => s.phase.Idle? && Distinct(paths) && Elems(paths) == Listed(s.files)
    case Write(merged) => s.phase.Snapped? && Merges(p, s.files, s.phase.paths, merged)
    case WriteFails => s.phase.Snapped?
    case Publish => s.phase.Written?
    case Unlink => s.phase.Unlinking? && s.phase.todo != []
    case Finish => s.phase.Unlinking? && s.phase.todo == []
    case Crash(leftover) => leftover.Some? ==> s.phase.Snapped?
  }

  function Unlinked(p: Policy, files: Files, path: string): Files {
    if path == p.published then files else files - {path}
  }

  function Next(p: Policy, s: Sys, e: Step): Sys {
    match e
    case Arrive(name, rows) =>
      s.(files := s.files[name := rows], all := s.all + RowSet(rows), late := s.late[name := rows])
    case Snap(paths, pid) => s.(phase := Snapped(paths, WritePath(p.published, pid)), late := map[])
    case Write(merged) =>
      if s.phase.Snapped? then
        s.(files := s.files[s.phase.temp := merged], phase := Written(s.phase.paths, s.phase.temp))
      else s
    case WriteFails => if s.phase.Snapped? then s.(files := s.files - {s.phase.temp}, phase := Idle) else s
    case Publish =>
      if s.phase.Written? && s.phase.temp in s.files then
        s.(files := (s.files - {s.phase.temp})[p.published := s.files[s.phase.temp]],
           phase := Unlinking(s.phase.paths))
      else s
    case Unlink =>
      if s.phase.Unlinking? && s.phase.todo != [] then
        s.(files := Unlinked(p, s.files, s.phase.todo[0]), phase := Unlinking(s.phase.todo[1..]))
      else s
    case Finish => s.(phase := Idle)
    case Crash(leftover) =>
      s.(files := if leftover.Some? && s.phase.Snapped? then s.files[s.phase.temp := leftover.value] else s.files,
         phase := Idle)
  }

  ghost predicate Runs(p: Policy, s: Sys, es: seq<Step>)
    decreases |es|
  {
    es == [] || (Enabled(p, s, es[0]) && Runs(p, Next(p, s, es[0]), es[1..]))
  }

  function Run(p: Policy, s: Sys, es: seq<Step>): Sys
    decreases |es|
  {
    if es == [] then s else Run(p, Next(p, s, es[0]), es[1..])
  }

  function Start(files: Files): Sys {
    Sys(files, Idle, Visible(files), map[])
  }

  // ----- what every step keeps -----

  /** Nothing invented, and the first row of every key still visible somewhere. */
  ghost predicate Whole(s: Sys) {
    Visible(s.files) <= s.all && First(s.all) <= Visible(s.files)
  }

  /** The first rows among these files are in the published one. */
  ghost predicate Backed(p: Policy, s: Sys, names: seq<string>) {
    p.published in s.files
    && forall r | r in RowsOf(s.files, Elems(names)) && IsFirst(s.all, r) :: r in s.files[p.published]
  }

  ghost predicate PhaseInv(p: Policy, s: Sys) {
    match s.phase
    case Idle => true
    case Snapped(paths, temp) => Pending(p, s, paths, temp)
    case Written(paths, temp) =>
      && Pending(p, s, paths, temp)
      && temp in s.files && Deduplicated(RowsOf(s.files, Elems(paths)), s.files[temp])
    case Unlinking(todo) => Distinct(todo) && Elems(todo) <= Listed(s.files) && Backed(p, s, todo)
  }

  /** All listed files are there, an earlier published file among them. */
  ghost predicate Pending(p: Policy, s: Sys, paths: seq<string>, temp: string) {
    && Distinct(paths) && Elems(paths) <= Listed(s.files) && !IsParquet(temp) && temp != p.published
    && (p.published in s.files ==> p.published in paths)
  }

  function PathsOf(phase: Phase): seq<string> {
    match phase
    case Idle => []
    case Snapped(paths, _) => paths
    case Written(paths, _) => paths
    case Unlinking(todo) => todo
  }

  ghost predicate Inv(p: Policy, s: Sys) {
    Whole(s) && PhaseInv(p, s)
  }

  ghost predicate Safe(p: Policy) {
    p.keyed && IsParquet(p.published)
  }

  /** A change under names no reader looks at. */
  ghost predicate HiddenChange(fs: Files, gs: Files) {
    forall f | IsParquet(f) :: (f in fs <==> f in gs) && (f in fs ==> fs[f] == gs[f])
  }

  lemma HiddenKeeps(fs: Files, gs: Files, names: set<string>)
    requires HiddenChange(fs, gs) && names <= Listed(fs)
    ensures Listed(fs) == Listed(gs) && Visible(fs) == Visible(gs) && RowsOf(fs, names) == RowsOf(gs, names)
  {
    assert Listed(fs) == Listed(gs);
    assert forall f | f in names :: f in fs && fs[f] == gs[f];
  }

  lemma FirstOfFewer(some: set<Row>, more: set<Row>, r: Row)
    requires some <= more && r in some && IsFirst(more, r)
    ensures IsFirst(some, r)
  {
  }

  lemma Arrived(fs: Files, name: string, rows: seq<Row>, names: set<string>)
    requires IsParquet(name) && name !in fs && name !in names
    ensures Visible(fs[name := rows]) == Visible(fs) + RowSet(rows)
    ensures RowsOf(fs[name := rows], names) == RowsOf(fs, names)
    ensures Listed(fs[name := rows]) == Listed(fs) + {name}
  {
    var gs := fs[name := rows];
    assert forall f | f in names :: (f in gs <==> f in fs) && (f in fs ==> gs[f] == fs[f]);
    assert Listed(gs) == Listed(fs) + {name};
    forall r ensures r in Visible(gs) <==> r in Visible(fs) || r in rows {
      if r in Visible(fs) {
        var f :| f in Listed(fs) && r in fs[f];
        assert f in Listed(gs) && gs[f] == fs[f];
      }
      if r in rows {
        assert name in Listed(gs) && r in gs[name];
      }
    }
  }

  lemma ArriveKeeps(p: Policy, s: Sys, name: string, rows: seq<Row>)
    requires Safe(p) && Inv(p, s) && Enabled(p, s, Arrive(name, rows))
    ensures Inv(p, Next(p, s, Arrive(name, rows)))
  {
    hide RowsOf, Visible, Listed;
    var t := Next(p, s, Arrive(name, rows));
    var paths := Elems(PathsOf(s.phase));
    assert name !in paths by { NotListed(p, s, name); }
    Arrived(s.files, name, rows, paths);
    forall r | r in First(t.all) ensures r in Visible(t.files) {
      if r in s.all {
        FirstOfFewer(s.all, t.all, r);
        assert r in First(s.all);
      }
    }
    assert Whole(t);
    if s.phase.Unlinking? {
      forall r | r in RowsOf(t.files, paths) && IsFirst(t.all, r) ensures r in t.files[p.published] {
        PathRowsKnown(p, s, r);
        FirstOfFewer(s.all, t.all, r);
      }
    }
  }

  lemma NotListed(p: Policy, s: Sys, name: string)
    requires Inv(p, s) && name !in s.files
    ensures name !in PathsOf(s.phase)
  {
    assert name in PathsOf(s.phase) ==> name in Elems(PathsOf(s.phase));
  }

  /** What the files still to be unlinked hold was written once. */
  lemma PathRowsKnown(p: Policy, s: Sys, r: Row)
    requires Inv(p, s) && r in RowsOf(s.files, Elems(PathsOf(s.phase)))
    ensures r in s.all
  {
  }

  lemma SnapKeeps(p: Policy, s: Sys, paths: seq<string>, pid: string)
    requires Safe(p) && Inv(p, s) && Enabled(p, s, Snap(paths, pid))
    ensures Inv(p, Next(p, s, Snap(paths, pid)))
  {
    hide RowsOf, Visible;
    if p.published in s.files {
      assert p.published in Listed(s.files);
      assert p.published in Elems(paths);
    }
  }

  /** Files under the temporary name come and go unseen. */
  lemma TempUnseen(p: Policy, s: Sys, t: Sys)
    requires Safe(p) && Inv(p, s) && HiddenChange(s.files, t.files) && t.all == s.all
    ensures Whole(t) && Elems(PathsOf(s.phase)) <= Listed(t.files)
    ensures RowsOf(t.files, Elems(PathsOf(s.phase))) == RowsOf(s.files, Elems(PathsOf(s.phase)))
    ensures p.published in t.files <==> p.published in s.files
  {
    HiddenKeeps(s.files, t.files, Elems(PathsOf(s.phase)));
  }

  lemma WriteKeeps(p: Policy, s: Sys, merged: seq<Row>)
    requires Safe(p) && Inv(p, s) && Enabled(p, s, Write(merged))
    ensures Inv(p, Next(p, s, Write(merged)))
  {
    hide RowsOf, Visible, Listed, Whole, Deduplicated;
    TempUnseen(p, s, Next(p, s, Write(merged)));
  }

  lemma AbortKeeps(p: Policy, s: Sys, e: Step)
    requires Safe(p) && Inv(p, s) && Enabled(p, s, e) && (e.WriteFails? || e.Crash? || e.Finish?)
    ensures Inv(p, Next(p, s, e))
  {
    hide RowsOf, Visible, Listed, Whole;
    TempUnseen(p, s, Next(p, s, e));
  }

  /** The merged file holds the first row of every key among the listed files. */
  lemma MergedBacks(rows: set<Row>, merged: seq<Row>, all: set<Row>, r: Row)
    requires Deduplicated(rows, merged) && rows <= all && Total(all) && r in rows && IsFirst(all, r)
    ensures r in merged
  {
    var i :| 0 <= i < |merged| && merged[i].key == r.key;
    assert merged[i] in merged;
    assert IsFirst(rows, merged[i]);
    assert merged[i] == r;
  }

  lemma PublishRows(p: Policy, s: Sys, r: Row)
    requires Safe(p) && Inv(p, s) && s.phase.Written?
    ensures var t := Next(p, s, Publish);
            r in Visible(t.files) <==>
              r in s.files[s.phase.temp] || exists f :: f in Listed(s.files) && f != p.published && r in s.files[f]
  {
    hide Whole;
    var t := Next(p, s, Publish);
    if r in Visible(t.files) {
      var f :| f in Listed(t.files) && f in t.files && r in t.files[f];
      assert f != p.published ==> f in Listed(s.files) && r in s.files[f];
    }
    if r in s.files[s.phase.temp] {
      assert p.published in Listed(t.files) && r in t.files[p.published];
    }
    if f :| f in Listed(s.files) && f != p.published && r in s.files[f] {
      assert f in Listed(t.files) && r in t.files[f];
    }
  }

  lemma PublishKeeps(p: Policy, s: Sys)
    requires Safe(p) && Inv(p, s) && s.phase.Written? && Total(s.all)
    ensures Inv(p, Next(p, s, Publish))
  {
    hide Total, Deduplicated;
    var t := Next(p, s, Publish);
    var paths := Elems(s.phase.paths);
    var rows, merged := RowsOf(s.files, paths), s.files[s.phase.temp];
    assert rows <= Visible(s.files);
    forall r | r in merged ensures r in rows {
      MergedIsInput(rows, merged, r);
    }
    forall r | r in First(s.all) ensures r in Visible(t.files) {
      PublishRows(p, s, r);
      var f :| f in Listed(s.files) && f in s.files && r in s.files[f];
      if f == p.published {
        assert f in paths && r in rows;
        MergedBacks(rows, merged, s.all, r);
      }
    }
    forall r | r in Visible(t.files) ensures r in s.all {
      PublishRows(p, s, r);
      assert r !in merged ==> r in Visible(s.files);
    }
    forall r | r in RowsOf(t.files, paths) && IsFirst(t.all, r) ensures r in t.files[p.published] {
      var f :| f in paths && f in t.files && r in t.files[f];
      if f != p.published {
        assert f in s.files && r in s.files[f] && r in rows;
        MergedBacks(rows, merged, s.all, r);
      }
    }
    assert Listed(t.files) == Listed(s.files) + {p.published};
  }

  lemma MergedIsInput(rows: set<Row>, merged: seq<Row>, r: Row)
    requires Deduplicated(rows, merged) && r in merged
    ensures r in rows
  {
    assert IsFirst(rows, r);
  }

  lemma UnlinkWhole(p: Policy, s: Sys)
    requires Safe(p) && Inv(p, s) && Enabled(p, s, Unlink)
    ensures Whole(Next(p, s, Unlink))
  {
    hide IsParquet, Distinct;
    var t, path := Next(p, s, Unlink), s.phase.todo[0];
    assert path in s.phase.todo;
    assert path in Elems(s.phase.todo);
    forall r | r in First(s.all) ensures r in Visible(t.files) {
      var f :| f in Listed(s.files) && f in s.files && r in s.files[f];
      if f == path {
        assert r in RowsOf(s.files, Elems(s.phase.todo));
        assert p.published in Listed(t.files) && r in t.files[p.published];
      } else {
        assert f in Listed(t.files) && r in t.files[f];
      }
    }
    forall r | r in Visible(t.files) ensures r in s.all {
      assert r in Visible(s.files);
    }
  }

  lemma UnlinkKeeps(p: Policy, s: Sys)
    requires Safe(p) && Inv(p, s) && Enabled(p, s, Unlink)
    ensures Inv(p, Next(p, s, Unlink))
  {
    hide Whole, IsParquet;
    UnlinkWhole(p, s);
    var t := Next(p, s, Unlink);
    var path, rest := s.phase.todo[0], s.phase.todo[1..];
    assert s.phase.todo == [path] + rest;
    forall f | f in rest ensures f in Elems(s.phase.todo) && f != path {
      var i :| 0 <= i < |rest| && rest[i] == f;
      assert s.phase.todo[i + 1] == f;
    }
    assert Distinct(rest) && Elems(rest) <= Listed(t.files);
    forall r | r in RowsOf(t.files, Elems(rest)) && IsFirst(t.all, r) ensures r in t.files[p.published] {
      assert r in RowsOf(s.files, Elems(s.phase.todo));
    }
  }

  lemma StepKeeps(p: Policy, s: Sys, e: Step)
    requires Safe(p) && Inv(p, s) && Enabled(p, s, e) && Total(s.all)
    ensures Inv(p, Next(p, s, e))
  {
    hide Inv, Next, Total, Safe;
    match e
    case Arrive(name, rows) => ArriveKeeps(p, s, name, rows);
    case Snap(paths, pid) => SnapKeeps(p, s, paths, pid);
    case Write(merged) => WriteKeeps(p, s, merged);
    case WriteFails => AbortKeeps(p, s, e);
    case Publish => PublishKeeps(p, s);
    case Unlink => UnlinkKeeps(p, s);
    case Finish => AbortKeeps(p, s, e);
    case Crash(_) => AbortKeeps(p, s, e);
  }

  lemma {:induction false} AllGrows(p: Policy, s: Sys, es: seq<Step>)
    ensures s.all <= Run(p, s, es).all
    decreases |es|
  {
    if es != [] { AllGrows(p, Next(p, s, es[0]), es[1..]); }
  }

  lemma {:induction false} InvRun(p: Policy, s: Sys, es: seq<Step>)
    requires Safe(p) && Inv(p, s) && Runs(p, s, es) && Total(Run(p, s, es).all)
    ensures Inv(p, Run(p, s, es))
    decreases |es|
  {
    hide Inv, Enabled, Next, Safe;
    if es != [] {
      AllGrows(p, s, es);
      StepKeeps(p, s, es[0]);
      InvRun(p, Next(p, s, es[0]), es[1..]);
    }
  }

  lemma StartInv(p: Policy, files: Files)
    requires Safe(p)
    ensures Inv(p, Start(files))
  {
  }

  /**
   * With a unique key, a total order and a published name readers look at, the view of the
   * partition is at every moment - mid-merge, after a crash, in a second run - the first
   * row per key of everything ever written to it.
   */
  lemma ViewNeverChanges(p: Policy, files: Files, es: seq<Step>)
    requires Safe(p) && Runs(p, Start(files), es) && Total(Run(p, Start(files), es).all)
    ensures View(Run(p, Start(files), es).files) == First(Run(p, Start(files), es).all)
  {
    StartInv(p, files);
    InvRun(p, Start(files), es);
    var s := Run(p, Start(files), es);
    SameFirst(Visible(s.files), s.all);
  }

  // ----- what arrives late -----

  /** Nothing the compactor will still rename or delete has arrived since its listing. */
  ghost predicate LateInv(p: Policy, s: Sys) {
    && (forall f | f in s.late :: f in s.files && s.files[f] == s.late[f] && IsParquet(f))
    && (forall f | f in s.late :: f != p.published && f !in PathsOf(s.phase))
    && Distinct(PathsOf(s.phase)) && (forall f | f in PathsOf(s.phase) :: f in s.files && IsParquet(f))
    && (s.phase.Snapped? || s.phase.Written? ==> !IsParquet(s.phase.temp))
  }

  lemma LateUnlink(p: Policy, s: Sys)
    requires LateInv(p, s) && Enabled(p, s, Unlink)
    ensures LateInv(p, Next(p, s, Unlink))
  {
    var t := Next(p, s, Unlink);
    var path, rest := s.phase.todo[0], s.phase.todo[1..];
    assert s.phase.todo == [path] + rest;
    assert path in s.phase.todo;
    forall f | f in rest ensures f in s.phase.todo && f != path {
      var i :| 0 <= i < |rest| && rest[i] == f;
      assert s.phase.todo[i + 1] == f;
    }
    assert Distinct(rest);
  }

  lemma LateSnap(p: Policy, s: Sys, paths: seq<string>, pid: string)
    requires LateInv(p, s) && Enabled(p, s, Snap(paths, pid))
    ensures LateInv(p, Next(p, s, Snap(paths, pid)))
  {
    forall f | f in paths ensures f in s.files && IsParquet(f) {
      assert f in Elems(paths);
    }
  }

  lemma LateArrive(p: Policy, s: Sys, name: string, rows: seq<Row>)
    requires LateInv(p, s) && Enabled(p, s, Arrive(name, rows))
    ensures LateInv(p, Next(p, s, Arrive(name, rows)))
  {
    hide IsParquet, Distinct;
    assert name !in PathsOf(s.phase);
  }

  lemma LatePublish(p: Policy, s: Sys)
    requires LateInv(p, s) && Enabled(p, s, Publish)
    ensures LateInv(p, Next(p, s, Publish))
  {
    hide IsParquet, Distinct;
  }

  lemma LateTemp(p: Policy, s: Sys, e: Step)
    requires LateInv(p, s) && Enabled(p, s, e) && (e.Write? || e.WriteFails? || e.Crash? || e.Finish?)
    ensures LateInv(p, Next(p, s, e))
  {
    hide IsParquet, Merges;
  }

  lemma LateStep(p: Policy, s: Sys, e: Step)
    requires LateInv(p, s) && Enabled(p, s, e)
    ensures LateInv(p, Next(p, s, e))
  {
    hide LateInv, Next;
    match e
    case Arrive(name, rows) => LateArrive(p, s, name, rows);
    case Snap(paths, pid) => LateSnap(p, s, paths, pid);
    case Publish => LatePublish(p, s);
    case Unlink => LateUnlink(p, s);
    case _ => LateTemp(p, s, e);
  }

  lemma {:induction false} LateRun(p: Policy, s: Sys, es: seq<Step>)
    requires LateInv(p, s) && Runs(p, s, es)
    ensures LateInv(p, Run(p, s, es))
    decreases |es|
  {
    hide LateInv, Enabled, Next;
    if es != [] {
      LateStep(p, s, es[0]);
      LateRun(p, Next(p, s, es[0]), es[1..]);
    }
  }

  /** Whatever the policy, a file that arrived after the listing is still there as it was written. */
  lemma LateFilesStay(p: Policy, files: Files, es: seq<Step>, f: string)
    requires Runs(p, Start(files), es) && f in Run(p, Start(files), es).late
    ensures var s := Run(p, Start(files), es); f in s.files && s.files[f] == s.late[f]
  {
    LateRun(p, Start(files), es);
  }

  // ----- one whole round -----

  lemma {:induction false} Chained(p: Policy, s: Sys, es: seq<Step>, fs: seq<Step>)
    requires Runs(p, s, es) && Runs(p, Run(p, s, es), fs)
    ensures Runs(p, s, es + fs) && Run(p, s, es + fs) == Run(p, Run(p, s, es), fs)
    decreases |es|
  {
    hide Enabled, Next;
    if es == [] {
      assert es + fs == fs;
    } else {
      assert (es + fs)[1..] == es[1..] + fs;
      Chained(p, Next(p, s, es[0]), es[1..], fs);
    }
  }

  lemma One(p: Policy, s: Sys, e: Step)
    requires Enabled(p, s, e)
    ensures Runs(p, s, [e]) && Run(p, s, [e]) == Next(p, s, e)
  {
    assert [e][1..] == [];
  }

  function Unlinks(n: nat): seq<Step> {
    seq(n, _ => Unlink)
  }

  lemma {:induction false} UnlinkAll(p: Policy, s: Sys)
    requires s.phase.Unlinking?
    ensures Runs(p, s, Unlinks(|s.phase.todo|))
    ensures Run(p, s, Unlinks(|s.phase.todo|)) ==
              s.(files := s.files - (Elems(s.phase.todo) - {p.published}), phase := Unlinking([]))
    decreases |s.phase.todo|
  {
    var todo := s.phase.todo;
    if todo == [] {
      assert s.files - (Elems(todo) - {p.published}) == s.files;
    } else {
      var t := Next(p, s, Unlink);
      UnlinkAll(p, t);
      assert Unlinks(|todo|)[1..] == Unlinks(|todo| - 1);
      assert todo == [todo[0]] + todo[1..];
      assert Elems(todo) == {todo[0]} + Elems(todo[1..]);
      assert t.files - (Elems(todo[1..]) - {p.published}) == s.files - (Elems(todo) - {p.published});
    }
  }

  /** The directory after a round: the listed files gone, the merged one in their place. */
  function Compacted(p: Policy, files: Files, paths: seq<string>, pid: string, merged: seq<Row>): Files {
    ((files - {WritePath(p.published, pid)})[p.published := merged]) - (Elems(paths) - {p.published})
  }

  /** The steps from the merge on. */
  function Tail(paths: seq<string>, merged: seq<Row>): seq<Step> {
    [Write(merged)] + ([Publish] + (Unlinks(|paths|) + [Finish]))
  }

  lemma RoundTail(p: Policy, s: Sys, merged: seq<Row>)
    requires s.phase.Snapped? && Merges(p, s.files, s.phase.paths, merged)
    requires exists pid :: s.phase.temp == WritePath(p.published, pid)
    ensures Runs(p, s, Tail(s.phase.paths, merged))
    ensures forall pid | s.phase.temp == WritePath(p.published, pid) ::
              Run(p, s, Tail(s.phase.paths, merged))
              == Sys(Compacted(p, s.files, s.phase.paths, pid, merged), Idle, s.all, s.late)
  {
    hide Merges, WritePath;
    var paths := s.phase.paths;
    var written := Next(p, s, Write(merged));
    var published := Next(p, written, Publish);
    One(p, s, Write(merged));
    One(p, written, Publish);
    UnlinkAll(p, published);
    var emptied := Run(p, published, Unlinks(|paths|));
    One(p, emptied, Finish);
    Chained(p, published, Unlinks(|paths|), [Finish]);
    Chained(p, written, [Publish], Unlinks(|paths|) + [Finish]);
    Chained(p, s, [Write(merged)], [Publish] + (Unlinks(|paths|) + [Finish]));
    assert s.files[s.phase.temp := merged] - {s.phase.temp} == s.files - {s.phase.temp};
  }

  /** A listing and everything after it, on a directory nothing else touches. */
  lemma Round(p: Policy, s: Sys, paths: seq<string>, pid: string, merged: seq<Row>)
    requires s.phase.Idle? && Distinct(paths) && Elems(paths) == Listed(s.files)
    requires Merges(p, s.files, paths, merged)
    ensures var es := [Snap(paths, pid)] + Tail(paths, merged);
            Runs(p, s, es)
            && Run(p, s, es) == Sys(Compacted(p, s.files, paths, pid, merged), Idle, s.all, map[])
  {
    hide Merges, Compacted;
    var t := Next(p, s, Snap(paths, pid));
    One(p, s, Snap(paths, pid));
    RoundTail(p, t, merged);
    Chained(p, s, [Snap(paths, pid)], Tail(paths, merged));
  }

  /** A merge that fails leaves the directory as it was listed: its temporary file is removed. */
  lemma FailedMergeLeavesNothing(p: Policy, s: Sys, paths: seq<string>, pid: string)
    requires s.phase.Idle? && Distinct(paths) && Elems(paths) == Listed(s.files)
    ensures var es := [Snap(paths, pid)] + [WriteFails];
            && Runs(p, s, es) && Run(p, s, es).phase.Idle?
            && Run(p, s, es).files == s.files - {WritePath(p.published, pid)}
            && Visible(Run(p, s, es).files) == Visible(s.files)
  {
    hide WritePath;
    var t := Next(p, s, Snap(paths, pid));
    One(p, s, Snap(paths, pid));
    One(p, t, WriteFails);
    Chained(p, s, [Snap(paths, pid)], [WriteFails]);
    HiddenKeeps(s.files, s.files - {WritePath(p.published, pid)}, {});
  }

  // ----- the published name -----

  /** The view is right after every run. */
  ghost predicate AlwaysViewed(p: Policy) {
    forall files, es :: RunViewed(p, files, es)
  }

  ghost predicate RunViewed(p: Policy, files: Files, es: seq<Step>) {
    (Runs(p, Start(files), es) && Total(Run(p, Start(files), es).all))
    ==> View(Run(p, Start(files), es).files) == First(Run(p, Start(files), es).all)
  }

  /** With a unique key and a total order the view holds exactly when readers look at the published name. */
  lemma PublishedNameExact(p: Policy)
    requires p.keyed
    ensures AlwaysViewed(p) <==> IsParquet(p.published)
  {
    if IsParquet(p.published) {
      forall files, es ensures RunViewed(p, files, es) {
        if Runs(p, Start(files), es) && Total(Run(p, Start(files), es).all) {
          ViewNeverChanges(p, files, es);
        }
      }
    } else {
      var row, name := Row(1, 1, 1), "one.parquet";
      var files, paths, merged := map[name := [row]], [name], [row];
      assert IsParquet(name) by { assert name[|name| - 8..] == ".parquet"; }
      assert Elems(paths) == Listed(files) by { assert Elems(paths) == {name}; }
      OneRowMerges(files, name, row);
      Round(p, Start(files), paths, "1", merged);
      var es := [Snap(paths, "1")] + Tail(paths, merged);
      var s := Run(p, Start(files), es);
      assert name in Elems(paths);
      assert Listed(s.files) == {};
      assert row in Visible(files);
      assert row in First(s.all) && Total(s.all);
      assert !RunViewed(p, files, es);
    }
  }

  lemma OneRowMerges(files: Files, name: string, row: Row)
    requires files == map[name := [row]]
    ensures RowsOf(files, Elems([name])) == {row} && Deduplicated({row}, [row])
    ensures Visible(files) <= {row}
  {
    assert name in Elems([name]) && row in files[name];
    assert IsFirst({row}, row);
    assert [row][0].key == row.key;
  }

  // ----- the order -----

  /** Every key has one first row. */
  ghost predicate FirstUnique(rows: set<Row>) {
    forall r, q | r in First(rows) && q in First(rows) && r.key == q.key :: r == q
  }

  lemma {:induction false} MergeExists(rows: set<Row>) returns (merged: seq<Row>)
    ensures Deduplicated(rows, merged)
    decreases rows
  {
    if rows == {} {
      merged := [];
    } else {
      var r := Any(rows);
      var rest := rows - {r};
      var before := MergeExists(rest);
      assert rest + {r} == rows;
      if i :| 0 <= i < |before| && before[i].key == r.key {
        if r.order < before[i].order {
          ReplaceRow(rest, before, r, i);
          merged := before[i := r];
        } else {
          KeepRow(rest, before, r, i);
          merged := before;
        }
      } else {
        AppendRow(rest, before, r);
        merged := before + [r];
      }
    }
  }

  /** The view of a merged file has one row of every key, first by the order. */
  lemma MergedView(rows: set<Row>, merged: seq<Row>)
    requires Deduplicated(rows, merged)
    ensures First(RowSet(merged)) == RowSet(merged) && RowSet(merged) <= First(rows)
    ensures FirstUnique(RowSet(merged))
    ensures FirstUnique(rows) ==> RowSet(merged) == First(rows)
  {
    forall r | r in merged ensures r in First(rows) && r in First(RowSet(merged)) {
      assert IsFirst(rows, r);
    }
    forall r, q | r in merged && q in merged && r.key == q.key ensures r == q {
      var i :| 0 <= i < |merged| && merged[i] == r;
      var j :| 0 <= j < |merged| && merged[j] == q;
      assert i < j ==> merged[i].key != merged[j].key;
    }
    if FirstUnique(rows) {
      forall r | r in First(rows) ensures r in merged {
        var i :| 0 <= i < |merged| && merged[i].key == r.key;
        assert merged[i] in merged;
      }
    }
  }

  /** However the engine settles ties, an undisturbed round leaves the partition's view. */
  ghost predicate RoundsKeepView(p: Policy, files: Files) {
    forall paths, pid, merged |
      Distinct(paths) && Elems(paths) == Listed(files) && Deduplicated(Visible(files), merged) ::
      View(Compacted(p, files, paths, pid, merged)) == View(files)
  }

  lemma RoundView(p: Policy, files: Files, paths: seq<string>, pid: string, merged: seq<Row>)
    requires Safe(p) && Elems(paths) == Listed(files)
    ensures Visible(Compacted(p, files, paths, pid, merged)) == RowSet(merged)
  {
    var after := Compacted(p, files, paths, pid, merged);
    assert Listed(after) == {p.published};
    assert after[p.published] == merged;
    forall r | r in merged ensures r in Visible(after) {
      assert p.published in Listed(after) && r in after[p.published];
    }
  }

  /** A round keeps the view, whatever the ties, exactly when the order leaves no tie for first place. */
  lemma OrderExact(p: Policy, files: Files, paths: seq<string>, pid: string)
    requires Safe(p) && Distinct(paths) && Elems(paths) == Listed(files)
    ensures RoundsKeepView(p, files) <==> FirstUnique(Visible(files))
  {
    hide Compacted, Visible, Listed, First, FirstUnique, Deduplicated, Distinct;
    if FirstUnique(Visible(files)) {
      forall paths, pid, merged |
        Distinct(paths) && Elems(paths) == Listed(files) && Deduplicated(Visible(files), merged)
        ensures View(Compacted(p, files, paths, pid, merged)) == View(files)
      {
        RoundView(p, files, paths, pid, merged);
        MergedView(Visible(files), merged);
      }
    }
    if RoundsKeepView(p, files) {
      var merged := MergeExists(Visible(files));
      RoundView(p, files, paths, pid, merged);
      MergedView(Visible(files), merged);
      assert View(Compacted(p, files, paths, pid, merged)) == View(files);
      SameUnique(RowSet(merged), Visible(files));
    }
  }

  lemma SameUnique(rows: set<Row>, all: set<Row>)
    requires First(rows) == First(all) && FirstUnique(rows)
    ensures FirstUnique(all)
  {
  }

  // ----- without a unique key -----

  lemma {:induction false} ConcatenatedSame(fs: Files, gs: Files, names: seq<string>)
    requires forall f | f in names :: (f in fs <==> f in gs) && (f in fs ==> fs[f] == gs[f])
    ensures Concatenated(fs, names) == Concatenated(gs, names)
  {
    if names != [] {
      var n := |names| - 1;
      assert names[n] in names;
      assert forall f | f in names[..n] :: f in names;
      ConcatenatedSame(fs, gs, names[..n]);
    }
  }

  lemma ItselfMerges(p: Policy, fs: Files, names: seq<string>)
    requires !p.keyed
    ensures Merges(p, fs, names, Concatenated(fs, names))
  {
  }

  /** How often a row stands in these files. */
  function CopiesIn(fs: Files, names: seq<string>, r: Row): nat {
    if names == [] then 0 else
      var n := |names| - 1;
      CopiesIn(fs, names[..n], r) + (if names[n] in fs then multiset(fs[names[n]])[r] else 0)
  }

  lemma {:induction false} ConcatenatedCopies(fs: Files, names: seq<string>, r: Row)
    ensures multiset(Concatenated(fs, names))[r] == CopiesIn(fs, names, r)
  {
    if names != [] { ConcatenatedCopies(fs, names[..|names| - 1], r); }
  }

  /** Left alone, a round without a key, whatever it merges, keeps every row as often as it was. */
  lemma UnkeyedRoundKeepsRows(p: Policy, s: Sys, paths: seq<string>, pid: string, merged: seq<Row>)
    requires !p.keyed && IsParquet(p.published) && s.phase.Idle? && Distinct(paths) && Elems(paths) == Listed(s.files)
    requires Merges(p, s.files, paths, merged)
    ensures var es := [Snap(paths, pid)] + Tail(paths, merged);
            Runs(p, s, es) && Listed(Run(p, s, es).files) == {p.published}
            && p.published in Run(p, s, es).files && Run(p, s, es).files[p.published] == merged
    ensures forall r :: multiset(merged)[r] == CopiesIn(s.files, paths, r)
  {
    Round(p, s, paths, pid, merged);
    forall r ensures multiset(merged)[r] == CopiesIn(s.files, paths, r) {
      ConcatenatedCopies(s.files, paths, r);
    }
  }

  predicate HasKey(rows: set<Row>, key: int) {
    exists r :: r in rows && r.key == key
  }

  /** With one, it leaves one row of every key the files had, and no other key. */
  lemma KeyedRoundOnePerKey(p: Policy, s: Sys, paths: seq<string>, pid: string, merged: seq<Row>)
    requires p.keyed && IsParquet(p.published) && s.phase.Idle? && Distinct(paths) && Elems(paths) == Listed(s.files)
    requires Merges(p, s.files, paths, merged)
    ensures var es := [Snap(paths, pid)] + Tail(paths, merged);
            Runs(p, s, es) && Listed(Run(p, s, es).files) == {p.published}
            && p.published in Run(p, s, es).files && Run(p, s, es).files[p.published] == merged
    ensures forall i, j | 0 <= i < j < |merged| :: merged[i].key != merged[j].key
    ensures forall key :: HasKey(RowSet(merged), key) <==> HasKey(Visible(s.files), key)
    ensures forall r, q | r in merged && q in Visible(s.files) && r.key == q.key :: r.order <= q.order
  {
    Round(p, s, paths, pid, merged);
    var rows := Visible(s.files);
    assert RowsOf(s.files, Elems(paths)) == rows;
    forall key ensures HasKey(RowSet(merged), key) <==> HasKey(rows, key) {
      if r :| r in merged && r.key == key { assert IsFirst(rows, r); }
      if r :| r in rows && r.key == key {
        var i :| 0 <= i < |merged| && merged[i].key == r.key;
        assert merged[i] in merged;
      }
    }
  }

  /** The run up to the rename, and then nothing more. */
  function Dying(paths: seq<string>, pid: string, merged: seq<Row>): seq<Step> {
    [Snap(paths, pid)] + ([Write(merged)] + ([Publish] + [Crash(None)]))
  }

  lemma DiesPublished(p: Policy, s: Sys, paths: seq<string>, pid: string, merged: seq<Row>)
    requires s.phase.Idle? && Distinct(paths) && Elems(paths) == Listed(s.files)
    requires Merges(p, s.files, paths, merged)
    ensures Runs(p, s, Dying(paths, pid, merged))
    ensures Run(p, s, Dying(paths, pid, merged)) ==
              Sys((s.files - {WritePath(p.published, pid)})[p.published := merged], Idle, s.all, map[])
  {
    hide Merges, WritePath;
    var snapped := Next(p, s, Snap(paths, pid));
    var written := Next(p, snapped, Write(merged));
    var published := Next(p, written, Publish);
    One(p, s, Snap(paths, pid));
    One(p, snapped, Write(merged));
    One(p, written, Publish);
    One(p, published, Crash(None));
    Chained(p, written, [Publish], [Crash(None)]);
    Chained(p, snapped, [Write(merged)], [Publish] + [Crash(None)]);
    Chained(p, s, [Snap(paths, pid)], [Write(merged)] + ([Publish] + [Crash(None)]));
    var temp := WritePath(p.published, pid);
    assert s.files[temp := merged] - {temp} == s.files - {temp};
  }

  /** What the second run finds: everything listed before, and the published file. */
  lemma DoubledListing(p: Policy, files: Files, gs: Files, paths: seq<string>, once: seq<Row>)
    requires IsParquet(p.published) && p.published !in files
    requires Distinct(paths) && Elems(paths) == Listed(files) && once == Concatenated(files, paths)
    requires HiddenChange(files[p.published := once], gs)
    ensures Distinct(paths + [p.published]) && Elems(paths + [p.published]) == Listed(gs)
    ensures Concatenated(gs, paths + [p.published]) == once + once
  {
    var more := paths + [p.published];
    assert forall f | f in paths :: f in Elems(paths);
    assert Elems(more) == Elems(paths) + {p.published};
    assert Listed(gs) == Listed(files) + {p.published};
    ConcatenatedSame(files, gs, paths);
    assert more[..|paths|] == paths;
  }

  /**
   * Dying between the rename and the last delete, and running again, doubles every row for
   * good: the second merge reads both the published file and what it was made from.
   */
  lemma UnkeyedCrashDoubles(p: Policy, files: Files, paths: seq<string>, pid: string)
    requires !p.keyed && IsParquet(p.published) && p.published !in files
    requires Distinct(paths) && Elems(paths) == Listed(files)
    ensures var once, more := Concatenated(files, paths), paths + [p.published];
            var es := Dying(paths, pid, once) + ([Snap(more, pid)] + Tail(more, once + once));
            Runs(p, Start(files), es)
            && Listed(Run(p, Start(files), es).files) == {p.published}
            && Run(p, Start(files), es).files[p.published] == once + once
  {
    hide Tail, Concatenated, Distinct, Elems, Dying, Runs, Run;
    var once, more := Concatenated(files, paths), paths + [p.published];
    DiesPublished(p, Start(files), paths, pid, once);
    var dead := Run(p, Start(files), Dying(paths, pid, once));
    DoubledListing(p, files, dead.files, paths, once);
    ItselfMerges(p, dead.files, more);
    UnkeyedRoundKeepsRows(p, dead, more, pid, Concatenated(dead.files, more));
    Chained(p, Start(files), Dying(paths, pid, once), [Snap(more, pid)] + Tail(more, once + once));
  }

  // ----- which crashes lose the counts -----

  /** The first `c` steps of a round without a key: the listing, the merge, the rename, then deletes. */
  function FirstSteps(paths: seq<string>, pid: string, merged: seq<Row>, c: nat): seq<Step> {
    if c == 0 then []
    else if c == 1 then [Snap(paths, pid)]
    else if c == 2 then [Snap(paths, pid)] + [Write(merged)]
    else ([Snap(paths, pid)] + ([Write(merged)] + [Publish])) + Unlinks(c - 3)
  }

  /** What a reader of the directory sees after them. */
  function SeenAfter(p: Policy, files: Files, paths: seq<string>, merged: seq<Row>, c: nat): Files
    requires c <= |paths| + 3
  {
    if c < 3 then files else files[p.published := merged] - (Elems(paths[..c - 3]) - {p.published})
  }

  lemma Published(p: Policy, files: Files, paths: seq<string>, pid: string, merged: seq<Row>)
    requires Distinct(paths) && Elems(paths) == Listed(files) && Merges(p, files, paths, merged)
    ensures var es := [Snap(paths, pid)] + ([Write(merged)] + [Publish]);
            var s := Run(p, Start(files), es);
            && Runs(p, Start(files), es) && s.phase == Unlinking(paths)
            && s.files == (files - {WritePath(p.published, pid)})[p.published := merged]
  {
    hide Merges, WritePath;
    var s := Start(files);
    var snapped := Next(p, s, Snap(paths, pid));
    var written := Next(p, snapped, Write(merged));
    One(p, s, Snap(paths, pid));
    One(p, snapped, Write(merged));
    One(p, written, Publish);
    Chained(p, snapped, [Write(merged)], [Publish]);
    Chained(p, s, [Snap(paths, pid)], [Write(merged)] + [Publish]);
    var temp := WritePath(p.published, pid);
    assert files[temp := merged] - {temp} == files - {temp};
  }

  lemma MinusTwice(fs: Files, a: set<string>, b: set<string>)
    ensures fs - a - b == fs - (a + b)
  {
  }

  lemma UnlinkFirst(p: Policy, s: Sys)
    requires s.phase.Unlinking? && s.phase.todo != []
    ensures Next(p, s, Unlink).phase == Unlinking(s.phase.todo[1..])
    ensures Next(p, s, Unlink).files == s.files - ({s.phase.todo[0]} - {p.published})
  {
    var path := s.phase.todo[0];
    if path == p.published {
      assert {path} - {p.published} == {};
      assert s.files - {} == s.files;
    } else {
      assert {path} - {p.published} == {path};
    }
  }

  lemma ElemsFirst(xs: seq<string>, k: nat)
    requires 0 < k <= |xs|
    ensures xs[1..][..k - 1] == xs[..k][1..] && xs[1..][k - 1..] == xs[k..]
    ensures Elems(xs[..k]) == {xs[0]} + Elems(xs[1..][..k - 1])
  {
    assert xs[..k] == [xs[0]] + xs[1..][..k - 1];
  }

  lemma {:induction false} UnlinkSome(p: Policy, s: Sys, k: nat)
    requires s.phase.Unlinking? && k <= |s.phase.todo|
    ensures Runs(p, s, Unlinks(k)) && Run(p, s, Unlinks(k)).phase == Unlinking(s.phase.todo[k..])
    ensures Run(p, s, Unlinks(k)).files == s.files - (Elems(s.phase.todo[..k]) - {p.published})
    decreases k
  {
    hide Elems;
    var todo := s.phase.todo;
    if k == 0 {
      NoElems();
      assert todo[..0] == [] && {} - {p.published} == {} && s.files - {} == s.files;
    } else {
      hide Next;
      var t := Next(p, s, Unlink);
      UnlinkFirst(p, s);
      UnlinkSome(p, t, k - 1);
      assert Unlinks(k)[1..] == Unlinks(k - 1) && Unlinks(k)[0] == Unlink;
      ElemsFirst(todo, k);
      var tail := Elems(todo[1..][..k - 1]);
      MinusTwice(s.files, {todo[0]} - {p.published}, tail - {p.published});
      assert ({todo[0]} - {p.published}) + (tail - {p.published}) == ({todo[0]} + tail) - {p.published};
    }
  }

  lemma NoElems()
    ensures Elems([]) == {}
  {
  }

  lemma FirstStepsRun(p: Policy, files: Files, paths: seq<string>, pid: string, merged: seq<Row>, c: nat)
    requires Distinct(paths) && Elems(paths) == Listed(files) && Merges(p, files, paths, merged) && c <= |paths| + 3
    ensures var es := FirstSteps(paths, pid, merged, c);
            && Runs(p, Start(files), es)
            && HiddenChange(SeenAfter(p, files, paths, merged, c), Run(p, Start(files), es).files)
  {
    hide Merges, Listed, Visible, Distinct;
    var s := Start(files);
    if c == 1 || c == 2 {
      One(p, s, Snap(paths, pid));
      var snapped := Next(p, s, Snap(paths, pid));
      One(p, snapped, Write(merged));
      Chained(p, s, [Snap(paths, pid)], [Write(merged)]);
    } else if c >= 3 {
      Published(p, files, paths, pid, merged);
      var es := [Snap(paths, pid)] + ([Write(merged)] + [Publish]);
      UnlinkSome(p, Run(p, s, es), c - 3);
      Chained(p, s, es, Unlinks(c - 3));
    }
  }

  function DyingAt(paths: seq<string>, pid: string, merged: seq<Row>, c: nat): seq<Step> {
    FirstSteps(paths, pid, merged, c) + [Crash(None)]
  }

  lemma DiesAt(p: Policy, files: Files, paths: seq<string>, pid: string, merged: seq<Row>, c: nat)
    requires Distinct(paths) && Elems(paths) == Listed(files) && Merges(p, files, paths, merged) && c <= |paths| + 3
    ensures var es := DyingAt(paths, pid, merged, c);
            && Runs(p, Start(files), es) && Run(p, Start(files), es).phase.Idle?
            && HiddenChange(SeenAfter(p, files, paths, merged, c), Run(p, Start(files), es).files)
  {
    hide Merges, Listed, Visible, FirstSteps, SeenAfter, HiddenChange;
    FirstStepsRun(p, files, paths, pid, merged, c);
    var s := Run(p, Start(files), FirstSteps(paths, pid, merged, c));
    One(p, s, Crash(None));
    Chained(p, Start(files), FirstSteps(paths, pid, merged, c), [Crash(None)]);
  }

  // ----- counting rows over listings -----

  lemma {:induction false} ConcatenatedPlus(fs: Files, xs: seq<string>, ys: seq<string>)
    ensures Concatenated(fs, xs + ys) == Concatenated(fs, xs) + Concatenated(fs, ys)
  {
    if ys == [] {
      assert xs + ys == xs;
    } else {
      var n := |ys| - 1;
      assert (xs + ys)[..|xs + ys| - 1] == xs + ys[..n];
      ConcatenatedPlus(fs, xs, ys[..n]);
    }
  }

  /** A listing without its element at a position. */
  lemma TakeOut(ys: seq<string>, i: nat)
    requires i < |ys| && Distinct(ys)
    ensures Distinct(ys[..i] + ys[i + 1..]) && Elems(ys[..i] + ys[i + 1..]) == Elems(ys) - {ys[i]}
  {
    var a, b := ys[..i], ys[i + 1..];
    forall f ensures f in a + b <==> f in ys && f != ys[i] {
      if f in ys && f != ys[i] {
        var k :| 0 <= k < |ys| && ys[k] == f;
        assert f == if k < i then a[k] else b[k - i - 1];
      }
    }
  }

  lemma TakeOutRows(fs: Files, ys: seq<string>, i: nat)
    requires i < |ys|
    ensures multiset(Concatenated(fs, ys))
            == multiset(Concatenated(fs, ys[..i] + ys[i + 1..])) + multiset(Concatenated(fs, [ys[i]]))
  {
    hide Concatenated;
    var a, b, x := ys[..i], ys[i + 1..], [ys[i]];
    assert ys == (a + x) + b;
    ConcatenatedPlus(fs, a + x, b);
    ConcatenatedPlus(fs, a, x);
    ConcatenatedPlus(fs, a, b);
  }

  /** How often a row is listed does not depend on the order of the listing. */
  lemma {:induction false} ListingOrderIrrelevant(fs: Files, xs: seq<string>, ys: seq<string>)
    requires Distinct(xs) && Distinct(ys) && Elems(xs) == Elems(ys)
    ensures multiset(Concatenated(fs, xs)) == multiset(Concatenated(fs, ys))
    decreases |xs|
  {
    if xs == [] {
      assert forall y | y in ys :: y in Elems(ys);
      NonEmptyHasMember(ys);
    } else {
      var n := |xs| - 1;
      assert xs[n] in Elems(xs);
      var i :| 0 <= i < |ys| && ys[i] == xs[n];
      TakeOut(ys, i);
      TakeOut(xs, n);
      TakeOutRows(fs, ys, i);
      TakeOutRows(fs, xs, n);
      assert xs[..n] + xs[n + 1..] == xs[..n];
      ListingOrderIrrelevant(fs, xs[..n], ys[..i] + ys[i + 1..]);
    }
  }

  function Excluding(names: seq<string>, name: string): seq<string> {
    if names == [] then [] else
      var n := |names| - 1;
      Excluding(names[..n], name) + (if names[n] == name then [] else [names[n]])
  }

  lemma {:induction false} ExcludingMembers(names: seq<string>, name: string)
    ensures forall f :: f in Excluding(names, name) <==> f in names && f != name
  {
    if names != [] {
      var n := |names| - 1;
      ExcludingMembers(names[..n], name);
      assert names == names[..n] + [names[n]];
    }
  }

  lemma {:induction false} ExcludingDistinct(names: seq<string>, name: string)
    requires Distinct(names)
    ensures Distinct(Excluding(names, name))
  {
    if names != [] {
      var n := |names| - 1;
      ExcludingDistinct(names[..n], name);
      ExcludingMembers(names[..n], name);
      DistinctAppend(Excluding(names[..n], name), names[n]);
    }
  }

  lemma DistinctAppend(names: seq<string>, name: string)
    requires Distinct(names) && name !in names
    ensures Distinct(names + [name])
  {
  }

  /** The listed files not yet deleted hold no row any more, but for the published one. */
  ghost predicate NothingLeft(p: Policy, files: Files, left: seq<string>) {
    forall f | f in left && f != p.published && f in files :: files[f] == []
  }

  lemma {:induction false} NoRowsExact(fs: Files, names: seq<string>)
    ensures Concatenated(fs, names) == [] <==> forall f | f in names && f in fs :: fs[f] == []
  {
    if names != [] {
      var n := |names| - 1;
      NoRowsExact(fs, names[..n]);
      assert names == names[..n] + [names[n]];
    }
  }

  /** What the second run merges, counted: all rows once, and again those of the files still there. */
  lemma SecondMerge(p: Policy, files: Files, paths: seq<string>, merged: seq<Row>, c: nat, fs: Files,
                    again: seq<string>)
    requires IsParquet(p.published) && Distinct(paths) && Elems(paths) == Listed(files) && 3 <= c <= |paths| + 3
    requires HiddenChange(SeenAfter(p, files, paths, merged, c), fs)
    requires Distinct(again) && Elems(again) == Listed(fs)
    ensures multiset(Concatenated(fs, again))
            == multiset(merged) + multiset(Concatenated(files, Excluding(paths[c - 3..], p.published)))
  {
    hide Concatenated;
    var gone, left := paths[..c - 3], paths[c - 3..];
    var rest := Excluding(left, p.published);
    var listing := [p.published] + rest;
    ExcludingMembers(left, p.published);
    SplitListing(paths, c - 3);
    ExcludingDistinct(left, p.published);
    assert Elems(listing) == {p.published} + (Elems(left) - {p.published});
    SeenListed(p, files, paths, merged, c, fs);
    assert Listed(fs) == Elems(listing);
    ListingOrderIrrelevant(fs, again, listing);
    ConcatenatedPlus(fs, [p.published], rest);
    ConcatenatedSame(fs, files, rest);
    OneFile(fs, p.published);
  }

  lemma OneFile(fs: Files, name: string)
    requires name in fs
    ensures Concatenated(fs, [name]) == fs[name]
  {
    assert [name][..0] == [];
  }

  lemma SplitListing(paths: seq<string>, k: nat)
    requires Distinct(paths) && k <= |paths|
    ensures Distinct(paths[k..]) && Elems(paths) == Elems(paths[..k]) + Elems(paths[k..])
    ensures Elems(paths[..k]) !! Elems(paths[k..])
  {
    assert paths == paths[..k] + paths[k..];
  }

  lemma SeenListed(p: Policy, files: Files, paths: seq<string>, merged: seq<Row>, c: nat, fs: Files)
    requires IsParquet(p.published) && Distinct(paths) && Elems(paths) == Listed(files) && 3 <= c <= |paths| + 3
    requires HiddenChange(SeenAfter(p, files, paths, merged, c), fs)
    ensures Listed(fs) == {p.published} + (Elems(paths[c - 3..]) - {p.published})
    ensures p.published in fs && fs[p.published] == merged
    ensures forall f | f in Elems(paths[c - 3..]) && f != p.published :: f in fs && f in files && fs[f] == files[f]
  {
    SplitListing(paths, c - 3);
    var seen := SeenAfter(p, files, paths, merged, c);
    forall f ensures f in seen && IsParquet(f) <==> f == p.published || f in Elems(paths[c - 3..]) {
      assert f in files && IsParquet(f) <==> f in Elems(paths);
    }
  }

  /**
   * Without a key, a round that dies after `c` of its steps and is then run again to the end
   * leaves every row as often as it was exactly if it died before the rename, or if the
   * listed files it had still to delete hold no rows.
   */
  lemma CrashPointExact(p: Policy, files: Files, paths: seq<string>, pid: string, c: nat, again: seq<string>,
                        other: string)
    requires !p.keyed && IsParquet(p.published) && Distinct(paths) && Elems(paths) == Listed(files)
    requires c <= |paths| + 3
    requires var dead := Run(p, Start(files), DyingAt(paths, pid, Concatenated(files, paths), c));
             Distinct(again) && Elems(again) == Listed(dead.files)
    ensures var once := Concatenated(files, paths);
            var dead := Run(p, Start(files), DyingAt(paths, pid, once, c));
            var twice := Concatenated(dead.files, again);
            var es := DyingAt(paths, pid, once, c) + ([Snap(again, other)] + Tail(again, twice));
            && Runs(p, Start(files), es)
            && Listed(Run(p, Start(files), es).files) == {p.published}
            && p.published in Run(p, Start(files), es).files
            && (multiset(Run(p, Start(files), es).files[p.published]) == multiset(once)
                <==> c < 3 || NothingLeft(p, files, paths[c - 3..]))
  {
    hide Tail, Concatenated, Distinct, Elems, DyingAt, Runs, Run, Listed, IsParquet, NothingLeft, SeenAfter;
    var once := Concatenated(files, paths);
    DiesAt(p, files, paths, pid, once, c);
    var dead := Run(p, Start(files), DyingAt(paths, pid, once, c));
    ItselfMerges(p, dead.files, again);
    UnkeyedRoundKeepsRows(p, dead, again, other, Concatenated(dead.files, again));
    var twice := Concatenated(dead.files, again);
    var second := [Snap(again, other)] + Tail(again, twice);
    Chained(p, Start(files), DyingAt(paths, pid, once, c), second);
    if c < 3 {
      SeenUnchanged(p, files, paths, once, c);
      UnseenCrash(files, dead.files, paths, again);
    } else {
      SecondMerge(p, files, paths, once, c, dead.files, again);
      LeftExact(p, files, paths[c - 3..]);
      AddedNothing(multiset(once), multiset(Concatenated(files, Excluding(paths[c - 3..], p.published))));
    }
    assert multiset(twice) == multiset(once) <==> c < 3 || NothingLeft(p, files, paths[c - 3..]);
  }

  lemma AddedNothing(a: multiset<Row>, b: multiset<Row>)
    ensures a + b == a <==> b == multiset{}
  {
    if a + b == a {
      forall r ensures b[r] == 0 { assert (a + b)[r] == a[r] + b[r]; }
    }
  }

  lemma SeenUnchanged(p: Policy, files: Files, paths: seq<string>, merged: seq<Row>, c: nat)
    requires c < 3
    ensures SeenAfter(p, files, paths, merged, c) == files
  {
  }

  lemma UnseenCrash(files: Files, fs: Files, paths: seq<string>, again: seq<string>)
    requires HiddenChange(files, fs) && Distinct(paths) && Distinct(again)
    requires Elems(paths) == Listed(files) && Elems(again) == Listed(fs)
    ensures multiset(Concatenated(fs, again)) == multiset(Concatenated(files, paths))
  {
    hide Concatenated;
    HiddenKeeps(files, fs, {});
    ListingOrderIrrelevant(fs, again, paths);
    assert forall f | f in paths :: f in Elems(paths);
    ConcatenatedSame(fs, files, paths);
  }

  lemma LeftExact(p: Policy, files: Files, left: seq<string>)
    ensures multiset(Concatenated(files, Excluding(left, p.published))) == multiset{} <==> NothingLeft(p, files, left)
  {
    var rest := Excluding(left, p.published);
    ExcludingMembers(left, p.published);
    NoRowsExact(files, rest);
    var rows := Concatenated(files, rest);
    assert rows != [] ==> rows[0] in multiset(rows);
  }

  // ----- the run itself -----

  datatype File = File(name: string, rows: seq<Row>)

  datatype Reason = Undated | CurrentDay | AlreadyCompact | GracePeriod

  datatype Verdict = Skipped(reason: Reason) | WouldMerge(count: nat) | Merged(paths: seq<string>, rows: seq<Row>)

  /** The partition's day, today, the clock and the file times, and the policy's thresholds. */
  datatype Terms = Terms(day: Option<int>, today: int, now: int, mtime: string -> int, minFiles: nat, graceMs: int)

  /** Dated before today, enough files, and none touched within the grace period. */
  ghost predicate Settled(t: Terms, files: Files) {
    && t.day.Some? && t.day.value < t.today && |Listed(files)| >= t.minFiles
    && t.now >= t.graceMs && forall f | f in Listed(files) :: t.now - t.mtime(f) >= t.graceMs
  }

  /** The first obstacle, in the order they are looked for. */
  ghost predicate Because(t: Terms, files: Files, reason: Reason) {
    match reason
    case Undated => t.day.None?
    case CurrentDay => t.day.Some? && t.day.value >= t.today
    case AlreadyCompact => t.day.Some? && t.day.value < t.today && |Listed(files)| < t.minFiles
    case GracePeriod =>
      t.day.Some? && t.day.value < t.today && |Listed(files)| >= t.minFiles && !Settled(t, files)
  }

  lemma {:induction false} ConcatenatedRows(fs: Files, names: seq<string>)
    ensures RowSet(Concatenated(fs, names)) == RowsOf(fs, Elems(names))
  {
    if names != [] {
      var n := |names| - 1;
      var init, last := names[..n], names[n];
      ConcatenatedRows(fs, init);
      assert names == init + [last];
      forall r ensures r in Concatenated(fs, names) <==> r in RowsOf(fs, Elems(names)) {
        assert r in Concatenated(fs, names) <==> r in Concatenated(fs, init) || (last in fs && r in fs[last]);
        assert r in Concatenated(fs, init) <==> r in RowSet(Concatenated(fs, init));
        assert last in Elems(names);
        assert forall f :: f in Elems(names) <==> f in Elems(init) || f == last;
      }
    }
  }

  class Directory {
    var files: Files

    constructor (fs: Files)
      ensures files == fs
    {
      files := fs;
    }

    method List() returns (paths: seq<string>)
      ensures Distinct(paths) && Elems(paths) == Listed(files)
    {
      var left := Listed(files);
      paths := [];
      while left != {}
        invariant Elems(paths) + left == Listed(files) && Elems(paths) !! left && Distinct(paths)
        decreases left
      {
        ghost var some := Any(left);
        assert some in left;
        var path :| path in left;
        assert path !in paths by { assert path in paths ==> path in Elems(paths); }
        assert Elems(paths + [path]) == Elems(paths) + {path};
        paths, left := paths + [path], left - {path};
      }
    }

    /** The engine's COPY: one row per key, or all rows. */
    method Merge(p: Policy, paths: seq<string>) returns (merged: seq<Row>)
      ensures Merges(p, files, paths, merged)
      ensures !p.keyed ==> forall r :: multiset(merged)[r] == CopiesIn(files, paths, r)
    {
      forall r ensures multiset(Concatenated(files, paths))[r] == CopiesIn(files, paths, r) {
        ConcatenatedCopies(files, paths, r);
      }
      var rows := Concatenated(files, paths);
      if !p.keyed {
        return rows;
      }
      ConcatenatedRows(files, paths);
      merged := [];
      for n := 0 to |rows|
        invariant Deduplicated(RowSet(rows[..n]), merged)
      {
        var r, i := rows[n], 0;
        while i < |merged| && merged[i].key != r.key
          invariant 0 <= i <= |merged|
          invariant forall k | 0 <= k < i :: merged[k].key != r.key
        {
          i := i + 1;
        }
        assert rows[..n + 1] == rows[..n] + [r];
        assert RowSet(rows[..n + 1]) == RowSet(rows[..n]) + {r};
        if i == |merged| {
          AppendRow(RowSet(rows[..n]), merged, r);
          merged := merged + [r];
        } else if r.order < merged[i].order {
          ReplaceRow(RowSet(rows[..n]), merged, r, i);
          merged := merged[i := r];
        } else {
          KeepRow(RowSet(rows[..n]), merged, r, i);
        }
      }
      assert rows[..|rows|] == rows;
    }

    /** Write, rename over the published name, delete the rest of what was listed. */
    method Replace(p: Policy, paths: seq<string>, pid: string, merged: seq<Row>)
      modifies this
      ensures files == Compacted(p, old(files), paths, pid, merged)
    {
      var temp := WritePath(p.published, pid);
      files := files[temp := merged];
      files := (files - {temp})[p.published := files[temp]];
      ghost var published := files;
      assert published == (old(files) - {temp})[p.published := merged];
      for i := 0 to |paths|
        invariant files == published - (Elems(paths[..i]) - {p.published})
      {
        assert paths[..i + 1] == paths[..i] + [paths[i]];
        assert Elems(paths[..i + 1]) == Elems(paths[..i]) + {paths[i]};
        if paths[i] != p.published {
          files := files - {paths[i]};
        }
      }
      assert paths[..|paths|] == paths;
    }

    method IsSettled(t: Terms) returns (reason: Option<Reason>)
      ensures reason.None? <==>
                && t.day.Some? && t.day.value < t.today && |Listed(files)| >= t.minFiles
                && t.now >= t.graceMs && forall f | f in Listed(files) :: t.now - t.mtime(f) >= t.graceMs
      ensures reason == Some(Undated) <==> t.day.None?
      ensures reason == Some(CurrentDay) <==> t.day.Some? && t.day.value >= t.today
      ensures reason == Some(AlreadyCompact) <==>
                t.day.Some? && t.day.value < t.today && |Listed(files)| < t.minFiles
    {
      if t.day.None? {
        return Some(Undated);
      }
      if t.day.value >= t.today {
        return Some(CurrentDay);
      }
      var paths := List();
      DistinctSize(paths);
      if |paths| < t.minFiles {
        return Some(AlreadyCompact);
      }
      var newest := 0;
      for i := 0 to |paths|
        invariant newest >= 0 && forall k | 0 <= k < i :: t.mtime(paths[k]) <= newest
        invariant newest == 0 || exists k :: 0 <= k < i && t.mtime(paths[k]) == newest
      {
        if t.mtime(paths[i]) > newest {
          newest := t.mtime(paths[i]);
        }
      }
      assert forall k | 0 <= k < |paths| :: paths[k] in paths && paths[k] in Elems(paths);
      if t.now - newest < t.graceMs {
        return Some(GracePeriod);
      }
      forall f | f in Listed(files) ensures t.now - t.mtime(f) >= t.graceMs {
        assert f in Elems(paths);
        var k :| 0 <= k < |paths| && paths[k] == f;
      }
      reason := None;
    }

    /**
     * One partition of a run; `arrivals` land between the listing and the merge. Only a
     * settled partition is touched, and what happens to it is a run of the steps above.
     */
    method CompactPartition(p: Policy, t: Terms, pid: string, dryRun: bool, arrivals: seq<File>)
      returns (v: Verdict, ghost trace: seq<Step>)
      requires forall i | 0 <= i < |arrivals| :: NewFile(p, files, arrivals, i)
      modifies this
      ensures v.Skipped? <==> !Settled(t, old(files))
      ensures v.Skipped? ==> Because(t, old(files), v.reason)
      ensures files != old(files) ==>
                && t.day.Some? && t.day.value < t.today && |Listed(old(files))| >= t.minFiles
                && forall f | f in Listed(old(files)) :: t.now - t.mtime(f) >= t.graceMs
      ensures v.WouldMerge? ==> dryRun && v.count == |Listed(old(files))|
      ensures v.Skipped? || dryRun ==> !v.Merged? && files == old(files)
      ensures Runs(p, Start(old(files)), trace) && Run(p, Start(old(files)), trace).files == files
      ensures v.Merged? ==>
                Elems(v.paths) == Listed(old(files)) && Merges(p, old(files), v.paths, v.rows)
                && files == Compacted(p, WithArrivals(old(files), arrivals), v.paths, pid, v.rows)
    {
      trace := [];
      var unsettled := IsSettled(t);
      if unsettled.Some? {
        return Skipped(unsettled.value), [];
      }
      var paths := List();
      if dryRun {
        DistinctSize(paths);
        return WouldMerge(|paths|), [];
      }
      ghost var s, fs := Start(files), files;
      for i := 0 to |arrivals|
        invariant files == WithArrivals(fs, arrivals[..i])
      {
        assert arrivals[..i + 1][..i] == arrivals[..i];
        files := files[arrivals[i].name := arrivals[i].rows];
      }
      assert arrivals[..|arrivals|] == arrivals;
      var merged := Merge(p, paths);
      trace := RoundWithArrivals(p, fs, paths, pid, arrivals, merged);
      Replace(p, paths, pid, merged);
      v := Merged(paths, merged);
    }
  }

  /** A file the writer adds: a readable name of its own, used by nobody yet. */
  ghost predicate NewFile(p: Policy, files: Files, arrivals: seq<File>, i: nat)
    requires i < |arrivals|
  {
    && IsParquet(arrivals[i].name) && arrivals[i].name != p.published && arrivals[i].name !in files
    && forall k | 0 <= k < i :: arrivals[k].name != arrivals[i].name
  }

  function WithArrivals(files: Files, arrivals: seq<File>): Files {
    if arrivals == [] then files else
      var n := |arrivals| - 1;
      WithArrivals(files, arrivals[..n])[arrivals[n].name := arrivals[n].rows]
  }

  function Arrivals(arrivals: seq<File>): seq<Step> {
    seq(|arrivals|, i requires 0 <= i < |arrivals| => Arrive(arrivals[i].name, arrivals[i].rows))
  }

  lemma {:induction false} ArrivalsMembers(p: Policy, files: Files, arrivals: seq<File>)
    requires forall i | 0 <= i < |arrivals| :: NewFile(p, files, arrivals, i)
    ensures forall f | f in WithArrivals(files, arrivals) && f !in files ::
              exists k :: 0 <= k < |arrivals| && arrivals[k].name == f
    ensures forall f | f in files :: f in WithArrivals(files, arrivals) && WithArrivals(files, arrivals)[f] == files[f]
  {
    if arrivals != [] {
      var n := |arrivals| - 1;
      var init, all := WithArrivals(files, arrivals[..n]), WithArrivals(files, arrivals);
      forall i | 0 <= i < n ensures NewFile(p, files, arrivals[..n], i) {
        assert NewFile(p, files, arrivals, i);
      }
      ArrivalsMembers(p, files, arrivals[..n]);
      assert NewFile(p, files, arrivals, n);
      forall f | f in all && f !in files ensures exists k :: 0 <= k < |arrivals| && arrivals[k].name == f {
        if f in init {
          var k :| 0 <= k < n && arrivals[..n][k].name == f;
          assert arrivals[k].name == f;
        } else {
          assert arrivals[n].name == f;
        }
      }
    }
  }

  lemma FirstArrivals(p: Policy, s: Sys, arrivals: seq<File>, n: nat)
    requires n <= |arrivals| && forall i | 0 <= i < |arrivals| :: NewFile(p, s.files, arrivals, i)
    ensures forall i | 0 <= i < n :: NewFile(p, s.files, arrivals[..n], i)
  {
    forall i | 0 <= i < n ensures NewFile(p, s.files, arrivals[..n], i) {
      assert NewFile(p, s.files, arrivals, i);
    }
  }

  lemma NextIsNew(p: Policy, s: Sys, arrivals: seq<File>, n: nat)
    requires n < |arrivals| && forall i | 0 <= i < |arrivals| :: NewFile(p, s.files, arrivals, i)
    ensures arrivals[n].name !in WithArrivals(s.files, arrivals[..n])
  {
    FirstArrivals(p, s, arrivals, n);
    ArrivalsMembers(p, s.files, arrivals[..n]);
    assert NewFile(p, s.files, arrivals, n);
    assert forall k | 0 <= k < n :: arrivals[..n][k].name != arrivals[n].name;
  }

  lemma OneArrival(p: Policy, s: Sys, file: File)
    requires IsParquet(file.name) && file.name != p.published && file.name !in s.files
    ensures var es := [Arrive(file.name, file.rows)];
            Runs(p, s, es) && Run(p, s, es).phase == s.phase && Run(p, s, es).files == s.files[file.name := file.rows]
  {
    One(p, s, Arrive(file.name, file.rows));
  }

  lemma {:induction false} ArrivalsRun(p: Policy, s: Sys, arrivals: seq<File>)
    requires forall i | 0 <= i < |arrivals| :: NewFile(p, s.files, arrivals, i)
    ensures Runs(p, s, Arrivals(arrivals)) && Run(p, s, Arrivals(arrivals)).phase == s.phase
    ensures Run(p, s, Arrivals(arrivals)).files == WithArrivals(s.files, arrivals)
    decreases |arrivals|
  {
    if arrivals != [] {
      var n := |arrivals| - 1;
      var init, last := arrivals[..n], arrivals[n];
      assert NewFile(p, s.files, arrivals, n);
      NextIsNew(p, s, arrivals, n);
      FirstArrivals(p, s, arrivals, n);
      hide Runs, Run, Next, IsParquet, NewFile;
      ArrivalsRun(p, s, init);
      OneArrival(p, Run(p, s, Arrivals(init)), last);
      Chained(p, s, Arrivals(init), [Arrive(last.name, last.rows)]);
      assert Arrivals(arrivals) == Arrivals(init) + [Arrive(last.name, last.rows)];
    }
  }

  /** The merge reads the listed files, which arrivals leave alone. */
  lemma SameInputs(p: Policy, fs: Files, gs: Files, paths: seq<string>, merged: seq<Row>)
    requires forall f | f in paths :: f in fs && f in gs && fs[f] == gs[f]
    ensures Merges(p, gs, paths, merged) <==> Merges(p, fs, paths, merged)
  {
    ConcatenatedSame(fs, gs, paths);
    assert RowsOf(fs, Elems(paths)) == RowsOf(gs, Elems(paths));
  }

  lemma RoundWithArrivals(p: Policy, fs: Files, paths: seq<string>, pid: string, arrivals: seq<File>, merged: seq<Row>)
    returns (trace: seq<Step>)
    requires forall i | 0 <= i < |arrivals| :: NewFile(p, fs, arrivals, i)
    requires Distinct(paths) && Elems(paths) == Listed(fs)
    requires Merges(p, WithArrivals(fs, arrivals), paths, merged)
    ensures Merges(p, fs, paths, merged)
    ensures Runs(p, Start(fs), trace)
    ensures Run(p, Start(fs), trace).files == Compacted(p, WithArrivals(fs, arrivals), paths, pid, merged)
  {
    hide Merges, Compacted, WithArrivals;
    var s := Start(fs);
    var snapped := Next(p, s, Snap(paths, pid));
    One(p, s, Snap(paths, pid));
    ArrivalsRun(p, snapped, arrivals);
    ArrivalsMembers(p, fs, arrivals);
    var t := Run(p, snapped, Arrivals(arrivals));
    assert forall f | f in paths :: f in Elems(paths);
    SameInputs(p, fs, t.files, paths, merged);
    RoundTail(p, t, merged);
    Chained(p, snapped, Arrivals(arrivals), Tail(paths, merged));
    trace := [Snap(paths, pid)] + (Arrivals(arrivals) + Tail(paths, merged));
    Chained(p, s, [Snap(paths, pid)], Arrivals(arrivals) + Tail(paths, merged));
  }

  lemma {:induction false} DistinctSize(names: seq<string>)
    requires Distinct(names)
    ensures |Elems(names)| == |names|
  {
    if names != [] {
      var n := |names| - 1;
      DistinctSize(names[..n]);
      assert names[n] !in names[..n];
      assert Elems(names) == Elems(names[..n]) + {names[n]};
    }
  }
}
