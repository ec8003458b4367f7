/**
 * The state store (src/state/sqlite.ts). `State` is the content of its tables and each
 * operation is one transaction on it; the class keeps the tables and updates them in
 * place. Times are milliseconds; a row's `physFp` is what the query resolves it to.
 */
module Store {
  import opened Common
  import opened Models
  import opened Intervals
  import opened Query
  import opened Fingerprints
  import opened Lock

  type Env = string
  type LockName = string

  datatype SnapKind = TableSnap | ViewSnap | EmbeddedSnap

  datatype Snapshot = Snapshot(
    physFp: Fp,
    ast: Option<Ast>,
    kind: SnapKind,
    version: int,
    createdAt: int,
    orphanedAt: Option<int>)

  datatype NewSnapshot = NewSnapshot(
    name: Name,
    fp: Fp,
    physFp: Fp,
    ast: Option<Ast>,
    kind: SnapKind,
    version: int)

  datatype Status = Done | Failed

  datatype Record = Record(end: int, status: Status)

  datatype Entry = Entry(name: Name, fp: Fp, requireSnapshot: bool)

  datatype SnapKey = SnapKey(name: Name, fp: Fp)
  datatype EnvKey = EnvKey(env: Env, name: Name)
  datatype Slot = Slot(fp: Fp, start: int)

  datatype State = State(
    snapshots: map<SnapKey, Snapshot>,
    envs: map<EnvKey, Fp>,
    ledger: map<Slot, Record>,
    locks: map<LockName, int>)

  const EMPTY := State(map[], map[], map[], map[])

  datatype PromoteError = SnapshotVanished(name: Name, fp: Fp) | DuplicateEntry

  // ----- snapshots -----

  /** A repeated write revives the row: no orphan mark, a new creation time, nothing else. */
  function Upserted(s: State, n: NewSnapshot, now: int): State {
    var key := SnapKey(n.name, n.fp);
    var row := if key in s.snapshots
               then s.snapshots[key].(createdAt := now, orphanedAt := None)
               else Snapshot(n.physFp, n.ast, n.kind, n.version, now, None);
    s.(snapshots := s.snapshots[key := row])
  }

  function SnapshotOf(s: State, name: Name, fp: Fp): Option<Snapshot> {
    if SnapKey(name, fp) in s.snapshots then Some(s.snapshots[SnapKey(name, fp)]) else None
  }

  /** Referenced by fingerprint alone, whatever the name. */
  predicate Referenced(s: State, fp: Fp) {
    fp in s.envs.Values
  }

  /** COALESCE(orphaned_at, created_at). */
  function Mark(row: Snapshot): int {
    if row.orphanedAt.Some? then row.orphanedAt.value else row.createdAt
  }

  predicate Doomed(s: State, key: SnapKey, deadline: int) {
    key in s.snapshots && !Referenced(s, key.fp) && Mark(s.snapshots[key]) <= deadline
  }

  function DropLedger(ledger: map<Slot, Record>, fp: Fp): map<Slot, Record> {
    map slot | slot in ledger && slot.fp != fp :: ledger[slot]
  }

  /** deleteSnapshotIfDoomed: the checks and the deletes are one transaction. */
  function Claimed(s: State, name: Name, fp: Fp, deadline: int): State {
    var key := SnapKey(name, fp);
    if Doomed(s, key, deadline)
    then s.(snapshots := s.snapshots - {key}, ledger := DropLedger(s.ledger, fp))
    else s
  }

  // ----- environments -----

  predicate Alive(s: State, e: Entry) {
    e.requireSnapshot ==> SnapKey(e.name, e.fp) in s.snapshots
  }

  ghost predicate AllAlive(s: State, entries: seq<Entry>) {
    forall i | 0 <= i < |entries| :: Alive(s, entries[i])
  }

  ghost predicate DistinctNames(entries: seq<Entry>) {
    forall i, j | 0 <= i < j < |entries| :: entries[i].name != entries[j].name
  }

  function OtherEnvs(envs: map<EnvKey, Fp>, env: Env): map<EnvKey, Fp> {
    map k | k in envs && k.env != env :: envs[k]
  }

  function EnvRows(envs: map<EnvKey, Fp>, env: Env, entries: seq<Entry>): map<EnvKey, Fp> {
    if entries == [] then envs else
      var n := |entries| - 1;
      EnvRows(envs, env, entries[..n])[EnvKey(env, entries[n].name) := entries[n].fp]
  }

  /** The two orphan updates: losing the last reference sets the mark, regaining one clears it. */
  function Remark(row: Snapshot, referenced: bool, now: int): Snapshot {
    if referenced then row.(orphanedAt := None)
    else if row.orphanedAt.None? then row.(orphanedAt := Some(now))
    else row
  }

  function RemarkAll(snapshots: map<SnapKey, Snapshot>, referenced: set<Fp>, now: int): map<SnapKey, Snapshot> {
    map k | k in snapshots :: Remark(snapshots[k], k.fp in referenced, now)
  }

  ghost predicate Promotable(s: State, entries: seq<Entry>) {
    AllAlive(s, entries) && DistinctNames(entries)
  }

  /** A promotion that fails its checks rolls back to the state it started from. */
  ghost function Promoted(s: State, env: Env, entries: seq<Entry>, now: int): State {
    if !Promotable(s, entries) then s else
      var envs := EnvRows(OtherEnvs(s.envs, env), env, entries);
      s.(envs := envs, snapshots := RemarkAll(s.snapshots, envs.Values, now))
  }

  lemma {:induction false} EnvRowsAt(envs: map<EnvKey, Fp>, env: Env, entries: seq<Entry>, k: EnvKey)
    ensures k.env != env ==>
              (k in EnvRows(envs, env, entries) <==> k in envs)
              && (k in envs ==> EnvRows(envs, env, entries)[k] == envs[k])
    ensures k in EnvRows(envs, env, entries) ==>
              k in envs || (k.env == env && exists i | 0 <= i < |entries| :: entries[i].name == k.name)
    ensures forall i | 0 <= i < |entries| :: EnvKey(env, entries[i].name) in EnvRows(envs, env, entries)
    ensures DistinctNames(entries) ==>
              forall i | 0 <= i < |entries| ::
                EnvRows(envs, env, entries)[EnvKey(env, entries[i].name)] == entries[i].fp
  {
    if entries != [] {
      var n := |entries| - 1;
      EnvRowsAt(envs, env, entries[..n], k);
      if k in EnvRows(envs, env, entries[..n]) && k !in envs {
        var i :| 0 <= i < n && entries[..n][i].name == k.name;
        assert entries[i].name == k.name;
      }
      forall i | 0 <= i < |entries|
        ensures EnvKey(env, entries[i].name) in EnvRows(envs, env, entries)
      {
        if i < n { assert entries[..n][i] == entries[i]; }
      }
      if DistinctNames(entries) {
        forall i | 0 <= i < |entries|
          ensures EnvRows(envs, env, entries)[EnvKey(env, entries[i].name)] == entries[i].fp
        {
          if i < n { assert entries[..n][i] == entries[i]; }
        }
      }
    }
  }

  // ----- the interval ledger -----

  function Marked(s: State, fp: Fp, intervals: seq<Interval>, status: Status): State {
    s.(ledger := MarkRows(s.ledger, fp, intervals, status))
  }

  function MarkRows(ledger: map<Slot, Record>, fp: Fp, intervals: seq<Interval>, status: Status): map<Slot, Record> {
    if intervals == [] then ledger else
      var n := |intervals| - 1;
      MarkRows(ledger, fp, intervals[..n], status)[Slot(fp, intervals[n].start) := Record(intervals[n].end, status)]
  }

  /** DELETE where the start falls in the half-open range. */
  function Cleared(s: State, fp: Fp, from: int, until: int): State {
    s.(ledger := map slot | slot in s.ledger && !(slot.fp == fp && from <= slot.start < until) :: s.ledger[slot])
  }

  /** The done intervals of a fingerprint, by start. */
  function DoneOf(s: State, fp: Fp): map<int, int> {
    var starts := set slot | slot in s.ledger && slot.fp == fp && s.ledger[slot].status.Done? :: slot.start;
    map start | start in starts :: EndAt(s, fp, start)
  }

  function EndAt(s: State, fp: Fp, start: int): int {
    if Slot(fp, start) in s.ledger then s.ledger[Slot(fp, start)].end else 0
  }

  predicate IsDone(s: State, fp: Fp, start: int) {
    Slot(fp, start) in s.ledger && s.ledger[Slot(fp, start)].status.Done?
  }

  lemma DoneOfMembers(s: State, fp: Fp, start: int)
    ensures start in DoneOf(s, fp) <==> IsDone(s, fp, start)
    ensures start in DoneOf(s, fp) ==> DoneOf(s, fp)[start] == s.ledger[Slot(fp, start)].end
  {
    if IsDone(s, fp, start) {
      assert Slot(fp, start) in s.ledger;
    }
  }

  lemma {:induction false} MarkRowsAt(ledger: map<Slot, Record>, fp: Fp, intervals: seq<Interval>, status: Status,
                                      slot: Slot)
    ensures slot in MarkRows(ledger, fp, intervals, status) <==>
              slot in ledger || (slot.fp == fp && slot.start in Starts(intervals))
    ensures slot.fp == fp && slot.start in Starts(intervals) ==>
              slot in MarkRows(ledger, fp, intervals, status)
              && MarkRows(ledger, fp, intervals, status)[slot].status == status
              && Interval(slot.start, MarkRows(ledger, fp, intervals, status)[slot].end) in intervals
    ensures !(slot.fp == fp && slot.start in Starts(intervals)) && slot in ledger ==>
              MarkRows(ledger, fp, intervals, status)[slot] == ledger[slot]
  {
    if intervals != [] {
      var n := |intervals| - 1;
      var last := intervals[n];
      assert last in intervals;
      MarkRowsAt(ledger, fp, intervals[..n], status, slot);
      assert intervals == intervals[..n] + [last];
      assert Starts(intervals) == Starts(intervals[..n]) + {last.start};
    }
  }

  /** Marking done makes exactly those starts of that fingerprint done, and undoes nothing. */
  lemma MarkedDone(s: State, fp: Fp, intervals: seq<Interval>, f: Fp, start: int)
    ensures IsDone(Marked(s, fp, intervals, Done), f, start) <==>
              IsDone(s, f, start) || (f == fp && start in Starts(intervals))
  {
    MarkRowsAt(s.ledger, fp, intervals, Done, Slot(f, start));
  }

  // ----- locks -----

  function LockRowOf(s: State, name: LockName): LockRow {
    if name in s.locks then Some(s.locks[name]) else None
  }

  function SetLockRow(s: State, name: LockName, row: LockRow): State {
    s.(locks := if row.Some? then s.locks[name := row.value] else s.locks - {name})
  }

  // ----- the tables, updated in place -----

  class StateStore {
    var snapshots: map<SnapKey, Snapshot>
    var envs: map<EnvKey, Fp>
    var ledger: map<Slot, Record>
    var locks: map<LockName, int>

    function View(): State
      reads this
    {
      State(snapshots, envs, ledger, locks)
    }

    constructor ()
      ensures View() == EMPTY
    {
      snapshots, envs, ledger, locks := map[], map[], map[], map[];
    }

    method UpsertSnapshot(n: NewSnapshot, now: int)
      modifies this`snapshots
      ensures View() == Upserted(old(View()), n, now)
    {
      var key := SnapKey(n.name, n.fp);
      if key in snapshots {
        snapshots := snapshots[key := snapshots[key].(createdAt := now, orphanedAt := None)];
      } else {
        snapshots := snapshots[key := Snapshot(n.physFp, n.ast, n.kind, n.version, now, None)];
      }
    }

    method GetSnapshot(name: Name, fp: Fp) returns (row: Option<Snapshot>)
      ensures row == SnapshotOf(View(), name, fp)
    {
      var key := SnapKey(name, fp);
      row := if key in snapshots then Some(snapshots[key]) else None;
    }

    method DeleteSnapshotIfDoomed(name: Name, fp: Fp, deadline: int) returns (won: bool)
      modifies this`snapshots, this`ledger
      ensures won <==> Doomed(old(View()), SnapKey(name, fp), deadline)
      ensures won <==>
                && SnapKey(name, fp) in old(snapshots) && (forall k | k in envs :: envs[k] != fp)
                && match old(snapshots)[SnapKey(name, fp)].orphanedAt
                   case Some(at) => at <= deadline
                   case None => old(snapshots)[SnapKey(name, fp)].createdAt <= deadline
      ensures View() == Claimed(old(View()), name, fp, deadline)
    {
      if fp in envs.Values {
        return false;
      }
      var key := SnapKey(name, fp);
      if key !in snapshots || Mark(snapshots[key]) > deadline {
        return false;
      }
      snapshots := snapshots - {key};
      ledger := map slot | slot in ledger && slot.fp != fp :: ledger[slot];
      won := true;
    }

    /** Snapshot liveness, checked in the promotion's own transaction. */
    method CheckAlive(entries: seq<Entry>) returns (r: Result<(), PromoteError>)
      ensures r.Ok? <==> AllAlive(View(), entries)
    {
      for i := 0 to |entries|
        invariant forall k | 0 <= k < i :: Alive(View(), entries[k])
      {
        var e := entries[i];
        if e.requireSnapshot && SnapKey(e.name, e.fp) !in snapshots {
          assert !Alive(View(), entries[i]);
          return Err(SnapshotVanished(e.name, e.fp));
        }
      }
      r := Ok(());
    }

    /** The inserts; (env, name) is the primary key, so a repeated name fails. */
    method InsertRows(env: Env, entries: seq<Entry>) returns (r: Result<map<EnvKey, Fp>, PromoteError>)
      ensures r.Ok? <==> DistinctNames(entries)
      ensures r.Ok? ==> r.value == EnvRows(OtherEnvs(envs, env), env, entries)
    {
      var rows := OtherEnvs(envs, env);
      for i := 0 to |entries|
        invariant rows == EnvRows(OtherEnvs(envs, env), env, entries[..i])
        invariant DistinctNames(entries[..i])
        invariant forall name :: EnvKey(env, name) in rows <==> exists k | 0 <= k < i :: entries[k].name == name
      {
        var e := entries[i];
        assert entries[..i + 1][..i] == entries[..i];
        if EnvKey(env, e.name) in rows {
          assert !DistinctNames(entries);
          return Err(DuplicateEntry);
        }
        rows := rows[EnvKey(env, e.name) := e.fp];
      }
      assert entries[..|entries|] == entries;
      r := Ok(rows);
    }

    /** The whole set of an environment is replaced, or nothing changes. */
    method Promote(env: Env, entries: seq<Entry>, now: int) returns (r: Result<(), PromoteError>)
      modifies this`snapshots, this`envs
      ensures r.Ok? <==> Promotable(old(View()), entries)
      ensures View() == Promoted(old(View()), env, entries, now)
    {
      ghost var before := View();
      var alive := CheckAlive(entries);
      if alive.Err? {
        return alive;
      }
      var rows := InsertRows(env, entries);
      if rows.Err? {
        return Err(rows.error);
      }
      envs := rows.value;
      snapshots := map k | k in snapshots ::
        if k.fp !in envs.Values && snapshots[k].orphanedAt.None? then snapshots[k].(orphanedAt := Some(now))
        else snapshots[k];
      snapshots := map k | k in snapshots ::
        if k.fp in envs.Values && snapshots[k].orphanedAt.Some? then snapshots[k].(orphanedAt := None)
        else snapshots[k];
      assert snapshots == RemarkAll(before.snapshots, envs.Values, now);
      r := Ok(());
    }

    method MarkIntervals(fp: Fp, intervals: seq<Interval>, status: Status)
      modifies this`ledger
      ensures View() == Marked(old(View()), fp, intervals, status)
    {
      ghost var before := ledger;
      for i := 0 to |intervals|
        invariant ledger == MarkRows(before, fp, intervals[..i], status)
      {
        assert intervals[..i + 1][..i] == intervals[..i];
        ledger := ledger[Slot(fp, intervals[i].start) := Record(intervals[i].end, status)];
      }
      assert intervals[..|intervals|] == intervals;
    }

    method ClearIntervals(fp: Fp, from: int, until: int)
      modifies this`ledger
      ensures View() == Cleared(old(View()), fp, from, until)
    {
      ledger := map slot | slot in ledger && !(slot.fp == fp && from <= slot.start < until) :: ledger[slot];
    }

    method AcquireLock(name: LockName, now: int, ttl: int) returns (acquired: bool)
      modifies this`locks
      ensures (LockRowOf(View(), name), acquired) == AcquireRow(old(LockRowOf(View(), name)), now, ttl)
      ensures acquired <==> old(LockRowOf(View(), name)).None? || old(LockRowOf(View(), name)).value <= now
      ensures LockRowOf(View(), name) == if acquired then Some(now + ttl) else old(LockRowOf(View(), name))
      ensures View() == SetLockRow(old(View()), name, LockRowOf(View(), name))
    {
      ghost var before := locks;
      if name in locks && locks[name] <= now {
        locks := locks - {name};
      }
      acquired := name !in locks;
      if acquired {
        locks := locks[name := now + ttl];
        assert locks == before[name := now + ttl];
      } else {
        assert locks == before == before[name := before[name]];
      }
    }

    method RenewLock(name: LockName, expected: LockRow, now: int, ttl: int) returns (renewed: LockRow)
      modifies this`locks
      ensures (LockRowOf(View(), name), renewed) == RenewRow(old(LockRowOf(View(), name)), expected, now, ttl)
      ensures renewed.Some? <==> expected.Some? && old(LockRowOf(View(), name)) == expected
      ensures renewed.Some? ==> LockRowOf(View(), name) == renewed == Some(now + ttl)
      ensures renewed.None? ==> View() == old(View())
      ensures View() == SetLockRow(old(View()), name, LockRowOf(View(), name))
    {
      ghost var before := locks;
      renewed := None;
      if name in locks && expected == Some(locks[name]) {
        locks := locks[name := now + ttl];
        renewed := Some(now + ttl);
      } else {
        assert locks == if name in before then before[name := before[name]] else before - {name};
      }
    }

    method LockExpiry(name: LockName) returns (expiry: LockRow)
      ensures expiry == LockRowOf(View(), name)
    {
      expiry := if name in locks then Some(locks[name]) else None;
    }

    method ReleaseLock(name: LockName, expected: LockRow)
      modifies this`locks
      ensures LockRowOf(View(), name) == ReleaseRow(old(LockRowOf(View(), name)), expected)
      ensures var before := old(LockRowOf(View(), name));
              LockRowOf(View(), name).None? <==> before.None? || before == expected
      ensures View() == SetLockRow(old(View()), name, LockRowOf(View(), name))
    {
      ghost var before := locks;
      if name in locks && expected == Some(locks[name]) {
        locks := locks - {name};
      } else {
        assert locks == if name in before then before[name := before[name]] else before - {name};
      }
    }

    /** Release without an expected expiry: whoever holds the lock loses its row. */
    method ForceReleaseLock(name: LockName)
      modifies this`locks
      ensures LockRowOf(View(), name) == None
      ensures View() == SetLockRow(old(View()), name, None)
    {
      locks := locks - {name};
    }
  }
}
