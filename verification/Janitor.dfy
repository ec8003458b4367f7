/**
 * The janitor (src/plan/janitor.ts) against concurrent applies. Every store operation
 * is one atomic step; engine tables are built and dropped outside the store. The
 * environment lock and the janitor lock are different locks, so the steps interleave.
 */
module Janitors {
  import opened Common
  import opened Models
  import opened Fingerprints
  import opened Store

  type Pid = int

  /** A physical table or view: the model's name and the fingerprint that names its physics. */
  datatype Table = Table(name: Name, fp: Fp)

  datatype Build = Build(pid: Pid, table: Table)

  datatype Phase =
    | Resting
    | Claiming(deadline: int, claimed: seq<Table>)
    | Dropping(queue: seq<Table>, inUse: set<Fp>, dropped: set<Fp>, touched: set<Table>)

  /**
   * `building` holds what an apply has built and not yet recorded; `required` the rows
   * promoted with requireSnapshot. `touched` in the dropping phase is history: what was
   * being built when the survivors were read, or was built or recorded since.
   */
  datatype Sys = Sys(
    store: State,
    tables: set<Table>,
    building: set<Build>,
    required: set<EnvKey>,
    janitor: Phase)

  datatype Step =
    | BuildTable(pid: Pid, table: Table)
    | RecordRow(pid: Pid, row: NewSnapshot, now: int)
    | GiveUp(pid: Pid)
    | PromoteEnv(env: Env, entries: seq<Entry>, now: int)
    | StartJanitor(deadline: int)
    | ClaimRow(name: Name, fp: Fp)
    | ReadSurvivors
    | DropNext
    | FinishJanitor

  const START := Sys(EMPTY, {}, {}, {}, Resting)

  function TableOf(key: SnapKey, row: Snapshot): Table {
    Table(key.name, row.physFp)
  }

  /** A live snapshot that has physics at all uses the table. */
  predicate UsedBy(s: State, key: SnapKey, t: Table) {
    key in s.snapshots && !s.snapshots[key].kind.EmbeddedSnap? && TableOf(key, s.snapshots[key]) == t
  }

  ghost predicate Used(s: State, t: Table) {
    exists key :: UsedBy(s, key, t)
  }

  predicate InFlight(s: Sys, pid: Pid, t: Table) {
    Build(pid, t) in s.building
  }

  /** An apply records a table it built, or one a live snapshot of the same model already uses. */
  ghost predicate Enabled(s: Sys, e: Step) {
    match e
    case RecordRow(pid, row, _) =>
      || row.kind.EmbeddedSnap?
      || InFlight(s, pid, Table(row.name, row.physFp))
      || Used(s.store, Table(row.name, row.physFp))
    case StartJanitor(_) => s.janitor.Resting?
    case ClaimRow(_, _) => s.janitor.Claiming?
    case ReadSurvivors => s.janitor.Claiming?
    case DropNext => s.janitor.Dropping? && s.janitor.queue != []
    case FinishJanitor => s.janitor.Dropping? && s.janitor.queue == []
    case _ => true
  }

  function Touch(j: Phase, t: Table): Phase {
    if j.Dropping? then j.(touched := j.touched + {t}) else j
  }

  /** The physical fingerprints some surviving snapshot uses. */
  function InUse(s: State): set<Fp> {
    set k | k in s.snapshots :: s.snapshots[k].physFp
  }

  /** The next claimed table is dropped unless a survivor uses its physics or it was just dropped. */
  predicate Drops(j: Phase)
    requires j.Dropping? && j.queue != []
  {
    j.queue[0].fp !in j.inUse && j.queue[0].fp !in j.dropped
  }

  ghost function Next(s: Sys, e: Step): Sys
    requires Enabled(s, e)
  {
    match e
    case BuildTable(pid, t) =>
      s.(tables := s.tables + {t}, building := s.building + {Build(pid, t)}, janitor := Touch(s.janitor, t))
    case RecordRow(pid, row, now) =>
      var t := Table(row.name, row.physFp);
      s.(store := Upserted(s.store, row, now), building := s.building - {Build(pid, t)},
         janitor := Touch(s.janitor, t))
    case GiveUp(pid) => s.(building := set b | b in s.building && b.pid != pid)
    case PromoteEnv(env, entries, now) =>
      if Promotable(s.store, entries)
      then s.(store := Promoted(s.store, env, entries, now), required := RequiredAfter(s.required, env, entries))
      else s
    case StartJanitor(deadline) => s.(janitor := Claiming(deadline, []))
    case ClaimRow(name, fp) =>
      var key := SnapKey(name, fp);
      if Doomed(s.store, key, s.janitor.deadline)
      then s.(store := Claimed(s.store, name, fp, s.janitor.deadline),
              janitor := s.janitor.(claimed := s.janitor.claimed + [TableOf(key, s.store.snapshots[key])]))
      else s
    case ReadSurvivors =>
      s.(janitor := Dropping(s.janitor.claimed, InUse(s.store), {}, set b | b in s.building :: b.table))
    case DropNext =>
      var j := s.janitor;
      if Drops(j)
      then s.(tables := s.tables - {j.queue[0]},
              janitor := j.(queue := j.queue[1..], dropped := j.dropped + {j.queue[0].fp}))
      else s.(janitor := j.(queue := j.queue[1..]))
    case FinishJanitor => s.(janitor := Resting)
  }

  function RequiredAfter(required: set<EnvKey>, env: Env, entries: seq<Entry>): set<EnvKey> {
    (set k | k in required && k.env != env)
    + (set i | 0 <= i < |entries| && entries[i].requireSnapshot :: EnvKey(env, entries[i].name))
  }

  ghost predicate Runs(s: Sys, es: seq<Step>)
    decreases |es|
  {
    es == [] || (Enabled(s, es[0]) && Runs(Next(s, es[0]), es[1..]))
  }

  ghost function Run(s: Sys, es: seq<Step>): Sys
    requires Runs(s, es)
    decreases |es|
  {
    if es == [] then s else Run(Next(s, es[0]), es[1..])
  }

  // ----- promoted rows keep a live snapshot: no hypothesis at all -----

  ghost predicate RequiredAlive(s: Sys) {
    forall k | k in s.required :: k in s.store.envs && SnapKey(k.name, s.store.envs[k]) in s.store.snapshots
  }

  lemma RequiredAfterPromote(s: Sys, env: Env, entries: seq<Entry>, now: int)
    requires RequiredAlive(s) && Promotable(s.store, entries)
    ensures RequiredAlive(Next(s, PromoteEnv(env, entries, now)))
  {
    var t := Next(s, PromoteEnv(env, entries, now));
    var base := OtherEnvs(s.store.envs, env);
    forall k | k in t.required
      ensures k in t.store.envs && SnapKey(k.name, t.store.envs[k]) in t.store.snapshots
    {
      EnvRowsAt(base, env, entries, k);
      if k.env == env {
        var i :| 0 <= i < |entries| && entries[i].requireSnapshot && k == EnvKey(env, entries[i].name);
        assert Alive(s.store, entries[i]);
      }
    }
  }

  lemma RequiredStep(s: Sys, e: Step)
    requires RequiredAlive(s) && Enabled(s, e)
    ensures RequiredAlive(Next(s, e))
  {
    if e.PromoteEnv? && Promotable(s.store, e.entries) {
      RequiredAfterPromote(s, e.env, e.entries, e.now);
    }
    if e.ClaimRow? && Doomed(s.store, SnapKey(e.name, e.fp), s.janitor.deadline) {
      forall k | k in s.required ensures s.store.envs[k] != e.fp {
        assert s.store.envs[k] in s.store.envs.Values;
      }
    }
  }

  lemma {:induction false} RequiredRun(s: Sys, es: seq<Step>)
    requires RequiredAlive(s) && Runs(s, es)
    ensures RequiredAlive(Run(s, es))
    decreases |es|
  {
    if es != [] {
      RequiredStep(s, es[0]);
      RequiredRun(Next(s, es[0]), es[1..]);
    }
  }

  /** Whatever the interleaving, every row promoted with requireSnapshot points to a live snapshot. */
  lemma PromotedRowsStayAlive(es: seq<Step>)
    requires Runs(START, es)
    ensures RequiredAlive(Run(START, es))
  {
    RequiredRun(START, es);
  }

  /** No step of the run promotes this environment. */
  predicate NoPromotion(es: seq<Step>, env: Env) {
    forall i | 0 <= i < |es| :: es[i].PromoteEnv? ==> es[i].env != env
  }

  /** The row the promotion wrote is the environment's, and its snapshot is live. */
  ghost predicate ServedAlive(s: Sys, env: Env, name: Name, fp: Fp) {
    && EnvKey(env, name) in s.store.envs && s.store.envs[EnvKey(env, name)] == fp
    && SnapKey(name, fp) in s.store.snapshots
  }

  lemma ServedStep(s: Sys, e: Step, env: Env, name: Name, fp: Fp)
    requires ServedAlive(s, env, name, fp) && Enabled(s, e) && (e.PromoteEnv? ==> e.env != env)
    ensures ServedAlive(Next(s, e), env, name, fp)
  {
    if e.PromoteEnv? && Promotable(s.store, e.entries) {
      EnvRowsAt(OtherEnvs(s.store.envs, e.env), e.env, e.entries, EnvKey(env, name));
    }
    if e.ClaimRow? {
      assert s.store.envs[EnvKey(env, name)] in s.store.envs.Values;
    }
  }

  lemma {:induction false} ServedRun(s: Sys, es: seq<Step>, env: Env, name: Name, fp: Fp)
    requires ServedAlive(s, env, name, fp) && Runs(s, es) && NoPromotion(es, env)
    ensures ServedAlive(Run(s, es), env, name, fp)
    decreases |es|
  {
    if es != [] {
      ServedStep(s, es[0], env, name, fp);
      assert forall i | 0 <= i < |es[1..]| :: es[1..][i] == es[i + 1];
      ServedRun(Next(s, es[0]), es[1..], env, name, fp);
    }
  }

  /**
   * Once promoted with requireSnapshot, an entry is what its environment serves and has a live
   * snapshot, whatever claims, drops and applies do, until that environment is promoted again.
   */
  lemma PromotedEntryStays(s: Sys, env: Env, entries: seq<Entry>, now: int, i: nat, es: seq<Step>)
    requires Promotable(s.store, entries) && i < |entries| && entries[i].requireSnapshot
    requires Runs(Next(s, PromoteEnv(env, entries, now)), es) && NoPromotion(es, env)
    ensures ServedAlive(Run(Next(s, PromoteEnv(env, entries, now)), es), env, entries[i].name, entries[i].fp)
  {
    var t := Next(s, PromoteEnv(env, entries, now));
    EnvRowsAt(OtherEnvs(s.store.envs, env), env, entries, EnvKey(env, entries[i].name));
    assert Alive(s.store, entries[i]);
    ServedRun(t, es, env, entries[i].name, entries[i].fp);
  }

  // ----- live snapshots keep their physics -----

  /** Every live snapshot's table exists, and so does every table an apply is about to record. */
  ghost predicate Safe(s: Sys) {
    && (forall t | Used(s.store, t) :: t in s.tables)
    && (forall b | b in s.building :: b.table in s.tables)
  }

  /** What no survivor used when the survivors were read, and is used or in flight now, was touched. */
  ghost predicate Traced(s: Sys) {
    s.janitor.Dropping? ==>
      && (forall t | Used(s.store, t) :: t.fp in s.janitor.inUse || t in s.janitor.touched)
      && (forall b | b in s.building :: b.table in s.janitor.touched)
  }

  /** What an operator would have to see to: no apply works on a claimed table until it is dropped. */
  predicate Quiet(s: Sys, e: Step) {
    e.DropNext? && s.janitor.Dropping? && s.janitor.queue != [] && Drops(s.janitor) ==>
      s.janitor.queue[0] !in s.janitor.touched
  }

  ghost predicate QuietRun(s: Sys, es: seq<Step>)
    requires Runs(s, es)
    decreases |es|
  {
    es == [] || (Quiet(s, es[0]) && QuietRun(Next(s, es[0]), es[1..]))
  }

  lemma UsedAfterUpsert(s: State, row: NewSnapshot, now: int, t: Table)
    ensures Used(Upserted(s, row, now), t) ==> Used(s, t) || t == Table(row.name, row.physFp)
    ensures Used(Upserted(s, row, now), t) && !Used(s, t) ==> !row.kind.EmbeddedSnap?
  {
    var u := Upserted(s, row, now);
    if Used(u, t) {
      var key :| UsedBy(u, key, t);
      assert key in s.snapshots ==> UsedBy(s, key, t);
    }
  }

  lemma UsedAfterPromote(s: State, env: Env, entries: seq<Entry>, now: int, t: Table)
    ensures Used(Promoted(s, env, entries, now), t) <==> Used(s, t)
  {
    var u := Promoted(s, env, entries, now);
    forall key ensures UsedBy(u, key, t) <==> UsedBy(s, key, t) { }
  }

  lemma UsedAfterClaim(s: State, name: Name, fp: Fp, deadline: int, t: Table)
    ensures Used(Claimed(s, name, fp, deadline), t) ==> Used(s, t)
  {
    var u := Claimed(s, name, fp, deadline);
    if Used(u, t) {
      var key :| UsedBy(u, key, t);
      assert UsedBy(s, key, t);
    }
  }

  lemma UsedSurvives(s: State, t: Table)
    requires Used(s, t)
    ensures t.fp in InUse(s)
  {
    var key :| UsedBy(s, key, t);
    assert s.snapshots[key].physFp == t.fp;
  }

  lemma SafeStep(s: Sys, e: Step)
    requires Safe(s) && Traced(s) && Enabled(s, e) && Quiet(s, e)
    ensures Safe(Next(s, e)) && Traced(Next(s, e))
  {
    var n := Next(s, e);
    forall t | Used(n.store, t)
      ensures t in n.tables
      ensures n.janitor.Dropping? ==> t.fp in n.janitor.inUse || t in n.janitor.touched
    {
      if e.RecordRow? { UsedAfterUpsert(s.store, e.row, e.now, t); }
      if e.PromoteEnv? { UsedAfterPromote(s.store, e.env, e.entries, e.now, t); }
      if e.ClaimRow? { UsedAfterClaim(s.store, e.name, e.fp, s.janitor.deadline, t); }
      if e.ReadSurvivors? { UsedSurvives(s.store, t); }
    }
  }

  lemma {:induction false} SafeRun(s: Sys, es: seq<Step>)
    requires Safe(s) && Traced(s) && Runs(s, es) && QuietRun(s, es)
    ensures Safe(Run(s, es)) && Traced(Run(s, es))
    decreases |es|
  {
    if es != [] {
      SafeStep(s, es[0]);
      SafeRun(Next(s, es[0]), es[1..]);
    }
  }

  lemma StartSafe()
    ensures Safe(START) && Traced(START)
  {
    forall t ensures !Used(START.store, t) { }
  }

  /** Over every interleaving in which drops are quiet, no live snapshot loses its physics. */
  lemma LivePhysicsStays(es: seq<Step>)
    requires Runs(START, es) && QuietRun(START, es)
    ensures Safe(Run(START, es))
  {
    StartSafe();
    SafeRun(START, es);
  }

  /** Hence a promoted row of a materialized model has its table. */
  lemma PromotedRowsHavePhysics(es: seq<Step>, k: EnvKey)
    requires Runs(START, es) && QuietRun(START, es)
    requires var s := Run(START, es); k in s.required
    ensures var s := Run(START, es);
            && k in s.store.envs
            && var key := SnapKey(k.name, s.store.envs[k]);
               && key in s.store.snapshots
               && (!s.store.snapshots[key].kind.EmbeddedSnap? ==> TableOf(key, s.store.snapshots[key]) in s.tables)
  {
    PromotedRowsStayAlive(es);
    LivePhysicsStays(es);
    var s := Run(START, es);
    var key := SnapKey(k.name, s.store.envs[k]);
    assert UsedBy(s.store, key, TableOf(key, s.store.snapshots[key])) || s.store.snapshots[key].kind.EmbeddedSnap?;
  }

  // ----- exactly when a drop is harmless, and two ways it is not -----

  /** A drop keeps the system safe exactly when nothing live and nothing in flight uses the table. */
  lemma DropExact(s: Sys)
    requires Safe(s) && Enabled(s, DropNext) && Drops(s.janitor)
    ensures Safe(Next(s, DropNext)) <==>
              !Used(s.store, s.janitor.queue[0]) && (forall pid :: !InFlight(s, pid, s.janitor.queue[0]))
  {
    var t := s.janitor.queue[0];
    var n := Next(s, DropNext);
    if Safe(n) {
      assert t !in n.tables;
      forall pid ensures !InFlight(s, pid, t) {
        var b := Build(pid, t);
        assert b in n.building ==> b.table in n.tables;
      }
    }
    if !Used(s.store, t) && forall pid :: !InFlight(s, pid, t) {
      forall b | b in n.building ensures b.table in n.tables {
        assert !InFlight(s, b.pid, t);
        assert b == Build(b.pid, b.table);
      }
    }
  }

  /** A trace spelled out: the states a list of steps goes through. */
  ghost predicate Chain(ss: seq<Sys>, es: seq<Step>) {
    |ss| == |es| + 1 && forall i | 0 <= i < |es| :: Enabled(ss[i], es[i]) && Next(ss[i], es[i]) == ss[i + 1]
  }

  lemma {:induction false} ChainRuns(ss: seq<Sys>, es: seq<Step>)
    requires Chain(ss, es)
    ensures Runs(ss[0], es) && Run(ss[0], es) == ss[|es|]
    decreases |es|
  {
    if es != [] {
      assert forall i | 0 <= i < |es| - 1 :: ss[1..][i] == ss[i + 1] && es[1..][i] == es[i + 1];
      ChainRuns(ss[1..], es[1..]);
    }
  }

  const F: Fp := Foreign(1)
  const T: Table := Table(1, F)
  const ROW: NewSnapshot := NewSnapshot(1, F, F, None, TableSnap, FINGERPRINT_VERSION)
  const KEY: SnapKey := SnapKey(1, F)

  /** The store with that one snapshot, recorded at a given time. */
  function Live(at: int): State {
    EMPTY.(snapshots := map[KEY := Snapshot(F, None, TableSnap, FINGERPRINT_VERSION, at, None)])
  }

  lemma ClaimEmpties()
    ensures Doomed(Live(0), KEY, 0) && Claimed(Live(0), 1, F, 0) == EMPTY
  {
    assert Live(0).snapshots - {KEY} == map[];
    assert DropLedger(map[], F) == map[];
  }

  lemma Survivorless(building: set<Build>)
    ensures InUse(EMPTY) == {}
    ensures building == {} ==> (set b | b in building :: b.table) == {}
    ensures building == {Build(2, T)} ==> (set b | b in building :: b.table) == {T}
  {
  }

  lemma OrphanPrefix()
    ensures Enabled(Sys(EMPTY, {T}, {Build(1, T)}, {}, Resting), RecordRow(1, ROW, 0))
    ensures Next(START, BuildTable(1, T)) == Sys(EMPTY, {T}, {Build(1, T)}, {}, Resting)
    ensures Next(Sys(EMPTY, {T}, {Build(1, T)}, {}, Resting), RecordRow(1, ROW, 0))
            == Sys(Live(0), {T}, {}, {}, Resting)
    ensures Next(Sys(Live(0), {T}, {}, {}, Claiming(0, [])), ClaimRow(1, F))
            == Sys(EMPTY, {T}, {}, {}, Claiming(0, [T]))
  {
    assert InFlight(Sys(EMPTY, {T}, {Build(1, T)}, {}, Resting), 1, T);
    assert {Build(1, T)} - {Build(1, T)} == {};
    ClaimEmpties();
    assert [] + [T] == [T];
  }

  /** An apply rebuilds and records the claimed version between the survivor read and the drop. */
  const RECORDED_IN_WINDOW: seq<Step> := [
    BuildTable(1, T), RecordRow(1, ROW, 0), StartJanitor(0), ClaimRow(1, F), ReadSurvivors,
    BuildTable(2, T), RecordRow(2, ROW, 1), DropNext]

  lemma RecordInWindowLosesPhysics()
    ensures Runs(START, RECORDED_IN_WINDOW)
    ensures var s := Run(START, RECORDED_IN_WINDOW); UsedBy(s.store, KEY, T) && T !in s.tables
  {
    OrphanPrefix();
    Survivorless({});
    var drop := Dropping([T], {}, {}, {});
    var seen := Dropping([T], {}, {}, {T});
    var gone := Dropping([], {}, {F}, {T});
    var ss := [
      START,
      Sys(EMPTY, {T}, {Build(1, T)}, {}, Resting),
      Sys(Live(0), {T}, {}, {}, Resting),
      Sys(Live(0), {T}, {}, {}, Claiming(0, [])),
      Sys(EMPTY, {T}, {}, {}, Claiming(0, [T])),
      Sys(EMPTY, {T}, {}, {}, drop),
      Sys(EMPTY, {T}, {Build(2, T)}, {}, seen),
      Sys(Live(1), {T}, {}, {}, seen),
      Sys(Live(1), {}, {}, {}, gone)];
    assert Next(ss[4], ReadSurvivors) == ss[5];
    assert Next(ss[5], BuildTable(2, T)) == ss[6];
    assert InFlight(ss[6], 2, T);
    assert {Build(2, T)} - {Build(2, T)} == {};
    assert Next(ss[6], RecordRow(2, ROW, 1)) == ss[7];
    assert [T][1..] == [] && {T} - {T} == {} && {} + {F} == {F};
    assert Next(ss[7], DropNext) == ss[8];
    ChainRuns(ss, RECORDED_IN_WINDOW);
  }

  /** An apply builds before the survivor read and records only after the drop. */
  const BUILT_ACROSS_WINDOW: seq<Step> := [
    BuildTable(1, T), RecordRow(1, ROW, 0), StartJanitor(0), ClaimRow(1, F), BuildTable(2, T),
    ReadSurvivors, DropNext, RecordRow(2, ROW, 1)]

  /**
   * So forbidding records between the survivor read and the drop is not enough: here
   * nothing is built or recorded in that window and the live snapshot still has no table.
   */
  lemma BuildAcrossWindowLosesPhysics()
    ensures Runs(START, BUILT_ACROSS_WINDOW)
    ensures BUILT_ACROSS_WINDOW[5].ReadSurvivors? && BUILT_ACROSS_WINDOW[6].DropNext?
    ensures var s := Run(START, BUILT_ACROSS_WINDOW); UsedBy(s.store, KEY, T) && T !in s.tables
  {
    OrphanPrefix();
    Survivorless({Build(2, T)});
    var drop := Dropping([T], {}, {}, {T});
    var gone := Dropping([], {}, {F}, {T});
    var ss := [
      START,
      Sys(EMPTY, {T}, {Build(1, T)}, {}, Resting),
      Sys(Live(0), {T}, {}, {}, Resting),
      Sys(Live(0), {T}, {}, {}, Claiming(0, [])),
      Sys(EMPTY, {T}, {}, {}, Claiming(0, [T])),
      Sys(EMPTY, {T}, {Build(2, T)}, {}, Claiming(0, [T])),
      Sys(EMPTY, {T}, {Build(2, T)}, {}, drop),
      Sys(EMPTY, {}, {Build(2, T)}, {}, gone),
      Sys(Live(1), {}, {}, {}, gone)];
    assert {} + {Build(2, T)} == {Build(2, T)} && {T} + {T} == {T};
    assert Next(ss[4], BuildTable(2, T)) == ss[5];
    assert Next(ss[5], ReadSurvivors) == ss[6];
    assert [T][1..] == [] && {T} - {T} == {} && {} + {F} == {F};
    assert Next(ss[6], DropNext) == ss[7];
    assert InFlight(ss[7], 2, T);
    assert {Build(2, T)} - {Build(2, T)} == {};
    assert Next(ss[7], RecordRow(2, ROW, 1)) == ss[8];
    ChainRuns(ss, BUILT_ACROSS_WINDOW);
  }

  // ----- one undisturbed run -----

  class Engine {
    var tables: set<Table>

    constructor ()
      ensures tables == {}
    {
      tables := {};
    }

    /** DROP ... IF EXISTS. */
    method Drop(t: Table)
      modifies this
      ensures tables == old(tables) - {t}
    {
      tables := tables - {t};
    }
  }

  function DoomedKeys(s: State, deadline: int): set<SnapKey> {
    set k | k in s.snapshots && Doomed(s, k, deadline)
  }

  function KeptKeys(s: State, deadline: int): set<SnapKey> {
    set k | k in s.snapshots && !Referenced(s, k.fp) && !Doomed(s, k, deadline)
  }

  /** The store once a set of rows and their ledgers are gone. */
  function Without(s: State, keys: set<SnapKey>): State {
    s.(snapshots := s.snapshots - keys,
       ledger := map slot | slot in s.ledger && !(exists k :: k in keys && k.fp == slot.fp) :: s.ledger[slot])
  }

  lemma WithoutNothing(s: State)
    ensures Without(s, {}) == s
  {
    assert s.snapshots - {} == s.snapshots;
  }

  lemma ClaimOneMore(s: State, keys: set<SnapKey>, key: SnapKey, deadline: int)
    requires key in DoomedKeys(s, deadline) && key !in keys
    ensures Doomed(Without(s, keys), key, deadline)
    ensures Claimed(Without(s, keys), key.name, key.fp, deadline) == Without(s, keys + {key})
  {
    assert SnapKey(key.name, key.fp) == key;
    assert s.snapshots - keys - {key} == s.snapshots - (keys + {key});
  }

  /** The tables of the claimed rows that no surviving row uses any more. */
  ghost function Dead(s: State, removed: set<SnapKey>): set<Table> {
    set k | k in removed && k in s.snapshots && !Used(Without(s, removed), TableOf(k, s.snapshots[k])) ::
      TableOf(k, s.snapshots[k])
  }

  ghost predicate OnePerPhysics(tables: set<Table>) {
    forall t, u | t in tables && u in tables && t.fp == u.fp :: t == u
  }

  /** No two of the tables share a physical fingerprint, and no surviving row carries one of theirs. */
  ghost predicate Alone(dead: set<Table>, after: State) {
    OnePerPhysics(dead) && forall t | t in dead :: t.fp !in InUse(after)
  }

  ghost predicate OnlyDeadDropped(s: State, removed: set<SnapKey>, tables0: set<Table>, tables: set<Table>) {
    tables <= tables0 && tables0 - tables <= Dead(s, removed)
  }

  /**
   * Survivors are asked for, and drops remembered, by physical fingerprint alone, while tables
   * also carry the model's name. So all dead tables go exactly when their fingerprints are
   * theirs alone, among the dead and against the survivors.
   */
  ghost predicate CleanedExact(s: State, removed: set<SnapKey>, tables0: set<Table>, tables: set<Table>) {
    var dead, after := Dead(s, removed), Without(s, removed);
    && (Alone(dead, after) ==> dead !! tables)
    && (dead <= tables0 && dead !! tables ==> Alone(dead, after))
  }

  /** A survivor that carries an unused table's fingerprint is another model's, or has no physics. */
  lemma UnusedButListed(s: State, t: Table)
    requires !Used(s, t)
    ensures t.fp in InUse(s) <==>
              exists k :: k in s.snapshots && s.snapshots[k].physFp == t.fp
                          && (k.name != t.name || s.snapshots[k].kind.EmbeddedSnap?)
  {
    if t.fp in InUse(s) {
      var k :| k in s.snapshots && s.snapshots[k].physFp == t.fp;
      assert !UsedBy(s, k, t);
    }
  }

  /**
   * Phase 1 claims every row that is doomed and keeps every other unreferenced one;
   * phase 2 drops, of the claimed tables, one per physical fingerprint no survivor carries.
   */
  method RunJanitor(store: StateStore, engine: Engine, now: int, ttl: int)
    returns (removed: set<SnapKey>, kept: set<SnapKey>)
    modifies store, engine
    ensures removed == DoomedKeys(old(store.View()), now - ttl)
    ensures kept == KeptKeys(old(store.View()), now - ttl)
    ensures store.View() == Without(old(store.View()), removed)
    ensures OnlyDeadDropped(old(store.View()), removed, old(engine.tables), engine.tables)
    ensures CleanedExact(old(store.View()), removed, old(engine.tables), engine.tables)
  {
    ghost var before := store.View();
    var deadline := now - ttl;
    var referenced := store.envs.Values;
    var listing := store.snapshots;
    removed, kept := {}, {};
    var todo := listing.Keys;
    WithoutNothing(before);
    while todo != {}
      invariant todo <= listing.Keys
      invariant store.View() == Without(before, removed)
      invariant removed == DoomedKeys(before, deadline) - todo
      invariant kept == KeptKeys(before, deadline) - todo
      invariant engine.tables == old(engine.tables)
    {
      ghost var some := Any(todo);
      assert some in todo;
      var key :| key in todo;
      todo := todo - {key};
      if key.fp !in referenced {
        if Mark(listing[key]) > deadline {
          kept := kept + {key};
        } else {
          ClaimOneMore(before, removed, key, deadline);
          var won := store.DeleteSnapshotIfDoomed(key.name, key.fp, deadline);
          removed := removed + {key};
        }
      }
    }
    var inUse := InUse(store.View());
    DropPhase(engine, listing, removed, inUse);
    CleanedBy(before, removed, old(engine.tables), engine.tables);
  }

  /** The claimed tables whose fingerprint no survivor carries. */
  function Unlisted(listing: map<SnapKey, Snapshot>, removed: set<SnapKey>, inUse: set<Fp>): set<Table> {
    set k | k in removed && k in listing && listing[k].physFp !in inUse :: TableOf(k, listing[k])
  }

  ghost predicate GoneAlike(droppable: set<Table>, tables: set<Table>, t: Table) {
    exists u :: u in droppable && u.fp == t.fp && u !in tables
  }

  /** Of these tables, and of no others, one per fingerprint goes. */
  ghost predicate OneOfEachGone(droppable: set<Table>, tables0: set<Table>, tables: set<Table>) {
    && tables <= tables0
    && tables0 - tables <= droppable
    && OnePerPhysics(tables0 - tables)
    && forall t | t in droppable :: GoneAlike(droppable, tables, t)
  }

  lemma CleanedBy(s: State, removed: set<SnapKey>, tables0: set<Table>, tables: set<Table>)
    requires OneOfEachGone(Unlisted(s.snapshots, removed, InUse(Without(s, removed))), tables0, tables)
    ensures OnlyDeadDropped(s, removed, tables0, tables)
    ensures CleanedExact(s, removed, tables0, tables)
  {
    hide Used, Without, InUse;
    var after, dead := Without(s, removed), Dead(s, removed);
    var unlisted := Unlisted(s.snapshots, removed, InUse(after));
    UnlistedAreDead(s, removed);
    if Alone(dead, after) {
      forall t | t in dead ensures t in unlisted {
        var k :| k in removed && k in s.snapshots && TableOf(k, s.snapshots[k]) == t;
        assert s.snapshots[k].physFp !in InUse(after);
      }
      assert dead == unlisted;
      forall t | t in dead ensures t !in tables {
        assert GoneAlike(unlisted, tables, t);
      }
    }
    if dead <= tables0 && dead !! tables {
      assert dead <= tables0 - tables;
      forall t | t in dead ensures t.fp !in InUse(after) {
        assert t in unlisted;
      }
    }
  }

  lemma UnlistedAreDead(s: State, removed: set<SnapKey>)
    ensures Unlisted(s.snapshots, removed, InUse(Without(s, removed))) <= Dead(s, removed)
    ensures forall t | t in Unlisted(s.snapshots, removed, InUse(Without(s, removed))) ::
              t.fp !in InUse(Without(s, removed))
  {
    hide Without, Used;
    forall t | t in Unlisted(s.snapshots, removed, InUse(Without(s, removed)))
      ensures t in Dead(s, removed) && t.fp !in InUse(Without(s, removed))
    {
      if Used(Without(s, removed), t) { UsedSurvives(Without(s, removed), t); }
    }
  }

  method DropPhase(engine: Engine, listing: map<SnapKey, Snapshot>, removed: set<SnapKey>, inUse: set<Fp>)
    requires removed <= listing.Keys
    modifies engine
    ensures OneOfEachGone(Unlisted(listing, removed, inUse), old(engine.tables), engine.tables)
  {
    var dropped: set<Fp> := {};
    ghost var gone: set<Table> := {};
    var todo := removed;
    while todo != {}
      invariant todo <= removed
      invariant engine.tables == old(engine.tables) - gone
      invariant gone <= Unlisted(listing, removed, inUse)
      invariant dropped == set t | t in gone :: t.fp
      invariant OnePerPhysics(gone)
      invariant forall k | k in removed - todo && listing[k].physFp !in inUse :: listing[k].physFp in dropped
    {
      ghost var some := Any(todo);
      assert some in todo;
      var key :| key in todo;
      todo := todo - {key};
      var fp := listing[key].physFp;
      if fp !in inUse && fp !in dropped {
        var t := TableOf(key, listing[key]);
        dropped := dropped + {fp};
        gone := gone + {t};
        engine.Drop(t);
      }
    }
    OneIsGone(listing, removed, inUse, gone, engine.tables);
  }

  lemma OneIsGone(listing: map<SnapKey, Snapshot>, removed: set<SnapKey>, inUse: set<Fp>, gone: set<Table>,
                  tables: set<Table>)
    requires removed <= listing.Keys && gone <= Unlisted(listing, removed, inUse) && gone !! tables
    requires forall k | k in removed && listing[k].physFp !in inUse :: listing[k].physFp in set t | t in gone :: t.fp
    ensures forall t | t in Unlisted(listing, removed, inUse) :: GoneAlike(Unlisted(listing, removed, inUse), tables, t)
  {
    var unlisted := Unlisted(listing, removed, inUse);
    forall t | t in unlisted ensures GoneAlike(unlisted, tables, t) {
      var k :| k in removed && k in listing && listing[k].physFp !in inUse && TableOf(k, listing[k]) == t;
      var u :| u in gone && u.fp == t.fp;
      assert u in unlisted && u !in tables;
    }
  }

  // ----- a table that stays behind -----

  const TWIN: SnapKey := SnapKey(2, F)
  const TWIN_TABLE: Table := Table(2, F)

  /** Two models under one fingerprint, no environment; the second row's age is given. */
  function TwinStore(at: int): State {
    EMPTY.(snapshots := map[KEY := Snapshot(F, None, TableSnap, FINGERPRINT_VERSION, 0, None),
                            TWIN := Snapshot(F, None, TableSnap, FINGERPRINT_VERSION, at, None)])
  }

  /** The rows a deadline of 5 claims. */
  lemma TwinsDoomed(at: int)
    ensures DoomedKeys(TwinStore(at), 5) == if at <= 5 then {KEY, TWIN} else {KEY}
  {
    assert TwinStore(at).envs.Values == {};
  }

  /** Both claimed, nothing is left, and the two tables share a fingerprint. */
  lemma BothDead(s: State)
    requires TWIN in s.snapshots && s == TwinStore(s.snapshots[TWIN].createdAt)
    ensures Dead(s, {KEY, TWIN}) == {T, TWIN_TABLE} && !Alone({T, TWIN_TABLE}, Without(s, {KEY, TWIN}))
  {
    hide Without;
    assert Without(s, {KEY, TWIN}).snapshots == map[] by { BothGone(s); }
    forall t ensures !Used(Without(s, {KEY, TWIN}), t) { }
    assert TableOf(KEY, s.snapshots[KEY]) == T && TableOf(TWIN, s.snapshots[TWIN]) == TWIN_TABLE;
    assert T.fp == TWIN_TABLE.fp && T != TWIN_TABLE;
  }

  lemma BothGone(s: State)
    requires TWIN in s.snapshots && s == TwinStore(s.snapshots[TWIN].createdAt)
    ensures Without(s, {KEY, TWIN}).snapshots == map[]
  {
    assert s.snapshots.Keys == {KEY, TWIN};
  }

  /** One claimed, its table is unused, and the other row carries the fingerprint. */
  lemma OneDead(s: State)
    requires TWIN in s.snapshots && s == TwinStore(s.snapshots[TWIN].createdAt)
    ensures Dead(s, {KEY}) == {T} && !Alone({T}, Without(s, {KEY}))
  {
    hide Without;
    assert Without(s, {KEY}).snapshots.Keys == {TWIN} && Without(s, {KEY}).snapshots[TWIN] == s.snapshots[TWIN]
      by { OneGone(s); }
    forall key ensures !UsedBy(Without(s, {KEY}), key, T) { }
    assert TableOf(KEY, s.snapshots[KEY]) == T;
    assert Without(s, {KEY}).snapshots[TWIN].physFp == T.fp;
  }

  lemma OneGone(s: State)
    requires TWIN in s.snapshots && s == TwinStore(s.snapshots[TWIN].createdAt)
    ensures Without(s, {KEY}).snapshots.Keys == {TWIN} && Without(s, {KEY}).snapshots[TWIN] == s.snapshots[TWIN]
  {
    assert s.snapshots.Keys == {KEY, TWIN};
  }

  /**
   * With one row claimed and its young namesake kept, or with both claimed, a run within its
   * contract leaves a table that no row names any more.
   */
  lemma SharedPhysicsStaysBehind(at: int, tables: set<Table>)
    requires var s := TwinStore(at);
             OnlyDeadDropped(s, DoomedKeys(s, 5), {T, TWIN_TABLE}, tables)
             && CleanedExact(s, DoomedKeys(s, 5), {T, TWIN_TABLE}, tables)
    ensures var s := TwinStore(at);
            var dead := Dead(s, DoomedKeys(s, 5));
            && DoomedKeys(s, 5) == (if at <= 5 then {KEY, TWIN} else {KEY})
            && dead == (if at <= 5 then {T, TWIN_TABLE} else {T})
            && dead * tables != {}
  {
    hide Dead, Without, Alone, DoomedKeys;
    TwinsDoomed(at);
    var s := TwinStore(at);
    var removed := if at <= 5 then {KEY, TWIN} else {KEY};
    var dead := if at <= 5 then {T, TWIN_TABLE} else {T};
    assert s.snapshots[TWIN].createdAt == at && DoomedKeys(s, 5) == removed;
    if at <= 5 {
      BothDead(s);
    } else {
      OneDead(s);
    }
    assert Dead(s, removed) == dead && !Alone(dead, Without(s, removed));
    assert dead <= {T, TWIN_TABLE};
    NotDisjoint(dead, tables);
  }

  lemma NotDisjoint(a: set<Table>, b: set<Table>)
    ensures !(a !! b) ==> a * b != {}
  {
    if a * b == {} {
      forall x | x in a ensures x !in b { assert x !in a * b; }
    }
  }
}
