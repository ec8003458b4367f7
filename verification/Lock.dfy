/**
 * The lease lock (src/plan/lock.ts) over its store row (src/state/sqlite.ts): a row
 * holds nothing but an expiry, and a holder proves ownership by naming the expiry it
 * last wrote. Time is in milliseconds and one clock is shared by all processes.
 */
module Lock {
  import opened Common

  type Pid = int

  /** The lock row of one name: its expiry, or no row. */
  type LockRow = Option<int>

  // ----- the store operations, each one transaction -----

  /** DELETE what expired by `now`, then INSERT if the name is free. */
  function AcquireRow(row: LockRow, now: int, ttl: int): (LockRow, bool) {
    if row.Some? && row.value > now then (row, false) else (Some(now + ttl), true)
  }

  /** UPDATE where the expiry is still the expected one; the new expiry, or nothing. */
  function RenewRow(row: LockRow, expected: LockRow, now: int, ttl: int): (LockRow, LockRow) {
    if row.Some? && row == expected then (Some(now + ttl), Some(now + ttl)) else (row, None)
  }

  /** DELETE where the expiry is still the expected one. */
  function ReleaseRow(row: LockRow, expected: LockRow): LockRow {
    if row.Some? && row == expected then None else row
  }

  // ----- the processes -----

  /**
   * `Entered` has acquired until `expiry` and not yet read the row back; `Holding` runs
   * the guarded body. A seed that finds no row leaves a fence that matches nothing.
   */
  datatype Phase = Out | Entered(expiry: int, ttl: int) | Holding(fence: LockRow, ttl: int)

  /** `owner` is history: who acquired the current row. */
  datatype Sys = Sys(now: int, row: LockRow, owner: Pid, procs: map<Pid, Phase>)

  datatype Step =
    | Tick(ms: nat)
    | Acquire(p: Pid, ttl: int)
    | Seed(p: Pid)
    | Beat(p: Pid)
    | Release(p: Pid)
    | Crash(p: Pid)

  function PhaseOf(s: Sys, p: Pid): Phase {
    if p in s.procs then s.procs[p] else Out
  }

  function Put(s: Sys, p: Pid, ph: Phase): Sys {
    s.(procs := s.procs[p := ph])
  }

  predicate Enabled(s: Sys, e: Step) {
    match e
    case Tick(_) => true
    case Acquire(p, _) => PhaseOf(s, p).Out?
    case Seed(p) => PhaseOf(s, p).Entered?
    case Beat(p) => PhaseOf(s, p).Holding?
    case Release(p) => PhaseOf(s, p).Holding?
    case Crash(_) => true
  }

  /** A beat that finds the lock gone aborts the body; the fenced release then misses too. */
  function Next(s: Sys, e: Step): Sys
    requires Enabled(s, e)
  {
    match e
    case Tick(ms) => s.(now := s.now + ms)
    case Acquire(p, ttl) =>
      var (row, won) := AcquireRow(s.row, s.now, ttl);
      if won then Put(s.(row := row, owner := p), p, Entered(s.now + ttl, ttl)) else s
    case Seed(p) => Put(s, p, Holding(s.row, s.procs[p].ttl))
    case Beat(p) =>
      var ph := s.procs[p];
      var (row, renewed) := RenewRow(s.row, ph.fence, s.now, ph.ttl);
      if renewed.Some? then Put(s.(row := row), p, ph.(fence := renewed)) else Put(s.(row := row), p, Out)
    case Release(p) => Put(s.(row := ReleaseRow(s.row, s.procs[p].fence)), p, Out)
    case Crash(p) => Put(s, p, Out)
  }

  predicate Runs(s: Sys, es: seq<Step>)
    decreases |es|
  {
    es == [] || (Enabled(s, es[0]) && Runs(Next(s, es[0]), es[1..]))
  }

  function Run(s: Sys, es: seq<Step>): Sys
    requires Runs(s, es)
    decreases |es|
  {
    if es == [] then s else Run(Next(s, es[0]), es[1..])
  }

  const IDLE := Sys(0, None, 0, map[])

  // ----- mutual exclusion of fences -----

  /** The process would renew or release the current row. */
  predicate Fences(s: Sys, p: Pid) {
    PhaseOf(s, p).Holding? && s.row.Some? && PhaseOf(s, p).fence == s.row
  }

  ghost predicate Exclusive(s: Sys) {
    forall p, q | Fences(s, p) && Fences(s, q) :: p == q
  }

  /**
   * The owner's fence is the row; every other fence is in the past; and a process that
   * has not read the row back yet still owns it as long as its lease runs.
   */
  ghost predicate Inv(s: Sys) {
    forall p | p in s.procs :: PhaseInv(s, p, s.procs[p])
  }

  ghost predicate PhaseInv(s: Sys, p: Pid, ph: Phase) {
    match ph
    case Out => true
    case Entered(expiry, ttl) => ttl >= 1 && (s.now < expiry ==> s.owner == p && s.row == Some(expiry))
    case Holding(fence, ttl) =>
      ttl >= 1 && (fence.Some? ==> if s.owner == p && s.row.Some? then s.row == fence else Stale(s, fence.value))
  }

  /** A fence nobody can match: it is past, and older than the row if there is one. */
  ghost predicate Stale(s: Sys, fence: int) {
    fence <= s.now && (s.row.Some? ==> fence < s.row.value)
  }

  /** What a caller can see to: leases of at least a millisecond, read back before they lapse. */
  predicate Timely(s: Sys, e: Step) {
    match e
    case Acquire(_, ttl) => ttl >= 1
    case Seed(p) => PhaseOf(s, p).Entered? && s.now < PhaseOf(s, p).expiry
    case _ => true
  }

  predicate TimelyRun(s: Sys, es: seq<Step>)
    requires Runs(s, es)
    decreases |es|
  {
    es == [] || (Timely(s, es[0]) && TimelyRun(Next(s, es[0]), es[1..]))
  }

  lemma InvStep(s: Sys, e: Step)
    requires Inv(s) && Enabled(s, e) && Timely(s, e)
    ensures Inv(Next(s, e))
  {
    var t := Next(s, e);
    forall q | q in t.procs ensures PhaseInv(t, q, t.procs[q]) {
      assert q in s.procs ==> PhaseInv(s, q, s.procs[q]);
    }
  }

  lemma InvExclusive(s: Sys)
    requires Inv(s)
    ensures Exclusive(s)
    ensures forall p | Fences(s, p) :: p == s.owner
  {
    forall p | Fences(s, p) ensures p == s.owner {
      assert PhaseInv(s, p, s.procs[p]);
    }
  }

  lemma {:induction false} InvRun(s: Sys, es: seq<Step>)
    requires Inv(s) && Runs(s, es) && TimelyRun(s, es)
    ensures Inv(Run(s, es))
    decreases |es|
  {
    if es != [] {
      InvStep(s, es[0]);
      InvRun(Next(s, es[0]), es[1..]);
    }
  }

  /** In every state of every timely run at most one process's fence is the row's expiry. */
  lemma MutualExclusion(es: seq<Step>)
    requires Runs(IDLE, es) && TimelyRun(IDLE, es)
    ensures Exclusive(Run(IDLE, es))
    ensures forall p | Fences(Run(IDLE, es), p) :: p == Run(IDLE, es).owner
  {
    InvRun(IDLE, es);
    InvExclusive(Run(IDLE, es));
  }

  /** A holder whose lease was reclaimed never touches the new one, by beat or by release. */
  lemma ReclaimedHolderIsHarmless(es: seq<Step>, p: Pid)
    requires Runs(IDLE, es) && TimelyRun(IDLE, es)
    requires PhaseOf(Run(IDLE, es), p).Holding? && Run(IDLE, es).owner != p
    ensures var s := Run(IDLE, es);
            && Next(s, Beat(p)).row == s.row && PhaseOf(Next(s, Beat(p)), p).Out?
            && Next(s, Release(p)).row == s.row
  {
    MutualExclusion(es);
    var s := Run(IDLE, es);
    assert !Fences(s, p);
  }

  // ----- a punctual holder is never displaced -----

  /** From here on `p` keeps holding, and the clock never reaches the expiry it last wrote. */
  predicate Punctual(s: Sys, es: seq<Step>, p: Pid)
    requires Runs(s, es)
    decreases |es|
  {
    && PhaseOf(s, p).Holding? && PhaseOf(s, p).fence.Some? && s.now < PhaseOf(s, p).fence.value
    && (es != [] ==> Punctual(Next(s, es[0]), es[1..], p))
  }

  /** No acquire of the run takes the lock. */
  predicate NobodyWins(s: Sys, es: seq<Step>)
    requires Runs(s, es)
    decreases |es|
  {
    es == [] || (&& (es[0].Acquire? ==> !AcquireRow(s.row, s.now, es[0].ttl).1)
                 && NobodyWins(Next(s, es[0]), es[1..]))
  }

  lemma {:induction false} PunctualHolderKeepsLock(s: Sys, es: seq<Step>, p: Pid)
    requires Inv(s) && Runs(s, es) && TimelyRun(s, es) && Punctual(s, es, p)
    requires s.owner == p && Fences(s, p)
    ensures NobodyWins(s, es)
    ensures Run(s, es).owner == p && Fences(Run(s, es), p)
    decreases |es|
  {
    if es != [] {
      var t := Next(s, es[0]);
      InvStep(s, es[0]);
      assert PhaseInv(s, p, s.procs[p]);
      assert t.owner == p && t.row.Some? && t.row == PhaseOf(t, p).fence by {
        if es[0].Beat? && es[0].p != p { OthersMiss(s, es[0].p, p); }
        if es[0].Release? && es[0].p != p { OthersMiss(s, es[0].p, p); }
      }
      PunctualHolderKeepsLock(t, es[1..], p);
    }
  }

  lemma OthersMiss(s: Sys, q: Pid, p: Pid)
    requires Inv(s) && Fences(s, p) && q != p
    ensures !Fences(s, q)
  {
    InvExclusive(s);
  }

  // ----- the heartbeat schedule -----

  function HeartbeatInterval(ttl: int): int {
    var third := ttl / 3;
    if third > 1 then third else 1
  }

  /**
   * One missed beat is always survived from three milliseconds on. A second missed beat
   * is survived exactly when the ttl is not a multiple of three: otherwise the third
   * beat falls on the very millisecond at which another process may already reclaim.
   */
  lemma HeartbeatCushion(ttl: int)
    requires ttl >= 1
    ensures HeartbeatInterval(ttl) < ttl <==> ttl >= 2
    ensures 2 * HeartbeatInterval(ttl) < ttl <==> ttl >= 3
    ensures 3 * HeartbeatInterval(ttl) < ttl <==> ttl >= 4 && ttl % 3 != 0
  {
    assert ttl == 3 * (ttl / 3) + ttl % 3;
  }

  /** The default ttl of an hour is a multiple of three. */
  lemma DefaultTtlThirdBeat()
    ensures 3 * HeartbeatInterval(3_600_000) == 3_600_000
    ensures AcquireRow(Some(3_600_000), 3 * HeartbeatInterval(3_600_000), 3_600_000).1
  {
    HeartbeatCushion(3_600_000);
  }

  // ----- the two hypotheses are tight -----

  lemma RunCons(s: Sys, e: Step, es: seq<Step>)
    requires Enabled(s, e) && Runs(Next(s, e), es)
    ensures Runs(s, [e] + es) && Run(s, [e] + es) == Run(Next(s, e), es)
    ensures Timely(s, e) && TimelyRun(Next(s, e), es) ==> TimelyRun(s, [e] + es)
    ensures Elapsed([e] + es) == (if e.Tick? then e.ms else 0) + Elapsed(es)
  {
    assert ([e] + es)[1..] == es;
  }

  function ActorOf(e: Step): Option<Pid> {
    match e
    case Tick(_) => None
    case Acquire(p, _) => Some(p)
    case Seed(p) => Some(p)
    case Beat(p) => Some(p)
    case Release(p) => Some(p)
    case Crash(p) => Some(p)
  }

  ghost predicate LeavesAlone(es: seq<Step>, p: Pid) {
    forall i | 0 <= i < |es| :: ActorOf(es[i]) != Some(p)
  }

  function Elapsed(es: seq<Step>): nat {
    if es == [] then 0 else (if es[0].Tick? then es[0].ms else 0) + Elapsed(es[1..])
  }

  /** `p` has acquired an idle lock at time `t`. */
  function AcquiredAt(p: Pid, t: nat, ttl: int): Sys {
    Sys(t, Some(t + ttl), p, map[p := Entered(t + ttl, ttl)])
  }

  /** What others may do, timely, in the `delay` milliseconds before `p` reads its row back. */
  ghost predicate Between(s: Sys, mid: seq<Step>, p: Pid, delay: nat) {
    Runs(s, mid) && TimelyRun(s, mid) && LeavesAlone(mid, p) && Elapsed(mid) == delay
  }

  lemma {:induction false} UntouchedWhileWaiting(s: Sys, mid: seq<Step>, p: Pid)
    requires Runs(s, mid) && LeavesAlone(mid, p)
    ensures PhaseOf(Run(s, mid), p) == PhaseOf(s, p)
    ensures Run(s, mid).now == s.now + Elapsed(mid)
    decreases |mid|
  {
    if mid != [] {
      assert ActorOf(mid[0]) != Some(p);
      assert PhaseOf(Next(s, mid[0]), p) == PhaseOf(s, p);
      UntouchedWhileWaiting(Next(s, mid[0]), mid[1..], p);
    }
  }

  lemma ReadBackInTime(p: Pid, t: nat, ttl: int, mid: seq<Step>, delay: nat)
    requires ttl >= 1 && delay < ttl && Between(AcquiredAt(p, t, ttl), mid, p, delay)
    ensures var s := Run(AcquiredAt(p, t, ttl), mid);
            Enabled(s, Seed(p)) && Exclusive(Next(s, Seed(p))) && Fences(Next(s, Seed(p)), p)
  {
    var s0 := AcquiredAt(p, t, ttl);
    UntouchedWhileWaiting(s0, mid, p);
    InvRun(s0, mid);
    var s := Run(s0, mid);
    assert PhaseInv(s, p, s.procs[p]);
    InvStep(s, Seed(p));
    InvExclusive(Next(s, Seed(p)));
  }

  /** Another process reclaims the lapsed row and reads it back just before `p` does. */
  lemma ReadBackTooLate(p: Pid, t: nat, ttl: int, delay: nat) returns (mid: seq<Step>)
    requires ttl >= 1 && delay >= ttl
    ensures Between(AcquiredAt(p, t, ttl), mid, p, delay)
    ensures Enabled(Run(AcquiredAt(p, t, ttl), mid), Seed(p))
    ensures !Exclusive(Next(Run(AcquiredAt(p, t, ttl), mid), Seed(p)))
  {
    var q := p + 1;
    mid := [Tick(delay), Acquire(q, 1), Seed(q)];
    var s0 := AcquiredAt(p, t, ttl);
    var s1 := Next(s0, mid[0]);
    var s2 := Next(s1, mid[1]);
    var s3 := Next(s2, mid[2]);
    RunCons(s2, Seed(q), []);
    RunCons(s1, Acquire(q, 1), [Seed(q)]);
    RunCons(s0, Tick(delay), [Acquire(q, 1), Seed(q)]);
    assert mid == [Tick(delay)] + [Acquire(q, 1), Seed(q)];
    assert [Acquire(q, 1), Seed(q)] == [Acquire(q, 1)] + [Seed(q)];
    assert [Seed(q)] == [Seed(q)] + [];
    assert Run(s0, mid) == s3;
    assert s3.row == Some(t + delay + 1);
    var s4 := Next(s3, Seed(p));
    assert Fences(s4, p) && Fences(s4, q);
  }

  /**
   * Acquiring and reading the expiry back are two calls. The fences stay exclusive
   * whatever the others do in between exactly when the read lands within the ttl.
   */
  lemma SeedDelayExact(p: Pid, t: nat, ttl: int, delay: nat)
    requires ttl >= 1
    ensures (forall mid | Between(AcquiredAt(p, t, ttl), mid, p, delay) ::
               var s := Run(AcquiredAt(p, t, ttl), mid);
               Enabled(s, Seed(p)) && Exclusive(Next(s, Seed(p))))
            <==> delay < ttl
  {
    if delay < ttl {
      forall mid | Between(AcquiredAt(p, t, ttl), mid, p, delay)
        ensures var s := Run(AcquiredAt(p, t, ttl), mid);
                Enabled(s, Seed(p)) && Exclusive(Next(s, Seed(p)))
      {
        ReadBackInTime(p, t, ttl, mid, delay);
      }
    } else {
      var mid := ReadBackTooLate(p, t, ttl, delay);
    }
  }

  // ----- the lease by its beats -----

  /**
   * A schedule in which `p` keeps beating: never more than `gap` milliseconds pass since its
   * acquire or its last beat, and it neither releases nor dies. Nothing is said of the row.
   */
  predicate Beating(es: seq<Step>, p: Pid, gap: int, since: nat)
    decreases |es|
  {
    since <= gap &&
    (es == [] ||
     match es[0]
     case Tick(ms) => Beating(es[1..], p, gap, since + ms)
     case Beat(q) => Beating(es[1..], p, gap, if q == p then 0 else since)
     case Seed(_) => Beating(es[1..], p, gap, since)
     case Acquire(q, _) => q != p && Beating(es[1..], p, gap, since)
     case Release(q) => q != p && Beating(es[1..], p, gap, since)
     case Crash(q) => q != p && Beating(es[1..], p, gap, since))
  }

  /** The milliseconds from `p`'s last beat, or its acquire, to the end of the schedule. */
  function SinceBeat(es: seq<Step>, p: Pid, since: nat): nat
    decreases |es|
  {
    if es == [] then since else
      match es[0]
      case Tick(ms) => SinceBeat(es[1..], p, since + ms)
      case Beat(q) => SinceBeat(es[1..], p, if q == p then 0 else since)
      case _ => SinceBeat(es[1..], p, since)
  }

  /** The lease runs a ttl from the last beat, and the process knows it. */
  ghost predicate Leased(s: Sys, p: Pid, ttl: int, since: nat) {
    && s.owner == p && s.row == Some(s.now - since + ttl)
    && (PhaseOf(s, p) == Entered(s.now - since + ttl, ttl) || PhaseOf(s, p) == Holding(s.row, ttl))
  }

  function SinceAfter(e: Step, p: Pid, since: nat): nat {
    match e
    case Tick(ms) => since + ms
    case Beat(q) => if q == p then 0 else since
    case _ => since
  }

  lemma LeasedStep(s: Sys, e: Step, p: Pid, ttl: int, gap: int, since: nat, rest: seq<Step>)
    requires Inv(s) && Enabled(s, e) && Timely(s, e) && Leased(s, p, ttl, since) && gap < ttl
    requires Beating([e] + rest, p, gap, since)
    ensures Leased(Next(s, e), p, ttl, SinceAfter(e, p, since)) && Beating(rest, p, gap, SinceAfter(e, p, since))
    ensures e.Acquire? ==> !AcquireRow(s.row, s.now, e.ttl).1
    ensures SinceBeat([e] + rest, p, since) == SinceBeat(rest, p, SinceAfter(e, p, since))
  {
    assert ([e] + rest)[1..] == rest;
    if (e.Beat? || e.Release? || e.Seed?) && e.p != p {
      assert e.p in s.procs ==> PhaseInv(s, e.p, s.procs[e.p]);
    }
  }

  lemma {:induction false} LeasedRun(s: Sys, es: seq<Step>, p: Pid, ttl: int, gap: int, since: nat)
    requires Inv(s) && Runs(s, es) && TimelyRun(s, es) && Leased(s, p, ttl, since) && gap < ttl
    requires Beating(es, p, gap, since)
    ensures NobodyWins(s, es) && Leased(Run(s, es), p, ttl, SinceBeat(es, p, since))
    ensures SinceBeat(es, p, since) <= gap
    decreases |es|
  {
    hide Inv, Leased, Enabled, Timely, Next;
    if es != [] {
      assert es == [es[0]] + es[1..];
      LeasedStep(s, es[0], p, ttl, gap, since, es[1..]);
      InvStep(s, es[0]);
      LeasedRun(Next(s, es[0]), es[1..], p, ttl, gap, SinceAfter(es[0], p, since));
    }
  }

  /**
   * A process that takes the lock and whose successive beats are less than a ttl apart keeps
   * it: no acquire of the run succeeds, and the row always expires a ttl after its last beat.
   */
  lemma BeatingHolderKeepsLock(before: seq<Step>, p: Pid, ttl: int, es: seq<Step>, gap: int)
    requires Runs(IDLE, before) && TimelyRun(IDLE, before)
    requires var s := Run(IDLE, before);
             PhaseOf(s, p).Out? && AcquireRow(s.row, s.now, ttl).1 && ttl >= 1
    requires var t := Next(Run(IDLE, before), Acquire(p, ttl));
             Runs(t, es) && TimelyRun(t, es)
    requires Beating(es, p, gap, 0) && gap < ttl
    ensures var t := Next(Run(IDLE, before), Acquire(p, ttl));
            && NobodyWins(t, es)
            && Run(t, es).owner == p
            && Run(t, es).row == Some(Run(t, es).now - SinceBeat(es, p, 0) + ttl)
            && Run(t, es).now < Run(t, es).row.value
  {
    InvRun(IDLE, before);
    var s := Run(IDLE, before);
    InvStep(s, Acquire(p, ttl));
    LeasedRun(Next(s, Acquire(p, ttl)), es, p, ttl, gap, 0);
  }

  ghost predicate AlwaysKept(p: Pid, ttl: int, gap: int) {
    forall es | Runs(AcquiredAt(p, 0, ttl), es) && TimelyRun(AcquiredAt(p, 0, ttl), es) && Beating(es, p, gap, 0) ::
      NobodyWins(AcquiredAt(p, 0, ttl), es)
  }

  /** Beats at most `gap` apart keep the lock, whatever others do, exactly if the gap is less than the ttl. */
  lemma GapExact(p: Pid, ttl: int, gap: nat)
    requires ttl >= 1
    ensures AlwaysKept(p, ttl, gap) <==> gap < ttl
  {
    var s := AcquiredAt(p, 0, ttl);
    assert Inv(s) && Leased(s, p, ttl, 0);
    if gap < ttl {
      forall es | Runs(s, es) && TimelyRun(s, es) && Beating(es, p, gap, 0) ensures NobodyWins(s, es) {
        LeasedRun(s, es, p, ttl, gap, 0);
      }
    } else {
      var es := [Tick(gap), Acquire(p + 1, 1)];
      var t := Next(s, Tick(gap));
      RunCons(t, Acquire(p + 1, 1), []);
      RunCons(s, Tick(gap), [Acquire(p + 1, 1)]);
      assert es == [Tick(gap)] + [Acquire(p + 1, 1)] && [Acquire(p + 1, 1)] == [Acquire(p + 1, 1)] + [];
      assert es[1..] == [Acquire(p + 1, 1)] && es[1..][1..] == [];
      assert Runs(s, es) && TimelyRun(s, es) && Beating(es, p, gap, 0);
      assert AcquireRow(t.row, t.now, 1).1;
      assert !NobodyWins(t, es[1..]);
      assert !NobodyWins(s, es);
    }
  }

  /**
   * The heartbeat's schedule, on time and with one or two beats missed in a row: the first
   * always holds from two milliseconds on, the second from three, the third exactly when the
   * ttl is not a multiple of three.
   */
  lemma HeartbeatKeepsLock(p: Pid, ttl: int)
    requires ttl >= 1
    ensures AlwaysKept(p, ttl, HeartbeatInterval(ttl)) <==> ttl >= 2
    ensures AlwaysKept(p, ttl, 2 * HeartbeatInterval(ttl)) <==> ttl >= 3
    ensures AlwaysKept(p, ttl, 3 * HeartbeatInterval(ttl)) <==> ttl >= 4 && ttl % 3 != 0
  {
    HeartbeatCushion(ttl);
    GapExact(p, ttl, HeartbeatInterval(ttl));
    GapExact(p, ttl, 2 * HeartbeatInterval(ttl));
    GapExact(p, ttl, 3 * HeartbeatInterval(ttl));
  }

  // ----- the shortest lease -----

  /** With a ttl of zero two processes hold in the same millisecond under the same fence. */
  lemma ZeroTtlShares(p: Pid, q: Pid)
    requires p != q
    ensures var es := [Acquire(p, 0), Seed(p), Acquire(q, 0), Seed(q)];
            Runs(IDLE, es) && !Exclusive(Run(IDLE, es))
  {
    var es := [Acquire(p, 0), Seed(p), Acquire(q, 0), Seed(q)];
    var s1 := Next(IDLE, es[0]);
    var s2 := Next(s1, es[1]);
    var s3 := Next(s2, es[2]);
    var s4 := Next(s3, es[3]);
    RunCons(s3, Seed(q), []);
    RunCons(s2, Acquire(q, 0), [Seed(q)]);
    RunCons(s1, Seed(p), [Acquire(q, 0), Seed(q)]);
    RunCons(IDLE, Acquire(p, 0), [Seed(p), Acquire(q, 0), Seed(q)]);
    assert es == [Acquire(p, 0)] + [Seed(p), Acquire(q, 0), Seed(q)];
    assert [Seed(p), Acquire(q, 0), Seed(q)] == [Seed(p)] + [Acquire(q, 0), Seed(q)];
    assert [Acquire(q, 0), Seed(q)] == [Acquire(q, 0)] + [Seed(q)];
    assert [Seed(q)] == [Seed(q)] + [];
    assert Fences(s4, p) && Fences(s4, q);
  }
}
