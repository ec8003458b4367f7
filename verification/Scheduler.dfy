/**
 * The gate scheduler (src/plan/executor.ts:578-584, 854-894). The working models stand in
 * topological order; at most `k` fibers run, started in that order; a fiber waits on the
 * gates of its direct dependencies, reads what its query reads, writes its own physics
 * and opens its own gate. A table's content is one abstract value.
 */
module Scheduler {
  import opened Common

  type Data = int
  type Inputs = map<nat, Data>
  type Builder = (nat, Data, Inputs) -> Data

  /** `waits[i]`: the gates model `i` awaits; `sources[i]`: the working models its query reads. */
  datatype Job = Job(n: nat, k: nat, waits: seq<set<nat>>, sources: seq<set<nat>>, build: Builder)

  datatype Status = Pending | Waiting | Reading(inputs: Inputs) | Finished | Failed

  datatype Sys = Sys(status: seq<Status>, data: seq<Data>)

  /** A build that fails may have written part of its table: `left` is what it leaves. */
  datatype Step = Start(i: nat) | Read(i: nat) | Write(i: nat) | Fail(i: nat, left: Data)

  ghost predicate Valid(j: Job) {
    && j.k >= 1 && |j.waits| == j.n && |j.sources| == j.n
    && (forall i, d | 0 <= i < j.n && d in j.waits[i] :: d < i)
    && (forall i, d | 0 <= i < j.n && d in j.sources[i] :: d < i)
  }

  ghost predicate Shape(j: Job, s: Sys) {
    |s.status| == j.n && |s.data| == j.n
  }

  predicate Active(st: Status) {
    st.Waiting? || st.Reading?
  }

  function ActiveCount(status: seq<Status>): nat {
    if status == [] then 0 else
      ActiveCount(status[..|status| - 1]) + (if Active(status[|status| - 1]) then 1 else 0)
  }

  ghost predicate NoFailure(s: Sys) {
    forall i | 0 <= i < |s.status| :: !s.status[i].Failed?
  }

  /** Slots are taken in order; after a failure nothing new starts. */
  ghost predicate Enabled(j: Job, s: Sys, e: Step)
    requires Valid(j) && Shape(j, s)
  {
    e.i < j.n &&
    match e
    case Start(i) =>
      && s.status[i].Pending? && (forall h | 0 <= h < i :: !s.status[h].Pending?)
      && ActiveCount(s.status) < j.k && NoFailure(s)
    case Read(i) => s.status[i].Waiting? && GatesOpen(j, s, i)
    case Write(i) => s.status[i].Reading?
    case Fail(i, _) => Active(s.status[i])
  }

  ghost predicate GatesOpen(j: Job, s: Sys, i: nat)
    requires Valid(j) && Shape(j, s) && i < j.n
  {
    forall d | d in j.waits[i] :: s.status[d].Finished?
  }

  ghost function InputsOf(j: Job, data: seq<Data>, i: nat): Inputs
    requires Valid(j) && |data| == j.n && i < j.n
  {
    map d | d in j.sources[i] :: data[d]
  }

  ghost function Next(j: Job, s: Sys, e: Step): Sys
    requires Valid(j) && Shape(j, s) && Enabled(j, s, e)
  {
    match e
    case Start(i) => s.(status := s.status[i := Waiting])
    case Read(i) => s.(status := s.status[i := Reading(InputsOf(j, s.data, i))])
    case Write(i) =>
      Sys(s.status[i := Finished], s.data[i := j.build(i, s.data[i], s.status[i].inputs)])
    case Fail(i, left) => Sys(s.status[i := Failed], s.data[i := left])
  }

  ghost predicate Runs(j: Job, s: Sys, es: seq<Step>)
    requires Valid(j) && Shape(j, s)
    decreases |es|
  {
    es == [] || (Enabled(j, s, es[0]) && Runs(j, Next(j, s, es[0]), es[1..]))
  }

  ghost function Run(j: Job, s: Sys, es: seq<Step>): (t: Sys)
    requires Valid(j) && Shape(j, s) && Runs(j, s, es)
    ensures Shape(j, t)
    decreases |es|
  {
    if es == [] then s else Run(j, Next(j, s, es[0]), es[1..])
  }

  /** Nothing started, every table as the plan found it. */
  function Initial(j: Job, data: seq<Data>): Sys {
    Sys(seq(j.n, _ => Pending), data)
  }

  // ----- what every step keeps -----

  /** Starts are a prefix, slots suffice, and nothing passed its gates before they opened. */
  ghost predicate Inv(j: Job, s: Sys)
    requires Valid(j) && Shape(j, s)
  {
    && (forall h, i | 0 <= h < i < j.n && s.status[h].Pending? :: s.status[i].Pending?)
    && ActiveCount(s.status) <= j.k
    && (forall i | 0 <= i < j.n :: Passed(s, i) ==> GatesOpen(j, s, i))
  }

  predicate Passed(s: Sys, i: nat)
    requires i < |s.status|
  {
    s.status[i].Reading? || s.status[i].Finished?
  }

  lemma {:induction false} CountUpdate(status: seq<Status>, i: nat, st: Status)
    requires i < |status|
    ensures ActiveCount(status[i := st])
            == ActiveCount(status) - (if Active(status[i]) then 1 else 0) + (if Active(st) then 1 else 0)
  {
    var n := |status| - 1;
    if i == n {
      assert status[i := st][..n] == status[..n];
    } else {
      assert status[i := st][..n] == status[..n][i := st];
      CountUpdate(status[..n], i, st);
    }
  }

  lemma InvStep(j: Job, s: Sys, e: Step)
    requires Valid(j) && Shape(j, s) && Inv(j, s) && Enabled(j, s, e)
    ensures Inv(j, Next(j, s, e))
  {
    var t := Next(j, s, e);
    CountUpdate(s.status, e.i, t.status[e.i]);
    forall i | 0 <= i < j.n && Passed(t, i) ensures GatesOpen(j, t, i) {
      assert GatesOpen(j, s, i);
    }
  }

  lemma {:induction false} NoneActive(status: seq<Status>)
    requires forall i | 0 <= i < |status| :: !Active(status[i])
    ensures ActiveCount(status) == 0
  {
    if status != [] { NoneActive(status[..|status| - 1]); }
  }

  lemma InitialInv(j: Job, data: seq<Data>)
    requires Valid(j) && |data| == j.n
    ensures Shape(j, Initial(j, data)) && Inv(j, Initial(j, data))
  {
    NoneActive(Initial(j, data).status);
  }

  lemma {:induction false} InvRun(j: Job, s: Sys, es: seq<Step>)
    requires Valid(j) && Shape(j, s) && Inv(j, s) && Runs(j, s, es)
    ensures Inv(j, Run(j, s, es))
    decreases |es|
  {
    if es != [] {
      InvStep(j, s, es[0]);
      InvRun(j, Next(j, s, es[0]), es[1..]);
    }
  }

  /** In every reachable state every finished model has all its gates' models finished. */
  lemma FinishedAfterParents(j: Job, data: seq<Data>, es: seq<Step>, i: nat, d: nat)
    requires Valid(j) && |data| == j.n
    requires Runs(j, Initial(j, data), es) && i < j.n && d in j.waits[i]
    requires Run(j, Initial(j, data), es).status[i].Finished?
    ensures Run(j, Initial(j, data), es).status[d].Finished?
  {
    InitialInv(j, data);
    InvRun(j, Initial(j, data), es);
    assert Passed(Run(j, Initial(j, data), es), i);
  }

  // ----- ancestors by gates -----

  /** Everything `i` waits for, directly or through others. */
  ghost function Ancestors(waits: seq<set<nat>>, i: nat): (r: set<nat>)
    requires i < |waits|
    ensures forall a | a in r :: a < i
    decreases i
  {
    set a | 0 <= a < i && (a in waits[i] || exists d | 0 <= d < i :: d in waits[i] && a in Ancestors(waits, d))
  }

  lemma {:induction false} AncestorsFinished(j: Job, s: Sys, i: nat)
    requires Valid(j) && Shape(j, s) && Inv(j, s) && i < j.n && GatesOpen(j, s, i)
    ensures forall a | a in Ancestors(j.waits, i) :: s.status[a].Finished?
    decreases i
  {
    forall a | a in Ancestors(j.waits, i) ensures s.status[a].Finished? {
      if a !in j.waits[i] {
        var d :| 0 <= d < i && d in j.waits[i] && a in Ancestors(j.waits, d);
        assert Passed(s, d);
        AncestorsFinished(j, s, d);
      }
    }
  }

  /** What waits for a failed model, directly or through others, never finishes. */
  lemma FailureStopsDescendants(j: Job, data: seq<Data>, es: seq<Step>, i: nat, a: nat)
    requires Valid(j) && |data| == j.n
    requires Runs(j, Initial(j, data), es) && i < j.n && a in Ancestors(j.waits, i)
    requires Run(j, Initial(j, data), es).status[a].Failed?
    ensures !Run(j, Initial(j, data), es).status[i].Finished?
  {
    var s := Run(j, Initial(j, data), es);
    InitialInv(j, data);
    InvRun(j, Initial(j, data), es);
    if s.status[i].Finished? {
      assert Passed(s, i);
      AncestorsFinished(j, s, i);
    }
  }

  /** Once a model has failed, what had not started never does. */
  lemma {:induction false} NothingStartsAfterFailure(j: Job, s: Sys, es: seq<Step>, i: nat)
    requires Valid(j) && Shape(j, s) && Runs(j, s, es) && !NoFailure(s) && i < j.n
    ensures s.status[i].Pending? ==> Run(j, s, es).status[i].Pending?
    ensures !NoFailure(Run(j, s, es))
    decreases |es|
  {
    if es != [] {
      var a :| 0 <= a < |s.status| && s.status[a].Failed?;
      var t := Next(j, s, es[0]);
      assert t.status[a].Failed?;
      NothingStartsAfterFailure(j, t, es[1..], i);
    }
  }

  /** In every reachable state at most `k` models are under way. */
  lemma SlotsSuffice(j: Job, data: seq<Data>, es: seq<Step>)
    requires Valid(j) && |data| == j.n && Runs(j, Initial(j, data), es)
    ensures |set i | 0 <= i < j.n && Active(Run(j, Initial(j, data), es).status[i])| <= j.k
  {
    InitialInv(j, data);
    InvRun(j, Initial(j, data), es);
    var s := Run(j, Initial(j, data), es);
    ActiveCountIsSize(s.status);
    assert (set i | 0 <= i < j.n && Active(s.status[i])) == ActiveSet(s.status);
  }

  // ----- no deadlock -----

  ghost predicate Complete(s: Sys) {
    forall i | 0 <= i < |s.status| :: s.status[i].Finished?
  }

  lemma {:induction false} FirstUnfinished(s: Sys, n: nat) returns (m: nat)
    requires n <= |s.status| && exists i | 0 <= i < n :: !s.status[i].Finished?
    ensures m < n && !s.status[m].Finished? && forall i | 0 <= i < m :: s.status[i].Finished?
  {
    if i :| 0 <= i < n - 1 && !s.status[i].Finished? {
      m := FirstUnfinished(s, n - 1);
    } else {
      m := n - 1;
    }
  }

  lemma {:induction false} OneActive(status: seq<Status>, m: nat)
    requires m < |status|
    requires forall i | 0 <= i < |status| && i != m :: !Active(status[i])
    ensures ActiveCount(status) <= 1
  {
    var n := |status| - 1;
    if m == n {
      NoneActive(status[..n]);
    } else {
      OneActive(status[..n], m);
    }
  }

  /** Whatever the bound, as long as nothing failed and work is left some step is enabled. */
  lemma NoDeadlock(j: Job, s: Sys) returns (e: Step)
    requires Valid(j) && Shape(j, s) && Inv(j, s) && NoFailure(s) && !Complete(s)
    ensures Enabled(j, s, e) && !e.Fail?
  {
    var m := FirstUnfinished(s, j.n);
    match s.status[m]
    case Pending =>
      NoneActive(s.status);
      e := Start(m);
    case Waiting => e := Read(m);
    case Reading(_) => e := Write(m);
    case _ =>
  }

  function Rank(st: Status): nat {
    match st
    case Pending => 3
    case Waiting => 2
    case Reading(_) => 1
    case _ => 0
  }

  function Measure(status: seq<Status>): nat {
    if status == [] then 0 else Measure(status[..|status| - 1]) + Rank(status[|status| - 1])
  }

  lemma {:induction false} MeasureUpdate(status: seq<Status>, i: nat, st: Status)
    requires i < |status|
    ensures Measure(status[i := st]) == Measure(status) - Rank(status[i]) + Rank(st)
  {
    var n := |status| - 1;
    if i == n {
      assert status[i := st][..n] == status[..n];
    } else {
      assert status[i := st][..n] == status[..n][i := st];
      MeasureUpdate(status[..n], i, st);
    }
  }

  /** Every step brings the run closer to its end. */
  lemma StepsDecrease(j: Job, s: Sys, e: Step)
    requires Valid(j) && Shape(j, s) && Enabled(j, s, e)
    ensures Measure(Next(j, s, e).status) < Measure(s.status)
  {
    MeasureUpdate(s.status, e.i, Next(j, s, e).status[e.i]);
  }

  /** So every failure-free state can be run to completion, keeping what is already finished. */
  lemma {:induction false} Completes(j: Job, s: Sys) returns (es: seq<Step>)
    requires Valid(j) && Shape(j, s) && Inv(j, s) && NoFailure(s)
    ensures Runs(j, s, es) && Complete(Run(j, s, es))
    ensures forall i | 0 <= i < j.n && s.status[i].Finished? :: Run(j, s, es).data[i] == s.data[i]
    decreases Measure(s.status)
  {
    if Complete(s) {
      es := [];
    } else {
      var e := NoDeadlock(j, s);
      InvStep(j, s, e);
      StepsDecrease(j, s, e);
      var t := Next(j, s, e);
      var rest := Completes(j, t);
      es := [e] + rest;
      assert es[1..] == rest;
    }
  }

  // ----- confluence -----

  /** What the sequential run in topological order leaves in table `i`. */
  ghost function Sequential(j: Job, data: seq<Data>, i: nat): Data
    requires Valid(j) && |data| == j.n && i < j.n
    decreases i
  {
    j.build(i, data[i], map d | d in j.sources[i] && d < i :: Sequential(j, data, d))
  }

  ghost function SequentialInputs(j: Job, data: seq<Data>, i: nat): Inputs
    requires Valid(j) && |data| == j.n && i < j.n
  {
    map d | d in j.sources[i] && d < i :: Sequential(j, data, d)
  }

  /** Models that cannot finish, among those started before `i`, while `a` has not. */
  ghost function Held(waits: seq<set<nat>>, a: nat, i: nat): set<nat>
    requires i <= |waits|
  {
    set x | a <= x < i && (x == a || a in Ancestors(waits, x))
  }

  /**
   * Whatever a model reads, it either waits for, directly or through others, or cannot
   * start beside: the table's own run and those waiting for it take every slot.
   */
  ghost predicate Guarded(j: Job)
    requires Valid(j)
  {
    forall i, d | 0 <= i < j.n && d in j.sources[i] :: GuardedRead(j, i, d)
  }

  ghost predicate GuardedRead(j: Job, i: nat, d: nat)
    requires Valid(j) && i < j.n
  {
    d in Ancestors(j.waits, i) || |Held(j.waits, d, i)| >= j.k
  }

  function ActiveSet(status: seq<Status>): set<nat> {
    set i | 0 <= i < |status| && Active(status[i])
  }

  lemma {:induction false} ActiveCountIsSize(status: seq<Status>)
    ensures ActiveCount(status) == |ActiveSet(status)|
  {
    if status != [] {
      var n := |status| - 1;
      ActiveCountIsSize(status[..n]);
      assert ActiveSet(status) == ActiveSet(status[..n]) + (if Active(status[n]) then {n} else {});
    }
  }

  /** A started model's ungated sources are finished: their holders would fill the slots. */
  ghost predicate SlotInv(j: Job, s: Sys)
    requires Valid(j) && Shape(j, s)
  {
    forall i, d | 0 <= d < i < j.n && |Held(j.waits, d, i)| >= j.k && !s.status[i].Pending? :: s.status[d].Finished?
  }

  lemma HeldAreActive(j: Job, s: Sys, i: nat, d: nat)
    requires Valid(j) && Shape(j, s) && Inv(j, s) && NoFailure(s) && d < i < j.n
    requires forall h | 0 <= h < i :: !s.status[h].Pending?
    requires !s.status[d].Finished?
    ensures |Held(j.waits, d, i)| <= ActiveCount(s.status)
  {
    forall x | x in Held(j.waits, d, i) ensures x in ActiveSet(s.status) {
      if s.status[x].Finished? {
        assert Passed(s, x);
        AncestorsFinished(j, s, x);
      }
    }
    ActiveCountIsSize(s.status);
    SubsetIsSmaller(Held(j.waits, d, i), ActiveSet(s.status));
  }

  lemma SlotStep(j: Job, s: Sys, e: Step)
    requires Valid(j) && Shape(j, s) && Inv(j, s) && SlotInv(j, s) && Enabled(j, s, e)
    ensures SlotInv(j, Next(j, s, e))
  {
    var t := Next(j, s, e);
    forall i, d | 0 <= d < i < j.n && |Held(j.waits, d, i)| >= j.k && !t.status[i].Pending?
      ensures t.status[d].Finished?
    {
      if s.status[i].Pending? && !s.status[d].Finished? { HeldAreActive(j, s, i, d); }
    }
  }

  lemma {:induction false} SlotRun(j: Job, s: Sys, es: seq<Step>)
    requires Valid(j) && Shape(j, s) && Inv(j, s) && SlotInv(j, s) && Runs(j, s, es)
    ensures Inv(j, Run(j, s, es)) && SlotInv(j, Run(j, s, es))
    decreases |es|
  {
    hide Inv, SlotInv;
    if es != [] {
      InvStep(j, s, es[0]);
      SlotStep(j, s, es[0]);
      SlotRun(j, Next(j, s, es[0]), es[1..]);
    }
  }

  ghost predicate DataInv(j: Job, data: seq<Data>, s: Sys)
    requires Valid(j) && Shape(j, s) && |data| == j.n
  {
    forall i | 0 <= i < j.n :: TableInv(j, data, s, i)
  }

  ghost predicate TableInv(j: Job, data: seq<Data>, s: Sys, i: nat)
    requires Valid(j) && Shape(j, s) && |data| == j.n && i < j.n
  {
    && (!s.status[i].Failed? ==> s.data[i] == if s.status[i].Finished? then Sequential(j, data, i) else data[i])
    && (s.status[i].Reading? ==> s.status[i].inputs == SequentialInputs(j, data, i))
  }

  lemma ReadsAreFinal(j: Job, data: seq<Data>, s: Sys, i: nat)
    requires Valid(j) && Shape(j, s) && Inv(j, s) && SlotInv(j, s) && Guarded(j) && |data| == j.n
    requires DataInv(j, data, s) && i < j.n && GatesOpen(j, s, i) && !s.status[i].Pending?
    ensures InputsOf(j, s.data, i) == SequentialInputs(j, data, i)
  {
    AncestorsFinished(j, s, i);
    forall d | d in j.sources[i] ensures s.data[d] == Sequential(j, data, d) {
      assert GuardedRead(j, i, d);
      assert TableInv(j, data, s, d);
    }
  }

  lemma DataStep(j: Job, data: seq<Data>, s: Sys, e: Step)
    requires Valid(j) && Shape(j, s) && Inv(j, s) && SlotInv(j, s) && Guarded(j) && |data| == j.n
    requires DataInv(j, data, s) && Enabled(j, s, e)
    ensures DataInv(j, data, Next(j, s, e))
  {
    var t := Next(j, s, e);
    if e.Read? { ReadsAreFinal(j, data, s, e.i); }
    forall i | 0 <= i < j.n ensures TableInv(j, data, t, i) {
      assert TableInv(j, data, s, i);
    }
  }

  lemma {:induction false} DataRun(j: Job, data: seq<Data>, s: Sys, es: seq<Step>)
    requires Valid(j) && Shape(j, s) && Inv(j, s) && SlotInv(j, s) && Guarded(j) && |data| == j.n
    requires DataInv(j, data, s) && Runs(j, s, es)
    ensures DataInv(j, data, Run(j, s, es))
    decreases |es|
  {
    if es != [] {
      InvStep(j, s, es[0]);
      SlotStep(j, s, es[0]);
      DataStep(j, data, s, es[0]);
      DataRun(j, data, Next(j, s, es[0]), es[1..]);
    }
  }

  ghost predicate SequentialOutcome(j: Job, data: seq<Data>, s: Sys)
    requires Valid(j) && Shape(j, s) && |data| == j.n
  {
    forall i | 0 <= i < j.n :: s.data[i] == Sequential(j, data, i)
  }

  /** Every read guarded, each complete concurrent schedule leaves what the sequential run leaves. */
  lemma Confluence(j: Job, data: seq<Data>, es: seq<Step>)
    requires Valid(j) && |data| == j.n && Guarded(j)
    requires Runs(j, Initial(j, data), es) && Complete(Run(j, Initial(j, data), es))
    ensures SequentialOutcome(j, data, Run(j, Initial(j, data), es))
  {
    InitialInv(j, data);
    var s := Run(j, Initial(j, data), es);
    assert DataInv(j, data, Initial(j, data));
    DataRun(j, data, Initial(j, data), es);
    forall i | 0 <= i < j.n ensures s.data[i] == Sequential(j, data, i) {
      assert TableInv(j, data, s, i);
    }
  }

  // ----- and conversely -----

  /** A job in which the source's content shows in the reader's. */
  ghost function Probe(j: Job, a: nat, c: nat): Job {
    j.(build := (i, _, inputs) => if i == a then 1 else if i == c && a in inputs then inputs[a] else 0)
  }

  ghost predicate IsHeld(j: Job, a: nat, x: nat)
    requires Valid(j) && x < j.n
  {
    x == a || a in Ancestors(j.waits, x)
  }

  /** The first `m` models started, `a` and its dependents held, all others finished. */
  ghost predicate Stalled(j: Job, s: Sys, a: nat, m: nat)
    requires Valid(j)
  {
    && Shape(j, s) && a < j.n && m <= j.n && s.data[a] == 0
    && (forall i | 0 <= i < m :: s.status[i] == if IsHeld(j, a, i) then Waiting else Finished)
    && (forall i | m <= i < j.n :: s.status[i].Pending?)
  }

  lemma {:induction false} Chained(j: Job, s: Sys, es: seq<Step>, fs: seq<Step>)
    requires Valid(j) && Shape(j, s) && Runs(j, s, es) && Runs(j, Run(j, s, es), fs)
    ensures Runs(j, s, es + fs) && Run(j, s, es + fs) == Run(j, Run(j, s, es), fs)
    decreases |es|
  {
    if es == [] {
      assert es + fs == fs;
    } else {
      assert (es + fs)[1..] == es[1..] + fs;
      Chained(j, Next(j, s, es[0]), es[1..], fs);
    }
  }

  lemma StalledSlots(j: Job, s: Sys, a: nat, m: nat)
    requires Valid(j) && Stalled(j, s, a, m)
    ensures ActiveCount(s.status) == |Held(j.waits, a, m)|
  {
    ActiveCountIsSize(s.status);
    assert ActiveSet(s.status) == Held(j.waits, a, m);
  }

  /** Nothing outside `a`'s dependents waits for it, so it opens its gates behind it. */
  lemma UnheldIsOpen(j: Job, s: Sys, a: nat, m: nat)
    requires Valid(j) && Stalled(j, s, a, m) && m < j.n && !IsHeld(j, a, m)
    ensures GatesOpen(j, s, m)
  {
    forall d | d in j.waits[m] ensures s.status[d].Finished? {
      assert d in Ancestors(j.waits, m);
    }
  }

  lemma OneStep(j: Job, s: Sys, e: Step, es: seq<Step>)
    requires Valid(j) && Shape(j, s) && Enabled(j, s, e) && Runs(j, Next(j, s, e), es)
    ensures Runs(j, s, [e] + es) && Run(j, s, [e] + es) == Run(j, Next(j, s, e), es)
  {
    assert ([e] + es)[1..] == es;
  }

  lemma StallOne(j: Job, s: Sys, a: nat, m: nat) returns (es: seq<Step>)
    requires Valid(j) && Stalled(j, s, a, m) && m < j.n && |Held(j.waits, a, m)| < j.k
    ensures Runs(j, s, es) && Stalled(j, Run(j, s, es), a, m + 1)
    ensures !IsHeld(j, a, m) && a in j.sources[m] ==>
              Run(j, s, es).data[m] == j.build(m, s.data[m], InputsOf(j, s.data, m))
  {
    StalledSlots(j, s, a, m);
    var started := Next(j, s, Start(m));
    if IsHeld(j, a, m) {
      es := [Start(m)];
      assert es[1..] == [];
    } else {
      UnheldIsOpen(j, s, a, m);
      assert GatesOpen(j, started, m);
      var fetched := Next(j, started, Read(m));
      var written := Next(j, fetched, Write(m));
      OneStep(j, fetched, Write(m), []);
      OneStep(j, started, Read(m), [Write(m)]);
      OneStep(j, s, Start(m), [Read(m), Write(m)]);
      es := [Start(m)] + [Read(m), Write(m)];
      assert [Write(m)] + [] == [Write(m)] && [Read(m)] + [Write(m)] == [Read(m), Write(m)];
      assert Run(j, s, es) == written;
    }
  }

  lemma HeldGrows(waits: seq<set<nat>>, a: nat, m: nat, c: nat)
    requires m <= c <= |waits|
    ensures |Held(waits, a, m)| <= |Held(waits, a, c)|
  {
    SubsetIsSmaller(Held(waits, a, m), Held(waits, a, c));
  }

  lemma {:induction false} Stall(j: Job, s: Sys, a: nat, m: nat, c: nat) returns (es: seq<Step>)
    requires Valid(j) && Stalled(j, s, a, 0) && m <= c < j.n && |Held(j.waits, a, c)| < j.k
    ensures Runs(j, s, es) && Stalled(j, Run(j, s, es), a, m)
    decreases m
  {
    if m == 0 {
      es := [];
    } else {
      var before := Stall(j, s, a, m - 1, c);
      HeldGrows(j.waits, a, m - 1, c);
      var one := StallOne(j, Run(j, s, before), a, m - 1);
      Chained(j, s, before, one);
      es := before + one;
    }
  }

  /** An unguarded read has a schedule in which it sees the table before it is built. */
  lemma UnguardedReadIsStale(j: Job, a: nat, c: nat) returns (es: seq<Step>)
    requires Valid(j) && c < j.n && a in j.sources[c] && !GuardedRead(j, c, a)
    ensures var p := Probe(j, a, c); var data := seq(j.n, _ => 0);
            Runs(p, Initial(p, data), es) && Complete(Run(p, Initial(p, data), es))
            && !SequentialOutcome(p, data, Run(p, Initial(p, data), es))
  {
    var p, data := Probe(j, a, c), seq(j.n, _ => 0);
    var s := Initial(p, data);
    var before := Stall(p, s, a, c, c);
    var one := StallOne(p, Run(p, s, before), a, c);
    Chained(p, s, before, one);
    var t := Run(p, s, before + one);
    assert t.data[c] == 0;
    InitialInv(p, data);
    InvRun(p, s, before + one);
    var rest := Completes(p, t);
    Chained(p, s, before + one, rest);
    es := before + one + rest;
    assert Sequential(p, data, c) == SequentialInputs(p, data, c)[a] == Sequential(p, data, a) == 1;
  }

  // ----- a failure beside a finished model -----

  /** This schedule ends with `a` failed and `c` finished. */
  ghost predicate PassesFailure(j: Job, data: seq<Data>, es: seq<Step>, a: nat, c: nat)
    requires Valid(j) && a < j.n && c < j.n
  {
    && |data| == j.n && Runs(j, Initial(j, data), es)
    && Run(j, Initial(j, data), es).status[a].Failed?
    && Run(j, Initial(j, data), es).status[c].Finished?
  }

  lemma StallThenFail(j: Job, a: nat, c: nat) returns (es: seq<Step>)
    requires Valid(j) && a < c < j.n && !GuardedRead(j, c, a)
    ensures PassesFailure(j, seq(j.n, _ => 0), es, a, c)
  {
    var data := seq(j.n, _ => 0);
    var s := Initial(j, data);
    var before := Stall(j, s, a, c, c);
    var one := StallOne(j, Run(j, s, before), a, c);
    Chained(j, s, before, one);
    var t := Run(j, s, before + one);
    assert IsHeld(j, a, a) && !IsHeld(j, a, c);
    assert t.status[a] == Waiting && t.status[c] == Finished;
    OneStep(j, t, Fail(a, 0), []);
    assert [Fail(a, 0)] + [] == [Fail(a, 0)];
    Chained(j, s, before + one, [Fail(a, 0)]);
    es := before + one + [Fail(a, 0)];
  }

  /**
   * A later model can finish although an earlier one fails exactly when it neither waits for
   * it, directly or through others, nor is kept from starting by those that do.
   */
  lemma FailurePassesExact(j: Job, a: nat, c: nat)
    requires Valid(j) && a < c < j.n
    ensures (exists data, es :: PassesFailure(j, data, es, a, c))
            <==> a !in Ancestors(j.waits, c) && |Held(j.waits, a, c)| < j.k
  {
    if data, es :| PassesFailure(j, data, es, a, c) {
      var s := Run(j, Initial(j, data), es);
      InitialInv(j, data);
      SlotRun(j, Initial(j, data), es);
      assert Passed(s, c);
      AncestorsFinished(j, s, c);
    }
    if !GuardedRead(j, c, a) {
      var es := StallThenFail(j, a, c);
    }
  }

  ghost predicate RunIsSequential(j: Job, data: seq<Data>, es: seq<Step>)
    requires Valid(j)
  {
    (|data| == j.n && Runs(j, Initial(j, data), es) && Complete(Run(j, Initial(j, data), es)))
    ==> SequentialOutcome(j, data, Run(j, Initial(j, data), es))
  }

  ghost predicate AlwaysSequential(j: Job)
    requires Valid(j)
  {
    forall build, data, es :: RunIsSequential(j.(build := build), data, es)
  }

  /** Guarding every read is exactly what makes every schedule of every project sequential. */
  lemma ConfluenceExact(j: Job)
    requires Valid(j)
    ensures AlwaysSequential(j) <==> Guarded(j)
  {
    if Guarded(j) {
      forall build, data, es ensures RunIsSequential(j.(build := build), data, es) {
        var b := j.(build := build);
        if |data| == j.n && Runs(b, Initial(b, data), es) && Complete(Run(b, Initial(b, data), es)) {
          assert Guarded(b) by {
            forall i, d | 0 <= i < b.n && d in b.sources[i] ensures GuardedRead(b, i, d) {
              assert GuardedRead(j, i, d);
            }
          }
          Confluence(b, data, es);
        }
      }
    } else {
      var c, a :| 0 <= c < j.n && a in j.sources[c] && !GuardedRead(j, c, a);
      var es := UnguardedReadIsStale(j, a, c);
      var p, data := Probe(j, a, c), seq(j.n, _ => 0);
      assert !RunIsSequential(j.(build := p.build), data, es);
    }
  }

  /** One slot guards every read. */
  lemma OneSlotIsSequential(j: Job)
    requires Valid(j) && j.k == 1
    ensures AlwaysSequential(j)
  {
    forall i, d | 0 <= i < j.n && d in j.sources[i] ensures GuardedRead(j, i, d) {
      assert d in Held(j.waits, d, i);
      StrictSubsetIsSmaller({}, Held(j.waits, d, i));
    }
    ConfluenceExact(j);
  }

  // ----- from a plan -----

  /**
   * A plan's models in topological order: `lazy` are the views and embedded models, which
   * a reader evaluates on the spot; `working` are the models this apply builds or backfills.
   */
  datatype PlanShape = PlanShape(deps: seq<set<nat>>, lazy: set<nat>, working: seq<nat>)

  ghost predicate ValidShape(p: PlanShape) {
    && (forall m, d | 0 <= m < |p.deps| && d in p.deps[m] :: d < m)
    && (forall i | 0 <= i < |p.working| :: p.working[i] < |p.deps|)
    && (forall h, i | 0 <= h < i < |p.working| :: p.working[h] < p.working[i])
  }

  /** Every relation `m`'s query ends up reading: lazy dependencies are read through. */
  ghost function Resolved(p: PlanShape, m: nat): (r: set<nat>)
    requires ValidShape(p) && m < |p.deps|
    ensures forall x | x in r :: x < m
    decreases m
  {
    set x | 0 <= x < m &&
      (x in p.deps[m] || exists d | 0 <= d < m :: d in p.deps[m] && d in p.lazy && x in Resolved(p, d))
  }

  /** A dependency, or one reached through lazy models alone. */
  ghost predicate ReadChain(p: PlanShape, c: seq<nat>, m: nat, x: nat) {
    && |c| >= 2 && c[0] == m && c[|c| - 1] == x
    && (forall i | 0 <= i < |c| :: c[i] < |p.deps|)
    && (forall i | 0 <= i < |c| - 1 :: c[i + 1] in p.deps[c[i]])
    && (forall i | 0 < i < |c| - 1 :: c[i] in p.lazy)
  }

  lemma ChainRest(p: PlanShape, c: seq<nat>, m: nat, x: nat)
    requires ReadChain(p, c, m, x) && |c| > 2
    ensures ReadChain(p, c[1..], c[1], x) && c[1] in p.deps[m] && c[1] in p.lazy
  {
    forall i | 0 <= i < |c[1..]| - 1 ensures c[1..][i + 1] in p.deps[c[1..][i]] {
      assert c[1..][i] == c[i + 1] && c[1..][i + 1] == c[i + 2];
    }
  }

  lemma ChainCons(p: PlanShape, c: seq<nat>, m: nat, d: nat, x: nat)
    requires ReadChain(p, c, d, x) && m < |p.deps| && d in p.deps[m] && d in p.lazy
    ensures ReadChain(p, [m] + c, m, x)
  {
    var e := [m] + c;
    forall i | 0 <= i < |e| - 1 ensures e[i + 1] in p.deps[e[i]] {
      assert e[i + 1] == c[i];
      assert i > 0 ==> e[i] == c[i - 1];
    }
  }

  /** What a query reads is exactly what such chains lead to. */
  lemma {:induction false} ResolvedExact(p: PlanShape, m: nat, x: nat)
    requires ValidShape(p) && m < |p.deps|
    ensures x in Resolved(p, m) <==> exists c :: ReadChain(p, c, m, x)
    decreases m
  {
    if x in Resolved(p, m) {
      if x in p.deps[m] {
        assert ReadChain(p, [m, x], m, x);
      } else {
        var d :| 0 <= d < m && d in p.deps[m] && d in p.lazy && x in Resolved(p, d);
        ResolvedExact(p, d, x);
        var c :| ReadChain(p, c, d, x);
        ChainCons(p, c, m, d, x);
      }
    }
    if c :| ReadChain(p, c, m, x) {
      assert c[1] in p.deps[m] && c[1] < m;
      if |c| > 2 {
        ChainRest(p, c, m, x);
        ResolvedExact(p, c[1], x);
      }
    }
  }

  /** No view or embedded model that sits the apply out has a working table under it. */
  ghost predicate NoIdleLazy(p: PlanShape)
    requires ValidShape(p)
  {
    forall v, x | 0 <= v < |p.deps| && v in p.lazy && v !in p.working && x in Resolved(p, v) :: x !in p.working
  }

  /** Gates exist for direct dependencies that work; reads reach through. */
  ghost function JobOf(p: PlanShape, k: nat, build: Builder): (j: Job)
    requires ValidShape(p) && k >= 1
    ensures Valid(j) && j.n == |p.working| && j.k == k && j.build == build
    ensures forall i, h | 0 <= i < j.n && 0 <= h < j.n ::
              (h in j.waits[i] <==> p.working[h] in p.deps[p.working[i]])
              && (h in j.sources[i] <==> p.working[h] in Resolved(p, p.working[i]))
  {
    var n := |p.working|;
    Job(n, k,
        seq(n, i requires 0 <= i < n => set h | 0 <= h < n && p.working[h] in p.deps[p.working[i]]),
        seq(n, i requires 0 <= i < n => set h | 0 <= h < n && p.working[h] in Resolved(p, p.working[i])),
        build)
  }

  lemma {:induction false} ReadThroughWorking(p: PlanShape, k: nat, build: Builder, i: nat, h: nat)
    requires ValidShape(p) && k >= 1 && i < |p.working| && h < |p.working|
    requires p.working[h] in Resolved(p, p.working[i])
    requires NoIdleLazy(p)
    ensures h in Ancestors(JobOf(p, k, build).waits, i)
    decreases i
  {
    var waits := JobOf(p, k, build).waits;
    var m, x := p.working[i], p.working[h];
    assert x in p.working;
    if x in p.deps[m] {
      assert h in waits[i];
    } else {
      var d :| 0 <= d < m && d in p.deps[m] && d in p.lazy && x in Resolved(p, d);
      var q :| 0 <= q < |p.working| && p.working[q] == d;
      ReadThroughWorking(p, k, build, q, h);
      assert q in waits[i];
    }
  }

  /** No idle view or embedded model over working tables: every schedule is sequential. */
  lemma NoIdleLazySequential(p: PlanShape, k: nat, build: Builder)
    requires ValidShape(p) && k >= 1
    requires NoIdleLazy(p)
    ensures AlwaysSequential(JobOf(p, k, build))
  {
    var j := JobOf(p, k, build);
    forall i, d | 0 <= i < j.n && d in j.sources[i] ensures GuardedRead(j, i, d) {
      ReadThroughWorking(p, k, build, i, d);
    }
    ConfluenceExact(j);
  }

  /** A working table, an idle view over it, a working reader of the view. */
  const ASIDE: PlanShape := PlanShape([{}, {0}, {1}], {1}, [0, 2])

  /** A backfilled table, an unchanged view over it, a backfilled reader: two slots race. */
  lemma IdleViewRaces(build: Builder)
    ensures ValidShape(ASIDE) && !AlwaysSequential(JobOf(ASIDE, 2, build))
  {
    var j := JobOf(ASIDE, 2, build);
    assert 0 in Resolved(ASIDE, 1);
    assert 0 in Resolved(ASIDE, 2);
    assert 0 in j.sources[1];
    assert j.waits[1] == {};
    assert Held(j.waits, 0, 1) == {0};
    assert !GuardedRead(j, 1, 0);
    ConfluenceExact(j);
  }

  // ----- failures and the graph -----

  /** Everything `m` depends on, directly or through others. */
  ghost function Below(p: PlanShape, m: nat): (r: set<nat>)
    requires ValidShape(p) && m < |p.deps|
    decreases m
  {
    set x | 0 <= x < m && (x in p.deps[m] || exists d | 0 <= d < m :: d in p.deps[m] && x in Below(p, d))
  }

  /** The same through working models alone. */
  ghost function GatedBelow(p: PlanShape, m: nat): (r: set<nat>)
    requires ValidShape(p) && m < |p.deps|
    decreases m
  {
    set x | 0 <= x < m && x in p.working
      && (x in p.deps[m] || exists d | 0 <= d < m :: d in p.deps[m] && d in p.working && x in GatedBelow(p, d))
  }

  lemma WorkingOrder(p: PlanShape, h: nat, i: nat)
    requires ValidShape(p) && h < |p.working| && i < |p.working| && p.working[h] < p.working[i]
    ensures h < i
  {
  }

  lemma {:induction false} GatedIsAwaited(p: PlanShape, k: nat, build: Builder, h: nat, i: nat)
    requires ValidShape(p) && k >= 1 && i < |p.working| && h < |p.working|
    ensures h in Ancestors(JobOf(p, k, build).waits, i) <==> p.working[h] in GatedBelow(p, p.working[i])
    decreases i
  {
    hide Resolved;
    var waits := JobOf(p, k, build).waits;
    var m, x := p.working[i], p.working[h];
    assert x in p.working;
    if h in Ancestors(waits, i) && h !in waits[i] {
      var q :| 0 <= q < i && q in waits[i] && h in Ancestors(waits, q);
      GatedIsAwaited(p, k, build, h, q);
      assert p.working[q] in p.working;
    }
    if x in GatedBelow(p, m) {
      WorkingOrder(p, h, i);
      if x !in p.deps[m] {
        var d :| 0 <= d < m && d in p.deps[m] && d in p.working && x in GatedBelow(p, d);
        var q :| 0 <= q < |p.working| && p.working[q] == d;
        WorkingOrder(p, q, i);
        GatedIsAwaited(p, k, build, h, q);
        assert q in waits[i];
      }
    }
  }

  /**
   * A model can finish beside the failure of one it depends on exactly when no chain of
   * working models connects them and the slots leave it room.
   */
  lemma FailedAncestorExact(p: PlanShape, k: nat, build: Builder, h: nat, i: nat)
    requires ValidShape(p) && k >= 1 && h < |p.working| && i < |p.working|
    requires p.working[h] in Below(p, p.working[i])
    ensures h < i
    ensures (exists data, es :: PassesFailure(JobOf(p, k, build), data, es, h, i))
            <==> p.working[h] !in GatedBelow(p, p.working[i])
                 && |Held(JobOf(p, k, build).waits, h, i)| < k
  {
    hide PassesFailure, Resolved;
    WorkingOrder(p, h, i);
    GatedIsAwaited(p, k, build, h, i);
    FailurePassesExact(JobOf(p, k, build), h, i);
  }

  /** A trace spelled out: the states a list of steps goes through. */
  ghost predicate Chain(j: Job, ss: seq<Sys>, es: seq<Step>)
    requires Valid(j)
  {
    && |ss| == |es| + 1
    && (forall i | 0 <= i < |ss| :: Shape(j, ss[i]))
    && (forall i | 0 <= i < |es| :: Enabled(j, ss[i], es[i]) && Next(j, ss[i], es[i]) == ss[i + 1])
  }

  lemma {:induction false} ChainRuns(j: Job, ss: seq<Sys>, es: seq<Step>)
    requires Valid(j) && Chain(j, ss, es)
    ensures Runs(j, ss[0], es) && Run(j, ss[0], es) == ss[|es|]
    decreases |es|
  {
    hide Enabled, Next;
    if es != [] {
      assert forall i | 0 <= i < |es| - 1 :: ss[1..][i] == ss[i + 1] && es[1..][i] == es[i + 1];
      ChainRuns(j, ss[1..], es[1..]);
    }
  }

  function Passing(left: Data): seq<Step> {
    [Start(0), Start(1), Read(1), Write(1), Fail(0, left)]
  }

  lemma AsideJob(build: Builder)
    ensures ValidShape(ASIDE) && 0 in Below(ASIDE, 2)
    ensures var j := JobOf(ASIDE, 2, build); j.waits[0] == j.waits[1] == {} && j.sources[1] == {0}
  {
    assert 0 in Resolved(ASIDE, 1) && 0 in Below(ASIDE, 1);
    assert 0 in Resolved(ASIDE, 2);
  }

  lemma PassingRuns(j: Job, data: seq<Data>, left: Data)
    requires Valid(j) && j.n == 2 == j.k && |data| == 2
    requires j.waits[0] == j.waits[1] == {} && j.sources[1] == {0}
    ensures PassesFailure(j, data, Passing(left), 0, 1)
    ensures Run(j, Initial(j, data), Passing(left)).data[1] == j.build(1, data[1], map[0 := data[0]])
  {
    var inputs := map[0 := data[0]];
    var written := data[1 := j.build(1, data[1], inputs)];
    var ss := [
      Sys([Pending, Pending], data), Sys([Waiting, Pending], data), Sys([Waiting, Waiting], data),
      Sys([Waiting, Reading(inputs)], data), Sys([Waiting, Finished], written),
      Sys([Failed, Finished], written[0 := left])];
    assert Initial(j, data) == ss[0];
    NoneActive(ss[0].status);
    CountUpdate(ss[0].status, 0, Waiting);
    assert [Pending, Pending][0 := Waiting] == [Waiting, Pending];
    assert InputsOf(j, data, 1) == inputs;
    ChainRuns(j, ss, Passing(left));
  }

  /** The reader of an idle view finishes, from the old table, although the table under the view fails. */
  lemma IdleViewPassesFailure(build: Builder, left: Data, data: seq<Data>)
    requires |data| == 2
    ensures ValidShape(ASIDE) && ASIDE.working[0] in Below(ASIDE, ASIDE.working[1])
    ensures var j := JobOf(ASIDE, 2, build);
            && PassesFailure(j, data, Passing(left), 0, 1)
            && Run(j, Initial(j, data), Passing(left)).data[1] == build(1, data[1], map[0 := data[0]])
  {
    hide Below, Resolved, Runs, Run;
    AsideJob(build);
    PassingRuns(JobOf(ASIDE, 2, build), data, left);
  }
}
