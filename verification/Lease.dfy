/**
 * The holder's side of the lock (src/plan/lock.ts:56-100): one process's fence, seeded
 * after the acquire, advanced by every beat, keyed on by the release. Each call is one step
 * of the protocol in Lock, taken on the store's row.
 */
module Leases {
  import opened Common
  import opened Lock
  import opened Store

  /** The protocol state as this process and the store have it; the other processes are arbitrary. */
  ghost predicate Shows(s: Sys, store: State, name: LockName, now: int, p: Pid, phase: Phase) {
    s.row == LockRowOf(store, name) && s.now == now && PhaseOf(s, p) == phase
  }

  /** Only this lock's row may differ. */
  ghost predicate OnlyLock(before: State, after: State, name: LockName) {
    after == SetLockRow(before, name, LockRowOf(after, name))
  }

  class Lease {
    const name: LockName
    const ttl: int
    var phase: Phase

    constructor (name: LockName, ttl: int)
      ensures this.name == name && this.ttl == ttl && phase == Out
    {
      this.name, this.ttl, phase := name, ttl, Out;
    }

    /** Refused while another lease runs; a lapsed one is reclaimed. */
    method Acquire(store: StateStore, now: int, ghost s: Sys, ghost p: Pid) returns (held: bool)
      requires Shows(s, store.View(), name, now, p, phase) && phase.Out?
      modifies store, this`phase
      ensures Shows(Next(s, Step.Acquire(p, ttl)), store.View(), name, now, p, phase)
      ensures OnlyLock(old(store.View()), store.View(), name)
      ensures held <==> phase.Entered?
      ensures held ==> LockRowOf(store.View(), name) == Some(now + ttl)
      ensures held <==> old(LockRowOf(store.View(), name)).None? || old(LockRowOf(store.View(), name)).value <= now
    {
      held := store.AcquireLock(name, now, ttl);
      if held {
        phase := Entered(now + ttl, ttl);
      }
    }

    /** The second call: read the row back and make it the fence. */
    method Seed(store: StateStore, now: int, ghost s: Sys, ghost p: Pid)
      requires Shows(s, store.View(), name, now, p, phase) && phase.Entered?
      modifies this`phase
      ensures Shows(Next(s, Step.Seed(p)), store.View(), name, now, p, phase)
    {
      var row := store.LockExpiry(name);
      phase := Holding(row, phase.ttl);
    }

    /** Renews the row it last wrote; a miss means the lock is lost and the body is aborted. */
    method Beat(store: StateStore, now: int, ghost s: Sys, ghost p: Pid) returns (kept: bool)
      requires Shows(s, store.View(), name, now, p, phase) && phase.Holding?
      modifies store, this`phase
      ensures Shows(Next(s, Step.Beat(p)), store.View(), name, now, p, phase)
      ensures OnlyLock(old(store.View()), store.View(), name)
      ensures kept <==> Fences(s, p)
      ensures kept ==> LockRowOf(store.View(), name) == Some(now + old(phase).ttl) == phase.fence
      ensures !kept ==> store.View() == old(store.View())
    {
      var renewed := store.RenewLock(name, phase.fence, now, phase.ttl);
      kept := renewed.Some?;
      phase := if kept then phase.(fence := renewed) else Out;
    }

    /** Deletes the row only if it is still this lease's. */
    method Release(store: StateStore, now: int, ghost s: Sys, ghost p: Pid)
      requires Shows(s, store.View(), name, now, p, phase) && phase.Holding?
      modifies store, this`phase
      ensures Shows(Next(s, Step.Release(p)), store.View(), name, now, p, phase)
      ensures OnlyLock(old(store.View()), store.View(), name)
      ensures Fences(s, p) ==> LockRowOf(store.View(), name).None?
      ensures !Fences(s, p) ==> store.View() == old(store.View())
    {
      store.ReleaseLock(name, phase.fence);
      phase := Out;
    }
  }
}
