/**
 * An apply after which the same plan is not settled (src/plan/executor.ts:578-582): the
 * version has a row and an empty ledger, its flagged plan leans on the served version's
 * ledger, finds nothing to do, and so never inherits.
 */
module FixpointGap {
  import opened Common
  import opened Models
  import opened Intervals
  import opened Query
  import opened Fingerprints
  import opened Store
  import opened Planner
  import opened PlanFacts
  import opened Executor
  import opened Fixpoint
  import opened OneModel
  import L = LedgerGap

  /** Over the store of the two rows, one day wanted, which only the served version has done. */
  const REQUEST: Request := SoloRequest(L.NOW, L.TWO_STORE, DAY, true)
  const IDLE: Action := L.ActionOver(L.TWO_STORE, DAY, true, L.KEEP)
  const PLAN := Acc(map[NAME := ForwardOnly], {}, [IDLE])

  lemma IdleAction()
    ensures IDLE.name == NAME && IDLE.fp == L.F && IDLE.reusedFrom == Some(L.G) && IDLE.backfill == []
    ensures !IDLE.build && !IDLE.refresh && !Working(IDLE, L.NOW)
  {
    hide BackfillFor;
    L.ActionFields(L.TWO_STORE, DAY, true, L.KEEP);
    L.DoneSkipped(L.TWO_STORE, true, L.KEEP);
    assert L.KEY_F in L.TWO_STORE.snapshots;
  }

  /** Nothing works, so the apply is the promotion alone, and it succeeds. */
  lemma IdleApply(r: Request, a: Action, at: int)
    requires r.models == map[NAME := L.NOW] && a.name == NAME && a.fp == L.F && !Working(a, L.NOW)
    requires r.store == L.TWO_STORE
    ensures AllRunnable(r.models, [a]) && ApplyUpTo(r.store, r.models, [a], at, 1) == r.store
    ensures Promotable(r.store, EntriesOf(r.models, [a]))
  {
    hide Working;
    assert ApplyUpTo(r.store, r.models, [a], at, 0) == r.store;
    var entries := EntriesOf(r.models, [a]);
    assert |entries| == 1 && entries[0] == Entry(NAME, L.F, true);
    assert L.KEY_F in r.store.snapshots;
    assert Alive(r.store, entries[0]);
  }

  lemma NothingOwn()
    ensures !AllDone(L.TWO_STORE, L.F, WantedOf(REQUEST, L.NOW))
    ensures GrainRows(REQUEST, IDLE, L.NOW)
  {
    hide Wanted, DoneOf, BackfillFor;
    WantedDays();
    assert L.FIRST_DAY in WantedOf(REQUEST, L.NOW);
    assert !IsDone(L.TWO_STORE, L.F, 0);
    IdleAction();
    var done := DoneFor(L.TWO_STORE, L.F, Some(L.G));
    forall start | start in done ensures IsGrain(Interval(start, done[start]), DAY) {
      DoneOfMembers(L.TWO_STORE, L.F, start);
      DoneOfMembers(L.TWO_STORE, L.G, start);
    }
  }

  /** The apply succeeds, and the plan made next over what it left is not settled. */
  lemma IdleInheritorUnsettles(at: int)
    ensures Planned(REQUEST, CANON, PLAN) && AllRunnable(REQUEST.models, PLAN.actions)
    ensures var s := Applied(REQUEST.store, PROD, REQUEST.models, PLAN.actions, at);
            && AppliedFrom(REQUEST, CANON, PLAN, PROD, at, s)
            && Known(Again(REQUEST, PROD, s)) && PlanUpTo(Again(REQUEST, PROD, s), |REQUEST.order|).Ok?
            && !AllSettled(REQUEST, PlanOf(Again(REQUEST, PROD, s)), s)
  {
    hide Planned, Working, Applied, GrainRows, AllDone, AllSettled, PlanOf, PlanUpTo, WantedOf, BackfillFor;
    L.PlannedOver(L.WAS, L.NOW, L.TWO_STORE.snapshots, L.LEDGER_G, DAY, true);
    IdleAction();
    IdleApply(REQUEST, IDLE, at);
    NothingOwn();
    var s := Applied(REQUEST.store, PROD, REQUEST.models, PLAN.actions, at);
    assert AllGrainRows(REQUEST, PLAN);
    assert DistinctFps(PLAN.actions);
    assert PLAN.actions[0] == IDLE;
    assert !Stands(REQUEST, IDLE, L.NOW);
    PlanApplyFixpoint(REQUEST, CANON, PLAN, PROD, at, s);
  }
}
