/**
 * A forward-only plan may change a model's grain, and the ledger it inherits is compared by
 * interval start alone (src/core/interval.ts:48-55, src/plan/planner.ts:347-375, 413-437).
 * When what such a plan leaves out has really been computed, and a plan in which it has not.
 */
module GrainGap {
  import opened Common
  import opened Models
  import opened Intervals
  import opened Query
  import opened Fingerprints
  import opened Store
  import opened Planner
  import opened PlanFacts
  import opened OneModel
  import B = Backfills

  // ----- merging covers what it merges -----

  lemma MergeOneCovers(merged: seq<Interval>, x: Interval, t: int)
    requires B.Proper(merged) && x.start <= x.end
    ensures B.Proper(MergeOne(merged, x))
    ensures B.Covered(MergeOne(merged, x), t) <==> B.Covered(merged, t) || Within(x, t)
  {
    var n, next := |merged|, MergeOne(merged, x);
    if n > 0 && merged[n - 1].end == x.start {
      var last, wide := merged[n - 1], Interval(merged[n - 1].start, x.end);
      assert last in merged && next[n - 1] == wide;
      assert Within(wide, t) <==> Within(last, t) || Within(x, t);
      forall b ensures b in next <==> b == wide || b in merged[..n - 1] {
        assert next == merged[..n - 1] + [wide];
      }
      forall b ensures b in merged <==> b == last || b in merged[..n - 1] {
        assert merged == merged[..n - 1] + [last];
      }
    } else {
      forall b ensures b in next <==> b == x || b in merged { }
    }
  }

  lemma {:induction false} MergeCovers(merged: seq<Interval>, xs: seq<Interval>, t: int)
    requires B.Proper(merged) && B.Proper(xs)
    ensures B.Covered(MergeOnto(merged, xs), t) <==> B.Covered(merged, t) || B.Covered(xs, t)
    decreases |xs|
  {
    if xs != [] {
      assert xs[0] in xs;
      assert forall b :: b in xs <==> b == xs[0] || b in xs[1..] by {
        assert xs == [xs[0]] + xs[1..];
      }
      MergeOneCovers(merged, xs[0], t);
      MergeCovers(MergeOne(merged, xs[0]), xs[1..], t);
    }
  }

  // ----- what a plan leaves out -----

  /** Some done interval holds this moment. */
  ghost predicate InDone(done: map<int, int>, t: int) {
    exists s :: s in done && Within(Interval(s, done[s]), t)
  }

  /** Every wanted moment is in a planned range or in a done interval. */
  ghost predicate LeavesOnlyDone(wanted: seq<Interval>, backfill: seq<Interval>, done: map<int, int>) {
    forall iv, t | iv in wanted && Within(iv, t) :: B.Covered(backfill, t) || InDone(done, t)
  }

  /** Every wanted slot that begins where a done grain does has all the grains of the past unit in it done. */
  ghost predicate SlotsFull(wanted: seq<Interval>, done: map<int, int>, past: Unit) {
    forall iv, s | iv in wanted && iv.start in done && Within(iv, s) && s % UnitMillis(past) == 0 :: s in done
  }

  lemma DistinctSlots(x: Interval, y: Interval, t: int, step: int)
    requires step > 0 && IsGrain(x, step) && IsGrain(y, step) && Within(x, t) && Within(y, t)
    ensures x == y
  {
    if x.start < y.start { AlignedApart(x.start, y.start, step); }
    if y.start < x.start { AlignedApart(y.start, x.start, step); }
  }

  lemma PlannedCovers(wanted: seq<Interval>, done: map<int, int>, lookback: nat, t: int)
    requires B.Proper(wanted) && B.Proper(Tail(done, lookback))
    ensures B.Covered(Backfill(wanted, done, lookback), t) <==>
              B.Covered(Missing(wanted, done.Keys), t) || B.Covered(Tail(done, lookback), t)
  {
    hide Missing, Tail, SortByStart;
    var missing, tail := Missing(wanted, done.Keys), Tail(done, lookback);
    var sorted := SortByStart(missing + tail);
    assert forall b :: b in sorted <==> b in missing || b in tail;
    MergeCovers([], sorted, t);
  }

  lemma TailInDone(done: map<int, int>, lookback: nat, b: Interval)
    requires b in Tail(done, lookback)
    ensures b.start in done && done[b.start] == b.end
  {
    hide Later;
    TailMembers(done, lookback);
  }

  /** What is left out is done exactly when each slot left out is. */
  lemma LeftOutExact(wanted: seq<Interval>, done: map<int, int>, lookback: nat, step: int)
    requires step > 0 && Grains(wanted, step) && forall s | s in done :: s <= done[s]
    ensures LeavesOnlyDone(wanted, Backfill(wanted, done, lookback), done) <==>
              forall iv, t | iv in wanted && iv.start in done && Within(iv, t) :: InDone(done, t)
  {
    hide Missing, Tail, Backfill, IsGrain;
    var backfill, missing, tail := Backfill(wanted, done, lookback), Missing(wanted, done.Keys), Tail(done, lookback);
    ProperParts(wanted, done, lookback, step);
    forall iv, t | iv in wanted && Within(iv, t)
      ensures B.Covered(backfill, t) || InDone(done, t) <==> iv.start !in done || InDone(done, t)
    {
      PlannedCovers(wanted, done, lookback, t);
      if b :| b in tail && Within(b, t) { TailInDone(done, lookback, b); }
      if b :| b in missing && Within(b, t) { DistinctSlots(iv, b, t, step); }
      if iv.start !in done { assert iv in missing; }
    }
  }

  lemma ProperParts(wanted: seq<Interval>, done: map<int, int>, lookback: nat, step: int)
    requires step > 0 && Grains(wanted, step) && forall s | s in done :: s <= done[s]
    ensures B.Proper(wanted) && B.Proper(Tail(done, lookback))
  {
    forall b | b in Tail(done, lookback) ensures b.start <= b.end {
      TailInDone(done, lookback, b);
    }
  }

  // ----- old and new grain -----

  /** In a ledger of whole grains a moment is done exactly if the grain around it is. */
  lemma DoneByGrain(done: map<int, int>, unit: Unit, t: int)
    requires GrainLedger(done, UnitMillis(unit))
    ensures InDone(done, t) <==> FloorTo(unit, t) in done
  {
    var step := UnitMillis(unit);
    if s :| s in done && Within(Interval(s, done[s]), t) {
      assert IsGrain(Interval(s, done[s]), step);
      AlignedNext(FloorTo(unit, t), step);
      DistinctSlots(Interval(s, done[s]), Interval(FloorTo(unit, t), FloorTo(unit, t) + step), t, step);
    }
    if FloorTo(unit, t) in done {
      assert IsGrain(Interval(FloorTo(unit, t), done[FloorTo(unit, t)]), step);
      assert Within(Interval(FloorTo(unit, t), done[FloorTo(unit, t)]), t);
    }
  }

  /** A slot's moments lie in old grains that begin inside it, or the slot lies inside one old grain. */
  lemma SlotAndGrains(iv: Interval, now: Unit, past: Unit, t: int)
    requires IsGrain(iv, UnitMillis(now)) && iv.start % UnitMillis(past) == 0 && Within(iv, t)
    ensures Within(iv, FloorTo(past, t))
    ensures UnitMillis(now) <= UnitMillis(past) ==> FloorTo(past, t) == iv.start
  {
    var step, f := UnitMillis(past), FloorTo(past, t);
    if f < iv.start { AlignedApart(f, iv.start, step); }
    if UnitMillis(now) <= step && iv.start < f { AlignedApart(iv.start, f, step); }
  }

  lemma FullExact(wanted: seq<Interval>, done: map<int, int>, now: Unit, past: Unit)
    requires Grains(wanted, UnitMillis(now)) && GrainLedger(done, UnitMillis(past))
    ensures (forall iv, t | iv in wanted && iv.start in done && Within(iv, t) :: InDone(done, t)) <==>
              UnitMillis(now) <= UnitMillis(past) || SlotsFull(wanted, done, past)
  {
    hide InDone, FloorTo;
    forall iv, t | iv in wanted && iv.start in done && Within(iv, t)
      ensures InDone(done, t) <==> FloorTo(past, t) in done
      ensures Within(iv, FloorTo(past, t)) && FloorTo(past, t) % UnitMillis(past) == 0
      ensures UnitMillis(now) <= UnitMillis(past) ==> InDone(done, t)
      ensures t % UnitMillis(past) == 0 ==> FloorTo(past, t) == t
    {
      assert IsGrain(Interval(iv.start, done[iv.start]), UnitMillis(past));
      assert IsGrain(iv, UnitMillis(now));
      DoneByGrain(done, past, t);
      SlotAndGrains(iv, now, past, t);
      if t % UnitMillis(past) == 0 && FloorTo(past, t) < t { AlignedApart(FloorTo(past, t), t, UnitMillis(past)); }
    }
  }

  /**
   * A time-range plan over a ledger of the past unit leaves out only time that is done exactly
   * when the new unit is not coarser, or every slot that begins at a done grain is done in full.
   */
  lemma GrainChangeExact(r: Request, canon: Canon, acc: Acc, k: nat, past: Unit)
    requires Planned(r, canon, acc) && k < |r.order| && r.order[k] in r.models && r.models[r.order[k]].kind.TimeRange?
    requires k < |acc.actions|
    requires GrainLedger(DoneFor(r.store, acc.actions[k].fp, acc.actions[k].reusedFrom), UnitMillis(past))
    ensures var a, kind := acc.actions[k], r.models[r.order[k]].kind;
            var wanted, done := Wanted(kind.unit, kind.start, r.now), DoneFor(r.store, a.fp, a.reusedFrom);
            LeavesOnlyDone(wanted, a.backfill, done) <==>
              UnitMillis(kind.unit) <= UnitMillis(past) || SlotsFull(wanted, done, past)
  {
    hide PlanUpTo, Decide, Wanted, Backfill, DoneFor, IsGrain, LeavesOnlyDone;
    PlanLocal(r, canon, acc, k);
    var a, kind := acc.actions[k], r.models[r.order[k]].kind;
    var wanted, done := Wanted(kind.unit, kind.start, r.now), DoneFor(r.store, a.fp, a.reusedFrom);
    WantedMembers(kind.unit, kind.start, r.now);
    ForwardEnds(done, UnitMillis(past));
    LeftOutExact(wanted, done, kind.lookback, UnitMillis(kind.unit));
    FullExact(wanted, done, kind.unit, past);
  }

  lemma ForwardEnds(done: map<int, int>, step: int)
    requires step > 0 && GrainLedger(done, step)
    ensures forall s | s in done :: s <= done[s]
  {
    forall s | s in done ensures s <= done[s] {
      assert IsGrain(Interval(s, done[s]), step);
    }
  }

  // ----- a plan that leaves a day out for one done hour -----

  const HOURLY: Model := Solo(Hour, 0)
  const DAILY: Model := Solo(Day, 0)
  const H: Fp := SoloFp(HOURLY)
  const KEY_H: SnapKey := SnapKey(NAME, H)
  const ONE_HOUR := Serving(H, map[KEY_H := SoloRow(HOURLY, H)], map[Slot(H, 0) := Record(HOUR, Done)])
  const REQUEST: Request := SoloRequest(DAILY, ONE_HOUR, DAY, true)
  const KEEP := Decision(ForwardOnly, None, Some(H), H, false)
  const DAY_ACTION: Action := ActionFor(REQUEST, NAME, KEEP)

  lemma DailyDecision()
    ensures Decide(REQUEST, map[], {}, NAME) == Ok(KEEP)
  {
    SoloCurrent(H, ONE_HOUR.snapshots, ONE_HOUR.ledger);
    assert PayloadOf(HOURLY.kind) != PayloadOf(DAILY.kind);
    assert SoloFp(DAILY) != H;
  }

  lemma OneHourDone(start: int)
    ensures var done := DoneFor(ONE_HOUR, SoloFp(DAILY), Some(H));
            (start in done <==> start == 0) && (start in done ==> done[start] == HOUR)
  {
    assert PayloadOf(HOURLY.kind) != PayloadOf(DAILY.kind);
    DoneOfMembers(ONE_HOUR, SoloFp(DAILY), start);
    DoneOfMembers(ONE_HOUR, H, start);
  }

  lemma DayActionFields()
    ensures DAY_ACTION.change == ForwardOnly && DAY_ACTION.fp == SoloFp(DAILY) && DAY_ACTION.physFp == H
    ensures DAY_ACTION.backfill == Backfill(Wanted(Day, 0, DAY), DoneFor(ONE_HOUR, SoloFp(DAILY), Some(H)), 0)
  {
    hide Backfill, Wanted, DoneFor;
    assert PayloadOf(HOURLY.kind) != PayloadOf(DAILY.kind);
    assert SnapKey(NAME, SoloFp(DAILY)) !in ONE_HOUR.snapshots;
  }

  /** Flagged forward-only, hours become days: nothing is planned, and twenty-three hours are not done. */
  lemma HoursHideTheDay()
    ensures Planned(REQUEST, CANON, Acc(map[NAME := ForwardOnly], {}, [DAY_ACTION]))
    ensures DAY_ACTION.change == ForwardOnly && DAY_ACTION.backfill == []
    ensures !LeavesOnlyDone(Wanted(Day, 0, DAY), DAY_ACTION.backfill, DoneFor(ONE_HOUR, SoloFp(DAILY), Some(H)))
  {
    hide Planned, Decide, ActionFor, DoneFor, Wanted, Backfill, LeavesOnlyDone;
    DailyDecision();
    SoloPlan(DAILY, ONE_HOUR, DAY, true, KEEP);
    DayActionFields();
    WantedDays();
    var day, done := Interval(0, DAY), DoneFor(ONE_HOUR, SoloFp(DAILY), Some(H));
    forall start ensures (start in done <==> start == 0) && (start in done ==> done[start] == HOUR) {
      OneHourDone(start);
    }
    OneSlot(day, done);
    MissingHour(day, done);
  }

  lemma MissingHour(day: Interval, done: map<int, int>)
    requires day == Interval(0, DAY) && forall start | start in done :: done[start] <= HOUR
    ensures !LeavesOnlyDone([day], [], done)
  {
    CoverageByStart(day, Interval(0, HOUR));
    var t := HOUR;
    assert Within(day, t) && day in [day];
    assert !B.Covered([], t) && !InDone(done, t);
  }
}
