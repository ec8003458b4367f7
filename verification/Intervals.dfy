/**
 * Interval arithmetic (src/core/interval.ts): half-open ranges of epoch
 * milliseconds, aligned to a day or an hour. Times are unbounded integers.
 */
module Intervals {
  import opened Common

  datatype Unit = Day | Hour

  datatype Interval = Interval(start: int, end: int)

  datatype RangeError = BadBatchSize(batchSize: int)

  function UnitMillis(u: Unit): (ms: int)
    ensures ms > 0
  {
    if u.Day? then 86_400_000 else 3_600_000
  }

  /** An hour is 3600 seconds of a thousand milliseconds, a day 24 hours. */
  lemma UnitLengths()
    ensures UnitMillis(Hour) == 60 * 60 * 1000
    ensures UnitMillis(Day) == 24 * UnitMillis(Hour)
  {
  }

  /** Dafny's division by a positive divisor floors, as `Math.floor` does. */
  function FloorTo(u: Unit, ms: int): (r: int)
    ensures r % UnitMillis(u) == 0 && r <= ms < r + UnitMillis(u)
  {
    ms / UnitMillis(u) * UnitMillis(u)
  }

  predicate IsGrain(iv: Interval, step: int)
    requires step > 0
  {
    iv.start % step == 0 && iv.end == iv.start + step
  }

  /** Strictly increasing starts: the order every list of the planner is in. */
  ghost predicate Increasing(xs: seq<Interval>) {
    forall i, j | 0 <= i < j < |xs| :: xs[i].start < xs[j].start
  }

  ghost predicate Grains(xs: seq<Interval>, step: int)
    requires step > 0
  {
    Increasing(xs) && forall iv | iv in xs :: IsGrain(iv, step)
  }

  predicate Within(iv: Interval, t: int) {
    iv.start <= t < iv.end
  }

  // ----- enumerateIntervals -----

  function GrainsFrom(from: int, until: int, step: int): (r: seq<Interval>)
    requires step > 0
    decreases until - from
  {
    if from + step > until then [] else [Interval(from, from + step)] + GrainsFrom(from + step, until, step)
  }

  function Wanted(u: Unit, startMs: int, nowMs: int): seq<Interval> {
    GrainsFrom(FloorTo(u, startMs), FloorTo(u, nowMs), UnitMillis(u))
  }

  lemma {:induction false} GrainsFromMembers(from: int, until: int, step: int)
    requires step > 0 && from % step == 0
    ensures Grains(GrainsFrom(from, until, step), step)
    ensures forall iv :: (iv in GrainsFrom(from, until, step)
                          <==> IsGrain(iv, step) && from <= iv.start && iv.end <= until)
    decreases until - from
  {
    if from + step > until {
    } else {
      AlignedNext(from, step);
      GrainsFromMembers(from + step, until, step);
      PrependGrain(from, until, step, GrainsFrom(from + step, until, step));
    }
  }

  lemma PrependGrain(from: int, until: int, step: int, rest: seq<Interval>)
    requires step > 0 && from % step == 0 && from + step <= until
    requires Grains(rest, step)
    requires forall iv :: (iv in rest
                           <==> IsGrain(iv, step) && from + step <= iv.start && iv.end <= until)
    ensures Grains([Interval(from, from + step)] + rest, step)
    ensures forall iv :: (iv in [Interval(from, from + step)] + rest
                          <==> IsGrain(iv, step) && from <= iv.start && iv.end <= until)
  {
    var all := [Interval(from, from + step)] + rest;
    forall iv ensures iv in all <==> (IsGrain(iv, step) && from <= iv.start && iv.end <= until) {
      if IsGrain(iv, step) && from < iv.start {
        AlignedApart(from, iv.start, step);
      }
      assert iv in all <==> iv == all[0] || iv in rest;
    }
    forall i, j | 0 <= i < j < |all| ensures all[i].start < all[j].start {
      assert all[j] == rest[j - 1] && rest[j - 1] in rest;
      assert i > 0 ==> all[i] == rest[i - 1];
    }
  }

  lemma AlignedNext(a: int, step: int)
    requires step > 0 && a % step == 0
    ensures (a + step) % step == 0
  {
    assert a == a / step * step;
    assert a + step == (a / step + 1) * step;
    ModOfMultiple(a / step + 1, step);
  }

  lemma ModOfMultiple(k: int, step: int)
    requires step > 0
    ensures (k * step) % step == 0 && (k * step) / step == k
  {
    var q, r := (k * step) / step, (k * step) % step;
    assert k * step == q * step + r;
    assert (k - q) * step == r;
    assert k - q >= 1 ==> (k - q) * step >= step;
    assert k - q <= -1 ==> (k - q) * step <= -step;
  }

  /** Two distinct aligned instants are at least a whole step apart. */
  lemma AlignedApart(a: int, b: int, step: int)
    requires step > 0 && a % step == 0 && b % step == 0 && a < b
    ensures a + step <= b
  {
    assert a == a / step * step && b == b / step * step;
    var d := b / step - a / step;
    assert d * step == b - a;
    assert d <= 0 ==> d * step <= 0;
    assert d >= 1;
    assert d * step >= step;
  }

  /** What is wanted: every whole grain interval from the aligned start that has already ended. */
  lemma WantedMembers(u: Unit, startMs: int, nowMs: int)
    ensures Grains(Wanted(u, startMs, nowMs), UnitMillis(u))
    ensures forall iv :: (iv in Wanted(u, startMs, nowMs) <==>
                          IsGrain(iv, UnitMillis(u)) && startMs < iv.end && iv.end <= nowMs)
  {
    var step := UnitMillis(u);
    var from, until := FloorTo(u, startMs), FloorTo(u, nowMs);
    GrainsFromMembers(from, until, step);
    forall iv ensures iv in Wanted(u, startMs, nowMs) <==>
                        IsGrain(iv, step) && startMs < iv.end && iv.end <= nowMs {
      if IsGrain(iv, step) {
        AlignedNext(iv.start, step);
        if iv.end <= nowMs && iv.end > until { AlignedApart(until, iv.end, step); }
        if startMs < iv.end && iv.start < from { AlignedApart(iv.start, from, step); }
      }
    }
  }

  method EnumerateIntervals(u: Unit, startMs: int, nowMs: int) returns (intervals: seq<Interval>)
    ensures intervals == Wanted(u, startMs, nowMs)
  {
    var step := UnitMillis(u);
    var from := FloorTo(u, startMs);
    var until := FloorTo(u, nowMs);
    intervals := [];
    var start := from;
    while start + step <= until
      invariant intervals + GrainsFrom(start, until, step) == GrainsFrom(from, until, step)
      decreases until - start
    {
      intervals := intervals + [Interval(start, start + step)];
      start := start + step;
    }
  }

  // ----- missingIntervals -----

  function Starts(xs: seq<Interval>): set<int> {
    set iv | iv in xs :: iv.start
  }

  /** `wanted` minus `covered`, compared by start alone. */
  function Missing(wanted: seq<Interval>, covered: set<int>): (r: seq<Interval>)
    ensures forall iv :: iv in r <==> iv in wanted && iv.start !in covered
    ensures Increasing(wanted) ==> Increasing(r)
  {
    if wanted == [] then [] else
      var rest := Missing(wanted[1..], covered);
      assert wanted == [wanted[0]] + wanted[1..];
      if wanted[0].start in covered then rest else
        assert Increasing(wanted) ==> Increasing(wanted[1..]);
        assert Increasing(wanted) ==> forall iv | iv in wanted[1..] :: wanted[0].start < iv.start;
        [wanted[0]] + rest
  }

  /**
   * Comparing by start is only as good as the grains agree. Recorded coverage of
   * a slot really spans the slot exactly when the recorded interval is no shorter,
   * so an inherited ledger of a finer grain hides the rest of each slot it touches.
   */
  lemma CoverageByStart(slot: Interval, recorded: Interval)
    requires slot.start == recorded.start && slot.start < slot.end
    ensures slot !in Missing([slot], {recorded.start})
    ensures (forall t | Within(slot, t) :: Within(recorded, t))
            <==> recorded.end - recorded.start >= slot.end - slot.start
  {
    if recorded.end < slot.end {
      var t := if recorded.end < slot.start then slot.start else recorded.end;
      assert Within(slot, t) && !Within(recorded, t);
    }
  }

  // ----- mergeIntervals -----

  function MergeOnto(merged: seq<Interval>, xs: seq<Interval>): seq<Interval>
    decreases |xs|
  {
    if xs == [] then merged else MergeOnto(MergeOne(merged, xs[0]), xs[1..])
  }

  function MergeOne(merged: seq<Interval>, x: Interval): seq<Interval> {
    var n := |merged|;
    if n > 0 && merged[n - 1].end == x.start
    then merged[n - 1 := Interval(merged[n - 1].start, x.end)]
    else merged + [x]
  }

  function Merge(xs: seq<Interval>): seq<Interval> {
    MergeOnto([], xs)
  }

  method MergeIntervals(intervals: seq<Interval>) returns (merged: seq<Interval>)
    ensures merged == Merge(intervals)
  {
    merged := [];
    for i := 0 to |intervals|
      invariant MergeOnto(merged, intervals[i..]) == Merge(intervals)
    {
      var interval := intervals[i];
      assert intervals[i..][1..] == intervals[i + 1..];
      if |merged| > 0 && merged[|merged| - 1].end == interval.start {
        merged := merged[|merged| - 1 := Interval(merged[|merged| - 1].start, interval.end)];
      } else {
        merged := merged + [interval];
      }
    }
    assert intervals[|intervals|..] == [];
  }

  // ----- splitIntoBatches and intervalsWithin -----

  /** Both cut a range into pieces of `step`, the last one possibly shorter. */
  function Chop(range: Interval, step: int): seq<Interval>
    requires step > 0
    decreases range.end - range.start
  {
    if range.start >= range.end then []
    else [Interval(range.start, Min(range.start + step, range.end))]
         + Chop(Interval(range.start + step, range.end), step)
  }

  function Min(a: int, b: int): int {
    if a <= b then a else b
  }

  method SplitIntoBatches(range: Interval, u: Unit, batchSize: int)
    returns (r: Result<seq<Interval>, RangeError>)
    ensures r == if batchSize < 1 then Err(BadBatchSize(batchSize))
                 else Ok(Chop(range, BatchStep(u, batchSize)))
  {
    if batchSize < 1 {
      return Err(BadBatchSize(batchSize));
    }
    var step := BatchStep(u, batchSize);
    var batches := ChopLoop(range, step);
    r := Ok(batches);
  }

  function BatchStep(u: Unit, batchSize: int): (step: int)
    requires batchSize >= 1
    ensures step >= UnitMillis(u)
  {
    UnitMillis(u) * batchSize
  }

  method IntervalsWithin(range: Interval, u: Unit) returns (intervals: seq<Interval>)
    ensures intervals == Chop(range, UnitMillis(u))
  {
    intervals := ChopLoop(range, UnitMillis(u));
  }

  method ChopLoop(range: Interval, step: int) returns (pieces: seq<Interval>)
    requires step > 0
    ensures pieces == Chop(range, step)
  {
    pieces := [];
    var start := range.start;
    while start < range.end
      invariant pieces + Chop(Interval(start, range.end), step) == Chop(range, step)
      decreases range.end - start
    {
      pieces := pieces + [Interval(start, Min(start + step, range.end))];
      start := start + step;
    }
  }

  /** `ranges.flatMap(range => chop(range, step))`. */
  function ChopAll(ranges: seq<Interval>, step: int): seq<Interval>
    requires step > 0
  {
    if ranges == [] then [] else Chop(ranges[0], step) + ChopAll(ranges[1..], step)
  }

  // ----- tiling -----

  /** A chopped range: consecutive pieces from end to end, all but the last exactly one step long. */
  ghost predicate Chopped(range: Interval, step: int, pieces: seq<Interval>) {
    && pieces != [] && pieces[0].start == range.start && pieces[|pieces| - 1].end == range.end
    && (forall i | 0 <= i < |pieces| - 1 :: pieces[i].end == pieces[i + 1].start == pieces[i].start + step)
    && pieces[|pieces| - 1].start < pieces[|pieces| - 1].end <= pieces[|pieces| - 1].start + step
  }

  lemma {:induction false} ChopExact(range: Interval, step: int)
    requires step > 0 && range.start < range.end
    ensures Chopped(range, step, Chop(range, step))
    decreases range.end - range.start
  {
    var rest := Interval(range.start + step, range.end);
    if rest.start < rest.end {
      ChopExact(rest, step);
      var tail := Chop(rest, step);
      assert Chop(range, step) == [Interval(range.start, range.start + step)] + tail;
    } else {
      assert Chop(rest, step) == [];
    }
  }

  /** Every batch but a range's last is exactly `batchSize` grains of the unit, and none is longer. */
  lemma BatchesFull(range: Interval, u: Unit, batchSize: int)
    requires batchSize >= 1 && range.start < range.end
    ensures Chopped(range, batchSize * UnitMillis(u), Chop(range, BatchStep(u, batchSize)))
  {
    hide Chop, Chopped;
    ChopExact(range, BatchStep(u, batchSize));
    BatchStepExact(u, batchSize);
  }

  lemma BatchStepExact(u: Unit, batchSize: int)
    requires batchSize >= 1
    ensures BatchStep(u, batchSize) == batchSize * UnitMillis(u)
  {
  }

  /** A range that is a whole, non-negative number of steps long. */
  ghost predicate Whole(range: Interval, step: int)
    requires step > 0
  {
    range.start <= range.end && (range.end - range.start) % step == 0
  }

  lemma {:induction false} ChopAllConcat(xs: seq<Interval>, ys: seq<Interval>, step: int)
    requires step > 0
    ensures ChopAll(xs + ys, step) == ChopAll(xs, step) + ChopAll(ys, step)
  {
    if xs == [] {
      assert xs + ys == ys;
    } else {
      assert (xs + ys)[1..] == xs[1..] + ys;
      ChopAllConcat(xs[1..], ys, step);
    }
  }

  /** Cutting at an aligned inner point changes nothing. */
  lemma {:induction false} ChopAt(a: int, b: int, c: int, step: int)
    requires step > 0 && Whole(Interval(a, b), step) && b <= c
    ensures Chop(Interval(a, c), step) == Chop(Interval(a, b), step) + Chop(Interval(b, c), step)
    decreases b - a
  {
    if a == b {
    } else {
      AlignedApart(0, b - a, step);
      ModShift(b - a, step);
      assert Min(a + step, b) == a + step == Min(a + step, c);
      ChopAt(a + step, b, c, step);
      var h := [Interval(a, a + step)];
      assert Chop(Interval(a, c), step) == h + (Chop(Interval(a + step, b), step) + Chop(Interval(b, c), step));
    }
  }

  lemma ModShift(d: int, step: int)
    requires step > 0 && d % step == 0
    ensures (d - step) % step == 0
  {
    assert d - step == (d / step - 1) * step;
    ModOfMultiple(d / step - 1, step);
  }

  /** Batches of a range tile it: their grain intervals are the range's grain intervals, in order. */
  lemma {:induction false} BatchesTile(range: Interval, step: int, batchSize: int)
    requires step > 0 && batchSize >= 1 && step * batchSize > 0 && Whole(range, step)
    ensures ChopAll(Chop(range, step * batchSize), step) == Chop(range, step)
    decreases range.end - range.start
  {
    var wide := step * batchSize;
    if range.start >= range.end {
    } else {
      var cut := Min(range.start + wide, range.end);
      ModOfMultiple(batchSize, step);
      assert batchSize * step == wide;
      assert Whole(Interval(range.start, cut), step);
      ChopAt(range.start, cut, range.end, step);
      var rest := Interval(range.start + wide, range.end);
      if range.start + wide < range.end {
        WholeRest(range, wide, step);
        BatchesTile(rest, step, batchSize);
      }
      var first := Interval(range.start, cut);
      assert Chop(range, wide) == [first] + Chop(rest, wide);
      assert ([first] + Chop(rest, wide))[1..] == Chop(rest, wide);
    }
  }

  lemma WholeRest(range: Interval, wide: int, step: int)
    requires step > 0 && Whole(range, step) && wide % step == 0 && range.start + wide <= range.end
    ensures Whole(Interval(range.start + wide, range.end), step)
  {
    var d := range.end - range.start;
    assert d == d / step * step && wide == wide / step * step;
    assert d - wide == (d / step - wide / step) * step;
    ModOfMultiple(d / step - wide / step, step);
  }

  /** No batch is longer than `wide`. */
  lemma {:induction false} BatchLength(range: Interval, wide: int)
    requires wide > 0
    ensures forall b | b in Chop(range, wide) ::
              0 < b.end - b.start <= wide && range.start <= b.start && b.end <= range.end
    decreases range.end - range.start
  {
    if range.start < range.end {
      BatchLength(Interval(range.start + wide, range.end), wide);
    }
  }

  /** Merged ranges never touch: between two consecutive ones there is a real gap. */
  ghost predicate Separated(ranges: seq<Interval>) {
    forall i, j | 0 <= i < j < |ranges| :: ranges[i].end < ranges[j].start
  }

  ghost predicate AllWhole(ranges: seq<Interval>, step: int)
    requires step > 0
  {
    forall r | r in ranges :: Whole(r, step) && r.start < r.end
  }

  /** A merged list so far: whole ranges on the grid with real gaps between them. */
  ghost predicate Ranges(merged: seq<Interval>, step: int)
    requires step > 0
  {
    AllWhole(merged, step) && Separated(merged)
  }

  ghost predicate EndsBy(merged: seq<Interval>, t: int) {
    forall r | r in merged :: r.end <= t
  }

  lemma MergeOneRanges(merged: seq<Interval>, x: Interval, step: int)
    requires step > 0 && IsGrain(x, step) && Ranges(merged, step) && EndsBy(merged, x.start)
    ensures Ranges(MergeOne(merged, x), step) && EndsBy(MergeOne(merged, x), x.end)
  {
    var next := MergeOne(merged, x);
    var n := |merged|;
    if n > 0 && merged[n - 1].end == x.start {
      var last := merged[n - 1];
      assert last in merged;
      WholeExtend(last, x, step);
      forall r | r in next ensures Whole(r, step) && r.start < r.end <= x.end {
        assert r == next[n - 1] || r in merged;
      }
    } else {
      WholeGrain(x, step);
      forall i | 0 <= i < n ensures merged[i].end < x.start {
        assert merged[i] in merged && merged[n - 1] in merged;
      }
    }
  }

  lemma WholeGrain(x: Interval, step: int)
    requires step > 0 && IsGrain(x, step)
    ensures Whole(x, step) && x.start < x.end
  {
    ModOfMultiple(1, step);
  }

  lemma WholeExtend(last: Interval, x: Interval, step: int)
    requires step > 0 && Whole(last, step) && IsGrain(x, step) && last.end == x.start
    ensures Whole(Interval(last.start, x.end), step)
  {
    AlignedNext(last.end - last.start, step);
  }

  /** Merging loses no interval, repeats none, and leaves maximal separated ranges. */
  lemma {:induction false} MergeOntoTiles(merged: seq<Interval>, xs: seq<Interval>, step: int)
    requires step > 0 && Grains(xs, step) && Ranges(merged, step)
    requires xs != [] ==> EndsBy(merged, xs[0].start)
    ensures ChopAll(MergeOnto(merged, xs), step) == ChopAll(merged, step) + xs
    ensures Ranges(MergeOnto(merged, xs), step)
    decreases |xs|
  {
    if xs == [] {
    } else {
      MergeNext(merged, xs, step);
      MergeOntoTiles(MergeOne(merged, xs[0]), xs[1..], step);
      ShiftHead(ChopAll(merged, step), xs);
    }
  }

  lemma ShiftHead(a: seq<Interval>, xs: seq<Interval>)
    requires xs != []
    ensures (a + [xs[0]]) + xs[1..] == a + xs
  {
  }

  lemma MergeNext(merged: seq<Interval>, xs: seq<Interval>, step: int)
    requires step > 0 && xs != [] && Grains(xs, step) && Ranges(merged, step)
    requires EndsBy(merged, xs[0].start)
    ensures Grains(xs[1..], step) && Ranges(MergeOne(merged, xs[0]), step)
    ensures xs[1..] != [] ==> EndsBy(MergeOne(merged, xs[0]), xs[1..][0].start)
    ensures ChopAll(MergeOne(merged, xs[0]), step) == ChopAll(merged, step) + [xs[0]]
  {
    var x := xs[0];
    assert x in xs;
    MergeOneRanges(merged, x, step);
    if |xs| > 1 {
      var y := xs[1];
      assert y in xs;
      AlignedApart(x.start, y.start, step);
    }
    GrainsTail(xs, step);
    MergeOneChops(merged, x, step);
  }

  lemma GrainsTail(xs: seq<Interval>, step: int)
    requires step > 0 && xs != [] && Grains(xs, step)
    ensures Grains(xs[1..], step)
  {
    assert forall iv | iv in xs[1..] :: iv in xs;
  }

  lemma MergeOneChops(merged: seq<Interval>, x: Interval, step: int)
    requires step > 0 && IsGrain(x, step) && AllWhole(merged, step)
    ensures ChopAll(MergeOne(merged, x), step) == ChopAll(merged, step) + [x]
  {
    var n := |merged|;
    ChopGrain(x, step);
    if n > 0 && merged[n - 1].end == x.start {
      var last, init := merged[n - 1], merged[..n - 1];
      assert last in merged;
      ExtendLastChops(init, last, x, step);
      assert merged == init + [last];
      assert MergeOne(merged, x) == init + [Interval(last.start, x.end)];
    } else {
      ChopAllConcat(merged, [x], step);
    }
  }

  lemma ExtendLastChops(init: seq<Interval>, last: Interval, x: Interval, step: int)
    requires step > 0 && Whole(last, step) && last.end == x.start <= x.end && Chop(x, step) == [x]
    ensures ChopAll(init + [Interval(last.start, x.end)], step) == ChopAll(init + [last], step) + [x]
  {
    ChopAllConcat(init, [last], step);
    ChopAllConcat(init, [Interval(last.start, x.end)], step);
    ChopAt(last.start, last.end, x.end, step);
  }

  lemma ChopGrain(x: Interval, step: int)
    requires step > 0 && IsGrain(x, step)
    ensures Chop(x, step) == [x]
  {
    assert Chop(Interval(x.start + step, x.end), step) == [];
  }

  lemma {:induction false} BatchesOfAllTile(ranges: seq<Interval>, step: int, batchSize: int)
    requires step > 0 && batchSize >= 1 && step * batchSize > 0 && AllWhole(ranges, step)
    ensures ChopAll(ChopAll(ranges, step * batchSize), step) == ChopAll(ranges, step)
  {
    if ranges == [] {
    } else {
      assert ranges[0] in ranges;
      BatchesTile(ranges[0], step, batchSize);
      BatchesOfAllTile(ranges[1..], step, batchSize);
      ChopAllConcat(Chop(ranges[0], step * batchSize), ChopAll(ranges[1..], step * batchSize), step);
    }
  }

  /**
   * Tiling: whatever the batch size, the intervals marked done over all batches of
   * the merged ranges are the planned intervals, each once and in order.
   */
  lemma Tiling(xs: seq<Interval>, step: int, batchSize: int)
    requires step > 0 && batchSize >= 1 && step * batchSize > 0 && Grains(xs, step)
    ensures ChopAll(ChopAll(Merge(xs), step * batchSize), step) == xs
    ensures Separated(Merge(xs)) && AllWhole(Merge(xs), step)
    ensures forall b | b in ChopAll(Merge(xs), step * batchSize) :: 0 < b.end - b.start <= step * batchSize
  {
    MergeOntoTiles([], xs, step);
    BatchesOfAllTile(Merge(xs), step, batchSize);
    BatchLengths(Merge(xs), step * batchSize);
  }

  lemma {:induction false} BatchLengths(ranges: seq<Interval>, wide: int)
    requires wide > 0
    ensures forall b | b in ChopAll(ranges, wide) :: 0 < b.end - b.start <= wide
  {
    if ranges != [] {
      BatchLength(ranges[0], wide);
      BatchLengths(ranges[1..], wide);
    }
  }

  // ----- the planner's list: missing plus the lookback tail -----

  function AtStart(ends: map<int, int>, start: int): Interval {
    Interval(start, if start in ends then ends[start] else start)
  }

  lemma ByStartMembers(ends: map<int, int>, starts: seq<int>, r: seq<Interval>, iv: Interval)
    requires forall s :: s in starts <==> s in ends
    requires |r| == |starts| && forall i | 0 <= i < |r| :: r[i] == AtStart(ends, starts[i])
    ensures iv in r <==> iv.start in ends && ends[iv.start] == iv.end
  {
    if iv.start in ends && ends[iv.start] == iv.end {
      assert iv.start in starts;
      var i :| 0 <= i < |starts| && starts[i] == iv.start;
      assert r[i] == iv;
    }
    if iv in r {
      var i :| 0 <= i < |r| && r[i] == iv;
      var s := starts[i];
      assert s in starts;
    }
  }

  /** `[...].sort((a, b) => a.start - b.start)` over intervals keyed by distinct starts. */
  function ByStart(ends: map<int, int>): (r: seq<Interval>)
    ensures Increasing(r)
    ensures forall iv :: iv in r <==> iv.start in ends && ends[iv.start] == iv.end
    ensures |r| == |ends.Keys|
  {
    var starts := Sorted(ends.Keys);
    var r := seq(|starts|, i requires 0 <= i < |starts| => AtStart(ends, starts[i]));
    assert forall iv :: iv in r <==> iv.start in ends && ends[iv.start] == iv.end by {
      forall iv ensures iv in r <==> iv.start in ends && ends[iv.start] == iv.end {
        ByStartMembers(ends, starts, r, iv);
      }
    }
    r
  }

  /** `slice(-lookback)` of the done intervals in time order; nothing for lookback 0. */
  function Tail(done: map<int, int>, lookback: nat): seq<Interval> {
    var sorted := ByStart(done);
    if lookback == 0 then []
    else if |sorted| <= lookback then sorted
    else sorted[|sorted| - lookback..]
  }

  /** `sort((a, b) => a.start - b.start)`: stable insertion by start. */
  function SortByStart(xs: seq<Interval>): (r: seq<Interval>)
    ensures forall iv :: iv in r <==> iv in xs
    ensures |r| == |xs|
  {
    if xs == [] then [] else
      assert xs == xs[..|xs| - 1] + [xs[|xs| - 1]];
      InsertByStart(SortByStart(xs[..|xs| - 1]), xs[|xs| - 1])
  }

  function InsertByStart(sorted: seq<Interval>, x: Interval): (r: seq<Interval>)
    ensures forall iv :: iv in r <==> iv in sorted || iv == x
    ensures |r| == |sorted| + 1
    ensures Increasing(sorted) && (forall y | y in sorted :: y.start != x.start) ==> Increasing(r)
  {
    var n := |sorted|;
    if n == 0 || sorted[n - 1].start <= x.start then
      assert Increasing(sorted) && n > 0 ==> forall y | y in sorted :: y.start <= sorted[n - 1].start;
      sorted + [x]
    else
      assert sorted == sorted[..n - 1] + [sorted[n - 1]];
      var r := InsertByStart(sorted[..n - 1], x);
      assert Increasing(sorted) ==> forall y | y in sorted[..n - 1] :: y.start < sorted[n - 1].start;
      assert forall y | y in sorted[..n - 1] :: y in sorted;
      assert sorted[n - 1] in sorted;
      r + [sorted[n - 1]]
  }

  ghost predicate DistinctStarts(xs: seq<Interval>) {
    forall i, j | 0 <= i < j < |xs| :: xs[i].start != xs[j].start
  }

  lemma {:induction false} SortIncreasing(xs: seq<Interval>)
    requires DistinctStarts(xs)
    ensures Increasing(SortByStart(xs))
  {
    if xs != [] {
      var n := |xs| - 1;
      SortIncreasing(xs[..n]);
      forall y | y in SortByStart(xs[..n]) ensures y.start != xs[n].start {
        assert y in xs[..n];
      }
    }
  }

  /** The intervals one plan recomputes: what is missing, and the lookback tail of what is done. */
  function ToRecompute(wanted: seq<Interval>, done: map<int, int>, lookback: nat): seq<Interval> {
    SortByStart(Missing(wanted, done.Keys) + Tail(done, lookback))
  }

  function Backfill(wanted: seq<Interval>, done: map<int, int>, lookback: nat): seq<Interval> {
    Merge(ToRecompute(wanted, done, lookback))
  }

  /** A ledger all of whose rows are grain intervals. */
  ghost predicate GrainLedger(done: map<int, int>, step: int)
    requires step > 0
  {
    forall s | s in done :: IsGrain(Interval(s, done[s]), step)
  }

  lemma ApartDistinct(xs: seq<Interval>, ys: seq<Interval>)
    requires Increasing(xs) && Increasing(ys)
    requires forall x, y | x in xs && y in ys :: x.start != y.start
    ensures DistinctStarts(xs + ys)
  {
    var all, n := xs + ys, |xs|;
    forall i, j | 0 <= i < j < |all| ensures all[i].start != all[j].start {
      if i < n <= j {
        var x, y := xs[i], ys[j - n];
        assert x in xs && y in ys;
      }
    }
  }

  function Later(done: map<int, int>, t: int): set<int> {
    set s | s in done && t < s
  }

  /** A done interval after which fewer than `lookback` done ones start. */
  ghost predicate Recent(done: map<int, int>, lookback: nat, iv: Interval) {
    iv.start in done && done[iv.start] == iv.end && |Later(done, iv.start)| < lookback
  }

  lemma {:induction false} StartsSize(xs: seq<Interval>)
    requires Increasing(xs)
    ensures |Starts(xs)| == |xs|
  {
    if xs != [] {
      var n := |xs| - 1;
      StartsSize(xs[..n]);
      assert xs == xs[..n] + [xs[n]];
      assert Starts(xs) == Starts(xs[..n]) + {xs[n].start};
      forall iv | iv in xs[..n] ensures iv.start < xs[n].start { }
    }
  }

  /** In time order as many done intervals are later as stand behind. */
  lemma LaterCount(done: map<int, int>, i: nat)
    requires i < |ByStart(done)|
    ensures |Later(done, ByStart(done)[i].start)| == |ByStart(done)| - 1 - i
  {
    hide ByStart;
    var sorted := ByStart(done);
    var rest := sorted[i + 1..];
    IncreasingRest(sorted, i + 1);
    StartsSize(rest);
    forall s ensures s in Later(done, sorted[i].start) <==> s in Starts(rest) {
      LaterBehind(done, sorted, i, s);
    }
    assert Later(done, sorted[i].start) == Starts(rest);
  }

  lemma LaterBehind(done: map<int, int>, sorted: seq<Interval>, i: nat, s: int)
    requires i < |sorted| && Increasing(sorted)
    requires forall iv :: iv in sorted <==> iv.start in done && done[iv.start] == iv.end
    ensures s in Later(done, sorted[i].start) <==> s in Starts(sorted[i + 1..])
  {
    var rest := sorted[i + 1..];
    if s in Later(done, sorted[i].start) {
      var iv := Interval(s, done[s]);
      var j :| 0 <= j < |sorted| && sorted[j] == iv;
      assert iv == rest[j - i - 1];
      assert iv in rest;
    }
    if s in Starts(rest) {
      var j :| 0 <= j < |rest| && rest[j].start == s;
      var iv := sorted[i + 1 + j];
      assert iv in sorted;
    }
  }

  /** The lookback tail is the done intervals after which fewer than `lookback` done ones start. */
  lemma TailMembers(done: map<int, int>, lookback: nat)
    ensures Increasing(Tail(done, lookback))
    ensures forall iv :: iv in Tail(done, lookback) <==> Recent(done, lookback, iv)
  {
    hide ByStart, Later;
    var sorted, tail := ByStart(done), Tail(done, lookback);
    var from := if lookback < |sorted| then |sorted| - lookback else 0;
    assert tail == sorted[from..];
    IncreasingRest(sorted, from);
    forall iv ensures iv in tail <==> Recent(done, lookback, iv) {
      if iv in sorted {
        var i :| 0 <= i < |sorted| && sorted[i] == iv;
        LaterCount(done, i);
        BehindOnly(sorted, from, i);
      }
    }
  }

  /** Exactly the recent done intervals, in time order: only one list is. */
  ghost predicate RecentOnes(done: map<int, int>, lookback: nat, xs: seq<Interval>) {
    Increasing(xs) && forall iv :: iv in xs <==> Recent(done, lookback, iv)
  }

  lemma RecentOnesExact(done: map<int, int>, lookback: nat, xs: seq<Interval>)
    ensures RecentOnes(done, lookback, xs) <==> xs == Tail(done, lookback)
  {
    hide Tail, Later;
    TailMembers(done, lookback);
    if RecentOnes(done, lookback, xs) {
      SameIncreasing(xs, Tail(done, lookback));
    }
  }

  lemma {:induction false} SameIncreasing(xs: seq<Interval>, ys: seq<Interval>)
    requires Increasing(xs) && Increasing(ys) && forall iv :: iv in xs <==> iv in ys
    ensures xs == ys
    decreases |xs|
  {
    if xs == [] {
      NonEmptyHasMember(ys);
    } else {
      var x := xs[0];
      assert x in xs;
      var y := ys[0];
      assert y in ys;
      assert x == y by { FirstIsLeast(xs, y); FirstIsLeast(ys, x); SameStart(xs, x, y); }
      forall iv ensures iv in xs[1..] <==> iv in ys[1..] {
        RestMembers(xs, iv);
        RestMembers(ys, iv);
      }
      SameIncreasing(xs[1..], ys[1..]);
      assert xs == [x] + xs[1..] && ys == [y] + ys[1..];
    }
  }

  lemma FirstIsLeast(xs: seq<Interval>, iv: Interval)
    requires Increasing(xs) && iv in xs
    ensures xs[0].start <= iv.start
  {
  }

  lemma SameStart(xs: seq<Interval>, x: Interval, y: Interval)
    requires Increasing(xs) && x in xs && y in xs
    ensures x.start == y.start ==> x == y
  {
  }

  lemma RestMembers(xs: seq<Interval>, iv: Interval)
    requires Increasing(xs) && xs != []
    ensures iv in xs[1..] <==> iv in xs && iv != xs[0]
  {
    assert xs == [xs[0]] + xs[1..];
  }

  lemma BehindOnly(xs: seq<Interval>, from: nat, i: nat)
    requires Increasing(xs) && from <= |xs| && i < |xs|
    ensures xs[i] in xs[from..] <==> from <= i
  {
    if from <= i { assert xs[i] == xs[from..][i - from]; }
  }

  lemma IncreasingRest(xs: seq<Interval>, n: nat)
    requires Increasing(xs) && n <= |xs|
    ensures Increasing(xs[n..]) && forall iv | iv in xs[n..] :: iv in xs
  {
  }

  lemma ToRecomputeMembers(wanted: seq<Interval>, done: map<int, int>, lookback: nat)
    requires Increasing(wanted)
    ensures Increasing(ToRecompute(wanted, done, lookback))
    ensures forall iv :: (iv in ToRecompute(wanted, done, lookback) <==>
                          (iv in wanted && iv.start !in done) || Recent(done, lookback, iv))
  {
    hide SortByStart, Missing, Tail, Later;
    var missing, tail := Missing(wanted, done.Keys), Tail(done, lookback);
    TailMembers(done, lookback);
    ApartDistinct(missing, tail);
    SortIncreasing(missing + tail);
    assert forall iv :: iv in missing + tail <==> iv in missing || iv in tail;
  }

  lemma ToRecomputeGrains(wanted: seq<Interval>, done: map<int, int>, lookback: nat, step: int)
    requires step > 0 && Grains(wanted, step) && GrainLedger(done, step)
    ensures Grains(ToRecompute(wanted, done, lookback), step)
    ensures forall iv :: (iv in ToRecompute(wanted, done, lookback) <==>
                          (iv in wanted && iv.start !in done) || Recent(done, lookback, iv))
  {
    hide ToRecompute, IsGrain, Later;
    ToRecomputeMembers(wanted, done, lookback);
    forall iv | iv in ToRecompute(wanted, done, lookback) ensures IsGrain(iv, step) {
      if Recent(done, lookback, iv) {
        assert IsGrain(Interval(iv.start, done[iv.start]), step);
      }
    }
  }

  /**
   * The planner's ranges, cut into batches of any size and then into grain intervals,
   * are exactly the wanted intervals not yet done and the done ones with fewer than
   * `lookback` done ones after them.
   */
  lemma BackfillTiles(wanted: seq<Interval>, done: map<int, int>, lookback: nat, u: Unit, batchSize: int)
    requires batchSize >= 1 && Grains(wanted, UnitMillis(u)) && GrainLedger(done, UnitMillis(u))
    ensures var batches := ChopAll(Backfill(wanted, done, lookback), BatchStep(u, batchSize));
            var marked := ChopAll(batches, UnitMillis(u));
            && marked == ToRecompute(wanted, done, lookback)
            && Increasing(marked)
            && (forall iv :: (iv in marked <==>
                               (iv in wanted && iv.start !in done) || Recent(done, lookback, iv)))
            && (forall b | b in batches :: 0 < b.end - b.start <= BatchStep(u, batchSize))
  {
    ToRecomputeGrains(wanted, done, lookback, UnitMillis(u));
    Tiling(ToRecompute(wanted, done, lookback), UnitMillis(u), batchSize);
  }
}
