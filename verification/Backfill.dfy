/**
 * Backfill of a time-range table (src/plan/executor.ts:301-363): a batch deletes its range
 * and inserts what the query yields for it, then its intervals are marked. A table is a
 * list of rows of which only the multiplicities matter; a query body is a function of the
 * range, opaque but for the two things the code counts on.
 */
module Backfills {
  import opened Common
  import opened Models
  import opened Intervals
  import opened Fingerprints
  import opened Store
  import opened Planner
  import opened Executor

  datatype Row = Row(at: int, payload: int)

  type Body = (int, int) -> seq<Row>

  function Copies(t: seq<Row>, r: Row): nat {
    multiset(t)[r]
  }

  /** DELETE WHERE time >= start AND time < end. */
  function Deleted(t: seq<Row>, iv: Interval): seq<Row> {
    if t == [] then [] else
      var n := |t| - 1;
      Deleted(t[..n], iv) + (if Within(iv, t[n].at) then [] else [t[n]])
  }

  /** One batch transaction. */
  function Replaced(t: seq<Row>, body: Body, iv: Interval): seq<Row> {
    Deleted(t, iv) + body(iv.start, iv.end)
  }

  function Reload(t: seq<Row>, body: Body, batches: seq<Interval>): seq<Row> {
    if batches == [] then t else
      var n := |batches| - 1;
      Replaced(Reload(t, body, batches[..n]), body, batches[n])
  }

  /** The body filters by its bounds. */
  ghost predicate InRange(body: Body) {
    forall a, b, r | r in body(a, b) :: a <= r.at < b
  }

  ghost predicate SplitsAt(body: Body, a: int, b: int, c: int) {
    multiset(body(a, c)) == multiset(body(a, b)) + multiset(body(b, c))
  }

  /** A range's rows are those of its two parts. */
  ghost predicate Additive(body: Body) {
    forall a, b, c | a <= b <= c :: SplitsAt(body, a, b, c)
  }

  /** How often the query yields `r`. */
  function Ideal(body: Body, r: Row): nat {
    Copies(body(r.at, r.at + 1), r)
  }

  // ----- one batch -----

  lemma {:induction false} DeletedCopies(t: seq<Row>, iv: Interval, r: Row)
    ensures Copies(Deleted(t, iv), r) == if Within(iv, r.at) then 0 else Copies(t, r)
  {
    if t != [] {
      var n := |t| - 1;
      DeletedCopies(t[..n], iv, r);
      assert t == t[..n] + [t[n]];
    }
  }

  lemma ReplacedCopies(t: seq<Row>, body: Body, iv: Interval, r: Row)
    ensures Copies(Replaced(t, body, iv), r)
            == (if Within(iv, r.at) then 0 else Copies(t, r)) + Copies(body(iv.start, iv.end), r)
  {
    DeletedCopies(t, iv, r);
  }

  lemma BodyIsSlice(body: Body, iv: Interval, r: Row)
    requires InRange(body) && Additive(body) && iv.start <= iv.end
    ensures Copies(body(iv.start, iv.end), r) == if Within(iv, r.at) then Ideal(body, r) else 0
  {
    if Within(iv, r.at) {
      assert SplitsAt(body, iv.start, r.at, iv.end);
      assert SplitsAt(body, r.at, r.at + 1, iv.end);
      assert r !in body(iv.start, r.at) && r !in body(r.at + 1, iv.end);
    } else {
      assert r !in body(iv.start, iv.end);
    }
  }

  ghost predicate RerunSafe(body: Body, iv: Interval) {
    forall t :: multiset(Replaced(Replaced(t, body, iv), body, iv)) == multiset(Replaced(t, body, iv))
  }

  /**
   * The insert does not filter: running a batch again leaves every table as it was
   * exactly when the body's rows for it lie in its range; any other row is duplicated.
   */
  lemma RerunExact(body: Body, iv: Interval)
    ensures RerunSafe(body, iv) <==> forall r | r in body(iv.start, iv.end) :: Within(iv, r.at)
  {
    if forall r | r in body(iv.start, iv.end) :: Within(iv, r.at) {
      forall t ensures multiset(Replaced(Replaced(t, body, iv), body, iv)) == multiset(Replaced(t, body, iv)) {
        var once := Replaced(t, body, iv);
        forall r ensures Copies(Replaced(once, body, iv), r) == Copies(once, r) {
          ReplacedCopies(t, body, iv, r);
          ReplacedCopies(once, body, iv, r);
        }
        SameBag(Replaced(once, body, iv), once);
      }
    } else {
      var r :| r in body(iv.start, iv.end) && !Within(iv, r.at);
      var once := Replaced([], body, iv);
      ReplacedCopies([], body, iv, r);
      ReplacedCopies(once, body, iv, r);
      assert multiset(Replaced(once, body, iv))[r] != multiset(once)[r];
    }
  }

  lemma SameBag(t: seq<Row>, u: seq<Row>)
    requires forall r :: Copies(t, r) == Copies(u, r)
    ensures multiset(t) == multiset(u)
  {
    forall r ensures multiset(t)[r] == multiset(u)[r] {
      assert Copies(t, r) == Copies(u, r);
    }
  }

  // ----- many batches -----

  ghost predicate Covered(batches: seq<Interval>, t: int) {
    exists b :: b in batches && Within(b, t)
  }

  ghost predicate Proper(batches: seq<Interval>) {
    forall b | b in batches :: b.start <= b.end
  }

  lemma {:induction false} ReloadCopies(t: seq<Row>, body: Body, batches: seq<Interval>, r: Row)
    requires InRange(body) && Additive(body) && Proper(batches)
    ensures Copies(Reload(t, body, batches), r) == if Covered(batches, r.at) then Ideal(body, r) else Copies(t, r)
  {
    if batches != [] {
      var n := |batches| - 1;
      var last := batches[n];
      assert last in batches;
      assert batches == batches[..n] + [last];
      ReloadCopies(t, body, batches[..n], r);
      ReplacedCopies(Reload(t, body, batches[..n]), body, last, r);
      BodyIsSlice(body, last, r);
      assert Covered(batches, r.at) <==> Covered(batches[..n], r.at) || Within(last, r.at);
    }
  }

  /** What a backfill leaves depends only on the time it covers: not on cuts, order or repeats. */
  lemma SameCoverSameTable(t: seq<Row>, body: Body, xs: seq<Interval>, ys: seq<Interval>)
    requires InRange(body) && Additive(body) && Proper(xs) && Proper(ys)
    requires forall u :: Covered(xs, u) <==> Covered(ys, u)
    ensures multiset(Reload(t, body, xs)) == multiset(Reload(t, body, ys))
  {
    forall r ensures Copies(Reload(t, body, xs), r) == Copies(Reload(t, body, ys), r) {
      ReloadCopies(t, body, xs, r);
      ReloadCopies(t, body, ys, r);
    }
    SameBag(Reload(t, body, xs), Reload(t, body, ys));
  }

  lemma OrderIrrelevant(t: seq<Row>, body: Body, xs: seq<Interval>, ys: seq<Interval>)
    requires InRange(body) && Additive(body) && Proper(xs) && multiset(xs) == multiset(ys)
    ensures multiset(Reload(t, body, xs)) == multiset(Reload(t, body, ys))
  {
    forall b ensures b in xs <==> b in ys {
      assert b in multiset(xs) <==> b in multiset(ys);
    }
    SameCoverSameTable(t, body, xs, ys);
  }

  lemma {:induction false} ChopCovers(range: Interval, step: int, t: int)
    requires step > 0
    ensures Covered(Chop(range, step), t) <==> Within(range, t)
    ensures Proper(Chop(range, step))
    decreases range.end - range.start
  {
    if range.start < range.end {
      var first := Interval(range.start, Min(range.start + step, range.end));
      var rest := Interval(range.start + step, range.end);
      ChopCovers(rest, step, t);
      assert Covered(Chop(range, step), t) <==> Within(first, t) || Covered(Chop(rest, step), t);
    }
  }

  lemma {:induction false} ChopAllCovers(ranges: seq<Interval>, step: int, t: int)
    requires step > 0
    ensures Covered(ChopAll(ranges, step), t) <==> Covered(ranges, t)
    ensures Proper(ChopAll(ranges, step))
  {
    if ranges != [] {
      ChopCovers(ranges[0], step, t);
      ChopAllCovers(ranges[1..], step, t);
      assert Covered(ranges, t) <==> Within(ranges[0], t) || Covered(ranges[1..], t);
      assert Covered(ChopAll(ranges, step), t)
             <==> Covered(Chop(ranges[0], step), t) || Covered(ChopAll(ranges[1..], step), t);
    }
  }

  /** Any batch size gives the table of whole-range recomputes. */
  lemma BatchSizeIrrelevant(t: seq<Row>, body: Body, ranges: seq<Interval>, step: int)
    requires InRange(body) && Additive(body) && Proper(ranges) && step > 0
    ensures multiset(Reload(t, body, ChopAll(ranges, step))) == multiset(Reload(t, body, ranges))
  {
    ChopAllCovers(ranges, step, 0);
    forall u ensures Covered(ChopAll(ranges, step), u) <==> Covered(ranges, u) {
      ChopAllCovers(ranges, step, u);
    }
    SameCoverSameTable(t, body, ChopAll(ranges, step), ranges);
  }

  ghost predicate CutSafe(body: Body, a: int, b: int, c: int) {
    multiset(Reload([], body, [Interval(a, b), Interval(b, c)])) == multiset(Reload([], body, [Interval(a, c)]))
  }

  /** Additivity is no more than batches need: without it some cut shows in the table. */
  lemma AdditivityExact(body: Body)
    requires InRange(body)
    ensures Additive(body) <==> forall a, b, c | a <= b <= c :: CutSafe(body, a, b, c)
  {
    forall a, b, c | a <= b <= c ensures CutSafe(body, a, b, c) <==> SplitsAt(body, a, b, c) {
      var left, right := Interval(a, b), Interval(b, c);
      assert [left, right][..1] == [left] && [left][..0] == [];
      var t := Replaced([], body, left);
      assert Reload([], body, [left]) == t == body(a, b);
      assert Reload([], body, [left, right]) == Replaced(t, body, right);
      forall r ensures Copies(Replaced(t, body, right), r) == Copies(body(a, b), r) + Copies(body(b, c), r) {
        ReplacedCopies(t, body, right, r);
        assert Within(right, r.at) ==> r !in body(a, b);
      }
      var whole := Interval(a, c);
      assert [whole][..0] == [];
      assert Reload([], body, [whole]) == body(a, c);
      SameBagIff(Replaced(t, body, right), body(a, b) + body(b, c), body(a, c));
    }
  }

  lemma SameBagIff(t: seq<Row>, u: seq<Row>, v: seq<Row>)
    requires forall r :: Copies(t, r) == Copies(u, r)
    ensures multiset(t) == multiset(v) <==> multiset(u) == multiset(v)
  {
    SameBag(t, u);
  }

  // ----- runs, failures, resumption -----

  /** One version's physical table and the store. */
  datatype Site = Site(table: seq<Row>, store: State)

  /** The version being backfilled, its grain, its query, and the time its model covers. */
  datatype Job = Job(fp: Fp, grain: int, body: Body, span: Interval)

  /** Batches of one or several fibers, in any interleaving: load, then mark done or failed. */
  datatype Step = Load(batch: Interval) | Commit(batch: Interval) | Abandon(batch: Interval)

  ghost predicate ValidJob(j: Job) {
    j.grain > 0 && j.span.start <= j.span.end && InRange(j.body) && Additive(j.body)
  }

  ghost predicate OnGrid(j: Job, b: Interval)
    requires j.grain > 0
  {
    b.start % j.grain == 0 && Whole(b, j.grain) && j.span.start <= b.start && b.end <= j.span.end
  }

  function Next(j: Job, s: Site, e: Step): Site
    requires j.grain > 0
  {
    match e
    case Load(b) => s.(table := Replaced(s.table, j.body, b))
    case Commit(b) => s.(store := Marked(s.store, j.fp, Chop(b, j.grain), Done))
    case Abandon(b) => s.(store := Marked(s.store, j.fp, Chop(b, j.grain), Status.Failed))
  }

  function Run(j: Job, s: Site, es: seq<Step>): Site
    requires j.grain > 0
    decreases |es|
  {
    if es == [] then s else Run(j, Next(j, s, es[0]), es[1..])
  }

  /** Only what this or an earlier run loaded is marked done. */
  ghost predicate Orderly(j: Job, loaded: set<Interval>, es: seq<Step>)
    requires j.grain > 0
    decreases |es|
  {
    es == [] ||
    (OnGrid(j, es[0].batch) && (es[0].Commit? ==> es[0].batch in loaded)
     && Orderly(j, LoadedAfter(loaded, es[0]), es[1..]))
  }

  function LoadedAfter(loaded: set<Interval>, e: Step): set<Interval> {
    if e.Load? then loaded + {e.batch} else loaded
  }

  /** The table holds exactly the query's rows for this time. */
  ghost predicate Fresh(j: Job, t: seq<Row>, iv: Interval) {
    forall r: Row | Within(iv, r.at) :: Copies(t, r) == Ideal(j.body, r)
  }

  /** Every interval marked done is a grain interval of the model and is fresh. */
  ghost predicate Honest(j: Job, s: Site)
    requires j.grain > 0
  {
    forall start | IsDone(s.store, j.fp, start) ::
      var iv := Interval(start, EndAt(s.store, j.fp, start));
      IsGrain(iv, j.grain) && OnGrid(j, iv) && Fresh(j, s.table, iv)
  }

  ghost predicate AllFresh(j: Job, s: Site, loaded: set<Interval>) {
    forall b: Interval | b in loaded :: Fresh(j, s.table, b)
  }

  lemma LoadFreshens(j: Job, t: seq<Row>, b: Interval, iv: Interval)
    requires ValidJob(j) && b.start <= b.end
    ensures Fresh(j, t, iv) ==> Fresh(j, Replaced(t, j.body, b), iv)
    ensures Fresh(j, Replaced(t, j.body, b), b)
  {
    forall r ensures Copies(Replaced(t, j.body, b), r) == if Within(b, r.at) then Ideal(j.body, r) else Copies(t, r) {
      ReplacedCopies(t, j.body, b, r);
      BodyIsSlice(j.body, b, r);
    }
  }

  /** Whole grains cut a range on the grid without remainder. */
  lemma {:induction false} PiecesOnGrid(j: Job, b: Interval, piece: Interval)
    requires j.grain > 0 && OnGrid(j, b) && piece in Chop(b, j.grain)
    ensures IsGrain(piece, j.grain) && OnGrid(j, piece) && b.start <= piece.start && piece.end <= b.end
    decreases b.end - b.start
  {
    var g := j.grain;
    assert b.start < b.end;
    ModOfMultiple(1, g);
    if b.end - b.start < g { AlignedApartFrom(b, g); }
    var rest := Interval(b.start + g, b.end);
    WholeRest(b, g, g);
    assert b.start + g == (b.start / g + 1) * g;
    ModOfMultiple(b.start / g + 1, g);
    if piece != Interval(b.start, b.start + g) {
      PiecesOnGrid(j, rest, piece);
    } else {
      assert piece.end - piece.start == 1 * g;
    }
  }

  lemma AlignedApartFrom(b: Interval, g: int)
    requires g > 0 && Whole(b, g) && b.start < b.end
    ensures b.start + g <= b.end
  {
    var d := b.end - b.start;
    assert d == d / g * g;
    assert d / g >= 1;
  }

  lemma CommitHonest(j: Job, s: Site, b: Interval)
    requires ValidJob(j) && Honest(j, s) && OnGrid(j, b) && Fresh(j, s.table, b)
    ensures Honest(j, Next(j, s, Commit(b)))
  {
    hide Additive, InRange, Ideal, Copies;
    var t, marks := Next(j, s, Commit(b)), Chop(b, j.grain);
    forall start | IsDone(t.store, j.fp, start)
      ensures var iv := Interval(start, EndAt(t.store, j.fp, start));
              IsGrain(iv, j.grain) && OnGrid(j, iv) && Fresh(j, t.table, iv)
    {
      MarkRowsAt(s.store.ledger, j.fp, marks, Done, Slot(j.fp, start));
      if start in Starts(marks) {
        PiecesOnGrid(j, b, Interval(start, EndAt(t.store, j.fp, start)));
      } else {
        assert IsDone(s.store, j.fp, start);
      }
    }
  }

  lemma AbandonHonest(j: Job, s: Site, b: Interval)
    requires ValidJob(j) && Honest(j, s)
    ensures Honest(j, Next(j, s, Abandon(b)))
  {
    hide Additive, InRange, Ideal, Copies;
    var t, marks := Next(j, s, Abandon(b)), Chop(b, j.grain);
    forall start | IsDone(t.store, j.fp, start)
      ensures IsDone(s.store, j.fp, start) && EndAt(t.store, j.fp, start) == EndAt(s.store, j.fp, start)
    {
      MarkRowsAt(s.store.ledger, j.fp, marks, Status.Failed, Slot(j.fp, start));
    }
  }

  lemma LoadHonest(j: Job, s: Site, b: Interval)
    requires ValidJob(j) && Honest(j, s) && b.start <= b.end
    ensures Honest(j, Next(j, s, Load(b)))
  {
    hide Additive, InRange, Ideal, Copies;
    forall start | IsDone(s.store, j.fp, start)
      ensures Fresh(j, Next(j, s, Load(b)).table, Interval(start, EndAt(s.store, j.fp, start)))
    {
      LoadFreshens(j, s.table, b, Interval(start, EndAt(s.store, j.fp, start)));
    }
  }

  /** The ledger stays honest through every interleaving of loads, marks and failures. */
  lemma {:induction false} HonestRun(j: Job, s: Site, loaded: set<Interval>, es: seq<Step>)
    requires ValidJob(j) && Honest(j, s) && AllFresh(j, s, loaded) && Orderly(j, loaded, es)
    ensures Honest(j, Run(j, s, es))
    decreases |es|
  {
    hide Additive, InRange, Ideal, Copies, Fresh, Honest;
    if es != [] {
      var b, t := es[0].batch, Next(j, s, es[0]);
      match es[0] {
        case Load(_) =>
          LoadHonest(j, s, b);
          forall x | x in LoadedAfter(loaded, es[0]) ensures Fresh(j, t.table, x) {
            LoadFreshens(j, s.table, b, x);
          }
        case Commit(_) => CommitHonest(j, s, b);
        case Abandon(_) => AbandonHonest(j, s, b);
      }
      HonestRun(j, t, LoadedAfter(loaded, es[0]), es[1..]);
    }
  }

  function Loads(es: seq<Step>): seq<Interval> {
    if es == [] then [] else (if es[0].Load? then [es[0].batch] else []) + Loads(es[1..])
  }

  lemma {:induction false} RunLoads(j: Job, s: Site, loaded: set<Interval>, es: seq<Step>, r: Row)
    requires ValidJob(j) && Orderly(j, loaded, es)
    ensures Within(j.span, r.at) || Copies(Run(j, s, es).table, r) == Copies(s.table, r)
    decreases |es|
  {
    if es != [] {
      var b := es[0].batch;
      if es[0].Load? {
        ReplacedCopies(s.table, j.body, b, r);
        BodyIsSlice(j.body, b, r);
      }
      RunLoads(j, Next(j, s, es[0]), LoadedAfter(loaded, es[0]), es[1..], r);
    }
  }

  // ----- resume equals recompute -----

  ghost predicate JobFor(j: Job, kind: Kind, now: int) {
    && ValidJob(j) && kind.TimeRange? && kind.batchSize >= 1 && j.grain == UnitMillis(kind.unit)
    && j.span == Interval(FloorTo(kind.unit, kind.start), FloorTo(kind.unit, now))
  }

  /** The batches a plan made from this ledger runs. */
  function Planned(kind: Kind, s: State, fp: Fp, now: int): seq<Interval>
    requires kind.TimeRange? && kind.batchSize >= 1
  {
    ChopAll(Backfill(Wanted(kind.unit, kind.start, now), DoneOf(s, fp), kind.lookback),
            BatchStep(kind.unit, kind.batchSize))
  }

  lemma HonestIsGrains(j: Job, s: Site)
    requires j.grain > 0 && Honest(j, s)
    ensures GrainLedger(DoneOf(s.store, j.fp), j.grain)
  {
    forall start | start in DoneOf(s.store, j.fp)
      ensures IsGrain(Interval(start, DoneOf(s.store, j.fp)[start]), j.grain)
    {
      DoneOfMembers(s.store, j.fp, start);
    }
  }

  /** Planned batches cover a moment iff a planned grain interval does. */
  lemma PlannedCovers(j: Job, kind: Kind, s: Site, now: int, t: int)
    requires JobFor(j, kind, now) && Honest(j, s)
    ensures var done := DoneOf(s.store, j.fp);
            Covered(Planned(kind, s.store, j.fp, now), t)
            <==> Covered(ToRecompute(Wanted(kind.unit, kind.start, now), done, kind.lookback), t)
    ensures Proper(Planned(kind, s.store, j.fp, now))
  {
    hide Honest, Additive, InRange, ToRecompute, Backfill;
    var done, wanted := DoneOf(s.store, j.fp), Wanted(kind.unit, kind.start, now);
    HonestIsGrains(j, s);
    WantedMembers(kind.unit, kind.start, now);
    BackfillTiles(wanted, done, kind.lookback, kind.unit, kind.batchSize);
    var ranges := Backfill(wanted, done, kind.lookback);
    ChopAllCovers(ranges, BatchStep(kind.unit, kind.batchSize), t);
    ChopAllCovers(Planned(kind, s.store, j.fp, now), j.grain, t);
  }

  lemma SlotOf(kind: Kind, now: int, t: int)
    requires kind.TimeRange? && FloorTo(kind.unit, kind.start) <= t < FloorTo(kind.unit, now)
    ensures var slot := Interval(FloorTo(kind.unit, t), FloorTo(kind.unit, t) + UnitMillis(kind.unit));
            slot in Wanted(kind.unit, kind.start, now) && Within(slot, t)
  {
    var g := UnitMillis(kind.unit);
    var f := FloorTo(kind.unit, t);
    WantedMembers(kind.unit, kind.start, now);
    AlignedNext(f, g);
    var until, from := FloorTo(kind.unit, now), FloorTo(kind.unit, kind.start);
    if until < f + g { AlignedApart(f, until, g); }
    if f + g <= kind.start { AlignedApart(f, from, g); }
  }

  lemma WantedInSpan(kind: Kind, now: int, iv: Interval)
    requires kind.TimeRange? && iv in Wanted(kind.unit, kind.start, now)
    ensures FloorTo(kind.unit, kind.start) <= iv.start && iv.end <= FloorTo(kind.unit, now)
  {
    var g := UnitMillis(kind.unit);
    WantedMembers(kind.unit, kind.start, now);
    var until, from := FloorTo(kind.unit, now), FloorTo(kind.unit, kind.start);
    AlignedNext(iv.start, g);
    if iv.start < from { AlignedApart(iv.start, from, g); }
    if until < iv.end { AlignedApart(until, iv.end, g); }
  }

  /** What a plan recomputes are whole grains of the model's grid. */
  lemma RecomputedOnGrid(j: Job, kind: Kind, s: Site, now: int, iv: Interval)
    requires JobFor(j, kind, now) && Honest(j, s)
    requires iv in ToRecompute(Wanted(kind.unit, kind.start, now), DoneOf(s.store, j.fp), kind.lookback)
    ensures IsGrain(iv, j.grain) && OnGrid(j, iv)
  {
    hide Additive, InRange, Fresh, Whole, ToRecompute, Later, Wanted, DoneOf;
    var done, wanted := DoneOf(s.store, j.fp), Wanted(kind.unit, kind.start, now);
    WantedMembers(kind.unit, kind.start, now);
    ToRecomputeMembers(wanted, done, kind.lookback);
    if Recent(done, kind.lookback, iv) {
      DoneOfMembers(s.store, j.fp, iv.start);
      assert iv == Interval(iv.start, EndAt(s.store, j.fp, iv.start));
    } else {
      WantedInSpan(kind, now, iv);
      WholeGrain(iv, j.grain);
    }
  }

  lemma PlannedInSpan(j: Job, kind: Kind, s: Site, now: int, t: int)
    requires JobFor(j, kind, now) && Honest(j, s) && Covered(Planned(kind, s.store, j.fp, now), t)
    ensures Within(j.span, t)
  {
    hide Honest, Additive, InRange, Planned, ToRecompute, Wanted, DoneOf, Whole, FloorTo, IsGrain;
    PlannedCovers(j, kind, s, now, t);
    var wanted, done := Wanted(kind.unit, kind.start, now), DoneOf(s.store, j.fp);
    var iv :| iv in ToRecompute(wanted, done, kind.lookback) && Within(iv, t);
    RecomputedOnGrid(j, kind, s, now, iv);
  }

  lemma PlannedReaches(j: Job, kind: Kind, s: Site, now: int, r: Row)
    requires JobFor(j, kind, now) && Honest(j, s) && Within(j.span, r.at)
    ensures Covered(Planned(kind, s.store, j.fp, now), r.at) || Copies(s.table, r) == Ideal(j.body, r)
  {
    hide Additive, InRange, Planned, Ideal, Copies;
    var done, wanted := DoneOf(s.store, j.fp), Wanted(kind.unit, kind.start, now);
    var slot := Interval(FloorTo(kind.unit, r.at), FloorTo(kind.unit, r.at) + UnitMillis(kind.unit));
    SlotOf(kind, now, r.at);
    PlannedCovers(j, kind, s, now, r.at);
    HonestIsGrains(j, s);
    WantedMembers(kind.unit, kind.start, now);
    ToRecomputeGrains(wanted, done, kind.lookback, j.grain);
    DoneOfMembers(s.store, j.fp, slot.start);
    if slot.start in done {
      assert IsGrain(Interval(slot.start, EndAt(s.store, j.fp, slot.start)), j.grain);
      assert Fresh(j, s.table, slot);
    } else {
      assert slot in ToRecompute(wanted, done, kind.lookback);
    }
  }

  /**
   * Whatever an honest table went through - any number of runs, failed at any point - the
   * next plan that completes leaves the table of one recompute of the model's whole time
   * range over the original table: nothing missing, nothing twice, nothing else touched.
   */
  lemma ResumeIsRecompute(j: Job, kind: Kind, s: Site, es: seq<Step>, now: int)
    requires JobFor(j, kind, now) && Honest(j, s) && Orderly(j, {}, es)
    ensures var broken := Run(j, s, es);
            multiset(Reload(broken.table, j.body, Planned(kind, broken.store, j.fp, now)))
            == multiset(Reload(s.table, j.body, [j.span]))
  {
    hide Additive, InRange, Planned, Honest, Ideal, Copies;
    var broken := Run(j, s, es);
    HonestRun(j, s, {}, es);
    var batches := Planned(kind, broken.store, j.fp, now);
    var resumed, whole := Reload(broken.table, j.body, batches), Reload(s.table, j.body, [j.span]);
    forall r ensures Copies(resumed, r) == Copies(whole, r) {
      PlannedCovers(j, kind, broken, now, r.at);
      ReloadCopies(broken.table, j.body, batches, r);
      ReloadCopies(s.table, j.body, [j.span], r);
      RunLoads(j, s, {}, es, r);
      assert Covered([j.span], r.at) <==> Within(j.span, r.at) by { assert j.span in [j.span]; }
      if Within(j.span, r.at) {
        PlannedReaches(j, kind, broken, now, r);
      } else if Covered(batches, r.at) {
        PlannedInSpan(j, kind, broken, now, r.at);
      }
    }
    SameBag(resumed, whole);
  }

  // ----- the loop itself -----

  /** A range whose grain pieces all lie on the grid lies on it. */
  lemma {:induction false} GridFromPieces(j: Job, b: Interval)
    requires j.grain > 0 && b.start < b.end
    requires forall piece | piece in Chop(b, j.grain) :: IsGrain(piece, j.grain) && OnGrid(j, piece)
    ensures OnGrid(j, b)
    decreases b.end - b.start
  {
    var g := j.grain;
    var first, rest := Interval(b.start, Min(b.start + g, b.end)), Interval(b.start + g, b.end);
    assert first in Chop(b, g);
    assert Chop(b, g)[1..] == Chop(rest, g);
    if rest.start < rest.end {
      forall piece | piece in Chop(rest, g) ensures IsGrain(piece, g) && OnGrid(j, piece) {
        assert piece in Chop(b, g);
      }
      GridFromPieces(j, rest);
      var d := rest.end - rest.start;
      assert d == d / g * g;
      assert b.end - b.start == (d / g + 1) * g;
      ModOfMultiple(d / g + 1, g);
    }
  }

  lemma {:induction false} PieceOfAll(ranges: seq<Interval>, g: int, b: Interval, piece: Interval)
    requires g > 0 && b in ranges && piece in Chop(b, g)
    ensures piece in ChopAll(ranges, g)
  {
    if b != ranges[0] { PieceOfAll(ranges[1..], g, b, piece); }
  }

  /** A plan's batches lie on the model's grid, inside the time it covers. */
  lemma PlannedOnGrid(j: Job, kind: Kind, s: Site, now: int, b: Interval)
    requires JobFor(j, kind, now) && Honest(j, s) && b in Planned(kind, s.store, j.fp, now)
    ensures OnGrid(j, b)
  {
    hide Honest, Additive, InRange, OnGrid, IsGrain, Chop, ChopAll, ToRecompute, Wanted, DoneOf, Backfill;
    var done, wanted := DoneOf(s.store, j.fp), Wanted(kind.unit, kind.start, now);
    HonestIsGrains(j, s);
    WantedMembers(kind.unit, kind.start, now);
    BackfillTiles(wanted, done, kind.lookback, kind.unit, kind.batchSize);
    forall piece | piece in Chop(b, j.grain) ensures IsGrain(piece, j.grain) && OnGrid(j, piece) {
      PieceOfAll(Planned(kind, s.store, j.fp, now), j.grain, b, piece);
      RecomputedOnGrid(j, kind, s, now, piece);
    }
    GridFromPieces(j, b);
  }

  /** How one batch ends: loaded and marked, or where it broke. */
  datatype Outcome = Marks | LoadFails | AuditFails | MarkFails

  function StepsOf(b: Interval, o: Outcome): seq<Step> {
    match o
    case Marks => [Load(b), Commit(b)]
    case LoadFails => [Abandon(b)]
    case AuditFails => [Load(b), Abandon(b)]
    case MarkFails => [Load(b)]
  }

  /** A failed batch aborts the run. */
  function Taken(batches: seq<Interval>, outcome: nat -> Outcome, i: nat): seq<Step>
    requires i <= |batches|
    decreases |batches| - i
  {
    if i == |batches| then []
    else StepsOf(batches[i], outcome(i)) + (if outcome(i).Marks? then Taken(batches, outcome, i + 1) else [])
  }

  lemma {:induction false} TakenOrderly(j: Job, loaded: set<Interval>, batches: seq<Interval>, outcome: nat -> Outcome,
                                        i: nat)
    requires j.grain > 0 && i <= |batches| && forall b | b in batches :: OnGrid(j, b)
    ensures Orderly(j, loaded, Taken(batches, outcome, i))
    decreases |batches| - i
  {
    hide OnGrid;
    if i < |batches| {
      var b, es := batches[i], Taken(batches, outcome, i);
      assert b in batches;
      if outcome(i).Marks? {
        var rest := Taken(batches, outcome, i + 1);
        TakenOrderly(j, loaded + {b}, batches, outcome, i + 1);
        assert es == [Load(b), Commit(b)] + rest;
        assert es[1..] == [Commit(b)] + rest && es[1..][1..] == rest;
        assert Orderly(j, loaded + {b}, es[1..]);
      } else {
        assert es == StepsOf(b, outcome(i));
        assert es[0] == Load(b) || es[0] == Abandon(b);
        assert es[1..] == [] || (es[1..] == [Abandon(b)] && es[1..][1..] == []);
        assert Orderly(j, LoadedAfter(loaded, es[0]), es[1..]);
      }
    }
  }

  /** One physical table of the engine. */
  class Warehouse {
    var table: seq<Row>

    constructor ()
      ensures table == []
    {
      table := [];
    }

    method DeleteInsert(body: Body, range: Interval)
      modifies this
      ensures table == Replaced(old(table), body, range)
    {
      table := Deleted(table, range);
      table := table + body(range.start, range.end);
    }
  }

  lemma {:induction false} RunAppend(j: Job, s: Site, es: seq<Step>, fs: seq<Step>)
    requires j.grain > 0
    ensures Run(j, s, es + fs) == Run(j, Run(j, s, es), fs)
    decreases |es|
  {
    if es == [] {
      assert es + fs == fs;
    } else {
      assert (es + fs)[1..] == es[1..] + fs;
      RunAppend(j, Next(j, s, es[0]), es[1..], fs);
    }
  }

  lemma OneBatch(j: Job, s: Site, b: Interval, o: Outcome)
    requires j.grain > 0
    ensures Run(j, s, StepsOf(b, o)) ==
              Site(if o.LoadFails? then s.table else Replaced(s.table, j.body, b),
                   if o.Marks? then Marked(s.store, j.fp, Chop(b, j.grain), Done)
                   else if o.MarkFails? then s.store
                   else Marked(s.store, j.fp, Chop(b, j.grain), Status.Failed))
  {
    hide Marked, Replaced;
    var es := StepsOf(b, o);
    if |es| == 2 {
      assert es[1..] == [es[1]] && [es[1]][1..] == [];
      assert Run(j, Next(j, s, es[0]), [es[1]]) == Next(j, Next(j, s, es[0]), es[1]);
    } else {
      assert es[1..] == [];
    }
  }

  /** One batch: load, audit, mark; a failure before the mark marks its intervals failed. */
  method RunBatch(wh: Warehouse, store: StateStore, j: Job, unit: Unit, b: Interval, o: Outcome)
    requires j.grain == UnitMillis(unit)
    modifies wh, store
    ensures Site(wh.table, store.View()) == Run(j, Site(old(wh.table), old(store.View())), StepsOf(b, o))
    ensures wh.table == if o.LoadFails? then old(wh.table) else Replaced(old(wh.table), j.body, b)
    ensures store.View() == if o.Marks? then Marked(old(store.View()), j.fp, Chop(b, j.grain), Done)
                            else if o.MarkFails? then old(store.View())
                            else Marked(old(store.View()), j.fp, Chop(b, j.grain), Status.Failed)
  {
    hide Marked, Replaced, Chop, StepsOf;
    OneBatch(j, Site(wh.table, store.View()), b, o);
    var marks := IntervalsWithin(b, unit);
    if !o.LoadFails? {
      wh.DeleteInsert(j.body, b);
    }
    if o.Marks? {
      store.MarkIntervals(j.fp, marks, Done);
    } else if !o.MarkFails? {
      store.MarkIntervals(j.fp, marks, Status.Failed);
    }
  }

  lemma TakenStep(j: Job, s: Site, batches: seq<Interval>, outcome: nat -> Outcome, i: nat)
    requires j.grain > 0 && i < |batches|
    ensures Run(j, s, Taken(batches, outcome, i))
            == Run(j, Run(j, s, StepsOf(batches[i], outcome(i))),
                   if outcome(i).Marks? then Taken(batches, outcome, i + 1) else [])
  {
    hide StepsOf, Next;
    RunAppend(j, s, StepsOf(batches[i], outcome(i)),
              if outcome(i).Marks? then Taken(batches, outcome, i + 1) else []);
  }

  lemma OneMore(batches: seq<Interval>, i: nat)
    requires i < |batches|
    ensures batches[..i + 1] == batches[..i] + [batches[i]] && batches[..i + 1][..i] == batches[..i]
  {
  }

  /**
   * The batches of one action against table and store, one after another (DuckDB's single
   * connection). It performs exactly the steps of its outcomes; without a failure the table
   * is reloaded batch by batch and every batch is marked done.
   */
  method BackfillIntoTable(wh: Warehouse, store: StateStore, j: Job, unit: Unit, batches: seq<Interval>,
                           outcome: nat -> Outcome)
    returns (r: Result<(), nat>)
    requires j.grain == UnitMillis(unit)
    modifies wh, store
    ensures Site(wh.table, store.View()) == Run(j, Site(old(wh.table), old(store.View())), Taken(batches, outcome, 0))
    ensures r.Ok? <==> forall i | 0 <= i < |batches| :: outcome(i).Marks?
    ensures r.Ok? ==> wh.table == Reload(old(wh.table), j.body, batches)
                      && store.View() == MarkBatches(old(store.View()), j.fp, batches, j.grain)
    ensures r.Err? ==> r.error < |batches| && !outcome(r.error).Marks?
                       && forall i | 0 <= i < r.error :: outcome(i).Marks?
    ensures r.Err? ==>
              var done, failed := batches[..r.error], outcome(r.error);
              && wh.table == Reload(old(wh.table), j.body,
                                    if failed.LoadFails? then done else done + [batches[r.error]])
              && store.View() == var marked := MarkBatches(old(store.View()), j.fp, done, j.grain);
                                 if failed.MarkFails? then marked
                                 else Marked(marked, j.fp, Chop(batches[r.error], j.grain), Status.Failed)
  {
    hide Marked, Replaced, Chop, StepsOf, Next;
    ghost var s := Site(wh.table, store.View());
    for i := 0 to |batches|
      invariant wh.table == Reload(s.table, j.body, batches[..i])
      invariant store.View() == MarkBatches(s.store, j.fp, batches[..i], j.grain)
      invariant Run(j, Site(wh.table, store.View()), Taken(batches, outcome, i))
                == Run(j, s, Taken(batches, outcome, 0))
      invariant forall k | 0 <= k < i :: outcome(k).Marks?
    {
      OneMore(batches, i);
      TakenStep(j, Site(wh.table, store.View()), batches, outcome, i);
      RunBatch(wh, store, j, unit, batches[i], outcome(i));
      if !outcome(i).Marks? {
        return Err(i);
      }
    }
    assert batches[..|batches|] == batches;
    r := Ok(());
  }

  /** A planned run that fails anywhere, then a plan from what it left: the whole recompute. */
  lemma FailedRunResumes(j: Job, kind: Kind, s: Site, outcome: nat -> Outcome, now: int)
    requires JobFor(j, kind, now) && Honest(j, s)
    ensures var failed := Run(j, s, Taken(Planned(kind, s.store, j.fp, now), outcome, 0));
            multiset(Reload(failed.table, j.body, Planned(kind, failed.store, j.fp, now)))
            == multiset(Reload(s.table, j.body, [j.span]))
  {
    hide Planned, Honest, Taken, Reload, OnGrid, Additive, InRange;
    var batches := Planned(kind, s.store, j.fp, now);
    forall b | b in batches ensures OnGrid(j, b) {
      PlannedOnGrid(j, kind, s, now, b);
    }
    TakenOrderly(j, {}, batches, outcome, 0);
    ResumeIsRecompute(j, kind, s, Taken(batches, outcome, 0), now);
  }

  // ----- a failed batch is planned again -----

  /** A batch that failed is not done any more, whatever the ledger said of it. */
  lemma FailedNotDone(j: Job, s: Site, b: Interval, o: Outcome, start: int)
    requires j.grain > 0 && (o.LoadFails? || o.AuditFails?)
    ensures var t := Run(j, s, StepsOf(b, o));
            IsDone(t.store, j.fp, start) <==>
              IsDone(s.store, j.fp, start) && start !in Starts(Chop(b, j.grain))
    ensures Run(j, s, StepsOf(b, o)).table == if o.LoadFails? then s.table else Replaced(s.table, j.body, b)
  {
    hide Chop, Replaced, StepsOf;
    OneBatch(j, s, b, o);
    MarkRowsAt(s.store.ledger, j.fp, Chop(b, j.grain), Status.Failed, Slot(j.fp, start));
  }

  lemma GrainsOfBatch(j: Job, b: Interval, u: Unit, t: int)
    requires j.grain == UnitMillis(u) && OnGrid(j, b) && Within(b, t)
    ensures FloorTo(u, t) in Starts(Chop(b, j.grain))
  {
    hide OnGrid, FloorTo;
    ChopCovers(b, j.grain, t);
    var piece :| piece in Chop(b, j.grain) && Within(piece, t);
    PiecesAreGrains(j, b, piece);
    var f := FloorTo(u, t);
    if piece.start < f { AlignedApart(piece.start, f, j.grain); }
    if f < piece.start { AlignedApart(f, piece.start, j.grain); }
  }

  lemma {:induction false} PiecesAreGrains(j: Job, b: Interval, piece: Interval)
    requires j.grain > 0 && OnGrid(j, b) && piece in Chop(b, j.grain)
    ensures IsGrain(piece, j.grain)
    decreases b.end - b.start
  {
    var g := j.grain;
    var d := b.end - b.start;
    AlignedApart(0, d, g);
    var rest := Interval(b.start + g, b.end);
    if piece in Chop(rest, g) {
      AlignedNext(b.start, g);
      ModShift(d, g);
      PiecesAreGrains(j, rest, piece);
    }
  }

  /** So the next plan computes all of its time again. */
  lemma FailedIsReplanned(j: Job, kind: Kind, s: Site, now: int, b: Interval, o: Outcome, t: int)
    requires JobFor(j, kind, now) && Honest(j, s) && b in Planned(kind, s.store, j.fp, now)
    requires (o.LoadFails? || o.AuditFails?) && Within(b, t)
    ensures Covered(Planned(kind, Run(j, s, StepsOf(b, o)).store, j.fp, now), t)
  {
    hide Additive, InRange, Planned, Honest, Fresh, Wanted, ToRecompute, DoneOf, Chop, StepsOf, OnGrid;
    var after := Run(j, s, StepsOf(b, o));
    PlannedOnGrid(j, kind, s, now, b);
    FailedStepsOrderly(j, b, o);
    HonestRun(j, s, {}, StepsOf(b, o));
    PlannedCovers(j, kind, after, now, t);
    var wanted, done := Wanted(kind.unit, kind.start, now), DoneOf(after.store, j.fp);
    GrainsOfBatch(j, b, kind.unit, t);
    FailedNotDone(j, s, b, o, FloorTo(kind.unit, t));
    DoneOfMembers(after.store, j.fp, FloorTo(kind.unit, t));
    GridInSpan(j, b);
    SlotOf(kind, now, t);
    WantedMembers(kind.unit, kind.start, now);
    ToRecomputeMembers(wanted, done, kind.lookback);
    var slot := Interval(FloorTo(kind.unit, t), FloorTo(kind.unit, t) + UnitMillis(kind.unit));
    assert slot in ToRecompute(wanted, done, kind.lookback);
  }

  lemma GridInSpan(j: Job, b: Interval)
    requires j.grain > 0 && OnGrid(j, b)
    ensures j.span.start <= b.start && b.end <= j.span.end
  {
  }

  lemma FailedStepsOrderly(j: Job, b: Interval, o: Outcome)
    requires j.grain > 0 && OnGrid(j, b) && (o.LoadFails? || o.AuditFails?)
    ensures Orderly(j, {}, StepsOf(b, o))
  {
    hide OnGrid;
    var es := StepsOf(b, o);
    assert es[1..] == [] || (es[1..] == [Abandon(b)] && es[1..][1..] == []);
    assert Orderly(j, LoadedAfter({}, es[0]), es[1..]);
  }
}
