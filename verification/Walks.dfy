// What a replay does along a segment and over a candle (botdca/backtest.py, lines 242-294), said of
// the prices alone: which orders fill and at what price, and that none on the way is left out.
module Walks {
  import opened Common
  import opened Domain
  import opened Strategy
  import opened Replay

  // ---------------------------------------------------------------- going down

  // The strategy holding other fills.
  function WithFills(s: State, fills: seq<Fill>): State {
    if s.cycle.None? then s else s.(cycle := Some(s.cycle.value.(fills := fills)))
  }

  // The price reached before fill k, the first n being those at the start.
  function Before(grown: seq<Fill>, n: nat, k: nat, current: real): real
    requires n <= k <= |grown|
  {
    if k == n then current else grown[k - 1].price
  }

  // Fill k is the strategy's next one after the fills before it, at its own trigger, which lies
  // between the price reached and the end.
  ghost predicate FillsNext(b: Book, grown: seq<Fill>, k: nat, end: real, current: real)
    requires |OpenFills(b)| <= k < |grown|
  {
    var s := WithFills(b.strategy, grown[..k]);
    && s.NextTrigger() == Some(grown[k].price) && s.NextQty() == Some(grown[k].qty) && grown[k].kind == DcaFill
    && end <= grown[k].price <= Before(grown, |OpenFills(b)|, k, current)
  }

  // From `b` to `after`: the strategy's own triggers have filled one after the other, and the next
  // one, if there is any, lies below the end or above the last price reached.
  ghost predicate Descends(b: Book, after: Book, end: real, current: real) {
    var fills, grown, next := OpenFills(b), OpenFills(after), after.strategy.NextTrigger();
    && fills <= grown && after.cycles == b.cycles && after.strategy == WithFills(b.strategy, grown)
    && (forall k | |fills| <= k < |grown| :: FillsNext(b, grown, k, end, current))
    && (next.None? || next.value < end || next.value > Before(grown, |fills|, |grown|, current))
  }

  // A downward segment fills exactly the triggers on its way.
  lemma {:induction false} DownFillsExactly(p: Params, b: Book, end: real, current: real)
    requires Accepted(p) && Sound(p, b) && end > 0.0
    ensures Descends(b, DownWalk(p, b, end, current), end, current)
    decreases RemainingLevels(p, b)
  {
    if Triggers(b, end, current) {
      var trigger := b.strategy.NextTrigger().value;
      var deeper := AddDca(p, b, trigger);
      DcaKeepsSound(p, b, trigger);
      DownFillsExactly(p, deeper, end, trigger);
      DescendsFrom(p, b, deeper, DownWalk(p, deeper, end, trigger), end, current);
    } else {
      assert WithFills(b.strategy, OpenFills(b)) == b.strategy;
    }
  }

  // One more fill at the start.
  lemma DescendsFrom(p: Params, b: Book, deeper: Book, after: Book, end: real, current: real)
    requires Accepted(p) && Sound(p, b) && Triggers(b, end, current) && end > 0.0
    requires deeper == AddDca(p, b, b.strategy.NextTrigger().value)
    requires Descends(deeper, after, end, b.strategy.NextTrigger().value)
    ensures Descends(b, after, end, current)
  {
    var trigger, n, grown := b.strategy.NextTrigger().value, |OpenFills(b)|, OpenFills(after);
    DcaKeepsSound(p, b, trigger);
    assert grown[..n] == OpenFills(b) && grown[n] == OpenFills(deeper)[n];
    assert WithFills(b.strategy, grown[..n]) == b.strategy;
    forall k | n <= k < |grown| ensures FillsNext(b, grown, k, end, current) {
      if k > n {
        assert FillsNext(deeper, grown, k, end, trigger);
        assert WithFills(deeper.strategy, grown[..k]) == WithFills(b.strategy, grown[..k]);
      }
    }
    assert WithFills(deeper.strategy, grown) == WithFills(b.strategy, grown);
  }

  // ---------------------------------------------------------------- going up

  // Selling these fills at the price earns the configured percentage on what they cost.
  predicate IsTarget(p: Params, fills: seq<Fill>, price: real) {
    Product(price, TotalQty(fills)) == Product(Notional(fills), 1.0 + p.config.tpPercent / 100.0)
  }

  // The basket opened at a price.
  function EntryAt(p: Params, price: real): seq<Fill>
    requires price > 0.0
  {
    [Fill(price, Fresh(p.config, p.reference).InitialQty(price), InitialFill)]
  }

  // After this many baskets another one opens at once.
  predicate Reopens(p: Params, count: nat) {
    p.autoReentry && p.reentryDelayMs <= 0 && (p.maximumCycles.Some? ==> count < p.maximumCycles.value)
  }

  // The price reached before close k, the first n baskets being those at the start.
  function Reached(cycles: seq<CycleReplay>, n: nat, k: nat, current: real): real
    requires n <= k <= |cycles|
  {
    if k == n then current else cycles[k - 1].exitPrice
  }

  // Basket k is the one at the start, or one opened where the basket before was closed; it is closed
  // at its target, which lies between the price reached and the end.
  ghost predicate ClosesNext(p: Params, b: Book, cycles: seq<CycleReplay>, k: nat, end: real, current: real)
    requires |b.cycles| <= k < |cycles|
  {
    var from := Reached(cycles, |b.cycles|, k, current);
    && (if k == |b.cycles| then cycles[k].fills == OpenFills(b)
        else Reopens(p, k) && from > 0.0 && cycles[k].fills == EntryAt(p, from))
    && IsTarget(p, cycles[k].fills, cycles[k].exitPrice) && from <= cycles[k].exitPrice <= end
  }

  // From `b` to `after`: baskets were closed at their targets one after the other. The one left, if
  // there is any, has its target beyond the end or behind the last price reached; none is left
  // exactly when there was none to begin with or no other was to be opened.
  ghost predicate Climbs(p: Params, b: Book, after: Book, end: real, current: real, nowMs: int) {
    var n, m := |b.cycles|, |after.cycles|;
    && b.cycles <= after.cycles
    && (forall k | n <= k < m :: ClosesNext(p, b, after.cycles, k, end, current))
    && var last := Reached(after.cycles, n, m, current);
       && (after.strategy.cycle.Some? ==>
             && (if m == n then after == b else Reopens(p, m) && last > 0.0 && OpenFills(after) == EntryAt(p, last))
             && forall price | IsTarget(p, OpenFills(after), price) :: price > end || price < last)
       && (after.strategy.cycle.None? ==> if m == n then after == b else !Reopens(p, m))
       && (m > n && after.strategy.cycle.None? ==>
             (after.stopped <==> b.stopped || !p.autoReentry || (p.maximumCycles.Some? && m >= p.maximumCycles.value)))
       && (m > n && !after.stopped ==> after.nextEligibleMs == nowMs + p.reentryDelayMs)
  }

  // The take-profit price is the target, and there is only one.
  lemma TargetIsTp(p: Params, b: Book)
    requires Accepted(p) && Sound(p, b) && b.strategy.cycle.Some?
    ensures b.strategy.cycle.value.TpPrice().Some? && IsTarget(p, OpenFills(b), Tp(b))
    ensures forall price | IsTarget(p, OpenFills(b), price) :: price == Tp(b)
  {
    var fills := OpenFills(b);
    PositiveQty(fills);
    var qty := TotalQty(fills);
    TakeProfitGross(Notional(fills), qty, p.config.tpPercent);
    Distribute(Notional(fills), 1.0, p.config.tpPercent / 100.0);
    assert Product(Notional(fills), 1.0) == Notional(fills);
    forall price | IsTarget(p, fills, price) ensures price == Tp(b) {
      Undo(qty, price);
      Undo(qty, Tp(b));
      assert Product(qty, price) == Product(price, qty) && Product(qty, Tp(b)) == Product(Tp(b), qty);
    }
  }

  // An upward segment closes exactly the targets on its way.
  lemma {:induction false} UpClosesExactly(p: Params, b: Book, end: real, current: real, nowMs: int)
    requires ValidParams(p) && Sound(p, b) && current > 0.0
    ensures Climbs(p, b, UpWalk(p, b, end, current, nowMs), end, current, nowMs)
    decreases UpMeasure(p, b, end, current)
  {
    if b.strategy.cycle.Some? {
      TargetIsTp(p, b);
    }
    if TakesProfit(b, end, current) {
      var (closed, again) := AfterClose(p, b, nowMs);
      CloseKeepsSound(p, b, nowMs);
      if again {
        var next := OpenCycle(p, closed, Tp(b), nowMs);
        OpenKeepsSound(p, closed, Tp(b), nowMs);
        UpMeasureFalls(p, b, end, current, nowMs);
        UpClosesExactly(p, next, end, Tp(b), nowMs);
        UpKeepsSound(p, next, end, Tp(b), nowMs);
        ClimbsFrom(p, b, UpWalk(p, next, end, Tp(b), nowMs), end, current, nowMs);
      }
    }
  }

  // One more close and reopening at the start.
  lemma ClimbsFrom(p: Params, b: Book, after: Book, end: real, current: real, nowMs: int)
    requires ValidParams(p) && Sound(p, b) && current > 0.0 && TakesProfit(b, end, current)
    requires AfterClose(p, b, nowMs).1
    requires var next := OpenCycle(p, AfterClose(p, b, nowMs).0, Tp(b), nowMs);
             Climbs(p, next, after, end, Tp(b), nowMs)
    ensures Climbs(p, b, after, end, current, nowMs)
  {
    var n := |b.cycles|;
    var closed := AfterClose(p, b, nowMs).0;
    var next := OpenCycle(p, closed, Tp(b), nowMs);
    CloseKeepsSound(p, b, nowMs);
    OpenKeepsSound(p, closed, Tp(b), nowMs);
    TargetIsTp(p, b);
    assert after.cycles[n] == next.cycles[n] == ReplayOf(p, b, Tp(b), nowMs);
    forall k | n <= k < |after.cycles| ensures ClosesNext(p, b, after.cycles, k, end, current) {
      if k > n {
        assert ClosesNext(p, next, after.cycles, k, end, Tp(b));
      }
    }
  }

  // A segment goes up, down or nowhere.
  lemma {:induction false} SegmentExactly(p: Params, b: Book, start: real, end: real, nowMs: int)
    requires ValidParams(p) && Sound(p, b) && start > 0.0 && end > 0.0
    ensures end > start ==> Climbs(p, b, Traverse(p, b, start, end, nowMs), end, start, nowMs)
    ensures end < start ==> Descends(b, Traverse(p, b, start, end, nowMs), end, start)
    ensures end == start ==> Traverse(p, b, start, end, nowMs) == b
  {
    if end > start {
      UpClosesExactly(p, b, end, start, nowMs);
    } else if end < start {
      DownFillsExactly(p, b, end, start);
    }
  }

  // ---------------------------------------------------------------- over a candle

  // A candle's path starts at its open and ends at its close, in three monotone segments that turn at
  // its extremes, the low first or the high first.
  lemma PointsVisit(c: Candle, path: IntrabarPath)
    requires ValidCandle(c)
    ensures var points := Points(c, path);
            && |points| == 4 && points[0] == c.open && points[3] == c.close
            && (path.LowFirst? ==> points[1] == c.low && points[2] == c.high)
            && (path.HighFirst? ==> points[1] == c.high && points[2] == c.low)
            && (forall i | 0 <= i < 4 :: c.low <= points[i] <= c.high)
  {
  }

  // A basket is entered at the open exactly when none is open, another may be, and it is time.
  lemma {:induction false} EntersExactly(p: Params, funding: Option<FundingModel>, b: Book, c: Candle)
    requires Accepted(p) && Sound(p, b) && ValidCandle(c)
    ensures var (entered, traversed) := Enter(p, funding, b, c);
            && (traversed <==> entered.strategy.cycle.Some?)
            && (traversed <==> b.strategy.cycle.Some?
                               || ((p.autoReentry || b.cycles == []) && c.startMs >= b.nextEligibleMs))
            && entered.cycles == b.cycles && entered.stopped == b.stopped
            && (if b.strategy.cycle.Some? then entered.strategy == b.strategy
                else traversed ==> OpenFills(entered) == EntryAt(p, c.open))
            && entered.funding == b.funding
                                  + if funding.Some? && b.strategy.cycle.Some?
                                    then funding.value(c.startMs, c.open, TotalQty(OpenFills(b))) else 0.0
  {
    var funded := ApplyFunding(funding, b, c.startMs, c.open);
    if funded.strategy.cycle.None? {
      OpenKeepsSound(p, funded, c.open, c.startMs);
    }
  }

  // The book after walking to a price.
  function Walked(p: Params, b: Book, points: seq<real>, nowMs: int): Book
    requires ValidParams(p) && Sound(p, b) && PositivePoints(points) && points != []
    ensures Sound(p, Walked(p, b, points, nowMs))
    decreases |points|
  {
    if |points| == 1 then b
    else
      TraverseKeepsSound(p, b, points[0], points[1], nowMs);
      Walked(p, Traverse(p, b, points[0], points[1], nowMs), points[1..], nowMs)
  }

  // A candle that is traversed walks from its open to its two extremes and then to its close.
  lemma {:induction false} StepWalks(p: Params, funding: Option<FundingModel>, b: Book, c: Candle)
    requires ValidParams(p) && Sound(p, b) && ValidCandle(c)
    ensures Sound(p, Enter(p, funding, b, c).0)
    ensures var (entered, traversed) := Enter(p, funding, b, c);
            Step(p, funding, b, c)
            == if !traversed then entered
               else if p.path.LowFirst? then Walked(p, entered, [c.open, c.low, c.high, c.close], c.startMs)
               else Walked(p, entered, [c.open, c.high, c.low, c.close], c.startMs)
  {
    EnterKeepsSound(p, funding, b, c);
    var entered, points := Enter(p, funding, b, c).0, Points(c, p.path);
    SegmentsWalk(p, entered, points, c.startMs);
  }

  lemma SegmentsWalk(p: Params, b: Book, points: seq<real>, nowMs: int)
    requires ValidParams(p) && Sound(p, b) && PositivePoints(points) && |points| == 4
    ensures Segments(p, b, points, 1, nowMs) == Walked(p, b, points[..2], nowMs)
    ensures Segments(p, b, points, 2, nowMs) == Walked(p, b, points[..3], nowMs)
    ensures Segments(p, b, points, 3, nowMs) == Walked(p, b, points, nowMs)
  {
    var one := Segments(p, b, points, 1, nowMs);
    var two := Segments(p, b, points, 2, nowMs);
    assert Segments(p, b, points, 0, nowMs) == b;
    assert one == Traverse(p, b, points[0], points[1], nowMs);
    assert two == Traverse(p, one, points[1], points[2], nowMs);
    assert Segments(p, b, points, 3, nowMs) == Traverse(p, two, points[2], points[3], nowMs);
    assert points[..2][1..] == [points[1]] && points[..3][1..] == [points[1], points[2]];
    assert points[..3][1..][1..] == [points[2]];
    assert Walked(p, b, points[..2], nowMs) == Walked(p, one, [points[1]], nowMs);
    assert Walked(p, b, points[..3], nowMs) == Walked(p, one, [points[1], points[2]], nowMs);
    assert Walked(p, one, [points[1], points[2]], nowMs) == Walked(p, two, [points[2]], nowMs);
    assert points[1..][1..] == points[2..] && points[1..][0] == points[1] && points[1..][1] == points[2];
    assert points[2..][1..] == [points[3]] && points[2..][0] == points[2] && points[2..][1] == points[3];
    assert Walked(p, b, points, nowMs) == Walked(p, one, points[1..], nowMs);
    assert Walked(p, one, points[1..], nowMs) == Walked(p, two, points[2..], nowMs);
    assert Walked(p, two, points[2..], nowMs)
           == Walked(p, Traverse(p, two, points[2], points[3], nowMs), [points[3]], nowMs);
  }

  // A stopped replay is not touched by further candles.
  lemma {:induction false} StoppedStays(p: Params, funding: Option<FundingModel>, candles: seq<Candle>,
                                        more: seq<Candle>)
    requires ValidParams(p) && forall i | 0 <= i < |candles + more| :: ValidCandle((candles + more)[i])
    requires forall i | 0 <= i < |candles| :: ValidCandle(candles[i])
    requires RunBook(p, funding, candles).stopped
    ensures RunBook(p, funding, candles + more) == RunBook(p, funding, candles)
  {
    if more == [] {
      assert candles + more == candles;
    } else {
      var n := |more| - 1;
      assert (candles + more)[..|candles| + n] == candles + more[..n];
      StoppedStays(p, funding, candles, more[..n]);
    }
  }

  // ---------------------------------------------------------------- marks

  // The marked equity: what is realised less funding, and what closing at the price would leave.
  lemma EquityIs(p: Params, b: Book, price: real)
    ensures b.strategy.cycle.None? ==> EquityAt(p, b, price) == b.net - b.funding
    ensures b.strategy.cycle.Some? ==>
              EquityAt(p, b, price)
              == b.net - b.funding + Product(price, TotalQty(OpenFills(b))) - Notional(OpenFills(b))
                 - b.currentEntryFees - Product(Product(price, TotalQty(OpenFills(b))), p.feeRate)
  {
    GrossIsSpread(OpenFills(b), price);
  }

  // Every close is marked before it, every fill before and after it, and the end of every segment.
  lemma {:induction false} SegmentIsMarked(p: Params, b: Book, start: real, end: real, nowMs: int)
    requires ValidParams(p) && Sound(p, b) && start > 0.0 && end > 0.0
    ensures var marks, after := TraverseMarks(p, b, start, end, nowMs), Traverse(p, b, start, end, nowMs);
            && |marks| == 1 + (|after.cycles| - |b.cycles|)
                          + (if end < start then 2 * (|OpenFills(after)| - |OpenFills(b)|) else 0)
            && marks[|marks| - 1] == EquityAt(p, after, end)
  {
    if end > start {
      UpIsMarked(p, b, end, start, nowMs);
    } else if end < start {
      DownIsMarked(p, b, end, start);
    }
  }

  // The marks begin with the equity at the first point, and the j-th, the k-th and the last are those
  // of the books the walk has reached at the other points.
  ghost predicate MarksWalk(p: Params, b: Book, points: seq<real>, nowMs: int, marks: seq<real>, j: nat, k: nat)
    requires ValidParams(p) && Sound(p, b) && PositivePoints(points) && |points| == 4
  {
    && 0 < j < k < |marks| - 1
    && marks[0] == EquityAt(p, b, points[0])
    && marks[j] == EquityAt(p, Walked(p, b, points[..2], nowMs), points[1])
    && marks[k] == EquityAt(p, Walked(p, b, points[..3], nowMs), points[2])
    && marks[|marks| - 1] == EquityAt(p, Walked(p, b, points, nowMs), points[3])
  }

  // A candle that is traversed is marked at its open, at both extremes and at its close, on the books
  // the walk has reached there; one that is not is not marked at all.
  lemma {:induction false} CandleIsMarked(p: Params, funding: Option<FundingModel>, b: Book, c: Candle)
    returns (j: nat, k: nat)
    requires ValidParams(p) && Sound(p, b) && ValidCandle(c)
    ensures Sound(p, Enter(p, funding, b, c).0)
    ensures !Enter(p, funding, b, c).1 <==> StepMarks(p, funding, b, c) == []
    ensures Enter(p, funding, b, c).1 ==>
              MarksWalk(p, Enter(p, funding, b, c).0, Points(c, p.path), c.startMs, StepMarks(p, funding, b, c), j, k)
  {
    EnterKeepsSound(p, funding, b, c);
    j, k := SegmentsAreMarked(p, Enter(p, funding, b, c).0, Points(c, p.path), c.startMs);
  }

  lemma {:induction false} SegmentsAreMarked(p: Params, b: Book, points: seq<real>, nowMs: int) returns (j: nat, k: nat)
    requires ValidParams(p) && Sound(p, b) && PositivePoints(points) && |points| == 4
    ensures MarksWalk(p, b, points, nowMs, [EquityAt(p, b, points[0])] + SegmentMarks(p, b, points, 3, nowMs), j, k)
  {
    SegmentsWalk(p, b, points, nowMs);
    MarksSoFar(p, b, points, 1, nowMs);
    MarksSoFar(p, b, points, 2, nowMs);
    MarksSoFar(p, b, points, 3, nowMs);
    j := |SegmentMarks(p, b, points, 1, nowMs)|;
    k := |SegmentMarks(p, b, points, 2, nowMs)|;
  }

  lemma MarksSoFar(p: Params, b: Book, points: seq<real>, k: nat, nowMs: int)
    requires ValidParams(p) && Sound(p, b) && PositivePoints(points) && 0 < k < |points|
    ensures var marks, before := SegmentMarks(p, b, points, k, nowMs), SegmentMarks(p, b, points, k - 1, nowMs);
            && before < marks && marks[|marks| - 1] == EquityAt(p, Segments(p, b, points, k, nowMs), points[k])
  {
    SegmentIsMarked(p, Segments(p, b, points, k - 1, nowMs), points[k - 1], points[k], nowMs);
  }

  lemma {:induction false} UpIsMarked(p: Params, b: Book, end: real, current: real, nowMs: int)
    requires ValidParams(p) && Sound(p, b) && current > 0.0
    ensures |UpMarks(p, b, end, current, nowMs)| == |UpWalk(p, b, end, current, nowMs).cycles| - |b.cycles|
    decreases UpMeasure(p, b, end, current)
  {
    if TakesProfit(b, end, current) {
      var (closed, again) := AfterClose(p, b, nowMs);
      CloseKeepsSound(p, b, nowMs);
      if again {
        OpenKeepsSound(p, closed, Tp(b), nowMs);
        UpMeasureFalls(p, b, end, current, nowMs);
        UpIsMarked(p, OpenCycle(p, closed, Tp(b), nowMs), end, Tp(b), nowMs);
      }
    }
  }

  lemma {:induction false} DownIsMarked(p: Params, b: Book, end: real, current: real)
    requires Accepted(p) && Sound(p, b) && end > 0.0
    ensures DownWalk(p, b, end, current).cycles == b.cycles
    ensures |DownMarks(p, b, end, current)| == 2 * (|OpenFills(DownWalk(p, b, end, current))| - |OpenFills(b)|)
    decreases RemainingLevels(p, b)
  {
    if Triggers(b, end, current) {
      var trigger := b.strategy.NextTrigger().value;
      DcaKeepsSound(p, b, trigger);
      DownIsMarked(p, AddDca(p, b, trigger), end, trigger);
    }
  }
}
