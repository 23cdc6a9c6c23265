// The replay engine itself (botdca/backtest.py): an object that updates its totals and its
// strategy in place, proved to compute the functions of module Replay.
module Backtest {
  import opened Common
  import opened Domain
  import opened Strategy
  import opened Replay

  class ReplayEngine {
    const p: Params
    const fundingModel: Option<FundingModel>
    const strategy: DcaStrategy

    var cycles: seq<CycleReplay>
    var currentOpenedMs: Option<int>
    var currentEntryFees: real
    var currentMargin: real
    var grossRealized: real
    var feesPaid: real
    var entryFeesPaid: real
    var exitFeesPaid: real
    var fundingPaid: real
    var netRealized: real
    var maxDca: int
    var maxMargin: real
    var equityPeak: real
    var maxDrawdown: real
    var lastPrice: Option<real>
    var lastTimestampMs: Option<int>
    var nextEntryEligibleMs: int
    var stopped: bool

    ghost function View(): Book
      reads this, strategy
    {
      Book(strategy.View(), cycles, currentOpenedMs, currentEntryFees, currentMargin, grossRealized, feesPaid,
           entryFeesPaid, exitFeesPaid, fundingPaid, netRealized, maxDca, maxMargin, nextEntryEligibleMs, stopped)
    }

    ghost function Tracking(): Equity
      reads this
    {
      Equity(equityPeak, maxDrawdown)
    }

    ghost predicate Valid()
      reads this, strategy
    {
      Accepted(p) && Sound(p, View())
    }

    constructor (p: Params, fundingModel: Option<FundingModel>)
      requires Accepted(p)
      ensures Valid() && this.p == p && this.fundingModel == fundingModel && fresh(strategy)
      ensures View() == Start(p) && Tracking() == Equity(0.0, 0.0)
    {
      this.p, this.fundingModel := p, fundingModel;
      var s := new DcaStrategy(p.config, p.reference);
      s.Resume();
      strategy := s;
      cycles, currentOpenedMs, currentEntryFees, currentMargin := [], None, 0.0, 0.0;
      grossRealized, feesPaid, entryFeesPaid, exitFeesPaid, fundingPaid, netRealized := 0.0, 0.0, 0.0, 0.0, 0.0, 0.0;
      maxDca, maxMargin, equityPeak, maxDrawdown := 0, 0.0, 0.0, 0.0;
      lastPrice, lastTimestampMs, nextEntryEligibleMs, stopped := None, None, 0, false;
    }

    // -- marks ---------------------------------------------------------

    function CurrentFills(): seq<Fill>
      reads strategy
    {
      if strategy.currentCycle.None? then [] else strategy.currentCycle.value.fills
    }

    function CurrentUnrealizedNet(price: real): (r: real)
      reads this, strategy
      ensures r == UnrealizedNet(p, View(), price)
    {
      if strategy.currentCycle.None? then 0.0
      else GrossAt(CurrentFills(), price) - currentEntryFees - ExitFee(p, CurrentFills(), price)
    }

    method MarkEquity(price: real)
      modifies `equityPeak, `maxDrawdown
      ensures View() == old(View())
      ensures Tracking() == Marked(old(Tracking()), EquityAt(p, old(View()), price))
    {
      var unrealized := CurrentUnrealizedNet(price);
      var equity := netRealized - fundingPaid + unrealized;
      if equity >= equityPeak {
        equityPeak := equity;
      }
      maxDrawdown := Max(maxDrawdown, equityPeak - equity);
    }

    // -- basket steps --------------------------------------------------

    method OpenBasket(price: real, nowMs: int)
      requires Valid() && View().strategy.cycle.None? && price > 0.0
      modifies `currentOpenedMs, `currentEntryFees, `entryFeesPaid, `currentMargin, `maxMargin, strategy
      ensures View() == OpenCycle(p, old(View()), price, nowMs)
    {
      ghost var before := View();
      OpenKeepsSound(p, before, price, nowMs);
      var begun := strategy.BeginCycle("", price, None);
      assert begun.Ok?;
      var fill := begun.value.fills[0];
      var notional := Product(fill.price, fill.qty);
      currentOpenedMs := Some(nowMs);
      currentEntryFees := Product(notional, p.feeRate);
      entryFeesPaid := entryFeesPaid + Product(notional, p.feeRate);
      currentMargin := notional / p.config.leverage as real;
      maxMargin := Max(maxMargin, currentMargin);
    }

    method DeepenBasket(price: real)
      requires Accepted(p) && View().strategy.config == p.config
      modifies `currentEntryFees, `entryFeesPaid, `currentMargin, `maxMargin, `maxDca, strategy
      ensures View() == AddDca(p, old(View()), price)
    {
      var qty := strategy.NextDcaQty();
      if qty.None? {
        return;
      }
      var filled := strategy.ApplyDcaFill(price, qty);
      var fill := filled.value;
      var notional := Product(fill.price, fill.qty);
      currentEntryFees := currentEntryFees + Product(notional, p.feeRate);
      entryFeesPaid := entryFeesPaid + Product(notional, p.feeRate);
      currentMargin := currentMargin + notional / p.config.leverage as real;
      if strategy.currentCycle.Some? {
        maxDca := MaxInt(maxDca, strategy.currentCycle.value.DcaLevel());
      }
      maxMargin := Max(maxMargin, currentMargin);
    }

    method CloseBasket(price: real, nowMs: int)
      modifies `cycles, `currentOpenedMs, `currentEntryFees, `currentMargin, `grossRealized, `feesPaid, `exitFeesPaid,
               `netRealized, `maxDca, `equityPeak, strategy
      ensures View() == CloseCycle(p, old(View()), price, nowMs)
      ensures equityPeak
              == if old(strategy.currentCycle).None? then old(equityPeak)
                 else Max(old(equityPeak), netRealized - fundingPaid)
    {
      if strategy.currentCycle.None? {
        return;
      }
      var cycle := strategy.currentCycle.value;
      var gross := GrossAt(cycle.fills, price);
      var exitFee := ExitFee(p, cycle.fills, price);
      var fees := currentEntryFees + exitFee;
      var openedMs := if currentOpenedMs.Some? then currentOpenedMs.value else nowMs;
      var replay := CycleReplay(openedMs, nowMs, price, gross, fees, gross - fees, cycle.DcaLevel(), currentMargin,
                                cycle.AverageEntry(), cycle.fills, currentEntryFees, exitFee);
      assert replay == ReplayOf(p, View(), price, nowMs);
      BookReplay(replay);
    }

    // Adds a finished replay to the totals and clears the open basket.
    method BookReplay(replay: CycleReplay)
      requires strategy.currentCycle.Some?
      modifies `cycles, `currentOpenedMs, `currentEntryFees, `currentMargin, `grossRealized, `feesPaid, `exitFeesPaid,
               `netRealized, `maxDca, `equityPeak, strategy
      ensures strategy.View() == Perform(old(strategy.View()), OpMarkClosed)
      ensures cycles == old(cycles) + [replay]
      ensures grossRealized == old(grossRealized) + replay.gross && feesPaid == old(feesPaid) + replay.fees
      ensures exitFeesPaid == old(exitFeesPaid) + replay.exitFee && netRealized == old(netRealized) + replay.net
      ensures maxDca == MaxInt(old(maxDca), replay.dcaLevel)
      ensures currentOpenedMs == None && currentEntryFees == 0.0 && currentMargin == 0.0
      ensures equityPeak == Max(old(equityPeak), netRealized - fundingPaid)
    {
      cycles := cycles + [replay];
      grossRealized := grossRealized + replay.gross;
      feesPaid := feesPaid + replay.fees;
      exitFeesPaid := exitFeesPaid + replay.exitFee;
      netRealized := netRealized + replay.net;
      maxDca := MaxInt(maxDca, replay.dcaLevel);
      var closed := strategy.MarkClosed();
      currentOpenedMs := None;
      currentEntryFees := 0.0;
      currentMargin := 0.0;
      equityPeak := Max(equityPeak, netRealized - fundingPaid);
    }

    // -- segments ------------------------------------------------------

    lemma MarkFirst(e: Equity, mark: real, rest: seq<real>)
      ensures Tracked(e, [mark] + rest) == Tracked(Marked(e, mark), rest)
    {
      TrackedConcat(e, [mark], rest);
      assert [mark][..0] == [];
      assert Tracked(e, [mark]) == Marked(Tracked(e, []), mark);
    }

    lemma MarkLast(e: Equity, first: seq<real>, mark: real)
      ensures Tracked(e, first + [mark]) == Marked(Tracked(e, first), mark)
    {
      assert (first + [mark])[..|first|] == first;
    }

    // The basket a close reopens at once.
    ghost function Reopened(b: Book, nowMs: int): (r: Book)
      requires Accepted(p) && Sound(p, b) && b.strategy.cycle.Some? && b.strategy.cycle.value.TpPrice().Some?
      requires Tp(b) > 0.0
      ensures Sound(p, r)
    {
      CloseKeepsSound(p, b, nowMs);
      OpenKeepsSound(p, AfterClose(p, b, nowMs).0, Tp(b), nowMs);
      OpenCycle(p, AfterClose(p, b, nowMs).0, Tp(b), nowMs)
    }

    // One turn of the upward walk, on books and on marks.
    lemma ClimbStep(b: Book, e: Equity, end: real, current: real, nowMs: int)
      requires ValidParams(p) && Sound(p, b) && current > 0.0 && TakesProfit(b, end, current)
      ensures !AfterClose(p, b, nowMs).1 ==>
                UpWalk(p, b, end, current, nowMs) == AfterClose(p, b, nowMs).0
                && Tracked(e, UpMarks(p, b, end, current, nowMs)) == Marked(e, EquityAt(p, b, Tp(b)))
      ensures AfterClose(p, b, nowMs).1 ==>
                UpWalk(p, b, end, current, nowMs) == UpWalk(p, Reopened(b, nowMs), end, Tp(b), nowMs)
                && Tracked(e, UpMarks(p, b, end, current, nowMs))
                   == Tracked(Marked(e, EquityAt(p, b, Tp(b))), UpMarks(p, Reopened(b, nowMs), end, Tp(b), nowMs))
                && 0.0 <= UpMeasure(p, Reopened(b, nowMs), end, Tp(b)) <= UpMeasure(p, b, end, current) - 1.0
    {
      var (closed, again) := AfterClose(p, b, nowMs);
      CloseKeepsSound(p, b, nowMs);
      if again {
        UpMeasureFalls(p, b, end, current, nowMs);
        MarkFirst(e, EquityAt(p, b, Tp(b)), UpMarks(p, Reopened(b, nowMs), end, Tp(b), nowMs));
      } else {
        MarkFirst(e, EquityAt(p, b, Tp(b)), []);
        assert [EquityAt(p, b, Tp(b))] + [] == [EquityAt(p, b, Tp(b))];
      }
    }

    // Whether a closed basket reopens at once; otherwise the engine stops or waits.
    method ScheduleReentry(nowMs: int) returns (again: bool)
      modifies `stopped, `nextEntryEligibleMs
      ensures var ended := (p.maximumCycles.Some? && |cycles| >= p.maximumCycles.value) || !p.autoReentry;
              && stopped == (old(stopped) || ended)
              && nextEntryEligibleMs == (if ended then old(nextEntryEligibleMs) else nowMs + p.reentryDelayMs)
              && again == (!ended && p.reentryDelayMs <= 0)
    {
      if p.maximumCycles.Some? && |cycles| >= p.maximumCycles.value {
        stopped := true;
        return false;
      }
      if !p.autoReentry {
        stopped := true;
        return false;
      }
      nextEntryEligibleMs := nowMs + p.reentryDelayMs;
      return p.reentryDelayMs <= 0;
    }

    // The body of the upward loop: mark, close at the take profit, and reopen there if allowed.
    method TakeProfitAt(tp: real, nowMs: int) returns (again: bool)
      requires Valid() && strategy.currentCycle.Some? && strategy.currentCycle.value.TpPrice() == Some(tp) && tp > 0.0
      modifies this, strategy
      ensures again == AfterClose(p, old(View()), nowMs).1
      ensures View() == if again then Reopened(old(View()), nowMs) else AfterClose(p, old(View()), nowMs).0
      ensures Tracking() == Marked(old(Tracking()), EquityAt(p, old(View()), tp))
    {
      ghost var before := View();
      CloseKeepsSound(p, before, nowMs);
      CloseKeepsEquity(p, before, nowMs, Tracking());
      MarkEquity(tp);
      CloseBasket(tp, nowMs);
      again := ScheduleReentry(nowMs);
      assert View() == AfterClose(p, before, nowMs).0;
      if again {
        OpenBasket(tp, nowMs);
      }
    }

    method ClimbSegment(start: real, end: real, nowMs: int)
      requires Valid() && Terminates(p) && 0.0 < start < end
      modifies this, strategy
      ensures View() == UpWalk(p, old(View()), end, start, nowMs)
      ensures Tracking() == Tracked(old(Tracking()), UpMarks(p, old(View()), end, start, nowMs))
    {
      ghost var finalBook, finalEquity := UpWalk(p, View(), end, start, nowMs),
                                          Tracked(Tracking(), UpMarks(p, View(), end, start, nowMs));
      var current := start;
      while true
        invariant Valid() && 0.0 < current
        invariant UpWalk(p, View(), end, current, nowMs) == finalBook
        invariant Tracked(Tracking(), UpMarks(p, View(), end, current, nowMs)) == finalEquity
        decreases UpMeasure(p, View(), end, current)
      {
        if strategy.currentCycle.None? {
          break;
        }
        var tp := strategy.currentCycle.value.TpPrice();
        if tp.None? || tp.value > end || tp.value < current {
          break;
        }
        ClimbStep(View(), Tracking(), end, current, nowMs);
        var again := TakeProfitAt(tp.value, nowMs);
        if !again {
          break;
        }
        current := tp.value;
      }
    }
  
    // One turn of the downward walk, on books and on marks.
    lemma DescendStep(b: Book, e: Equity, end: real, current: real)
      requires Accepted(p) && Sound(p, b) && end > 0.0 && Triggers(b, end, current)
      ensures var trigger := b.strategy.NextTrigger().value;
              var deeper := AddDca(p, b, trigger);
              Sound(p, deeper) && RemainingLevels(p, deeper) == RemainingLevels(p, b) - 1 >= 0
              && DownWalk(p, b, end, current) == DownWalk(p, deeper, end, trigger)
              && Tracked(e, DownMarks(p, b, end, current))
                 == Tracked(Marked(Marked(e, EquityAt(p, b, trigger)), EquityAt(p, deeper, trigger)),
                            DownMarks(p, deeper, end, trigger))
    {
      var trigger := b.strategy.NextTrigger().value;
      DcaKeepsSound(p, b, trigger);
      var deeper := AddDca(p, b, trigger);
      var first, second, rest := EquityAt(p, b, trigger), EquityAt(p, deeper, trigger),
                                 DownMarks(p, deeper, end, trigger);
      assert [first, second] + rest == [first] + ([second] + rest);
      MarkFirst(e, first, [second] + rest);
      MarkFirst(Marked(e, first), second, rest);
    }

    method DescendSegment(start: real, end: real)
      requires Valid() && 0.0 < end < start
      modifies this, strategy
      ensures View() == DownWalk(p, old(View()), end, start)
      ensures Tracking() == Tracked(old(Tracking()), DownMarks(p, old(View()), end, start))
    {
      ghost var finalBook, finalEquity := DownWalk(p, View(), end, start),
                                          Tracked(Tracking(), DownMarks(p, View(), end, start));
      var current := start;
      while true
        invariant Valid()
        invariant DownWalk(p, View(), end, current) == finalBook
        invariant Tracked(Tracking(), DownMarks(p, View(), end, current)) == finalEquity
        decreases RemainingLevels(p, View())
      {
        var trigger := strategy.NextDcaTriggerPrice();
        if trigger.None? || trigger.value < end || trigger.value > current {
          break;
        }
        DescendStep(View(), Tracking(), end, current);
        MarkEquity(trigger.value);
        DeepenBasket(trigger.value);
        MarkEquity(trigger.value);
        current := trigger.value;
      }
    }

    method TraverseSegment(start: real, end: real, nowMs: int)
      requires Valid() && Terminates(p) && 0.0 < start && 0.0 < end
      modifies this, strategy
      ensures Valid()
      ensures View() == Traverse(p, old(View()), start, end, nowMs)
      ensures Tracking() == Tracked(old(Tracking()), TraverseMarks(p, old(View()), start, end, nowMs))
      ensures lastPrice == Some(end) && lastTimestampMs == Some(nowMs)
    {
      ghost var before, tracked := View(), Tracking();
      TraverseKeepsSound(p, before, start, end, nowMs);
      if end > start {
        ClimbSegment(start, end, nowMs);
        MarkLast(tracked, UpMarks(p, before, end, start, nowMs), EquityAt(p, View(), end));
      } else if end < start {
        DescendSegment(start, end);
        MarkLast(tracked, DownMarks(p, before, end, start), EquityAt(p, View(), end));
      } else {
        MarkLast(tracked, [], EquityAt(p, View(), end));
      }
      MarkEquity(end);
      lastPrice := Some(end);
      lastTimestampMs := Some(nowMs);
    }

    // -- candles -------------------------------------------------------

    method ChargeFunding(startMs: int, markPrice: real)
      requires Valid()
      modifies `fundingPaid
      ensures View() == ApplyFunding(fundingModel, old(View()), startMs, markPrice)
    {
      if fundingModel.None? || strategy.currentCycle.None? {
        return;
      }
      var payment := (fundingModel.value)(startMs, markPrice, TotalQty(CurrentFills()));
      fundingPaid := fundingPaid + payment;
    }

    // Funding, and an entry at the candle's first point when the engine is flat and may enter.
    method EnterCandle(candle: Candle) returns (traversed: bool)
      requires Valid() && ValidCandle(candle)
      modifies `fundingPaid, `currentOpenedMs, `currentEntryFees, `entryFeesPaid, `currentMargin, `maxMargin, strategy
      ensures Valid()
      ensures (View(), traversed) == Enter(p, fundingModel, old(View()), candle)
    {
      EnterKeepsSound(p, fundingModel, View(), candle);
      ChargeFunding(candle.startMs, candle.open);
      if strategy.currentCycle.None? {
        if !p.autoReentry && cycles != [] {
          return false;
        }
        if candle.startMs < nextEntryEligibleMs {
          return false;
        }
        OpenBasket(candle.open, candle.startMs);
      }
      return true;
    }

    method ProcessCandle(candle: Candle)
      requires Valid() && Terminates(p) && ValidCandle(candle)
      modifies this, strategy
      ensures View() == Step(p, fundingModel, old(View()), candle)
      ensures Tracking() == Tracked(old(Tracking()), StepMarks(p, fundingModel, old(View()), candle))
      ensures Valid()
    {
      ghost var tracked := Tracking();
      var traversed := EnterCandle(candle);
      if traversed {
        ghost var entered := View();
        var points := Points(candle, p.path);
        MarkEquity(points[0]);
        TraverseSegments(points, candle.startMs);
        MarkFirst(tracked, EquityAt(p, entered, candle.open), SegmentMarks(p, entered, points, 3, candle.startMs));
      }
    }

    method TraverseSegments(points: seq<real>, nowMs: int)
      requires Valid() && Terminates(p) && |points| == 4 && PositivePoints(points)
      modifies this, strategy
      ensures Valid()
      ensures View() == Segments(p, old(View()), points, 3, nowMs)
      ensures Tracking() == Tracked(old(Tracking()), SegmentMarks(p, old(View()), points, 3, nowMs))
    {
      ghost var entered, marked := View(), Tracking();
      for k := 0 to 3
        invariant Valid()
        invariant View() == Segments(p, entered, points, k, nowMs)
        invariant Tracking() == Tracked(marked, SegmentMarks(p, entered, points, k, nowMs))
      {
        TrackedConcat(marked, SegmentMarks(p, entered, points, k, nowMs),
                      TraverseMarks(p, View(), points[k], points[k + 1], nowMs));
        TraverseSegment(points[k], points[k + 1], nowMs);
      }
    }

    // The whole run over candles already in time order. Its reported figures: fees paid are
    // entry plus exit fees, the net result is the gross result less realized fees, and the
    // drawdown is the largest fall of equity between any two marks, counting zero at the start.
    method Run(candles: seq<Candle>) returns (r: Option<BacktestResult>)
      requires View() == Start(p) && Tracking() == Equity(0.0, 0.0) && Valid() && Terminates(p)
      requires forall i | 0 <= i < |candles| :: ValidCandle(candles[i])
      modifies this, strategy
      ensures r == None <==> candles == []
      ensures Valid()
      ensures r.Some? ==> View() == RunBook(p, fundingModel, candles)
      ensures r.Some? ==>
                && r.value.completedCycles == |cycles| && r.value.cycles == cycles
                && r.value.grossRealized == View().gross && r.value.netRealized == View().net
                && r.value.maxDca == View().maxDca && r.value.maxMargin == View().maxMargin
                && r.value.entryFeesPaid == View().entryPaid && r.value.exitFeesPaid == View().exitPaid
                && r.value.openCycleEntryFees == View().currentEntryFees
                && r.value.feesPaid == r.value.entryFeesPaid + r.value.exitFeesPaid
                && r.value.netRealized == r.value.grossRealized - r.value.realizedCycleFees
                && LargestFall(EquityPath(RunMarks(p, fundingModel, candles)), r.value.maxDrawdown)
    {
      if candles == [] {
        return None;
      }
      for i := 0 to |candles|
        invariant Valid()
        invariant View() == RunBook(p, fundingModel, candles[..i])
        invariant Tracking() == Tracked(Equity(0.0, 0.0), RunMarks(p, fundingModel, candles[..i]))
      {
        Prefixes(candles, i);
        assert candles[..i + 1][..i] == candles[..i];
        if stopped {
          assert RunMarks(p, fundingModel, candles[..i + 1]) == RunMarks(p, fundingModel, candles[..i]) + [];
          StoppedRunStays(candles, i);
          break;
        }
        TrackedConcat(Equity(0.0, 0.0), RunMarks(p, fundingModel, candles[..i]),
                      StepMarks(p, fundingModel, View(), candles[i]));
        ProcessCandle(candles[i]);
      }
      WholePrefix(candles);
      RunConservesFees(p, fundingModel, candles);
      RunBalances(p, fundingModel, candles);
      TrackedIsDrawdown(RunMarks(p, fundingModel, candles));
      r := Some(BacktestResult(cycles, |cycles|, grossRealized, feesPaid + currentEntryFees, netRealized, maxDca,
                               maxMargin,
                               maxDrawdown, entryFeesPaid, exitFeesPaid, feesPaid, currentEntryFees));
    }

    // Once stopped, later candles change neither the book nor the marks.
    lemma StoppedRunStays(candles: seq<Candle>, k: nat)
      requires ValidParams(p) && k <= |candles|
      requires forall i | 0 <= i < |candles| :: ValidCandle(candles[i])
      requires RunBook(p, fundingModel, candles[..k]).stopped
      ensures RunBook(p, fundingModel, candles) == RunBook(p, fundingModel, candles[..k])
      ensures RunMarks(p, fundingModel, candles) == RunMarks(p, fundingModel, candles[..k])
      decreases |candles|
    {
      if k == |candles| {
        WholePrefix(candles);
      } else {
        var front := candles[..|candles| - 1];
        assert front[..k] == candles[..k];
        StoppedRunStays(front, k);
      }
    }
  }

  datatype BacktestResult = BacktestResult(
    cycles: seq<CycleReplay>, completedCycles: int, grossRealized: real, feesPaid: real, netRealized: real, maxDca: int,
    maxMargin: real, maxDrawdown: real, entryFeesPaid: real, exitFeesPaid: real, realizedCycleFees: real,
    openCycleEntryFees: real)
}
