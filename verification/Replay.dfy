// What the replay engine computes (botdca/backtest.py), as functions of its state: opening,
// deepening and closing baskets along monotone price segments, with every running total.
module Replay {
  import opened Common
  import opened Domain
  import opened Strategy

  datatype IntrabarPath = LowFirst | HighFirst

  datatype Candle = Candle(startMs: int, open: real, high: real, low: real, close: real)

  // What the candle constructor accepts.
  ghost predicate ValidCandle(c: Candle) {
    0.0 < c.low && c.low <= c.open <= c.high && c.low <= c.close <= c.high
  }

  function Points(c: Candle, path: IntrabarPath): seq<real> {
    if path == LowFirst then [c.open, c.low, c.high, c.close] else [c.open, c.high, c.low, c.close]
  }

  // A funding source: timestamp, mark price and position quantity to a payment.
  type FundingModel = (int, real, real) -> real

  datatype Params = Params(
    config: Config, reference: TriggerReference, path: IntrabarPath, feeRate: real, reentryDelayMs: int,
    autoReentry: bool,
    maximumCycles: Option<int>)

  // What the engine's constructor accepts.
  ghost predicate Accepted(p: Params) {
    && ValidConfig(p.config)
    && p.feeRate >= 0.0 && p.reentryDelayMs >= 0
    && (p.maximumCycles.Some? ==> p.maximumCycles.value > 0)
  }

  // Some setting keeps a basket that is closed and reopened at one price from repeating for ever.
  predicate Terminates(p: Params) {
    p.config.tpPercent != 0.0 || p.reentryDelayMs > 0 || !p.autoReentry || p.maximumCycles.Some?
  }

  // The settings under which replays end; `ReplaysEndExactly` shows there are no others.
  ghost predicate ValidParams(p: Params) {
    Accepted(p) && Terminates(p)
  }

  datatype CycleReplay = CycleReplay(
    openedMs: int, closedMs: int, exitPrice: real, gross: real, fees: real, net: real, dcaLevel: int,
    margin: real, averageEntry: Option<real>, fills: seq<Fill>, entryFees: real, exitFee: real)

  // The strategy and the accounting totals.
  datatype Book = Book(
    strategy: State, cycles: seq<CycleReplay>,
    openedMs: Option<int>, currentEntryFees: real, currentMargin: real,
    gross: real, fees: real, entryPaid: real, exitPaid: real, funding: real, net: real,
    maxDca: int, maxMargin: real, nextEligibleMs: int, stopped: bool)

  function Start(p: Params): Book {
    Book(Fresh(p.config, p.reference).Resume(), [], None, 0.0, 0.0, 0.0, 0.0, 0.0, 0.0, 0.0, 0.0, 0, 0.0, 0, false)
  }

  // ---------------------------------------------------------------- single steps

  function OpenFills(b: Book): seq<Fill> {
    if b.strategy.cycle.None? then [] else b.strategy.cycle.value.fills
  }

  // Profit of selling the fills at a price.
  function GrossAt(fills: seq<Fill>, price: real): real {
    if fills == [] then 0.0
    else GrossAt(fills[..|fills| - 1], price) + Product(price - fills[|fills| - 1].price, fills[|fills| - 1].qty)
  }

  function ExitFee(p: Params, fills: seq<Fill>, price: real): real {
    Product(Product(price, TotalQty(fills)), p.feeRate)
  }

  function EntryFee(p: Params, notional: real): real {
    Product(notional, p.feeRate)
  }

  function Margin(p: Params, notional: real): real
    requires Accepted(p)
  {
    notional / p.config.leverage as real
  }

  function UnrealizedNet(p: Params, b: Book, price: real): real {
    if b.strategy.cycle.None? then 0.0
    else GrossAt(OpenFills(b), price) - b.currentEntryFees - ExitFee(p, OpenFills(b), price)
  }

  function EquityAt(p: Params, b: Book, price: real): real {
    b.net - b.funding + UnrealizedNet(p, b, price)
  }

  function OpenCycle(p: Params, b: Book, price: real, nowMs: int): Book
    requires Accepted(p)
  {
    var strategy := Perform(b.strategy, OpBegin("", price, None));
    if b.strategy.Begin("", price, None).Err? then b
    else
      var fill := strategy.cycle.value.fills[0];
      var notional := Product(fill.price, fill.qty);
      b.(strategy := strategy, openedMs := Some(nowMs),
         currentEntryFees := EntryFee(p, notional), entryPaid := b.entryPaid + EntryFee(p, notional),
         currentMargin := Margin(p, notional), maxMargin := Max(b.maxMargin, Margin(p, notional)))
  }

  function AddDca(p: Params, b: Book, price: real): Book
    requires Accepted(p)
  {
    if b.strategy.NextQty().None? then b
    else
      var qty := b.strategy.NextQty().value;
      var strategy := Perform(b.strategy, OpApplyDca(price, Some(qty)));
      var notional := Product(price, qty);
      b.(strategy := strategy,
         currentEntryFees := b.currentEntryFees + EntryFee(p, notional),
         entryPaid := b.entryPaid + EntryFee(p, notional),
         currentMargin := b.currentMargin + Margin(p, notional),
         maxMargin := Max(b.maxMargin, b.currentMargin + Margin(p, notional)),
         maxDca := if strategy.cycle.Some? then MaxInt(b.maxDca, strategy.cycle.value.DcaLevel()) else b.maxDca)
  }

  function ReplayOf(p: Params, b: Book, price: real, nowMs: int): CycleReplay
    requires b.strategy.cycle.Some?
  {
    var cycle := b.strategy.cycle.value;
    var gross, exitFee := GrossAt(cycle.fills, price), ExitFee(p, cycle.fills, price);
    CycleReplay(if b.openedMs.Some? then b.openedMs.value else nowMs, nowMs, price, gross, b.currentEntryFees + exitFee,
                gross - (b.currentEntryFees + exitFee), cycle.DcaLevel(), b.currentMargin, cycle.AverageEntry(),
                cycle.fills, b.currentEntryFees, exitFee)
  }

  function CloseCycle(p: Params, b: Book, price: real, nowMs: int): Book {
    if b.strategy.cycle.None? then b
    else
      var replay := ReplayOf(p, b, price, nowMs);
      b.(strategy := Perform(b.strategy, OpMarkClosed), cycles := b.cycles + [replay],
         openedMs := None, currentEntryFees := 0.0, currentMargin := 0.0,
         gross := b.gross + replay.gross, fees := b.fees + replay.fees, exitPaid := b.exitPaid + replay.exitFee,
         net := b.net + replay.net, maxDca := MaxInt(b.maxDca, replay.dcaLevel))
  }

  // ---------------------------------------------------------------- segments

  // A take profit lies on the way from current up to end.
  predicate TakesProfit(b: Book, end: real, current: real) {
    b.strategy.cycle.Some? && b.strategy.cycle.value.TpPrice().Some?
    && current <= b.strategy.cycle.value.TpPrice().value <= end
  }

  function Tp(b: Book): real
    requires b.strategy.cycle.Some? && b.strategy.cycle.value.TpPrice().Some?
  {
    b.strategy.cycle.value.TpPrice().value
  }

  // Closing at the take profit, and whether a new basket opens there at once.
  function AfterClose(p: Params, b: Book, nowMs: int): (r: (Book, bool))
    requires b.strategy.cycle.Some? && b.strategy.cycle.value.TpPrice().Some?
  {
    var closed := CloseCycle(p, b, Tp(b), nowMs);
    if p.maximumCycles.Some? && |closed.cycles| >= p.maximumCycles.value then (closed.(stopped := true), false)
    else if !p.autoReentry then (closed.(stopped := true), false)
    else (closed.(nextEligibleMs := nowMs + p.reentryDelayMs), p.reentryDelayMs <= 0)
  }

  function UpWalk(p: Params, b: Book, end: real, current: real, nowMs: int): Book
    requires ValidParams(p) && Sound(p, b) && current > 0.0
    decreases UpMeasure(p, b, end, current)
  {
    if !TakesProfit(b, end, current) then b
    else
      var (closed, again) := AfterClose(p, b, nowMs);
      CloseKeepsSound(p, b, nowMs);
      if !again then closed
      else
        OpenKeepsSound(p, closed, Tp(b), nowMs);
        UpMeasureFalls(p, b, end, current, nowMs);
        UpWalk(p, OpenCycle(p, closed, Tp(b), nowMs), end, Tp(b), nowMs)
  }

  // The equity marks taken on the way, one before each close.
  function UpMarks(p: Params, b: Book, end: real, current: real, nowMs: int): seq<real>
    requires ValidParams(p) && Sound(p, b) && current > 0.0
    decreases UpMeasure(p, b, end, current)
  {
    if !TakesProfit(b, end, current) then []
    else
      var (closed, again) := AfterClose(p, b, nowMs);
      CloseKeepsSound(p, b, nowMs);
      if !again then [EquityAt(p, b, Tp(b))]
      else
        OpenKeepsSound(p, closed, Tp(b), nowMs);
        UpMeasureFalls(p, b, end, current, nowMs);
        [EquityAt(p, b, Tp(b))] + UpMarks(p, OpenCycle(p, closed, Tp(b), nowMs), end, Tp(b), nowMs)
  }

  // A DCA trigger lies on the way from current down to end.
  predicate Triggers(b: Book, end: real, current: real) {
    b.strategy.NextTrigger().Some? && end <= b.strategy.NextTrigger().value <= current
  }

  function DownWalk(p: Params, b: Book, end: real, current: real): Book
    requires Accepted(p) && Sound(p, b) && end > 0.0
    decreases RemainingLevels(p, b)
  {
    if !Triggers(b, end, current) then b
    else
      var trigger := b.strategy.NextTrigger().value;
      DcaKeepsSound(p, b, trigger);
      DownWalk(p, AddDca(p, b, trigger), end, trigger)
  }

  // One mark before and one after each fill.
  function DownMarks(p: Params, b: Book, end: real, current: real): seq<real>
    requires Accepted(p) && Sound(p, b) && end > 0.0
    decreases RemainingLevels(p, b)
  {
    if !Triggers(b, end, current) then []
    else
      var trigger := b.strategy.NextTrigger().value;
      DcaKeepsSound(p, b, trigger);
      [EquityAt(p, b, trigger), EquityAt(p, AddDca(p, b, trigger), trigger)]
      + DownMarks(p, AddDca(p, b, trigger), end, trigger)
  }

  function Traverse(p: Params, b: Book, start: real, end: real, nowMs: int): Book
    requires ValidParams(p) && Sound(p, b) && start > 0.0 && end > 0.0
  {
    if end > start then UpWalk(p, b, end, start, nowMs)
    else if end < start then DownWalk(p, b, end, start)
    else b
  }

  function TraverseMarks(p: Params, b: Book, start: real, end: real, nowMs: int): seq<real>
    requires ValidParams(p) && Sound(p, b) && start > 0.0 && end > 0.0
  {
    (if end > start then UpMarks(p, b, end, start, nowMs)
     else if end < start then DownMarks(p, b, end, start)
     else [])
    + [EquityAt(p, Traverse(p, b, start, end, nowMs), end)]
  }

  // ---------------------------------------------------------------- what every step keeps

  ghost predicate Sound(p: Params, b: Book) {
    && b.strategy.config == p.config && b.strategy.reference == p.reference
    && Invariant(b.strategy) && b.strategy.reentryEnabled
    && (b.strategy.cycle.None? <==> b.strategy.state == Idle)
    && (b.strategy.cycle.Some? ==>
          b.strategy.cycle.value.dcaLevelOverride.None? && PositivePrices(b.strategy.cycle.value.fills))
  }

  ghost predicate PositivePrices(fills: seq<Fill>) {
    forall i | 0 <= i < |fills| :: fills[i].price > 0.0
  }

  function RemainingLevels(p: Params, b: Book): int {
    if b.strategy.cycle.None? then 0 else |p.config.dcaSteps| - b.strategy.cycle.value.DcaLevel()
  }

  lemma PositiveNotional(fills: seq<Fill>)
    requires fills != [] && PositivePrices(fills) && forall i | 0 <= i < |fills| :: fills[i].qty > 0.0
    ensures Notional(fills) > 0.0
  {
    var last := fills[|fills| - 1];
    MulMonoStrict(last.qty, 0.0, last.price);
    if |fills| > 1 {
      PositiveNotional(fills[..|fills| - 1]);
    }
  }

  lemma CloseKeepsSound(p: Params, b: Book, nowMs: int)
    requires Accepted(p) && Sound(p, b) && b.strategy.cycle.Some? && b.strategy.cycle.value.TpPrice().Some?
    ensures Sound(p, AfterClose(p, b, nowMs).0) && AfterClose(p, b, nowMs).0.strategy.cycle.None?
  {
  }

  lemma OpenKeepsSound(p: Params, b: Book, price: real, nowMs: int)
    requires Accepted(p) && Sound(p, b) && b.strategy.cycle.None? && price > 0.0
    ensures b.strategy.Begin("", price, None).Ok?
    ensures Sound(p, OpenCycle(p, b, price, nowMs))
    ensures OpenFills(OpenCycle(p, b, price, nowMs)) == [Fill(price, b.strategy.InitialQty(price), InitialFill)]
    ensures OpenCycle(p, b, price, nowMs).strategy.cycle.Some?
    ensures OpenCycle(p, b, price, nowMs).strategy.cycle.value.TpPrice() == Some(Raised(price, p.config.tpPercent))
  {
    if p.config.allocation.FixedMargin? {
      MulMonoStrict(p.config.leverage as real, 0.0, p.config.allocation.value);
      Quotient(Product(p.config.allocation.value, p.config.leverage as real), price, 0.0);
    }
    PerformKeepsInvariant(b.strategy, OpBegin("", price, None));
    SingleFill(Fill(price, b.strategy.InitialQty(price), InitialFill));
  }

  lemma DcaKeepsSound(p: Params, b: Book, price: real)
    requires Accepted(p) && Sound(p, b) && b.strategy.NextTrigger().Some? && price > 0.0
    ensures Sound(p, AddDca(p, b, price)) && AddDca(p, b, price).strategy.cycle.Some?
    ensures b.strategy.NextQty().Some? && b.strategy.NextQty().value > 0.0
    ensures OpenFills(AddDca(p, b, price)) == OpenFills(b) + [Fill(price, b.strategy.NextQty().value, DcaFill)]
    ensures RemainingLevels(p, AddDca(p, b, price)) == RemainingLevels(p, b) - 1 >= 0
  {
    var cycle := b.strategy.cycle.value;
    MulMonoStrict(p.config.dcaSteps[cycle.DcaLevel()].multiplier, 0.0, cycle.LastOrderQty().value);
    PerformKeepsInvariant(b.strategy, OpApplyDca(price, Some(b.strategy.NextQty().value)));
  }

  // ---------------------------------------------------------------- termination going up

  // How many closes the walk can still make: with a positive take profit, the steps of one take
  // profit to the end; with a negative one the reopened target lies behind the price; with a zero
  // one, the baskets left before the maximum.
  function UpMeasure(p: Params, b: Book, end: real, current: real): real
    requires ValidParams(p) && current > 0.0
  {
    if !TakesProfit(b, end, current) then 0.0
    else if p.config.tpPercent > 0.0 then
      MulMonoStrict(current, 0.0, p.config.tpPercent / 100.0);
      (end - Tp(b)) / Product(current, p.config.tpPercent / 100.0) + 1.0
    else if p.config.tpPercent == 0.0 && p.maximumCycles.Some? then
      Max(1.0, (p.maximumCycles.value - |b.cycles|) as real)
    else 1.0
  }

  lemma FewerSteps(distance: real, price: real, next: real, rate: real)
    requires 0.0 < price <= next && 0.0 < rate
    ensures Product(price, rate) > 0.0 && Product(next, rate) > 0.0
    ensures 0.0 <= distance ==> 0.0 <= distance / Product(next, rate) <= distance / Product(price, rate)
    ensures (distance - Product(next, rate)) / Product(next, rate) == distance / Product(next, rate) - 1.0
  {
    MulMonoStrict(price, 0.0, rate);
    MulMono(rate, price, next);
    var a, b := Product(price, rate), Product(next, rate);
    Undo(b, distance);
    Undo(b, distance - b);
    Distribute(b, distance / b, 1.0);
    Scale(b, (distance - b) / b, distance / b - 1.0);
    Scale(b, distance / b - 1.0, (distance - b) / b);
    if 0.0 <= distance {
      Quotient(distance, b, 0.0);
      Quotient(distance, b, distance / a);
      Undo(a, distance);
      Quotient(distance, a, 0.0);
      MulMono(distance / a, a, b);
    }
  }

  lemma UpMeasureFalls(p: Params, b: Book, end: real, current: real, nowMs: int)
    requires ValidParams(p) && Sound(p, b) && current > 0.0 && TakesProfit(b, end, current)
    requires AfterClose(p, b, nowMs).1
    ensures 0.0 < current <= Tp(b)
    ensures var next := OpenCycle(p, AfterClose(p, b, nowMs).0, Tp(b), nowMs);
            0.0 <= UpMeasure(p, next, end, Tp(b)) <= UpMeasure(p, b, end, current) - 1.0
  {
    var rate, tp := p.config.tpPercent / 100.0, Tp(b);
    CloseKeepsSound(p, b, nowMs);
    OpenKeepsSound(p, AfterClose(p, b, nowMs).0, tp, nowMs);
    Distribute(tp, 1.0, rate);
    assert Product(tp, 1.0) == tp;
    assert Raised(tp, p.config.tpPercent) == tp + Product(tp, rate);
    if p.config.tpPercent > 0.0 {
      FewerSteps(end - tp, current, tp, rate);
    } else if p.config.tpPercent < 0.0 {
      MulMonoStrict(tp, rate, 0.0);
    }
  }

  lemma UpKeepsSound(p: Params, b: Book, end: real, current: real, nowMs: int)
    requires ValidParams(p) && Sound(p, b) && current > 0.0
    ensures Sound(p, UpWalk(p, b, end, current, nowMs))
    decreases UpMeasure(p, b, end, current)
  {
    if TakesProfit(b, end, current) {
      var (closed, again) := AfterClose(p, b, nowMs);
      CloseKeepsSound(p, b, nowMs);
      if again {
        OpenKeepsSound(p, closed, Tp(b), nowMs);
        UpMeasureFalls(p, b, end, current, nowMs);
        UpKeepsSound(p, OpenCycle(p, closed, Tp(b), nowMs), end, Tp(b), nowMs);
      }
    }
  }

  lemma DownKeepsSound(p: Params, b: Book, end: real, current: real)
    requires Accepted(p) && Sound(p, b) && end > 0.0
    ensures Sound(p, DownWalk(p, b, end, current))
    decreases RemainingLevels(p, b)
  {
    if Triggers(b, end, current) {
      var trigger := b.strategy.NextTrigger().value;
      DcaKeepsSound(p, b, trigger);
      DownKeepsSound(p, AddDca(p, b, trigger), end, trigger);
    }
  }

  lemma TraverseKeepsSound(p: Params, b: Book, start: real, end: real, nowMs: int)
    requires ValidParams(p) && Sound(p, b) && start > 0.0 && end > 0.0
    ensures Sound(p, Traverse(p, b, start, end, nowMs))
  {
    UpKeepsSound(p, b, end, start, nowMs);
    DownKeepsSound(p, b, end, start);
  }

  // ---------------------------------------------------------------- splitting a segment

  lemma {:induction false} UpSplits(p: Params, b: Book, middle: real, end: real, current: real, nowMs: int)
    requires ValidParams(p) && Sound(p, b) && 0.0 < current <= middle <= end
    ensures Sound(p, UpWalk(p, b, middle, current, nowMs))
    ensures UpWalk(p, UpWalk(p, b, middle, current, nowMs), end, middle, nowMs) == UpWalk(p, b, end, current, nowMs)
    decreases UpMeasure(p, b, middle, current)
  {
    UpKeepsSound(p, b, middle, current, nowMs);
    if TakesProfit(b, middle, current) {
      var (closed, again) := AfterClose(p, b, nowMs);
      CloseKeepsSound(p, b, nowMs);
      if again {
        OpenKeepsSound(p, closed, Tp(b), nowMs);
        UpMeasureFalls(p, b, middle, current, nowMs);
        UpSplits(p, OpenCycle(p, closed, Tp(b), nowMs), middle, end, Tp(b), nowMs);
      }
    }
  }

  lemma {:induction false} DownSplits(p: Params, b: Book, middle: real, end: real, current: real)
    requires Accepted(p) && Sound(p, b) && 0.0 < end <= middle <= current
    ensures Sound(p, DownWalk(p, b, middle, current))
    ensures DownWalk(p, DownWalk(p, b, middle, current), end, middle) == DownWalk(p, b, end, current)
    decreases RemainingLevels(p, b)
  {
    DownKeepsSound(p, b, middle, current);
    if Triggers(b, middle, current) {
      var trigger := b.strategy.NextTrigger().value;
      DcaKeepsSound(p, b, trigger);
      DownSplits(p, AddDca(p, b, trigger), middle, end, trigger);
    }
  }

  // A monotone segment and the two halves of any split of it fill, close and account the same.
  lemma {:induction false} TraverseComposes(p: Params, b: Book, start: real, middle: real, end: real, nowMs: int)
    requires ValidParams(p) && Sound(p, b)
    requires 0.0 < start <= middle <= end || start >= middle >= end > 0.0
    ensures Sound(p, Traverse(p, b, start, middle, nowMs))
    ensures Traverse(p, Traverse(p, b, start, middle, nowMs), middle, end, nowMs) == Traverse(p, b, start, end, nowMs)
  {
    TraverseKeepsSound(p, b, start, middle, nowMs);
    if start < middle < end {
      UpSplits(p, b, middle, end, start, nowMs);
    } else if start > middle > end {
      DownSplits(p, b, middle, end, start);
    }
  }

  // ---------------------------------------------------------------- how much one segment does

  lemma UpClosesWithinMeasure(p: Params, b: Book, end: real, current: real, nowMs: int)
    requires ValidParams(p) && Sound(p, b) && current > 0.0
    ensures b.cycles <= UpWalk(p, b, end, current, nowMs).cycles
    ensures (|UpWalk(p, b, end, current, nowMs).cycles| - |b.cycles|) as real <= UpMeasure(p, b, end, current)
    decreases UpMeasure(p, b, end, current)
  {
    if TakesProfit(b, end, current) {
      var (closed, again) := AfterClose(p, b, nowMs);
      CloseKeepsSound(p, b, nowMs);
      if p.config.tpPercent > 0.0 {
        FewerSteps(end - Tp(b), current, current, p.config.tpPercent / 100.0);
      }
      if again {
        OpenKeepsSound(p, closed, Tp(b), nowMs);
        UpMeasureFalls(p, b, end, current, nowMs);
        UpClosesWithinMeasure(p, OpenCycle(p, closed, Tp(b), nowMs), end, Tp(b), nowMs);
      }
    }
  }

  // An upward segment closes at most 1 + (end - start) / (start * tp / 100) baskets.
  lemma {:induction false} UpClosesBounded(p: Params, b: Book, start: real, end: real, nowMs: int)
    requires ValidParams(p) && Sound(p, b) && 0.0 < start < end && p.config.tpPercent > 0.0
    ensures Product(start, p.config.tpPercent / 100.0) > 0.0
    ensures (|Traverse(p, b, start, end, nowMs).cycles| - |b.cycles|) as real
            <= 1.0 + (end - start) / Product(start, p.config.tpPercent / 100.0)
  {
    var step := Product(start, p.config.tpPercent / 100.0);
    FewerSteps(end - start, start, start, p.config.tpPercent / 100.0);
    UpClosesWithinMeasure(p, b, end, start, nowMs);
    if TakesProfit(b, end, start) {
      Undo(step, end - start);
      Quotient(end - Tp(b), step, (end - start) / step);
    }
  }

  // With a negative take profit it closes at most one.
  lemma {:induction false} NegativeTpClosesOnce(p: Params, b: Book, start: real, end: real, nowMs: int)
    requires Accepted(p) && Sound(p, b) && 0.0 < start < end && p.config.tpPercent < 0.0
    ensures |Traverse(p, b, start, end, nowMs).cycles| <= |b.cycles| + 1
  {
    UpClosesWithinMeasure(p, b, end, start, nowMs);
  }

  // A downward segment closes nothing and fills at most the remaining levels of the ladder.
  lemma {:induction false} DownFillsBounded(p: Params, b: Book, end: real, current: real)
    requires Accepted(p) && Sound(p, b) && end > 0.0
    ensures var after := DownWalk(p, b, end, current);
            after.cycles == b.cycles
            && OpenFills(b) <= OpenFills(after)
            && |OpenFills(after)| - |OpenFills(b)| <= RemainingLevels(p, b)
            && |OpenFills(after)| - |OpenFills(b)| == RemainingLevels(p, b) - RemainingLevels(p, after)
    decreases RemainingLevels(p, b)
  {
    DownKeepsSound(p, b, end, current);
    if Triggers(b, end, current) {
      var trigger := b.strategy.NextTrigger().value;
      DcaKeepsSound(p, b, trigger);
      DownFillsBounded(p, AddDca(p, b, trigger), end, trigger);
    }
  }

  // ---------------------------------------------------------------- exactly when the loop ends

  // One turn of the upward loop as the program runs it, whatever the settings: the book and price
  // it goes on with, or None when it stops.
  function Turn(p: Params, b: Book, end: real, current: real, nowMs: int): Option<(Book, real)>
    requires Accepted(p)
  {
    if !TakesProfit(b, end, current) then None
    else
      var (closed, again) := AfterClose(p, b, nowMs);
      if again then Some((OpenCycle(p, closed, Tp(b), nowMs), Tp(b))) else None
  }

  // The loop stops within n turns.
  predicate StopsWithin(p: Params, b: Book, end: real, current: real, nowMs: int, n: nat)
    requires Accepted(p)
    decreases n
  {
    var next := Turn(p, b, end, current, nowMs);
    next.None? || (n > 0 && StopsWithin(p, next.value.0, end, next.value.1, nowMs, n - 1))
  }

  ghost predicate Stops(p: Params, b: Book, end: real, current: real, nowMs: int)
    requires Accepted(p)
  {
    exists n: nat :: StopsWithin(p, b, end, current, nowMs, n)
  }

  lemma {:induction false} WalkStops(p: Params, b: Book, end: real, current: real, nowMs: int) returns (n: nat)
    requires ValidParams(p) && Sound(p, b) && current > 0.0
    ensures StopsWithin(p, b, end, current, nowMs, n)
    decreases UpMeasure(p, b, end, current)
  {
    n := 0;
    if TakesProfit(b, end, current) {
      var (closed, again) := AfterClose(p, b, nowMs);
      if again {
        CloseKeepsSound(p, b, nowMs);
        OpenKeepsSound(p, closed, Tp(b), nowMs);
        UpMeasureFalls(p, b, end, current, nowMs);
        var rest := WalkStops(p, OpenCycle(p, closed, Tp(b), nowMs), end, Tp(b), nowMs);
        n := rest + 1;
      }
    }
  }

  // A basket opened at the price it would be closed at again.
  ghost predicate AtItsTarget(p: Params, b: Book, price: real) {
    && Sound(p, b) && price > 0.0
    && OpenFills(b) == [Fill(price, Fresh(p.config, p.reference).InitialQty(price), InitialFill)]
  }

  lemma {:induction false} NeverStops(p: Params, b: Book, end: real, price: real, nowMs: int, n: nat)
    requires Accepted(p) && !Terminates(p) && AtItsTarget(p, b, price) && price <= end
    ensures !StopsWithin(p, b, end, price, nowMs, n)
    decreases n
  {
    var fill := OpenFills(b)[0];
    PositiveQty([fill]);
    SingleFill(fill);
    assert Product(price, 1.0) == price;
    var closed := AfterClose(p, b, nowMs).0;
    CloseKeepsSound(p, b, nowMs);
    OpenKeepsSound(p, closed, price, nowMs);
    if n > 0 {
      NeverStops(p, OpenCycle(p, closed, price, nowMs), end, price, nowMs, n - 1);
    }
  }

  // The settings under which the upward loop stops on every segment are exactly these: a nonzero
  // take profit, a re-entry delay, no re-entry, or a maximum number of baskets.
  lemma {:induction false} ReplaysEndExactly(p: Params)
    requires Accepted(p)
    ensures Terminates(p)
            <==> forall b, end, current, nowMs | Sound(p, b) && current > 0.0 :: Stops(p, b, end, current, nowMs)
  {
    if Terminates(p) {
      forall b, end, current, nowMs | Sound(p, b) && current > 0.0 ensures Stops(p, b, end, current, nowMs) {
        var n := WalkStops(p, b, end, current, nowMs);
      }
    } else {
      OpenKeepsSound(p, Start(p), 1.0, 0);
      var b := OpenCycle(p, Start(p), 1.0, 0);
      assert AtItsTarget(p, b, 1.0);
      forall n: nat ensures !StopsWithin(p, b, 1.0, 1.0, 0, n) {
        NeverStops(p, b, 1.0, 1.0, 0, n);
      }
      assert Sound(p, b) && !Stops(p, b, 1.0, 1.0, 0);
    }
  }

  // ---------------------------------------------------------------- candles and runs

  function ApplyFunding(funding: Option<FundingModel>, b: Book, startMs: int, markPrice: real): Book {
    if funding.None? || b.strategy.cycle.None? then b
    else b.(funding := b.funding + funding.value(startMs, markPrice, TotalQty(OpenFills(b))))
  }

  predicate MayEnter(p: Params, b: Book, c: Candle) {
    !(!p.autoReentry && b.cycles != []) && !(c.startMs < b.nextEligibleMs)
  }

  // The book after funding and a possible entry at the candle's first point, and whether the
  // candle is traversed at all.
  function Enter(p: Params, funding: Option<FundingModel>, b: Book, c: Candle): (Book, bool)
    requires Accepted(p)
  {
    var funded := ApplyFunding(funding, b, c.startMs, c.open);
    if funded.strategy.cycle.Some? then (funded, true)
    else if !MayEnter(p, funded, c) then (funded, false)
    else (OpenCycle(p, funded, c.open, c.startMs), true)
  }

  lemma EnterKeepsSound(p: Params, funding: Option<FundingModel>, b: Book, c: Candle)
    requires Accepted(p) && Sound(p, b) && ValidCandle(c)
    ensures Sound(p, Enter(p, funding, b, c).0)
  {
    var funded := ApplyFunding(funding, b, c.startMs, c.open);
    if funded.strategy.cycle.None? {
      OpenKeepsSound(p, funded, c.open, c.startMs);
    }
  }

  // The book after the first k of the candle's segments.
  function Segments(p: Params, b: Book, points: seq<real>, k: nat, nowMs: int): (r: Book)
    requires ValidParams(p) && Sound(p, b) && k < |points| && PositivePoints(points)
    ensures Sound(p, r)
  {
    if k == 0 then b
    else
      var before := Segments(p, b, points, k - 1, nowMs);
      TraverseKeepsSound(p, before, points[k - 1], points[k], nowMs);
      Traverse(p, before, points[k - 1], points[k], nowMs)
  }

  function SegmentMarks(p: Params, b: Book, points: seq<real>, k: nat, nowMs: int): seq<real>
    requires ValidParams(p) && Sound(p, b) && k < |points| && PositivePoints(points)
  {
    if k == 0 then []
    else
      SegmentMarks(p, b, points, k - 1, nowMs)
      + TraverseMarks(p, Segments(p, b, points, k - 1, nowMs), points[k - 1], points[k], nowMs)
  }

  ghost predicate PositivePoints(points: seq<real>) {
    forall i | 0 <= i < |points| :: points[i] > 0.0
  }

  function Step(p: Params, funding: Option<FundingModel>, b: Book, c: Candle): (r: Book)
    requires ValidParams(p) && Sound(p, b) && ValidCandle(c)
    ensures Sound(p, r)
  {
    EnterKeepsSound(p, funding, b, c);
    var (entered, traversed) := Enter(p, funding, b, c);
    if !traversed then entered else Segments(p, entered, Points(c, p.path), 3, c.startMs)
  }

  function StepMarks(p: Params, funding: Option<FundingModel>, b: Book, c: Candle): seq<real>
    requires ValidParams(p) && Sound(p, b) && ValidCandle(c)
  {
    EnterKeepsSound(p, funding, b, c);
    var (entered, traversed) := Enter(p, funding, b, c);
    if !traversed then []
    else [EquityAt(p, entered, c.open)] + SegmentMarks(p, entered, Points(c, p.path), 3, c.startMs)
  }

  // The candle loop of a run: it stops processing once the engine is stopped.
  function RunBook(p: Params, funding: Option<FundingModel>, candles: seq<Candle>): (r: Book)
    requires ValidParams(p) && forall i | 0 <= i < |candles| :: ValidCandle(candles[i])
    ensures Sound(p, r)
  {
    if candles == [] then Start(p)
    else
      var before := RunBook(p, funding, candles[..|candles| - 1]);
      if before.stopped then before else Step(p, funding, before, candles[|candles| - 1])
  }

  function RunMarks(p: Params, funding: Option<FundingModel>, candles: seq<Candle>): seq<real>
    requires ValidParams(p) && forall i | 0 <= i < |candles| :: ValidCandle(candles[i])
  {
    if candles == [] then []
    else
      var before := RunBook(p, funding, candles[..|candles| - 1]);
      RunMarks(p, funding, candles[..|candles| - 1])
      + if before.stopped then [] else StepMarks(p, funding, before, candles[|candles| - 1])
  }

  // ---------------------------------------------------------------- conservation

  datatype Totals = Totals(entry: real, exit: real, fees: real, gross: real, net: real)

  function TotalsOf(cycles: seq<CycleReplay>): Totals {
    if cycles == [] then Totals(0.0, 0.0, 0.0, 0.0, 0.0)
    else
      var t, c := TotalsOf(cycles[..|cycles| - 1]), cycles[|cycles| - 1];
      Totals(t.entry + c.entryFees, t.exit + c.exitFee, t.fees + c.fees, t.gross + c.gross, t.net + c.net)
  }

  // A recorded cycle agrees with its own fills: fees and margin recomputed from them, gross
  // profit equal to the take-profit percentage of the notional, net equal to gross less fees.
  ghost predicate CycleBalanced(p: Params, c: CycleReplay)
    requires Accepted(p)
  {
    && c.fills != [] && c.dcaLevel == |c.fills| - 1
    && c.entryFees == Product(Notional(c.fills), p.feeRate)
    && c.exitFee == Product(Product(c.exitPrice, TotalQty(c.fills)), p.feeRate)
    && c.fees == c.entryFees + c.exitFee
    && c.gross == Product(c.exitPrice, TotalQty(c.fills)) - Notional(c.fills)
    && c.gross == Product(Notional(c.fills), p.config.tpPercent / 100.0)
    && (p.config.tpPercent > 0.0 ==> c.gross > 0.0)
    && c.net == c.gross - c.fees
    && c.margin == Notional(c.fills) / p.config.leverage as real
    && TotalQty(c.fills) > 0.0 && c.averageEntry == Some(Notional(c.fills) / TotalQty(c.fills))
  }

  ghost predicate Balanced(p: Params, b: Book)
    requires Accepted(p)
  {
    TotalsAgree(b) && CyclesAgree(p, b) && OpenAgrees(p, b) && ExtremesAttained(b)
  }

  // The greatest margin and level reported are those of some basket.
  ghost predicate ExtremesAttained(b: Book) {
    && (b.maxMargin == 0.0 || b.maxMargin == b.currentMargin || MarginAttained(b.cycles, b.maxMargin))
    && (b.maxDca == 0 || (b.maxDca >= 0 && b.maxDca == |OpenFills(b)| - 1) || LevelAttained(b.cycles, b.maxDca))
  }

  ghost predicate MarginAttained(cycles: seq<CycleReplay>, margin: real) {
    exists i :: 0 <= i < |cycles| && cycles[i].margin == margin
  }

  ghost predicate LevelAttained(cycles: seq<CycleReplay>, level: int) {
    exists i :: 0 <= i < |cycles| && cycles[i].dcaLevel == level
  }

  ghost predicate TotalsAgree(b: Book) {
    TotalsOf(b.cycles) == Totals(b.entryPaid - b.currentEntryFees, b.exitPaid, b.fees, b.gross, b.net)
  }

  ghost predicate CyclesAgree(p: Params, b: Book)
    requires Accepted(p)
  {
    && (forall i | 0 <= i < |b.cycles| :: CycleBalanced(p, b.cycles[i]))
    && (forall i | 0 <= i < |b.cycles| :: b.cycles[i].margin <= b.maxMargin && b.cycles[i].dcaLevel <= b.maxDca)
  }

  ghost predicate OpenAgrees(p: Params, b: Book)
    requires Accepted(p)
  {
    && b.currentEntryFees == Product(Notional(OpenFills(b)), p.feeRate)
    && b.currentMargin == Notional(OpenFills(b)) / p.config.leverage as real
    && b.currentMargin <= b.maxMargin && |OpenFills(b)| - 1 <= MaxInt(b.maxDca, 0)
  }

  lemma GrossIsSpread(fills: seq<Fill>, price: real)
    ensures GrossAt(fills, price) == Product(price, TotalQty(fills)) - Notional(fills)
  {
    if fills == [] {
      assert Product(price, 0.0) == 0.0;
    } else {
      var last := fills[|fills| - 1];
      GrossIsSpread(fills[..|fills| - 1], price);
      Distribute(price, TotalQty(fills[..|fills| - 1]), last.qty);
      assert Product(price - last.price, last.qty) == Product(price, last.qty) - Product(last.price, last.qty);
    }
  }

  // Selling at the take profit earns exactly the take-profit percentage of the notional.
  lemma TakeProfitGross(notional: real, qty: real, percent: real)
    requires qty > 0.0
    ensures Product(Raised(notional / qty, percent), qty) - notional == Product(notional, percent / 100.0)
  {
    var average, rate := notional / qty, percent / 100.0;
    Undo(qty, notional);
    assert Product(Product(average, 1.0 + rate), qty) == Product(Product(qty, average), 1.0 + rate);
    Distribute(notional, 1.0, rate);
  }

  lemma Zeros(p: Params)
    requires Accepted(p)
    ensures EntryFee(p, 0.0) == 0.0 && Margin(p, 0.0) == 0.0
  {
    assert Product(0.0, p.feeRate) == 0.0;
  }

  lemma {:induction false} CloseBalances(p: Params, b: Book, nowMs: int)
    requires Accepted(p) && Sound(p, b) && Balanced(p, b) && b.strategy.cycle.Some?
    requires b.strategy.cycle.value.TpPrice().Some?
    ensures Balanced(p, AfterClose(p, b, nowMs).0)
    ensures AfterClose(p, b, nowMs).0.cycles == b.cycles + [ReplayOf(p, b, Tp(b), nowMs)]
  {
    var replay := ReplayOf(p, b, Tp(b), nowMs);
    ReplayIsBalanced(p, b, nowMs);
    MaxMarginIsPositive(p, b);
    BookedBalances(p, b, AfterClose(p, b, nowMs).0, replay);
  }

  // What booking a finished replay changes.
  ghost predicate Booked(b: Book, after: Book, replay: CycleReplay) {
    && after.strategy.cycle.None? && after.cycles == b.cycles + [replay]
    && after.currentEntryFees == 0.0 && after.currentMargin == 0.0 && after.entryPaid == b.entryPaid
    && after.gross == b.gross + replay.gross && after.fees == b.fees + replay.fees
    && after.exitPaid == b.exitPaid + replay.exitFee && after.net == b.net + replay.net
    && after.maxMargin == b.maxMargin && after.maxDca == MaxInt(b.maxDca, replay.dcaLevel)
  }

  lemma BookedBalances(p: Params, b: Book, after: Book, replay: CycleReplay)
    requires Accepted(p) && Balanced(p, b) && b.maxMargin > 0.0 && Booked(b, after, replay)
    requires CycleBalanced(p, replay) && replay.entryFees == b.currentEntryFees && replay.margin == b.currentMargin
    requires replay.fills == OpenFills(b)
    ensures Balanced(p, after)
  {
    TotalsAppend(b.cycles, replay);
    Zeros(p);
    AttainedMore(b.cycles, replay);
  }

  lemma AttainedMore(cycles: seq<CycleReplay>, replay: CycleReplay)
    ensures forall margin | margin == replay.margin || MarginAttained(cycles, margin) ::
              MarginAttained(cycles + [replay], margin)
    ensures forall level | level == replay.dcaLevel || LevelAttained(cycles, level) ::
              LevelAttained(cycles + [replay], level)
  {
    var more := cycles + [replay];
    assert more[|cycles|] == replay;
    forall margin | MarginAttained(cycles, margin) ensures MarginAttained(more, margin) {
      var i :| 0 <= i < |cycles| && cycles[i].margin == margin;
      assert more[i].margin == margin;
    }
    forall level | LevelAttained(cycles, level) ensures LevelAttained(more, level) {
      var i :| 0 <= i < |cycles| && cycles[i].dcaLevel == level;
      assert more[i].dcaLevel == level;
    }
  }

  lemma MaxMarginIsPositive(p: Params, b: Book)
    requires Accepted(p) && Sound(p, b) && OpenAgrees(p, b) && b.strategy.cycle.Some?
    ensures b.maxMargin > 0.0
  {
    PositiveNotional(OpenFills(b));
    Quotient(Notional(OpenFills(b)), p.config.leverage as real, 0.0);
    assert Product(p.config.leverage as real, 0.0) == 0.0;
    Undo(p.config.leverage as real, Notional(OpenFills(b)));
  }

  lemma ReplayIsBalanced(p: Params, b: Book, nowMs: int)
    requires Accepted(p) && Sound(p, b) && Balanced(p, b) && b.strategy.cycle.Some?
    requires b.strategy.cycle.value.TpPrice().Some?
    ensures CycleBalanced(p, ReplayOf(p, b, Tp(b), nowMs))
  {
    var fills := OpenFills(b);
    GrossIsSpread(fills, Tp(b));
    PositiveQty(fills);
    PositiveNotional(fills);
    TakeProfitGross(Notional(fills), TotalQty(fills), p.config.tpPercent);
    if p.config.tpPercent > 0.0 {
      MulMonoStrict(p.config.tpPercent / 100.0, 0.0, Notional(fills));
    }
  }

  lemma TotalsAppend(cycles: seq<CycleReplay>, replay: CycleReplay)
    ensures TotalsOf(cycles + [replay])
         == var t := TotalsOf(cycles);
            Totals(t.entry + replay.entryFees, t.exit + replay.exitFee, t.fees + replay.fees, t.gross + replay.gross,
                   t.net + replay.net)
  {
    assert (cycles + [replay])[..|cycles|] == cycles;
  }

  lemma {:induction false} OpenBalances(p: Params, b: Book, price: real, nowMs: int)
    requires Accepted(p) && Sound(p, b) && Balanced(p, b) && b.strategy.cycle.None? && price > 0.0
    ensures Balanced(p, OpenCycle(p, b, price, nowMs))
  {
    OpenKeepsSound(p, b, price, nowMs);
    SingleFill(OpenFills(OpenCycle(p, b, price, nowMs))[0]);
    Zeros(p);
  }

  lemma {:induction false} DcaBalances(p: Params, b: Book, price: real)
    requires Accepted(p) && Sound(p, b) && Balanced(p, b) && b.strategy.NextTrigger().Some? && price > 0.0
    ensures Balanced(p, AddDca(p, b, price))
  {
    DcaKeepsSound(p, b, price);
    var fill := Fill(price, b.strategy.NextQty().value, DcaFill);
    Appended(OpenFills(b), fill);
    DistributeLeft(Notional(OpenFills(b)), Product(fill.price, fill.qty), p.feeRate);
    SumOfQuotients(Notional(OpenFills(b)), Product(fill.price, fill.qty), p.config.leverage as real);
  }

  lemma UpBalances(p: Params, b: Book, end: real, current: real, nowMs: int)
    requires ValidParams(p) && Sound(p, b) && Balanced(p, b) && current > 0.0
    ensures Balanced(p, UpWalk(p, b, end, current, nowMs))
    decreases UpMeasure(p, b, end, current)
  {
    if TakesProfit(b, end, current) {
      var (closed, again) := AfterClose(p, b, nowMs);
      CloseKeepsSound(p, b, nowMs);
      CloseBalances(p, b, nowMs);
      if again {
        OpenKeepsSound(p, closed, Tp(b), nowMs);
        OpenBalances(p, closed, Tp(b), nowMs);
        UpMeasureFalls(p, b, end, current, nowMs);
        UpBalances(p, OpenCycle(p, closed, Tp(b), nowMs), end, Tp(b), nowMs);
      }
    }
  }

  lemma DownBalances(p: Params, b: Book, end: real, current: real)
    requires Accepted(p) && Sound(p, b) && Balanced(p, b) && end > 0.0
    ensures Balanced(p, DownWalk(p, b, end, current))
    decreases RemainingLevels(p, b)
  {
    if Triggers(b, end, current) {
      var trigger := b.strategy.NextTrigger().value;
      DcaKeepsSound(p, b, trigger);
      DcaBalances(p, b, trigger);
      DownBalances(p, AddDca(p, b, trigger), end, trigger);
    }
  }

  lemma SegmentsBalance(p: Params, b: Book, points: seq<real>, k: nat, nowMs: int)
    requires ValidParams(p) && Sound(p, b) && Balanced(p, b) && k < |points| && PositivePoints(points)
    ensures Balanced(p, Segments(p, b, points, k, nowMs))
  {
    if k > 0 {
      SegmentsBalance(p, b, points, k - 1, nowMs);
      var before := Segments(p, b, points, k - 1, nowMs);
      UpBalances(p, before, points[k], points[k - 1], nowMs);
      DownBalances(p, before, points[k], points[k - 1]);
    }
  }

  lemma StepBalances(p: Params, funding: Option<FundingModel>, b: Book, c: Candle)
    requires ValidParams(p) && Sound(p, b) && Balanced(p, b) && ValidCandle(c)
    ensures Balanced(p, Step(p, funding, b, c))
  {
    var funded := ApplyFunding(funding, b, c.startMs, c.open);
    if funded.strategy.cycle.None? {
      OpenBalances(p, funded, c.open, c.startMs);
    }
    EnterKeepsSound(p, funding, b, c);
    var (entered, traversed) := Enter(p, funding, b, c);
    if traversed {
      SegmentsBalance(p, entered, Points(c, p.path), 3, c.startMs);
    }
  }

  // Over every run: totals are the sums over the recorded cycles, every cycle agrees with its
  // fills, and the open basket's fees and margin are those of its fills.
  lemma {:induction false} RunBalances(p: Params, funding: Option<FundingModel>, candles: seq<Candle>)
    requires ValidParams(p) && forall i | 0 <= i < |candles| :: ValidCandle(candles[i])
    ensures Balanced(p, RunBook(p, funding, candles))
  {
    if candles == [] {
      Zeros(p);
    } else {
      RunBalances(p, funding, candles[..|candles| - 1]);
      var before := RunBook(p, funding, candles[..|candles| - 1]);
      if !before.stopped {
        StepBalances(p, funding, before, candles[|candles| - 1]);
      }
    }
  }

  lemma TotalsConserve(p: Params, cycles: seq<CycleReplay>)
    requires Accepted(p) && forall i | 0 <= i < |cycles| :: CycleBalanced(p, cycles[i])
    ensures TotalsOf(cycles).fees == TotalsOf(cycles).entry + TotalsOf(cycles).exit
    ensures TotalsOf(cycles).net == TotalsOf(cycles).gross - TotalsOf(cycles).fees
  {
    if cycles != [] {
      TotalsConserve(p, cycles[..|cycles| - 1]);
    }
  }

  // Fees paid in and out are the fees of the closed baskets plus the entry fees of the open one,
  // and the net result is the gross result less the fees of the closed baskets.
  lemma {:induction false} RunConservesFees(p: Params, funding: Option<FundingModel>, candles: seq<Candle>)
    requires ValidParams(p) && forall i | 0 <= i < |candles| :: ValidCandle(candles[i])
    ensures var b := RunBook(p, funding, candles);
            b.entryPaid + b.exitPaid == b.fees + EntryFee(p, Notional(OpenFills(b)))
            && b.net == b.gross - b.fees
  {
    RunBalances(p, funding, candles);
    TotalsConserve(p, RunBook(p, funding, candles).cycles);
  }

  // ---------------------------------------------------------------- drawdown

  // The two figures tracked from the equity marks.
  datatype Equity = Equity(peak: real, maxDrawdown: real)

  function Marked(e: Equity, value: real): Equity {
    var peak := if value >= e.peak then value else e.peak;
    Equity(peak, Max(e.maxDrawdown, peak - value))
  }

  function Tracked(e: Equity, marks: seq<real>): Equity {
    if marks == [] then e else Marked(Tracked(e, marks[..|marks| - 1]), marks[|marks| - 1])
  }

  lemma TrackedConcat(e: Equity, first: seq<real>, second: seq<real>)
    ensures Tracked(e, first + second) == Tracked(Tracked(e, first), second)
  {
    if second == [] {
      assert first + second == first;
    } else {
      var n := |second| - 1;
      assert (first + second)[..|first| + n] == first + second[..n];
      TrackedConcat(e, first, second[..n]);
    }
  }

  // The equity path: it starts at zero and goes through the marks.
  function EquityPath(marks: seq<real>): seq<real> {
    [0.0] + marks
  }

  // The largest fall of a path from any point to a later one.
  ghost predicate LargestFall(path: seq<real>, fall: real) {
    && (forall i, j | 0 <= i <= j < |path| :: path[i] - path[j] <= fall)
    && (exists i, j | 0 <= i <= j < |path| :: path[i] - path[j] == fall)
  }

  ghost predicate Highest(path: seq<real>, peak: real) {
    peak in path && forall i | 0 <= i < |path| :: path[i] <= peak
  }

  // Tracking the marks one by one finds their peak and their largest fall.
  lemma {:induction false} TrackedIsDrawdown(marks: seq<real>)
    ensures Highest(EquityPath(marks), Tracked(Equity(0.0, 0.0), marks).peak)
    ensures LargestFall(EquityPath(marks), Tracked(Equity(0.0, 0.0), marks).maxDrawdown)
  {
    if marks == [] {
      assert EquityPath(marks)[0] - EquityPath(marks)[0] == 0.0;
    } else {
      var n := |marks| - 1;
      var before, path, shorter := Tracked(Equity(0.0, 0.0), marks[..n]), EquityPath(marks), EquityPath(marks[..n]);
      TrackedIsDrawdown(marks[..n]);
      assert path == shorter + [marks[n]];
      ExtendFall(shorter, marks[n], before);
    }
  }

  lemma ExtendFall(path: seq<real>, value: real, before: Equity)
    requires Highest(path, before.peak) && LargestFall(path, before.maxDrawdown)
    ensures Highest(path + [value], Marked(before, value).peak)
    ensures LargestFall(path + [value], Marked(before, value).maxDrawdown)
  {
    var longer, after := path + [value], Marked(before, value);
    assert longer[|path|] == value;
    var top :| 0 <= top < |path| && path[top] == before.peak;
    assert longer[top] == before.peak;
    var i, j :| 0 <= i <= j < |path| && path[i] - path[j] == before.maxDrawdown;
    assert longer[i] - longer[j] == before.maxDrawdown;
    assert longer[top] - longer[|path|] == before.peak - value;
    assert longer[|path|] - longer[|path|] == 0.0;
    assert before.maxDrawdown >= 0.0 by {
      assert path[top] - path[top] <= before.maxDrawdown;
    }
  }

  // Closing at a price leaves the equity at that price unchanged, so the peak update at a close
  // never adds to a mark just taken there.
  lemma {:induction false} CloseKeepsEquity(p: Params, b: Book, nowMs: int, e: Equity)
    requires Accepted(p) && Sound(p, b) && b.strategy.cycle.Some? && b.strategy.cycle.value.TpPrice().Some?
    ensures var closed := AfterClose(p, b, nowMs).0;
            EquityAt(p, closed, Tp(b)) == EquityAt(p, b, Tp(b)) == closed.net - closed.funding
            && Max(Marked(e, EquityAt(p, b, Tp(b))).peak, closed.net - closed.funding)
               == Marked(e, EquityAt(p, b, Tp(b))).peak
  {
  }
}
