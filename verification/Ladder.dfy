// Walks down the DCA ladder: the symbol forecast (botdca/forecast.py), the slot margin
// forecast (botdca/strategy_slots.py) and the executable-on-descent test
// (botdca/trigger_reference_experiment.py), all against the strategy itself.
module Ladder {
  import opened Common
  import opened Domain
  import opened Strategy
  import Risk

  // ---------------------------------------------------------------- the basket after k fills

  // The basket opened at a price by a resumed strategy.
  function Opened(config: Config, reference: TriggerReference, price: real): State {
    Perform(Fresh(config, reference).Resume(), OpBegin("", price, None))
  }

  // One DCA fill at the strategy's own trigger and quantity; no change when there is none.
  function DeepenedOnce(s: State): State {
    if s.NextTrigger().None? then s else Perform(s, OpApplyDca(s.NextTrigger().value, None))
  }

  function Deepened(config: Config, reference: TriggerReference, price: real, k: nat): State {
    if k == 0 then Opened(config, reference, price) else DeepenedOnce(Deepened(config, reference, price, k - 1))
  }

  function Fills(config: Config, reference: TriggerReference, price: real, k: nat): seq<Fill> {
    var s := Deepened(config, reference, price, k);
    if s.cycle.None? then [] else s.cycle.value.fills
  }

  ghost predicate Runnable(config: Config, price: real) {
    ValidConfig(config) && price > 0.0
  }

  // After k fills the basket is open, active and at level k, and holds k + 1 positive fills.
  ghost predicate AtLevel(s: State, config: Config, reference: TriggerReference, k: nat) {
    && Invariant(s) && s.config == config && s.reference == reference && s.state == Active
    && s.cycle.Some? && s.cycle.value.dcaLevelOverride.None?
    && |s.cycle.value.fills| == k + 1
    && s.cycle.value.DcaLevel() == k
    && s.cycle.value.Qty() > 0.0
  }

  lemma OpenedAtLevel(config: Config, reference: TriggerReference, price: real)
    requires Runnable(config, price)
    ensures AtLevel(Opened(config, reference, price), config, reference, 0)
    ensures Opened(config, reference, price).cycle.value.fills
            == [Fill(price, Fresh(config, reference).InitialQty(price), InitialFill)]
  {
    var resumed := Fresh(config, reference).Resume();
    assert resumed.InitialQty(price) > 0.0 by {
      if config.allocation.FixedMargin? {
        MulMonoStrict(config.leverage as real, 0.0, config.allocation.value);
        Quotient(Product(config.allocation.value, config.leverage as real), price, 0.0);
      }
    }
    PerformKeepsInvariant(resumed, OpBegin("", price, None));
    PositiveQty(Opened(config, reference, price).cycle.value.fills);
  }

  // The fill that takes the basket from level k - 1 to level k.
  lemma DeepenedOnceAtLevel(s: State, config: Config, reference: TriggerReference, k: nat)
    requires AtLevel(s, config, reference, k) && k < |config.dcaSteps|
    ensures s.NextTrigger().Some? && s.NextQty().Some?
    ensures AtLevel(DeepenedOnce(s), config, reference, k + 1)
    ensures DeepenedOnce(s).cycle.value.fills
            == s.cycle.value.fills + [Fill(s.NextTrigger().value, s.NextQty().value, DcaFill)]
  {
    PerformKeepsInvariant(s, OpApplyDca(s.NextTrigger().value, None));
    PositiveQty(DeepenedOnce(s).cycle.value.fills);
  }

  lemma {:induction false} DeepenedAtLevel(config: Config, reference: TriggerReference, price: real, k: nat)
    requires Runnable(config, price) && k <= |config.dcaSteps|
    ensures AtLevel(Deepened(config, reference, price, k), config, reference, k)
  {
    if k == 0 {
      OpenedAtLevel(config, reference, price);
    } else {
      DeepenedAtLevel(config, reference, price, k - 1);
      DeepenedOnceAtLevel(Deepened(config, reference, price, k - 1), config, reference, k - 1);
    }
  }

  // ---------------------------------------------------------------- the symbol forecast

  datatype LadderRow = LadderRow(
    level: nat, researchOnly: bool, live: bool, triggerDrop: real, fillPrice: real,
    incrementalQty: real, cumulativeQty: real,
    incrementalMargin: real, cumulativeMargin: real,
    notional: real, averageEntry: real)

  // The row is the basket s at level k: its last fill, its totals, its average and its margin.
  ghost predicate RowIsBasket(row: LadderRow, s: State, k: nat) {
    && s.cycle.Some? && |s.cycle.value.fills| == k + 1 && s.cycle.value.leverage != 0
    && row.level == k
    && row.triggerDrop == DropOf(s, k)
    && row.fillPrice == s.cycle.value.fills[k].price && row.incrementalQty == s.cycle.value.fills[k].qty
    && row.cumulativeQty == s.cycle.value.Qty()
    && row.notional == Notional(s.cycle.value.fills)
    && row.cumulativeMargin == Risk.CommittedMargin(s)
    && row.incrementalMargin == Product(row.fillPrice, row.incrementalQty) / s.cycle.value.leverage as real
    && s.cycle.value.AverageEntry() == Some(row.averageEntry)
  }

  // The configured drop of the step that leads to level k.
  function DropOf(s: State, k: nat): real {
    if 0 < k <= |s.config.dcaSteps| then s.config.dcaSteps[k - 1].drop else 0.0
  }

  // The running totals carried down the ladder.
  ghost predicate Carried(s: State, config: Config, k: nat, qty: real, notional: real, margin: real, lastQty: real) {
    && AtLevel(s, config, WeightedAverage, k) && config.leverage >= 1
    && qty == s.cycle.value.Qty()
    && notional == Notional(s.cycle.value.fills)
    && margin == notional / config.leverage as real
    && lastQty == s.cycle.value.fills[k].qty
  }

  // One turn of the forecast loops: the fill computed from the totals is the strategy's own.
  lemma CarriedStep(s: State, config: Config, k: nat, qty: real, notional: real, margin: real, lastQty: real)
    requires Carried(s, config, k, qty, notional, margin, lastQty) && k < |config.dcaSteps|
    ensures var step := config.dcaSteps[k];
            var fillPrice, fillQty := Lowered(notional / qty, step.drop), Product(lastQty, step.multiplier);
            var next := DeepenedOnce(s);
            && Carried(next, config, k + 1, qty + fillQty, notional + Product(fillPrice, fillQty),
                       margin + Product(fillPrice, fillQty) / config.leverage as real, fillQty)
            && next.cycle.value.fills[k + 1] == Fill(fillPrice, fillQty, DcaFill)
  {
    DeepenedOnceAtLevel(s, config, WeightedAverage, k);
    var fill := Fill(s.NextTrigger().value, s.NextQty().value, DcaFill);
    Appended(s.cycle.value.fills, fill);
    SumOfQuotients(notional, Product(fill.price, fill.qty), config.leverage as real);
  }

  // The totals before the first DCA fill.
  lemma CarriedStart(config: Config, price: real, initialQty: real)
    requires Runnable(config, price) && initialQty == Fresh(config, WeightedAverage).InitialQty(price)
    ensures var s := Opened(config, WeightedAverage, price);
            var notional := Product(price, initialQty);
            Carried(s, config, 0, initialQty, notional, notional / config.leverage as real, initialQty)
            && s.cycle.value.fills[0] == Fill(price, initialQty, InitialFill)
            && s.cycle.value.AverageEntry() == Some(price)
  {
    OpenedAtLevel(config, WeightedAverage, price);
    SingleFill(Opened(config, WeightedAverage, price).cycle.value.fills[0]);
  }

  function ForecastRow(level: nat, researchOnly: bool, live: bool, drop: real, leverage: real, fillPrice: real,
                       fillQty: real, qty: real, notional: real, margin: real): LadderRow
    requires leverage != 0.0 && qty != 0.0
  {
    LadderRow(level, researchOnly, live, drop, fillPrice, fillQty, qty,
              Product(fillPrice, fillQty) / leverage, margin, notional, notional / qty)
  }

  lemma RowOfCarried(s: State, config: Config, k: nat, qty: real, notional: real, margin: real, lastQty: real,
                     fillPrice: real, row: LadderRow)
    requires Carried(s, config, k, qty, notional, margin, lastQty) && fillPrice == s.cycle.value.fills[k].price
    requires row.triggerDrop == DropOf(s, k)
    requires row == ForecastRow(k, row.researchOnly, row.live, row.triggerDrop, config.leverage as real, fillPrice,
                                lastQty, qty, notional, margin)
    ensures RowIsBasket(row, s, k)
  {
  }

  // Every row is the strategy's own basket after that many DCA fills at its triggers.
  method ForecastSymbol(config: Config, price: real, maxLiveDcaLevel: nat, liveDcaCap: Option<int>)
    returns (r: Option<seq<LadderRow>>)
    requires ValidConfig(config)
    ensures r == None <==> price <= 0.0
    ensures r.Some? ==> |r.value| == |config.dcaSteps| + 1
    ensures r.Some? ==> forall k: nat | k < |r.value| ::
              RowIsBasket(r.value[k], Deepened(config, WeightedAverage, price, k), k)
              && (r.value[k].researchOnly <==> k > maxLiveDcaLevel)
              && (r.value[k].live <==> k == 0 || (k <= maxLiveDcaLevel && (liveDcaCap.Some? ==> k <= liveDcaCap.value)))
  {
    if price <= 0.0 {
      return None;
    }
    var maxLive := maxLiveDcaLevel;
    if liveDcaCap.Some? {
      maxLive := MaxInt(0, MinInt(maxLive, liveDcaCap.value));
    }
    var initialQty := match config.allocation
      case FixedMargin(value) => Product(value, config.leverage as real) / price
      case FixedQuantity(value) => value;
    var rows := ForecastRows(config, price, initialQty, maxLiveDcaLevel, maxLive);
    r := Some(rows);
  }

  method ForecastRows(config: Config, price: real, initialQty: real, maxLiveDcaLevel: nat, maxLive: nat)
    returns (rows: seq<LadderRow>)
    requires Runnable(config, price) && initialQty == Fresh(config, WeightedAverage).InitialQty(price)
    ensures |rows| == |config.dcaSteps| + 1
    ensures forall k: nat | k < |rows| ::
              RowIsBasket(rows[k], Deepened(config, WeightedAverage, price, k), k)
              && rows[k].researchOnly == (k > maxLiveDcaLevel) && rows[k].live == (k <= maxLive)
  {
    var leverage := config.leverage as real;
    var cumulativeQty, cumulativeNotional := initialQty, Product(price, initialQty);
    var cumulativeMargin := Product(price, initialQty) / leverage;
    var lastQty := initialQty;
    ghost var s := Opened(config, WeightedAverage, price);
    CarriedStart(config, price, initialQty);
    rows := [LadderRow(0, false, true, 0.0, price, initialQty, cumulativeQty,
                       cumulativeMargin, cumulativeMargin, cumulativeNotional, price)];
    for index := 1 to |config.dcaSteps| + 1
      invariant |rows| == index
      invariant s == Deepened(config, WeightedAverage, price, index - 1)
      invariant Carried(s, config, index - 1, cumulativeQty, cumulativeNotional, cumulativeMargin, lastQty)
      invariant forall k: nat | k < index ::
                  RowIsBasket(rows[k], Deepened(config, WeightedAverage, price, k), k)
                  && rows[k].researchOnly == (k > maxLiveDcaLevel) && rows[k].live == (k <= maxLive)
    {
      var step := config.dcaSteps[index - 1];
      var weightedAverage := cumulativeNotional / cumulativeQty;
      var fillPrice := Lowered(weightedAverage, step.drop);
      var qty := Product(lastQty, step.multiplier);
      CarriedStep(s, config, index - 1, cumulativeQty, cumulativeNotional, cumulativeMargin, lastQty);
      cumulativeQty := cumulativeQty + qty;
      cumulativeNotional := cumulativeNotional + Product(fillPrice, qty);
      cumulativeMargin := cumulativeMargin + Product(fillPrice, qty) / leverage;
      lastQty := qty;
      s := DeepenedOnce(s);
      var row := ForecastRow(index, index > maxLiveDcaLevel, index <= maxLive, step.drop, leverage, fillPrice, qty,
                             cumulativeQty, cumulativeNotional, cumulativeMargin);
      RowOfCarried(s, config, index, cumulativeQty, cumulativeNotional, cumulativeMargin, lastQty, fillPrice, row);
      rows := rows + [row];
    }
  }

  // ---------------------------------------------------------------- the slot margin forecast

  // The same ladder at another price: prices scaled by `factor`, quantities by its inverse.
  ghost predicate Rescaled(fills: seq<Fill>, others: seq<Fill>, factor: real) {
    && |fills| == |others|
    && forall i | 0 <= i < |fills| ::
         others[i].price == Product(factor, fills[i].price) && fills[i].qty == Product(factor, others[i].qty)
  }

  lemma RescaledTotals(fills: seq<Fill>, others: seq<Fill>, factor: real)
    requires Rescaled(fills, others, factor)
    ensures Notional(fills) == Notional(others)
    ensures TotalQty(fills) == Product(factor, TotalQty(others))
  {
    if fills == [] {
      assert Product(factor, 0.0) == 0.0;
    } else {
      var n := |fills| - 1;
      RescaledTotals(fills[..n], others[..n], factor);
      Distribute(factor, TotalQty(others[..n]), others[n].qty);
      Regroup(factor, fills[n].price, others[n].qty);
    }
  }

  lemma Regroup(a: real, b: real, c: real)
    ensures Product(Product(a, b), c) == Product(b, Product(a, c))
    ensures Product(Product(a, b), c) == Product(a, Product(b, c))
  {
  }

  lemma RescaledAverage(notional: real, qty: real, otherQty: real, factor: real)
    requires factor > 0.0 && qty == Product(factor, otherQty) && otherQty > 0.0 && qty > 0.0
    ensures notional / otherQty == Product(factor, notional / qty)
  {
    var average := notional / qty;
    Undo(qty, notional);
    Regroup(factor, otherQty, average);
    assert Product(otherQty, Product(factor, average)) == notional;
    Undo(otherQty, Product(factor, average));
  }

  // The weighted-average trigger and the next quantity rescale with the fills.
  lemma NextFillRescales(fills: seq<Fill>, others: seq<Fill>, factor: real, step: DcaStep)
    requires factor > 0.0 && Rescaled(fills, others, factor) && fills != []
    requires TotalQty(fills) > 0.0 && TotalQty(others) > 0.0
    ensures Lowered(Notional(others) / TotalQty(others), step.drop)
            == Product(factor, Lowered(Notional(fills) / TotalQty(fills), step.drop))
    ensures Product(fills[|fills| - 1].qty, step.multiplier)
            == Product(factor, Product(others[|others| - 1].qty, step.multiplier))
  {
    RescaledTotals(fills, others, factor);
    RescaledAverage(Notional(fills), TotalQty(fills), TotalQty(others), factor);
    Regroup(factor, Notional(fills) / TotalQty(fills), 1.0 - step.drop / 100.0);
    Regroup(factor, others[|others| - 1].qty, step.multiplier);
  }

  lemma DeepeningRescales(s: State, t: State, config: Config, k: nat, factor: real)
    requires AtLevel(s, config, WeightedAverage, k) && AtLevel(t, config, WeightedAverage, k) && k < |config.dcaSteps|
    requires factor > 0.0 && Rescaled(s.cycle.value.fills, t.cycle.value.fills, factor)
    ensures DeepenedOnce(s).cycle.Some? && DeepenedOnce(t).cycle.Some?
    ensures Rescaled(DeepenedOnce(s).cycle.value.fills, DeepenedOnce(t).cycle.value.fills, factor)
  {
    DeepenedOnceAtLevel(s, config, WeightedAverage, k);
    DeepenedOnceAtLevel(t, config, WeightedAverage, k);
    NextFillRescales(s.cycle.value.fills, t.cycle.value.fills, factor, config.dcaSteps[k]);
  }

  // With fixed-margin sizing a different reference price only rescales the ladder.
  lemma {:induction false} LadderRescales(config: Config, price: real, other: real, factor: real, k: nat)
    requires Runnable(config, price) && other > 0.0 && config.allocation.FixedMargin? && k <= |config.dcaSteps|
    requires factor > 0.0 && other == Product(factor, price)
    ensures Rescaled(Fills(config, WeightedAverage, price, k), Fills(config, WeightedAverage, other, k), factor)
  {
    if k == 0 {
      OpenedAtLevel(config, WeightedAverage, price);
      OpenedAtLevel(config, WeightedAverage, other);
      InitialQtyRescales(Product(config.allocation.value, config.leverage as real), price, other, factor);
    } else {
      LadderRescales(config, price, other, factor, k - 1);
      DeepenedAtLevel(config, WeightedAverage, price, k - 1);
      DeepenedAtLevel(config, WeightedAverage, other, k - 1);
      DeepeningRescales(Deepened(config, WeightedAverage, price, k - 1),
                        Deepened(config, WeightedAverage, other, k - 1),
                        config, k - 1, factor);
    }
  }

  lemma InitialQtyRescales(value: real, price: real, other: real, factor: real)
    requires price > 0.0 && other > 0.0 && factor > 0.0 && other == Product(factor, price)
    ensures value / price == Product(factor, value / other)
  {
    var qty := value / other;
    Undo(other, value);
    Regroup(factor, price, qty);
    assert Product(price, Product(factor, qty)) == value;
    Undo(price, Product(factor, qty));
  }

  // So the committed margin at every level is the same at every reference price.
  lemma {:induction false} MarginIsPriceIndependent(config: Config, price: real, other: real, k: nat)
    requires Runnable(config, price) && other > 0.0 && config.allocation.FixedMargin? && k <= |config.dcaSteps|
    ensures AtLevel(Deepened(config, WeightedAverage, price, k), config, WeightedAverage, k)
    ensures AtLevel(Deepened(config, WeightedAverage, other, k), config, WeightedAverage, k)
    ensures Notional(Fills(config, WeightedAverage, price, k)) == Notional(Fills(config, WeightedAverage, other, k))
    ensures Risk.CommittedMargin(Deepened(config, WeightedAverage, price, k))
            == Risk.CommittedMargin(Deepened(config, WeightedAverage, other, k))
    ensures FillMargin(Deepened(config, WeightedAverage, price, k), k)
            == FillMargin(Deepened(config, WeightedAverage, other, k), k)
  {
    var factor := other / price;
    Undo(price, other);
    Quotient(other, price, 0.0);
    assert factor > 0.0 && other == Product(factor, price);
    LadderRescales(config, price, other, factor, k);
    RescaledTotals(Fills(config, WeightedAverage, price, k), Fills(config, WeightedAverage, other, k), factor);
    DeepenedAtLevel(config, WeightedAverage, price, k);
    DeepenedAtLevel(config, WeightedAverage, other, k);
    var fill, rescaled := Fills(config, WeightedAverage, price, k)[k], Fills(config, WeightedAverage, other, k)[k];
    Regroup(factor, fill.price, rescaled.qty);
  }

  datatype MarginRow = MarginRow(level: nat, drop: real, multiplier: real, incrementalMargin: real,
                                 cumulativeMargin: real)

  function SlotConfig(baseMargin: real, leverage: int, steps: seq<DcaStep>, maxDcaLevel: Option<nat>): Config {
    Config("", leverage, 0.0,
           if maxDcaLevel.Some? && maxDcaLevel.value < |steps| then steps[..maxDcaLevel.value] else steps,
           FixedMargin(baseMargin))
  }

  // The slot forecast walks the ladder from 100 whatever the market price is; its margins are
  // those of the live basket opened with that base margin at any price.
  method MarginForecast(baseMargin: real, leverage: int, steps: seq<DcaStep>, maxDcaLevel: Option<nat>)
    returns (r: Option<seq<MarginRow>>)
    requires forall i | 0 <= i < |steps| :: steps[i].multiplier > 0.0
    ensures r == None <==> baseMargin <= 0.0 || leverage <= 0
    ensures r.Some? ==> |r.value| == |SlotConfig(baseMargin, leverage, steps, maxDcaLevel).dcaSteps| + 1
    ensures r.Some? ==> forall marketPrice, k: nat | marketPrice > 0.0 && k < |r.value| ::
              MarginRowIsBasket(r.value[k], Deepened(SlotConfig(baseMargin, leverage, steps, maxDcaLevel),
                                                     WeightedAverage, marketPrice, k), k)
  {
    if baseMargin <= 0.0 || leverage <= 0 {
      return None;
    }
    var config := SlotConfig(baseMargin, leverage, steps, maxDcaLevel);
    var rows := MarginRows(config, baseMargin);
    forall marketPrice, k: nat | marketPrice > 0.0 && k < |rows|
      ensures MarginRowIsBasket(rows[k], Deepened(config, WeightedAverage, marketPrice, k), k)
    {
      MarginRowRescales(rows[k], config, 100.0, marketPrice, k);
    }
    r := Some(rows);
  }

  method MarginRows(config: Config, baseMargin: real) returns (rows: seq<MarginRow>)
    requires Runnable(config, 100.0) && config.allocation == FixedMargin(baseMargin)
    ensures |rows| == |config.dcaSteps| + 1
    ensures MarginRowsAre(rows, config)
  {
    var leverage := config.leverage as real;
    var lastQty := Product(baseMargin, leverage) / 100.0;
    var totalQty, totalNotional, cumulativeMargin := lastQty, Product(100.0, lastQty), baseMargin;
    ghost var s := Opened(config, WeightedAverage, 100.0);
    FirstMarginRow(config, baseMargin, lastQty);
    rows := [MarginRow(0, 0.0, 1.0, baseMargin, cumulativeMargin)];
    for index := 1 to |config.dcaSteps| + 1
      invariant |rows| == index
      invariant s == Deepened(config, WeightedAverage, 100.0, index - 1)
      invariant Carried(s, config, index - 1, totalQty, totalNotional, cumulativeMargin, lastQty)
      invariant MarginRowsAre(rows, config)
    {
      var step := config.dcaSteps[index - 1];
      var averageEntry := totalNotional / totalQty;
      var fillPrice := Lowered(averageEntry, step.drop);
      var qty := Product(lastQty, step.multiplier);
      var incrementalMargin := Product(fillPrice, qty) / leverage;
      MarginStep(s, config, index - 1, totalQty, totalNotional, cumulativeMargin, lastQty, leverage);
      cumulativeMargin := cumulativeMargin + incrementalMargin;
      totalQty := totalQty + qty;
      totalNotional := totalNotional + Product(fillPrice, qty);
      lastQty := qty;
      s := DeepenedOnce(s);
      rows := rows + [MarginRow(index, step.drop, step.multiplier, incrementalMargin, cumulativeMargin)];
    }
  }

  // The row is that of fill k: its step, its own margin and the margin committed with it.
  ghost predicate MarginRowIsBasket(row: MarginRow, s: State, k: nat) {
    && s.cycle.Some? && s.cycle.value.leverage != 0 && row.level == k && row.cumulativeMargin == Risk.CommittedMargin(s)
    && |s.cycle.value.fills| == k + 1 && row.incrementalMargin == FillMargin(s, k)
    && (k == 0 ==> row.drop == 0.0 && row.multiplier == 1.0)
    && (k > 0 ==> k <= |s.config.dcaSteps| && DcaStep(row.drop, row.multiplier) == s.config.dcaSteps[k - 1])
  }

  ghost predicate MarginRowsAre(rows: seq<MarginRow>, config: Config) {
    forall k: nat | k < |rows| :: MarginRowIsBasket(rows[k], Deepened(config, WeightedAverage, 100.0, k), k)
  }

  lemma FirstMarginRow(config: Config, baseMargin: real, initialQty: real)
    requires Runnable(config, 100.0) && config.allocation == FixedMargin(baseMargin)
    requires initialQty == Product(baseMargin, config.leverage as real) / 100.0
    ensures var s := Opened(config, WeightedAverage, 100.0);
            && Carried(s, config, 0, initialQty, Product(100.0, initialQty), baseMargin, initialQty)
            && MarginRowIsBasket(MarginRow(0, 0.0, 1.0, baseMargin, baseMargin), s, 0)
  {
    CarriedStart(config, 100.0, initialQty);
    BaseMarginIsCommitted(baseMargin, config.leverage as real, 100.0);
  }

  // One turn of the walk: the fill is the strategy's own and the row is that of the new basket.
  lemma MarginStep(s: State, config: Config, k: nat, qty: real, notional: real, margin: real, lastQty: real,
                   leverage: real)
    requires Carried(s, config, k, qty, notional, margin, lastQty) && k < |config.dcaSteps|
    requires leverage == config.leverage as real
    ensures var step := config.dcaSteps[k];
            var fillPrice, fillQty := Lowered(notional / qty, step.drop), Product(lastQty, step.multiplier);
            var cost := Product(fillPrice, fillQty);
            && Carried(DeepenedOnce(s), config, k + 1, qty + fillQty, notional + cost, margin + cost / leverage,
                       fillQty)
            && MarginRowIsBasket(MarginRow(k + 1, step.drop, step.multiplier, cost / leverage,
                                           margin + cost / leverage),
                                 DeepenedOnce(s), k + 1)
  {
    CarriedStep(s, config, k, qty, notional, margin, lastQty);
  }

  // A row of the walk from one price is the row of the walk from any other.
  lemma MarginRowRescales(row: MarginRow, config: Config, price: real, other: real, k: nat)
    requires Runnable(config, price) && other > 0.0 && config.allocation.FixedMargin? && k <= |config.dcaSteps|
    requires MarginRowIsBasket(row, Deepened(config, WeightedAverage, price, k), k)
    ensures MarginRowIsBasket(row, Deepened(config, WeightedAverage, other, k), k)
  {
    MarginIsPriceIndependent(config, price, other, k);
  }

  function FillMargin(s: State, k: nat): real
    requires s.cycle.Some? && s.cycle.value.leverage != 0 && k < |s.cycle.value.fills|
  {
    var fill := s.cycle.value.fills[k];
    Product(fill.price, fill.qty) / s.cycle.value.leverage as real
  }

  lemma BaseMarginIsCommitted(margin: real, leverage: real, price: real)
    requires leverage > 0.0 && price > 0.0
    ensures Product(price, Product(margin, leverage) / price) / leverage == margin
  {
    Undo(price, Product(margin, leverage));
    assert Product(margin, leverage) == Product(leverage, margin);
    Undo(leverage, margin);
  }

  // ---------------------------------------------------------------- executable on descent

  // Every trigger of the ladder lies strictly below the fill before it.
  ghost predicate ExecutableOnDescent(config: Config, reference: TriggerReference, price: real) {
    forall k: nat | k < |config.dcaSteps| :: TriggerDescends(config, reference, price, k)
  }

  ghost predicate TriggerDescends(config: Config, reference: TriggerReference, price: real, k: nat) {
    var s := Deepened(config, reference, price, k);
    s.NextTrigger().Some? && |Fills(config, reference, price, k)| == k + 1
    && s.NextTrigger().value < Fills(config, reference, price, k)[k].price
  }

  // The first k fills were made, each at a trigger strictly below the fill before it.
  ghost predicate DescendedTo(config: Config, reference: TriggerReference, k: nat, fillPrices: seq<real>) {
    && k <= |config.dcaSteps| && |fillPrices| == k + 1
    && |Fills(config, reference, 100.0, k)| == k + 1
    && (forall i: nat | i < k :: TriggerDescends(config, reference, 100.0, i))
    && (forall i | 0 <= i <= k :: fillPrices[i] == Fills(config, reference, 100.0, k)[i].price)
  }

  lemma DescendedStep(config: Config, reference: TriggerReference, k: nat, fillPrices: seq<real>)
    requires ValidConfig(config) && DescendedTo(config, reference, k, fillPrices) && k < |config.dcaSteps|
    ensures var s := Deepened(config, reference, 100.0, k);
            s.NextTrigger().Some?
            && (TriggerDescends(config, reference, 100.0, k) <==> s.NextTrigger().value < fillPrices[k])
            && (TriggerDescends(config, reference, 100.0, k) ==>
                DescendedTo(config, reference, k + 1, fillPrices + [s.NextTrigger().value]))
  {
    DeepenedAtLevel(config, reference, 100.0, k);
    DeepenedOnceAtLevel(Deepened(config, reference, 100.0, k), config, reference, k);
  }

  // One turn of the experiment's loop.
  lemma LadderTurn(config: Config, reference: TriggerReference, k: nat, fillPrices: seq<real>)
    requires ValidConfig(config) && DescendedTo(config, reference, k, fillPrices)
    ensures var s := Deepened(config, reference, 100.0, k);
            && (s.NextTrigger().None? <==> k == |config.dcaSteps|)
            && (s.NextTrigger().Some? ==>
                  && (TriggerDescends(config, reference, 100.0, k) <==> s.NextTrigger().value < fillPrices[k])
                  && (TriggerDescends(config, reference, 100.0, k) ==>
                      DescendedTo(config, reference, k + 1, fillPrices + [s.NextTrigger().value]))
                  && s.ApplyDca(s.NextTrigger().value, None) == Ok(Deepened(config, reference, 100.0, k + 1)))
  {
    DeepenedAtLevel(config, reference, 100.0, k);
    if k < |config.dcaSteps| {
      DescendedStep(config, reference, k, fillPrices);
      DeepenedOnceAtLevel(Deepened(config, reference, 100.0, k), config, reference, k);
    }
  }

  // The loop of the experiment, driving the strategy itself.
  method NormalizedFullLadder(config: Config, reference: TriggerReference)
    returns (executable: bool, levelsFilled: nat, fillPrices: seq<real>)
    requires ValidConfig(config)
    ensures DescendedTo(config, reference, levelsFilled, fillPrices)
    ensures executable <==> ExecutableOnDescent(config, reference, 100.0)
    ensures executable <==> levelsFilled == |config.dcaSteps|
  {
    var strategy := new DcaStrategy(config, reference);
    strategy.Resume();
    OpenedAtLevel(config, reference, 100.0);
    var begun := strategy.BeginCycle("", 100.0, None);
    fillPrices := [100.0];
    executable, levelsFilled := true, 0;
    while true
      invariant DescendedTo(config, reference, levelsFilled, fillPrices)
      invariant strategy.config == config && strategy.View() == Deepened(config, reference, 100.0, levelsFilled)
      invariant fresh(strategy)
      decreases |config.dcaSteps| - levelsFilled
    {
      LadderTurn(config, reference, levelsFilled, fillPrices);
      var trigger := strategy.NextDcaTriggerPrice();
      if trigger.None? {
        break;
      }
      if trigger.value >= fillPrices[|fillPrices| - 1] {
        executable := false;
        break;
      }
      var filled := strategy.ApplyDcaFill(trigger.value, None);
      fillPrices := fillPrices + [trigger.value];
      levelsFilled := levelsFilled + 1;
    }
  }

  ghost predicate DropsWithin(config: Config) {
    forall i | 0 <= i < |config.dcaSteps| :: 0.0 < config.dcaSteps[i].drop < 100.0
  }

  ghost predicate NonDecreasingDrops(config: Config) {
    forall i, j | 0 <= i < j < |config.dcaSteps| :: config.dcaSteps[i].drop <= config.dcaSteps[j].drop
  }

  function AverageAt(config: Config, reference: TriggerReference, price: real, k: nat): real {
    var fills := Fills(config, reference, price, k);
    if TotalQty(fills) == 0.0 then 0.0 else Notional(fills) / TotalQty(fills)
  }

  lemma LoweredBelow(price: real, drop: real)
    requires price > 0.0 && 0.0 < drop < 100.0
    ensures 0.0 < Lowered(price, drop) < price
  {
    MulMonoStrict(price, 0.0, 1.0 - drop / 100.0);
    MulMonoStrict(price, 1.0 - drop / 100.0, 1.0);
  }

  lemma LoweredOrder(price: real, other: real, drop: real, otherDrop: real)
    requires 0.0 < price < other && 0.0 < otherDrop <= drop < 100.0
    ensures Lowered(price, drop) < Lowered(other, otherDrop)
  {
    MulMono(price, 1.0 - drop / 100.0, 1.0 - otherDrop / 100.0);
    MulMonoStrict(1.0 - otherDrop / 100.0, price, other);
  }

  // Adding a fill below the average pulls the average down, but not below the fill.
  lemma AverageFalls(notional: real, qty: real, price: real, added: real)
    requires qty > 0.0 && added > 0.0 && 0.0 < price < notional / qty
    ensures 0.0 < (notional + Product(price, added)) / (qty + added) < notional / qty
  {
    var average, total := notional / qty, qty + added;
    Undo(qty, notional);
    MulMonoStrict(added, price, average);
    MulMonoStrict(added, 0.0, price);
    MulMonoStrict(qty, 0.0, average);
    DistributeLeft(qty, added, average);
    Quotient(notional + Product(price, added), total, average);
    Quotient(notional + Product(price, added), total, 0.0);
    if (notional + Product(price, added)) / total == average {
      Undo(total, notional + Product(price, added));
    }
    if (notional + Product(price, added)) / total == 0.0 {
      Undo(total, notional + Product(price, added));
    }
  }

  // Weighted-average triggers: with non-decreasing drops the whole ladder descends, and the
  // average falls strictly with every fill.
  lemma {:induction false} WeightedAverageLadderDescends(config: Config, price: real, k: nat)
    requires Runnable(config, price) && DropsWithin(config) && NonDecreasingDrops(config) && k < |config.dcaSteps|
    ensures TriggerDescends(config, WeightedAverage, price, k)
    ensures 0.0 < AverageAt(config, WeightedAverage, price, k + 1) < AverageAt(config, WeightedAverage, price, k)
  {
    var s := Deepened(config, WeightedAverage, price, k);
    DeepenedAtLevel(config, WeightedAverage, price, k);
    DeepenedOnceAtLevel(s, config, WeightedAverage, k);
    var fills, average := s.cycle.value.fills, AverageAt(config, WeightedAverage, price, k);
    if k == 0 {
      OpenedAtLevel(config, WeightedAverage, price);
      SingleFill(fills[0]);
      assert average == price;
    } else {
      WeightedAverageLadderDescends(config, price, k - 1);
      var before := Deepened(config, WeightedAverage, price, k - 1);
      DeepenedAtLevel(config, WeightedAverage, price, k - 1);
      DeepenedOnceAtLevel(before, config, WeightedAverage, k - 1);
      var earlier := AverageAt(config, WeightedAverage, price, k - 1);
      LoweredOrder(average, earlier, config.dcaSteps[k].drop, config.dcaSteps[k - 1].drop);
      assert fills[k].price == Lowered(earlier, config.dcaSteps[k - 1].drop);
    }
    LoweredBelow(average, config.dcaSteps[k].drop);
    NextAverage(config, price, k);
  }

  // A trigger below the average pulls it down.
  lemma NextAverage(config: Config, price: real, k: nat)
    requires Runnable(config, price) && k < |config.dcaSteps|
    requires var s := Deepened(config, WeightedAverage, price, k);
             s.NextTrigger().Some? && 0.0 < s.NextTrigger().value < AverageAt(config, WeightedAverage, price, k)
    ensures 0.0 < AverageAt(config, WeightedAverage, price, k + 1) < AverageAt(config, WeightedAverage, price, k)
  {
    var notional, qty, trigger, added := AverageSteps(config, price, k);
    AverageFalls(notional, qty, trigger, added);
  }

  // The averages before and after the fill at the trigger.
  lemma AverageSteps(config: Config, price: real, k: nat)
    returns (notional: real, qty: real, trigger: real, added: real)
    requires Runnable(config, price) && k < |config.dcaSteps|
    ensures qty > 0.0 && added > 0.0
    ensures Deepened(config, WeightedAverage, price, k).NextTrigger() == Some(trigger)
    ensures AverageAt(config, WeightedAverage, price, k) == notional / qty
    ensures AverageAt(config, WeightedAverage, price, k + 1) == (notional + Product(trigger, added)) / (qty + added)
  {
    var s := Deepened(config, WeightedAverage, price, k);
    DeepenedAtLevel(config, WeightedAverage, price, k);
    DeepenedOnceAtLevel(s, config, WeightedAverage, k);
    var fills := s.cycle.value.fills;
    trigger, added := s.NextTrigger().value, s.NextQty().value;
    notional, qty := Notional(fills), TotalQty(fills);
    Appended(fills, Fill(trigger, added, DcaFill));
    var next := Deepened(config, WeightedAverage, price, k + 1).cycle.value.fills;
    assert next == fills + [Fill(trigger, added, DcaFill)] && next[|fills|].qty > 0.0;
    PositiveQty(fills);
    AverageOf(config, price, k);
    AverageOf(config, price, k + 1);
  }

  lemma AverageOf(config: Config, price: real, k: nat)
    requires Runnable(config, price) && k <= |config.dcaSteps|
    ensures TotalQty(Fills(config, WeightedAverage, price, k)) > 0.0
    ensures AverageAt(config, WeightedAverage, price, k)
         == Notional(Fills(config, WeightedAverage, price, k)) / TotalQty(Fills(config, WeightedAverage, price, k))
  {
    DeepenedAtLevel(config, WeightedAverage, price, k);
  }

  // Under the initial-entry reference, fill k lies at the entry price lowered by drop k - 1.
  lemma {:induction false} InitialEntryFills(config: Config, price: real, k: nat)
    requires Runnable(config, price) && k <= |config.dcaSteps|
    ensures |Fills(config, InitialEntry, price, k)| == k + 1
    ensures Fills(config, InitialEntry, price, k)[0].price == price
    ensures k > 0 ==> Fills(config, InitialEntry, price, k)[k].price == Lowered(price, config.dcaSteps[k - 1].drop)
  {
    DeepenedAtLevel(config, InitialEntry, price, k);
    if k == 0 {
      OpenedAtLevel(config, InitialEntry, price);
    } else {
      InitialEntryFills(config, price, k - 1);
      DeepenedAtLevel(config, InitialEntry, price, k - 1);
      DeepenedOnceAtLevel(Deepened(config, InitialEntry, price, k - 1), config, InitialEntry, k - 1);
    }
  }

  lemma LoweredStrictly(price: real, drop: real, other: real)
    requires price > 0.0
    ensures Lowered(price, other) < Lowered(price, drop) <==> drop < other
    ensures Lowered(price, drop) < price <==> 0.0 < drop
  {
    Scale(price, 1.0 - drop / 100.0, 1.0 - other / 100.0);
    Scale(price, 1.0, 1.0 - drop / 100.0);
  }

  // The drop of step k is positive and larger than the drop before it.
  ghost predicate DropRises(config: Config, k: nat)
    requires k < |config.dcaSteps|
  {
    (if k == 0 then 0.0 else config.dcaSteps[k - 1].drop) < config.dcaSteps[k].drop
  }

  // There the ladder is executable exactly when the drops start above zero and strictly increase.
  lemma {:induction false} InitialEntryLadderDescendsExactly(config: Config, price: real)
    requires Runnable(config, price)
    ensures ExecutableOnDescent(config, InitialEntry, price)
            <==> forall k: nat | k < |config.dcaSteps| :: DropRises(config, k)
  {
    forall k: nat | k < |config.dcaSteps|
      ensures TriggerDescends(config, InitialEntry, price, k) <==> DropRises(config, k)
    {
      InitialEntryFills(config, price, k);
      DeepenedAtLevel(config, InitialEntry, price, k);
      DeepenedOnceAtLevel(Deepened(config, InitialEntry, price, k), config, InitialEntry, k);
      LoweredStrictly(price, if k == 0 then 0.0 else config.dcaSteps[k - 1].drop, config.dcaSteps[k].drop);
      LoweredStrictly(price, config.dcaSteps[k].drop, 0.0);
    }
  }

  // Under the previous-fill reference prices stay positive, so any positive drops descend.
  lemma {:induction false} PreviousFillLadderDescends(config: Config, price: real, k: nat)
    requires Runnable(config, price) && DropsWithin(config) && k < |config.dcaSteps|
    ensures TriggerDescends(config, PreviousFill, price, k)
    ensures Fills(config, PreviousFill, price, k)[k].price > 0.0
  {
    var s := Deepened(config, PreviousFill, price, k);
    DeepenedAtLevel(config, PreviousFill, price, k);
    DeepenedOnceAtLevel(s, config, PreviousFill, k);
    if k == 0 {
      OpenedAtLevel(config, PreviousFill, price);
    } else {
      PreviousFillLadderDescends(config, price, k - 1);
      DeepenedAtLevel(config, PreviousFill, price, k - 1);
      DeepenedOnceAtLevel(Deepened(config, PreviousFill, price, k - 1), config, PreviousFill, k - 1);
      LoweredBelow(Fills(config, PreviousFill, price, k - 1)[k - 1].price, config.dcaSteps[k - 1].drop);
    }
    LoweredBelow(Fills(config, PreviousFill, price, k)[k].price, config.dcaSteps[k].drop);
  }
}
