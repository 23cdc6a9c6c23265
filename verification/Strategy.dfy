// The DCA strategy state machine (botdca/strategy.py): the specification as a value, and
// the class whose methods update it in place.
module Strategy {
  import opened Common
  import opened Domain

  datatype Allocation = FixedMargin(value: real) | FixedQuantity(value: real)

  datatype TriggerReference = WeightedAverage | PreviousFill | InitialEntry

  datatype Config = Config(symbol: string, leverage: int, tpPercent: real, dcaSteps: seq<DcaStep>,
                           allocation: Allocation)

  datatype StrategyError = WrongState | BadValue | NoActiveCycle | LadderExhausted | NeedsFillHistory

  // What configuration validation guarantees of every installed configuration.
  ghost predicate ValidConfig(config: Config) {
    && config.leverage >= 1 && config.allocation.value > 0.0
    && forall i | 0 <= i < |config.dcaSteps| :: config.dcaSteps[i].multiplier > 0.0
  }

  datatype State = State(
    config: Config,
    reference: TriggerReference,
    state: BotState,
    cycle: Option<TradingCycle>,
    reentryEnabled: bool)
  {
    function Resume(): State {
      this.(reentryEnabled := true, state := if cycle.Some? then Active else Idle)
    }

    function Pause(): State {
      this.(reentryEnabled := false, state := Paused)
    }

    function NewCycle(id: string, fill: Fill, level: Option<int>, lastQty: Option<real>): TradingCycle {
      TradingCycle(id, config.leverage, config.tpPercent, [fill], level, lastQty, Some(|config.dcaSteps|))
    }

    function InitialQty(price: real): real
      requires price > 0.0
    {
      match config.allocation
      case FixedQuantity(value) => value
      case FixedMargin(value) => Product(value, config.leverage as real) / price
    }

    function Begin(id: string, price: real, qty: Option<real>): Result<State, StrategyError> {
      if state != Idle || !reentryEnabled then Err(WrongState)
      else if price <= 0.0 then Err(BadValue)
      else
        var size := if qty.Some? then qty.value else InitialQty(price);
        if size <= 0.0 then Err(BadValue)
        else Ok(this.(cycle := Some(NewCycle(id, Fill(price, size, InitialFill), None, None)), state := Active))
    }

    function Restore(id: string, averageEntry: real, qty: real, level: int,
                     lastQty: real): Result<State, StrategyError> {
      if averageEntry <= 0.0 || qty <= 0.0 || lastQty <= 0.0 then Err(BadValue)
      else if level < 0 || level > |config.dcaSteps| then Err(BadValue)
      else if level > 0 && reference != WeightedAverage then Err(NeedsFillHistory)
      else Ok(this.(cycle := Some(NewCycle(id, Fill(averageEntry, qty, RestoredFill), Some(level), Some(lastQty))),
                    state := if reentryEnabled then Active else Paused))
    }

    predicate Manageable() {
      cycle.Some? && (state == Active || state == Paused)
    }

    function ReferencePrice(): Option<real>
      requires cycle.Some?
    {
      var fills := cycle.value.fills;
      if fills == [] then None
      else match reference
        case WeightedAverage => cycle.value.AverageEntry()
        case PreviousFill => Some(fills[|fills| - 1].price)
        case InitialEntry => Some(fills[0].price)
    }

    // A level below zero wraps around in the source's tuple indexing; no operation produces one.
    predicate LevelInLadder()
      requires cycle.Some?
    {
      0 <= cycle.value.DcaLevel() < |config.dcaSteps|
    }

    function NextTrigger(): Option<real> {
      if !Manageable() || !LevelInLadder() || ReferencePrice().None? then None
      else Some(Lowered(ReferencePrice().value, config.dcaSteps[cycle.value.DcaLevel()].drop))
    }

    function NextQty(): Option<real> {
      if !Manageable() || !LevelInLadder() || cycle.value.LastOrderQty().None? then None
      else Some(Product(cycle.value.LastOrderQty().value, config.dcaSteps[cycle.value.DcaLevel()].multiplier))
    }

    function ApplyDca(price: real, qty: Option<real>): Result<State, StrategyError> {
      if !Manageable() then Err(NoActiveCycle)
      else if NextQty().None? then Err(LadderExhausted)
      else
        var fill := Fill(price, if qty.Some? then qty.value else NextQty().value, DcaFill);
        var before := cycle.value;
        var grown := before.(fills := before.fills + [fill]);
        var next := if before.dcaLevelOverride.Some?
                    then grown.(dcaLevelOverride := Some(before.dcaLevelOverride.value + 1),
                                lastOrderQtyOverride := Some(fill.qty))
                    else grown;
        Ok(this.(cycle := Some(next)))
    }

    function MarkClosed(): Result<State, StrategyError> {
      if cycle.None? then Err(NoActiveCycle)
      else Ok(this.(cycle := None, state := if reentryEnabled then Idle else Paused))
    }
  }

  function Fresh(config: Config, reference: TriggerReference): State {
    State(config, reference, Paused, None, false)
  }

  // ---------------------------------------------------------------- reachable states

  // What every operation keeps: no basket while idle, a basket whenever active, baskets hold a
  // positive quantity of positive fills, and the level stays within the pinned ladder.
  ghost predicate Invariant(s: State) {
    && ValidConfig(s.config)
    && (s.state == Paused || s.state == Idle || s.state == Active)
    && (s.state == Idle ==> s.cycle.None? && s.reentryEnabled)
    && (s.state == Active ==> s.cycle.Some? && s.reentryEnabled)
    && (s.state == Paused ==> !s.reentryEnabled)
    && (s.cycle.Some? ==> GoodCycle(s.config, s.cycle.value))
  }

  ghost predicate GoodCycle(config: Config, cycle: TradingCycle) {
    && cycle.fills != []
    && (forall i | 0 <= i < |cycle.fills| :: cycle.fills[i].qty > 0.0)
    && cycle.leverage == config.leverage && cycle.tpPercent == config.tpPercent
    && cycle.maxDcaLevel == Some(|config.dcaSteps|)
    && 0 <= cycle.DcaLevel() <= |config.dcaSteps|
    && (cycle.dcaLevelOverride.Some? <==> cycle.lastOrderQtyOverride.Some?)
    && (cycle.lastOrderQtyOverride.Some? ==> cycle.lastOrderQtyOverride.value > 0.0)
  }

  lemma PositiveQty(fills: seq<Fill>)
    requires fills != [] && forall i | 0 <= i < |fills| :: fills[i].qty > 0.0
    ensures TotalQty(fills) > 0.0
  {
    if |fills| > 1 {
      PositiveQty(fills[..|fills| - 1]);
    }
  }

  datatype Operation =
    | OpResume
    | OpPause
    | OpBegin(id: string, price: real, qty: Option<real>)
    | OpRestore(restoredId: string, averageEntry: real, totalQty: real, level: int, lastQty: real)
    | OpApplyDca(fillPrice: real, fillQty: Option<real>)
    | OpMarkClosed

  // An operation that raises leaves the strategy as it was.
  function Perform(s: State, op: Operation): State {
    var outcome := match op
      case OpResume => Ok(s.Resume())
      case OpPause => Ok(s.Pause())
      case OpBegin(id, price, qty) => s.Begin(id, price, qty)
      case OpRestore(id, average, qty, level, lastQty) => s.Restore(id, average, qty, level, lastQty)
      case OpApplyDca(price, qty) => s.ApplyDca(price, qty)
      case OpMarkClosed => s.MarkClosed();
    if outcome.Ok? then outcome.value else s
  }

  function Run(s: State, ops: seq<Operation>): State {
    if ops == [] then s else Perform(Run(s, ops[..|ops| - 1]), ops[|ops| - 1])
  }

  lemma {:induction false} PerformKeepsInvariant(s: State, op: Operation)
    requires Invariant(s)
    requires op.OpApplyDca? && op.fillQty.Some? ==> op.fillQty.value > 0.0
    ensures Invariant(Perform(s, op))
  {
    if op.OpApplyDca? && s.ApplyDca(op.fillPrice, op.fillQty).Ok? {
      var cycle := s.cycle.value;
      assert cycle.LastOrderQty().value > 0.0;
      MulMonoStrict(s.config.dcaSteps[cycle.DcaLevel()].multiplier, 0.0, cycle.LastOrderQty().value);
      assert s.NextQty().value > 0.0;
    }
  }

  // Over every run from a fresh strategy: while a basket can be managed it has an average and a
  // take-profit price, and it has a next trigger exactly when its level is below the ladder's top.
  lemma {:induction false} RunIsWellFormed(config: Config, reference: TriggerReference, ops: seq<Operation>)
    requires ValidConfig(config)
    requires forall i | 0 <= i < |ops| :: ops[i].OpApplyDca? && ops[i].fillQty.Some? ==> ops[i].fillQty.value > 0.0
    ensures var s := Run(Fresh(config, reference), ops);
            Invariant(s)
            && (s.cycle.Some? ==>
                s.Manageable() && s.cycle.value.AverageEntry().Some? && s.cycle.value.TpPrice().Some?
                && (s.NextTrigger().Some? <==> s.cycle.value.DcaLevel() < |config.dcaSteps|)
                && (s.NextQty().Some? <==> s.NextTrigger().Some?)
                && (s.cycle.value.AtMaxDca() <==> s.NextTrigger().None? && |config.dcaSteps| > 0))
  {
    RunKeepsInvariant(config, reference, ops);
    var s := Run(Fresh(config, reference), ops);
    if s.cycle.Some? {
      PositiveQty(s.cycle.value.fills);
    }
  }

  lemma {:induction false} RunKeepsInvariant(config: Config, reference: TriggerReference, ops: seq<Operation>)
    requires ValidConfig(config)
    requires forall i | 0 <= i < |ops| :: ops[i].OpApplyDca? && ops[i].fillQty.Some? ==> ops[i].fillQty.value > 0.0
    ensures Invariant(Run(Fresh(config, reference), ops)) && Run(Fresh(config, reference), ops).config == config
  {
    if ops != [] {
      RunKeepsInvariant(config, reference, ops[..|ops| - 1]);
      PerformKeepsInvariant(Run(Fresh(config, reference), ops[..|ops| - 1]), ops[|ops| - 1]);
    }
  }

  // ---------------------------------------------------------------- prices and sizes

  // What the next DCA is sized by: the pinned last quantity of a restored basket, else the last fill.
  function PreviousQty(cycle: TradingCycle): real
    requires cycle.lastOrderQtyOverride.Some? || cycle.fills != []
  {
    if cycle.lastOrderQtyOverride.Some? then cycle.lastOrderQtyOverride.value else cycle.fills[|cycle.fills| - 1].qty
  }

  // The next trigger lies the step's drop below its reference, and the next order is the step's
  // multiple of the previous one.
  lemma {:induction false} NextFillExactly(s: State)
    requires Invariant(s) && s.cycle.Some? && s.cycle.value.DcaLevel() < |s.config.dcaSteps|
    ensures s.NextTrigger().Some? && s.NextQty().Some?
    ensures var cycle, trigger := s.cycle.value, s.NextTrigger().value;
            var step := s.config.dcaSteps[cycle.DcaLevel()];
            && s.NextQty().value == Product(PreviousQty(cycle), step.multiplier)
            && match s.reference
               case WeightedAverage =>
                 Product(trigger, TotalQty(cycle.fills)) == Product(Notional(cycle.fills), 1.0 - step.drop / 100.0)
               case PreviousFill => trigger == cycle.fills[|cycle.fills| - 1].price * (1.0 - step.drop / 100.0)
               case InitialEntry => trigger == cycle.fills[0].price * (1.0 - step.drop / 100.0)
  {
    var cycle, rate := s.cycle.value, 1.0 - s.config.dcaSteps[s.cycle.value.DcaLevel()].drop / 100.0;
    PositiveQty(cycle.fills);
    var qty, average := TotalQty(cycle.fills), Notional(cycle.fills) / TotalQty(cycle.fills);
    Undo(qty, Notional(cycle.fills));
    assert Product(Product(average, rate), qty) == Product(Product(qty, average), rate);
  }

  // A basket is restored exactly from positive figures and a level of the ladder, deep levels only
  // with the weighted-average reference. Its next order is sized by the journaled last quantity.
  lemma {:induction false} RestoreExactly(s: State, id: string, averageEntry: real, qty: real, level: int,
                                          lastQty: real)
    requires ValidConfig(s.config)
    ensures s.Restore(id, averageEntry, qty, level, lastQty).Ok?
            <==> averageEntry > 0.0 && qty > 0.0 && lastQty > 0.0 && 0 <= level <= |s.config.dcaSteps|
                 && (level == 0 || s.reference.WeightedAverage?)
    ensures s.Restore(id, averageEntry, qty, level, lastQty).Ok? ==>
              var restored := s.Restore(id, averageEntry, qty, level, lastQty).value;
              && restored.cycle.Some? && restored.cycle.value.Qty() == qty
              && restored.cycle.value.AverageEntry() == Some(averageEntry)
              && restored.cycle.value.DcaLevel() == level
              && restored.state == (if s.reentryEnabled then Active else Paused)
              && restored.NextQty()
                 == if level < |s.config.dcaSteps| then Some(Product(lastQty, s.config.dcaSteps[level].multiplier))
                    else None
  {
    if averageEntry > 0.0 && qty > 0.0 {
      SingleFill(Fill(averageEntry, qty, RestoredFill));
    }
  }

  // A basket is begun exactly from the idle state with re-entry enabled, at a positive price and
  // size: the given one, the configured quantity, or what the configured margin buys.
  lemma {:induction false} BeginExactly(s: State, id: string, price: real, qty: Option<real>)
    requires ValidConfig(s.config)
    ensures s.Begin(id, price, qty).Ok?
            <==> s.state == Idle && s.reentryEnabled && price > 0.0 && (qty.Some? ==> qty.value > 0.0)
    ensures s.Begin(id, price, qty).Ok? ==>
              var fills := s.Begin(id, price, qty).value.cycle.value.fills;
              && |fills| == 1 && fills[0].price == price && s.Begin(id, price, qty).value.state == Active
              && match qty
                 case Some(given) => fills[0].qty == given
                 case None =>
                   match s.config.allocation
                   case FixedQuantity(value) => fills[0].qty == value
                   case FixedMargin(value) => Product(fills[0].qty, price) == Product(value, s.config.leverage as real)
  {
    if price > 0.0 && s.config.allocation.FixedMargin? {
      var value, leverage := s.config.allocation.value, s.config.leverage as real;
      MulMonoStrict(leverage, 0.0, value);
      Quotient(Product(value, leverage), price, 0.0);
      Undo(price, Product(value, leverage));
      assert Product(price, 0.0) == 0.0;
      assert Product(Product(value, leverage) / price, price) == Product(price, Product(value, leverage) / price);
    }
  }

  // ---------------------------------------------------------------- the class

  class DcaStrategy {
    const config: Config
    const reference: TriggerReference
    var state: BotState
    var currentCycle: Option<TradingCycle>
    var reentryEnabled: bool

    function View(): State
      reads this
    {
      State(config, reference, state, currentCycle, reentryEnabled)
    }

    constructor (config: Config, reference: TriggerReference)
      ensures View() == Fresh(config, reference)
    {
      this.config, this.reference := config, reference;
      state, currentCycle, reentryEnabled := Paused, None, false;
    }

    method Resume()
      modifies this
      ensures View() == old(View()).Resume()
    {
      reentryEnabled := true;
      state := if currentCycle.Some? then Active else Idle;
    }

    method Pause()
      modifies this
      ensures View() == old(View()).Pause()
    {
      reentryEnabled := false;
      state := Paused;
    }

    method BeginCycle(id: string, fillPrice: real, qty: Option<real>) returns (r: Result<TradingCycle, StrategyError>)
      modifies this
      ensures match old(View()).Begin(id, fillPrice, qty)
              case Ok(next) => View() == next && r == Ok(next.cycle.value)
              case Err(error) => unchanged(this) && r == Err(error)
    {
      if state != Idle || !reentryEnabled {
        return Err(WrongState);
      }
      if fillPrice <= 0.0 {
        return Err(BadValue);
      }
      var size: real;
      if qty.Some? {
        size := qty.value;
      } else {
        match config.allocation
        case FixedQuantity(value) => size := value;
        case FixedMargin(value) => size := Product(value, config.leverage as real) / fillPrice;
      }
      if size <= 0.0 {
        return Err(BadValue);
      }
      var cycle := TradingCycle(id, config.leverage, config.tpPercent, [], None, None, Some(|config.dcaSteps|));
      cycle := cycle.(fills := cycle.fills + [Fill(fillPrice, size, InitialFill)]);
      assert cycle.fills == [Fill(fillPrice, size, InitialFill)];
      currentCycle := Some(cycle);
      state := Active;
      r := Ok(cycle);
    }

    method RestoreCycle(id: string, averageEntry: real, totalQty: real, dcaLevel: int, lastOrderQty: real)
      returns (r: Result<TradingCycle, StrategyError>)
      modifies this
      ensures match old(View()).Restore(id, averageEntry, totalQty, dcaLevel, lastOrderQty)
              case Ok(next) => View() == next && r == Ok(next.cycle.value)
              case Err(error) => unchanged(this) && r == Err(error)
    {
      if averageEntry <= 0.0 || totalQty <= 0.0 || lastOrderQty <= 0.0 {
        return Err(BadValue);
      }
      if dcaLevel < 0 || dcaLevel > |config.dcaSteps| {
        return Err(BadValue);
      }
      if dcaLevel > 0 && reference != WeightedAverage {
        return Err(NeedsFillHistory);
      }
      var cycle := TradingCycle(id, config.leverage, config.tpPercent, [], Some(dcaLevel), Some(lastOrderQty),
                                Some(|config.dcaSteps|));
      cycle := cycle.(fills := cycle.fills + [Fill(averageEntry, totalQty, RestoredFill)]);
      assert cycle.fills == [Fill(averageEntry, totalQty, RestoredFill)];
      currentCycle := Some(cycle);
      state := if reentryEnabled then Active else Paused;
      r := Ok(cycle);
    }

    // The pure queries of the source, read off the current fields.
    function NextDcaTriggerPrice(): (r: Option<real>)
      reads this
      ensures r == View().NextTrigger()
    {
      State(config, reference, state, currentCycle, reentryEnabled).NextTrigger()
    }

    function NextDcaQty(): (r: Option<real>)
      reads this
      ensures r == View().NextQty()
    {
      State(config, reference, state, currentCycle, reentryEnabled).NextQty()
    }

    method ApplyDcaFill(fillPrice: real, qty: Option<real>) returns (r: Result<Fill, StrategyError>)
      modifies this
      ensures match old(View()).ApplyDca(fillPrice, qty)
              case Ok(next) => View() == next && r == Ok(next.cycle.value.fills[|next.cycle.value.fills| - 1])
              case Err(error) => unchanged(this) && r == Err(error)
    {
      if currentCycle.None? || !(state == Active || state == Paused) {
        return Err(NoActiveCycle);
      }
      var expected := NextDcaQty();
      if expected.None? {
        return Err(LadderExhausted);
      }
      var cycle := currentCycle.value;
      var fill := Fill(fillPrice, if qty.Some? then qty.value else expected.value, DcaFill);
      cycle := cycle.(fills := cycle.fills + [fill]);
      if cycle.dcaLevelOverride.Some? {
        cycle := cycle.(dcaLevelOverride := Some(cycle.dcaLevelOverride.value + 1),
                        lastOrderQtyOverride := Some(fill.qty));
      }
      currentCycle := Some(cycle);
      r := Ok(fill);
    }

    method MarkClosed() returns (r: Result<TradingCycle, StrategyError>)
      modifies this
      ensures match old(View()).MarkClosed()
              case Ok(next) => View() == next && r == Ok(old(currentCycle).value)
              case Err(error) => unchanged(this) && r == Err(error)
    {
      if currentCycle.None? {
        return Err(NoActiveCycle);
      }
      r := Ok(currentCycle.value);
      currentCycle := None;
      state := if reentryEnabled then Idle else Paused;
    }
  }
}
