// Restoring the local strategy from exchange truth and journaled fills (botdca/reconciliation.py).
module Reconciliation {
  import opened Common
  import opened Domain
  import opened Strategy
  import opened Orders
  import opened OrderPlan
  import opened Instruments
  import Persistence
  import Risk

  // `Unreconciled` is the source's ReconciliationError; a restore that raises is not one.
  datatype Outcome = FoundFlat | Restored | Unreconciled | RestoreRaised(error: StrategyError)

  // The journal's open-basket summary and the identity hashed from its fills.
  datatype Stored = Stored(summary: Persistence.Summary, cycleId: string)

  const ABSOLUTE_TOLERANCE: real := 0.000000001
  const RELATIVE_TOLERANCE: real := 0.000001

  predicate Agrees(summary: Persistence.Summary, position: Position) {
    Abs(summary.totalBuyQty - position.size) <= Max(ABSOLUTE_TOLERANCE, Product(position.size, RELATIVE_TOLERANCE))
  }

  function RestoredFrom(s: State, position: Position, stored: Stored): Result<State, StrategyError> {
    s.Restore(stored.cycleId, position.averageEntry, position.size, stored.summary.dcaLevel,
              stored.summary.lastOrderQty)
  }

  function Reconciled(s: State, position: Position, stored: Option<Stored>): (State, Outcome) {
    if !IsOpen(position) then (if s.cycle.Some? then s.MarkClosed().value else s, FoundFlat)
    else if position.side != Buy || stored.None? || !Agrees(stored.value.summary, position) then (s, Unreconciled)
    else match RestoredFrom(s, position, stored.value)
      case Ok(next) => (next, Outcome.Restored)
      case Err(error) => (s, RestoreRaised(error))
  }

  method ReconcileStrategy(strategy: DcaStrategy, position: Position, stored: Option<Stored>) returns (outcome: Outcome)
    modifies strategy
    ensures (strategy.View(), outcome) == Reconciled(old(strategy.View()), position, stored)
  {
    if !IsOpen(position) {
      if strategy.currentCycle.Some? {
        var _ := strategy.MarkClosed();
      }
      return FoundFlat;
    }
    if position.side != Buy {
      return Unreconciled;
    }
    if stored.None? {
      return Unreconciled;
    }
    var summary := stored.value.summary;
    var tolerance := Max(ABSOLUTE_TOLERANCE, Product(position.size, RELATIVE_TOLERANCE));
    if Abs(summary.totalBuyQty - position.size) > tolerance {
      return Unreconciled;
    }
    var r := strategy.RestoreCycle(stored.value.cycleId, position.averageEntry, position.size, summary.dcaLevel,
                                   summary.lastOrderQty);
    outcome := match r case Ok(_) => Outcome.Restored case Err(error) => RestoreRaised(error);
  }

  // Whatever the two local states were, reconciliation ends the same way, and when it restores,
  // the baskets and the order plans built from them are the same.
  lemma {:induction false} ReconcileForgetsLocalState(
    s: State, other: State, position: Position, stored: Option<Stored>, rules: Rules, limits: Option<Risk.Limits>,
    account: Option<Account>)
    requires s.config == other.config && s.reference == other.reference
    requires ValidRules(rules) && s.config.leverage != 0 && IsOpen(position)
    ensures Reconciled(s, position, stored).1 == Reconciled(other, position, stored).1
    ensures Reconciled(s, position, stored).1.Restored? ==>
              var a, b := Reconciled(s, position, stored).0, Reconciled(other, position, stored).0;
              && a.cycle == b.cycle && a.cycle.Some? && a.cycle.value.leverage != 0
              && BuildRestingOrderPlan(a, rules, limits, account) == BuildRestingOrderPlan(b, rules, limits, account)
  {
    if Reconciled(s, position, stored).1.Restored? {
      SamePlan(Reconciled(s, position, stored).0, Reconciled(other, position, stored).0, rules, limits, account);
    }
  }

  lemma SamePlan(a: State, b: State, rules: Rules, limits: Option<Risk.Limits>, account: Option<Account>)
    requires a.config == b.config && a.reference == b.reference && a.cycle == b.cycle
    requires a.Manageable() && b.Manageable() && a.cycle.value.leverage != 0 && ValidRules(rules)
    ensures BuildRestingOrderPlan(a, rules, limits, account) == BuildRestingOrderPlan(b, rules, limits, account)
  {
    assert a.NextTrigger() == b.NextTrigger() && a.NextQty() == b.NextQty();
    if limits.Some? {
      assert Risk.EvaluateNextDca(a, limits.value, account) == Risk.EvaluateNextDca(b, limits.value, account);
    }
  }

  // A restored basket is the exchange's: its size, its average, the journaled level; and the plan's
  // take profit is computed from those alone.
  lemma {:induction false} RestoredBasketIsTheExchanges(s: State, position: Position, stored: Stored)
    requires RestoredFrom(s, position, stored).Ok?
    ensures var cycle := RestoredFrom(s, position, stored).value.cycle.value;
            && cycle.Qty() == position.size && cycle.AverageEntry() == Some(position.averageEntry)
            && cycle.DcaLevel() == stored.summary.dcaLevel && cycle.LastOrderQty() == Some(stored.summary.lastOrderQty)
            && cycle.TpPrice() == Some(Raised(position.averageEntry, s.config.tpPercent))
  {
    SingleFill(Fill(position.averageEntry, position.size, RestoredFill));
  }

  // The journal's quantity is the exchange's, up to a millionth or a billionth of a unit.
  predicate SameSize(summary: Persistence.Summary, position: Position) {
    || Abs(summary.totalBuyQty - position.size) <= 0.000000001
    || Abs(summary.totalBuyQty - position.size) <= position.size * 0.000001
  }

  // A flat position takes the basket off; an open one is restored exactly when it is long, journaled
  // at its size, and its figures make a basket; otherwise the local state stays as it was.
  lemma {:induction false} ReconciledExactly(s: State, position: Position, stored: Option<Stored>)
    requires ValidConfig(s.config)
    ensures var (after, outcome) := Reconciled(s, position, stored);
            var agrees := position.side == Buy && stored.Some? && SameSize(stored.value.summary, position);
            && (outcome.FoundFlat? <==> position.size <= 0.0)
            && (outcome.FoundFlat? ==> after.cycle.None?)
            && (outcome.Unreconciled? <==> position.size > 0.0 && !agrees)
            && (outcome.Restored?
                <==> position.size > 0.0 && agrees
                     && position.averageEntry > 0.0 && stored.value.summary.lastOrderQty > 0.0
                     && 0 <= stored.value.summary.dcaLevel <= |s.config.dcaSteps|
                     && (stored.value.summary.dcaLevel == 0 || s.reference.WeightedAverage?))
            && (outcome.Unreconciled? || outcome.RestoreRaised? ==> after == s)
  {
    if position.size > 0.0 && stored.Some? {
      var summary := stored.value.summary;
      assert Product(position.size, RELATIVE_TOLERANCE) == position.size * 0.000001;
      RestoreExactly(s, stored.value.cycleId, position.averageEntry, position.size, summary.dcaLevel,
                     summary.lastOrderQty);
    }
  }
}
