// The orders a basket should have resting (botdca/order_plan.py).
module OrderPlan {
  import opened Common
  import opened Domain
  import opened Strategy
  import opened Orders
  import opened Instruments
  import Protection
  import Risk

  datatype BlockedReason = MaxDca | RiskBlocked(reason: Risk.Reason)

  datatype RestingPlan = RestingPlan(
    takeProfit: OrderTarget, nextDca: Option<OrderTarget>, blocked: Option<BlockedReason>, maxDcaReached: bool)

  datatype PlanError = NoPosition | IllegalQuantity | BelowMinimumNotional

  predicate EnoughNotional(rules: Rules, target: OrderTarget) {
    Product(target.qty, target.price) >= rules.minNotional
  }

  function Target(rules: Rules, qty: Option<real>, price: real): Result<OrderTarget, PlanError> {
    if qty.None? then Err(IllegalQuantity)
    else if !EnoughNotional(rules, OrderTarget(qty.value, price)) then Err(BelowMinimumNotional)
    else Ok(OrderTarget(qty.value, price))
  }

  function BuildRestingOrderPlan(s: State, rules: Rules, limits: Option<Risk.Limits>,
                                 account: Option<Account>): Result<RestingPlan, PlanError>
    requires ValidRules(rules) && (s.cycle.Some? ==> s.cycle.value.leverage != 0)
  {
    if s.cycle.None? || s.cycle.value.TpPrice().None? then Err(NoPosition)
    else
      var tp := Target(rules, FloorQty(rules, s.cycle.value.Qty()), CeilPrice(rules, s.cycle.value.TpPrice().value));
      if tp.Err? then Err(tp.error)
      else if s.NextTrigger().None? || s.NextQty().None? then Ok(RestingPlan(tp.value, None, Some(MaxDca), true))
      else
        var blocked := if limits.None? then None else Risk.EvaluateNextDca(s, limits.value, account).blocked;
        if blocked.Some? then Ok(RestingPlan(tp.value, None, Some(RiskBlocked(blocked.value)), false))
        else
          var dca := Target(rules, FloorQty(rules, s.NextQty().value), FloorPrice(rules, s.NextTrigger().value));
          if dca.Err? then Err(dca.error) else Ok(RestingPlan(tp.value, Some(dca.value), None, false))
  }

  // A plan flags the maximum exactly when the ladder is exhausted, plans no DCA then, and never
  // plans one beyond the pinned ladder or the risk caps.
  lemma {:induction false} PlanRespectsLadder(s: State, rules: Rules, limits: Option<Risk.Limits>,
                                              account: Option<Account>)
    requires Invariant(s) && s.cycle.Some? && ValidRules(rules) && s.state != Idle
    requires BuildRestingOrderPlan(s, rules, limits, account).Ok?
    ensures var plan := BuildRestingOrderPlan(s, rules, limits, account).value;
            && (plan.maxDcaReached <==> s.cycle.value.DcaLevel() == |s.config.dcaSteps|)
            && (plan.nextDca.Some? ==>
                  s.cycle.value.DcaLevel() < |s.config.dcaSteps|
                  && (limits.Some? ==> s.cycle.value.DcaLevel() + 1 <= limits.value.maxDcaLevel
                                       && Risk.EvaluateNextDca(s, limits.value, account).projectedMargin
                                          <= limits.value.maxMargin))
            && (plan.nextDca.None? <==> plan.blocked.Some?)
  {
    PositiveQty(s.cycle.value.fills);
  }

  // Two plans of one basket made with different account readings differ only in the DCA, and in that
  // exactly when the reserve check decides differently.
  lemma {:induction false} AccountDecidesOnlyTheDca(s: State, rules: Rules, limits: Risk.Limits, account: Account,
                                                    later: Account)
    requires s.cycle.Some? && s.cycle.value.leverage != 0 && ValidRules(rules)
    requires BuildRestingOrderPlan(s, rules, Some(limits), Some(account)).Ok?
    requires BuildRestingOrderPlan(s, rules, Some(limits), Some(later)).Ok?
    ensures var first, second := BuildRestingOrderPlan(s, rules, Some(limits), Some(account)).value,
                                 BuildRestingOrderPlan(s, rules, Some(limits), Some(later)).value;
            && first.takeProfit == second.takeProfit && first.maxDcaReached == second.maxDcaReached
            && (first.nextDca.Some? && second.nextDca.Some? ==> first.nextDca == second.nextDca)
            && (first.nextDca == second.nextDca
                <==> Risk.BlockedRegardless(s, limits)
                     || Risk.ReserveHolds(s, limits, account) == Risk.ReserveHolds(s, limits, later))
  {
    Risk.BlockedExactly(s, limits, account);
    Risk.BlockedExactly(s, limits, later);
  }

  // A take profit never sells below its unrounded price by more than the noise, and a planned
  // DCA never buys above its trigger by more than the noise.
  lemma {:induction false} PlanPricesAreSafe(s: State, rules: Rules, limits: Option<Risk.Limits>,
                                             account: Option<Account>)
    requires s.cycle.Some? && s.cycle.value.leverage != 0 && ValidRules(rules)
    requires BuildRestingOrderPlan(s, rules, limits, account).Ok?
    ensures var plan := BuildRestingOrderPlan(s, rules, limits, account).value;
            var noise := Product(rules.tickSize, RATIO_NOISE);
            && s.cycle.value.TpPrice().Some? && plan.takeProfit.price >= s.cycle.value.TpPrice().value - noise
            && plan.takeProfit.qty <= s.cycle.value.Qty() + Product(rules.qtyStep, RATIO_NOISE)
            && (plan.nextDca.Some? ==>
                  s.NextTrigger().Some? && plan.nextDca.value.price <= s.NextTrigger().value + noise)
  {
    var plan := BuildRestingOrderPlan(s, rules, limits, account).value;
    StepsBracket(s.cycle.value.TpPrice().value, rules.tickSize);
    StepsBracket(s.cycle.value.Qty(), rules.qtyStep);
    if plan.nextDca.Some? {
      StepsBracket(s.NextTrigger().value, rules.tickSize);
    }
  }

  // A position of n legal steps with float drift: the plan covers exactly n steps, and that take
  // profit resting alone is judged protective.
  lemma {:induction false} LegalPositionIsProtected(
    s: State, rules: Rules, limits: Option<Risk.Limits>, account: Option<Account>, n: nat, drift: real,
    orders: seq<OpenOrder>, k: nat)
    requires s.cycle.Some? && s.cycle.value.leverage != 0 && ValidRules(rules)
    requires n > 0 && Abs(drift) <= Product(rules.qtyStep, RATIO_NOISE)
    requires s.cycle.value.Qty() == Product(rules.qtyStep, n as real) + drift
    requires BuildRestingOrderPlan(s, rules, limits, account).Ok?
    requires k < |orders| && Protection.IsBotTakeProfit(orders[k])
    requires orders[k].qty == BuildRestingOrderPlan(s, rules, limits, account).value.takeProfit.qty
    requires forall i | 0 <= i < |orders| && i != k :: !Protection.IsBotTakeProfit(orders[i])
    ensures var planned := BuildRestingOrderPlan(s, rules, limits, account).value.takeProfit.qty;
            && planned == Product(rules.qtyStep, n as real)
            && Protection.AssessProtection(s.cycle.value.Qty(), orders, Some(planned)).status == Protection.Protected
  {
    var planned := Product(rules.qtyStep, n as real);
    PlannedQty(s, rules, limits, account);
    DriftIsAbsorbed(n, drift, rules.qtyStep, RoundFloor);
    DriftIsTolerated(rules.qtyStep, n, drift, s.cycle.value.Qty());
    Protection.SoleTakeProfitProtectsExactly(s.cycle.value.Qty(), orders, k, planned);
  }

  lemma PlannedQty(s: State, rules: Rules, limits: Option<Risk.Limits>, account: Option<Account>)
    requires s.cycle.Some? && s.cycle.value.leverage != 0 && ValidRules(rules)
    requires BuildRestingOrderPlan(s, rules, limits, account).Ok?
    ensures BuildRestingOrderPlan(s, rules, limits, account).value.takeProfit.qty
            == Steps(s.cycle.value.Qty(), rules.qtyStep, RoundFloor)
  {
  }

  lemma DriftIsTolerated(step: real, n: nat, drift: real, qty: real)
    requires step > 0.0 && n > 0 && Abs(drift) <= Product(step, RATIO_NOISE) && qty == Product(step, n as real) + drift
    ensures qty > 0.0 && qty - Product(step, n as real) <= Protection.Tolerance(qty)
            && -drift <= Protection.Tolerance(qty)
  {
    Scale(step, 1.0, n as real);
    assert Product(step, 1.0) == step;
    assert Product(step, RATIO_NOISE) == step * RATIO_NOISE;
    assert qty >= step - Product(step, RATIO_NOISE);
    assert Product(Abs(qty), Protection.RELATIVE_TOLERANCE) == qty * Protection.RELATIVE_TOLERANCE;
  }

  // ---------------------------------------------------------------- the plan, case by case

  // The rounded order can be sent: it is within the instrument's limits and worth enough.
  predicate Sendable(rules: Rules, qty: real, price: real)
    requires ValidRules(rules)
  {
    FloorQty(rules, qty).Some? && Product(FloorQty(rules, qty).value, price) >= rules.minNotional
  }

  // A plan is made exactly when the take profit can be sent, and the next DCA too where one is to be
  // planned: the ladder has one and the checks allow it. It holds the rounded figures of both.
  lemma {:induction false} PlannedExactly(s: State, rules: Rules, limits: Option<Risk.Limits>, account: Option<Account>)
    requires Invariant(s) && s.cycle.Some? && ValidRules(rules) && s.state != Idle
    ensures s.cycle.value.TpPrice().Some?
    ensures var plan, cycle := BuildRestingOrderPlan(s, rules, limits, account), s.cycle.value;
            var price := CeilPrice(rules, cycle.TpPrice().value);
            var blocked := limits.Some? && Risk.EvaluateNextDca(s, limits.value, account).blocked.Some?;
            && (plan.Ok?
                <==> Sendable(rules, cycle.Qty(), price)
                     && (s.NextTrigger().Some? && !blocked ==>
                           s.NextQty().Some?
                           && Sendable(rules, s.NextQty().value, FloorPrice(rules, s.NextTrigger().value))))
            && (plan.Ok? ==>
                  && plan.value.takeProfit == OrderTarget(FloorQty(rules, cycle.Qty()).value, price)
                  && (plan.value.maxDcaReached <==> s.NextTrigger().None?)
                  && (plan.value.nextDca.Some? <==> s.NextTrigger().Some? && !blocked)
                  && (plan.value.nextDca.Some? ==>
                        s.NextQty().Some? && FloorQty(rules, s.NextQty().value).Some?
                        && plan.value.nextDca.value
                           == OrderTarget(FloorQty(rules, s.NextQty().value).value,
                                          FloorPrice(rules, s.NextTrigger().value)))
                  && (s.NextTrigger().Some? && blocked ==>
                        plan.value.blocked
                        == Some(RiskBlocked(Risk.EvaluateNextDca(s, limits.value, account).blocked.value))))
            && (plan.Err? ==> plan.error == IllegalQuantity || plan.error == BelowMinimumNotional)
            && (plan.Err? && FloorQty(rules, cycle.Qty()).None? ==> plan.error == IllegalQuantity)
  {
    PositiveQty(s.cycle.value.fills);
  }
}
