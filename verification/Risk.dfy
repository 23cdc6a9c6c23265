// Per-strategy risk limits on the next DCA order (botdca/risk.py).
module Risk {
  import opened Common
  import opened Domain
  import opened Strategy
  import opened Orders

  datatype Limits = Limits(maxDcaLevel: int, maxMargin: real, minAvailable: real, minEquityRatio: real)

  datatype Reason = NoCycle | Exhausted | LevelCap | MarginCap | ReserveFloor

  datatype Decision = Decision(blocked: Option<Reason>, currentMargin: real, projectedMargin: real)

  function CommittedMargin(s: State): real
    requires s.cycle.Some? ==> s.cycle.value.leverage != 0
  {
    if s.cycle.None? then 0.0 else Notional(s.cycle.value.fills) / s.cycle.value.leverage as real
  }

  function Floor(minAvailable: real, minEquityRatio: real, account: Account): real {
    Max(minAvailable, Product(account.equity, minEquityRatio))
  }

  function EvaluateNextDca(s: State, limits: Limits, account: Option<Account>): Decision
    requires s.cycle.Some? ==> s.cycle.value.leverage != 0
  {
    if s.cycle.None? then Decision(Some(NoCycle), 0.0, 0.0)
    else
      var current := CommittedMargin(s);
      if s.NextTrigger().None? || s.NextQty().None? then Decision(Some(Exhausted), current, current)
      else
        var additional := Product(s.NextTrigger().value, s.NextQty().value) / s.cycle.value.leverage as real;
        var projected := current + additional;
        if s.cycle.value.DcaLevel() + 1 > limits.maxDcaLevel then Decision(Some(LevelCap), current, projected)
        else if projected > limits.maxMargin then Decision(Some(MarginCap), current, projected)
        else if account.Some? && account.value.available - additional
                < Floor(limits.minAvailable, limits.minEquityRatio, account.value)
        then Decision(Some(ReserveFloor), current, projected)
        else Decision(None, current, projected)
  }

  // Filling an allowed DCA at its trigger leaves the basket within both caps, at exactly the
  // projected margin.
  lemma {:induction false} AllowedDcaStaysWithinLimits(s: State, limits: Limits, account: Option<Account>)
    requires Invariant(s) && s.cycle.Some?
    requires EvaluateNextDca(s, limits, account).blocked.None?
    ensures s.ApplyDca(s.NextTrigger().value, None).Ok?
    ensures var filled := s.ApplyDca(s.NextTrigger().value, None).value;
            && filled.cycle.value.DcaLevel() <= limits.maxDcaLevel
            && CommittedMargin(filled) == EvaluateNextDca(s, limits, account).projectedMargin <= limits.maxMargin
  {
    var fills := s.cycle.value.fills;
    var fill := Fill(s.NextTrigger().value, s.NextQty().value, DcaFill);
    Appended(fills, fill);
    SumOfQuotients(Notional(fills), Product(fill.price, fill.qty), s.cycle.value.leverage as real);
  }

  // The margin the next DCA would reserve.
  function NextMargin(s: State): real
    requires s.cycle.Some? && s.cycle.value.leverage != 0 && s.NextTrigger().Some? && s.NextQty().Some?
  {
    Product(s.NextTrigger().value, s.NextQty().value) / s.cycle.value.leverage as real
  }

  // The ladder, the level cap or the margin cap refuses the next DCA, whatever the account.
  predicate BlockedRegardless(s: State, limits: Limits)
    requires s.cycle.Some? && s.cycle.value.leverage != 0
  {
    || s.NextTrigger().None? || s.NextQty().None?
    || s.cycle.value.DcaLevel() + 1 > limits.maxDcaLevel
    || CommittedMargin(s) + NextMargin(s) > limits.maxMargin
  }

  // What the next DCA leaves available is at least the reserve.
  predicate ReserveHolds(s: State, limits: Limits, account: Account)
    requires s.cycle.Some? && s.cycle.value.leverage != 0 && !BlockedRegardless(s, limits)
  {
    account.available - NextMargin(s) >= Floor(limits.minAvailable, limits.minEquityRatio, account)
  }

  lemma {:induction false} BlockedExactly(s: State, limits: Limits, account: Account)
    requires s.cycle.Some? && s.cycle.value.leverage != 0
    ensures EvaluateNextDca(s, limits, Some(account)).blocked.None?
            <==> !BlockedRegardless(s, limits) && ReserveHolds(s, limits, account)
  {
  }

  // The order in which refusals are reported.
  function Rank(reason: Reason): nat {
    match reason
    case NoCycle => 0
    case Exhausted => 1
    case LevelCap => 2
    case MarginCap => 3
    case ReserveFloor => 4
  }

  // What each refusal stands for.
  predicate Refuses(reason: Reason, s: State, limits: Limits, account: Option<Account>)
    requires s.cycle.Some? ==> s.cycle.value.leverage != 0
  {
    match reason
    case NoCycle => s.cycle.None?
    case Exhausted => s.cycle.Some? && (s.NextTrigger().None? || s.NextQty().None?)
    case LevelCap => s.cycle.Some? && s.cycle.value.DcaLevel() >= limits.maxDcaLevel
    case MarginCap =>
      && s.cycle.Some? && s.NextTrigger().Some? && s.NextQty().Some?
      && CommittedMargin(s) + NextMargin(s) > limits.maxMargin
    case ReserveFloor =>
      && s.cycle.Some? && s.NextTrigger().Some? && s.NextQty().Some? && account.Some?
      && (account.value.available < limits.minAvailable + NextMargin(s)
          || account.value.available < Product(account.value.equity, limits.minEquityRatio) + NextMargin(s))
  }

  // A reason is reported exactly when it is the first that holds. The margins reported are what the
  // fills cost by the leverage, and what they cost with the next order at its trigger.
  lemma {:induction false} DecisionExactly(s: State, limits: Limits, account: Option<Account>, reason: Reason)
    requires s.cycle.Some? ==> s.cycle.value.leverage != 0
    ensures EvaluateNextDca(s, limits, account).blocked == Some(reason)
            <==> Refuses(reason, s, limits, account)
                 && forall other | Rank(other) < Rank(reason) :: !Refuses(other, s, limits, account)
    ensures s.cycle.Some? ==>
              EvaluateNextDca(s, limits, account).currentMargin
              == Notional(s.cycle.value.fills) / s.cycle.value.leverage as real
    ensures s.cycle.Some? && s.NextTrigger().Some? && s.NextQty().Some? ==>
              EvaluateNextDca(s, limits, account).projectedMargin
              == EvaluateNextDca(s, limits, account).currentMargin
                 + Product(s.NextTrigger().value, s.NextQty().value) / s.cycle.value.leverage as real
  {
    var blocked := EvaluateNextDca(s, limits, account).blocked;
    if blocked.Some? {
      assert Refuses(blocked.value, s, limits, account);
      assert Rank(reason) == Rank(blocked.value) ==> reason == blocked.value;
    }
  }
}
