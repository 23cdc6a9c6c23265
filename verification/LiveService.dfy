// The live strategy service (botdca/live_service.py): reconcile, protect, then replace the DCA
// order; or, when flat, wait out the re-entry delay and submit an entry.
module LiveService {
  import opened Common
  import opened Domain
  import opened Strategy
  import opened Orders
  import opened Instruments
  import opened OrderPlan
  import opened LiveBook
  import opened LiveExchange
  import opened LiveScript
  import opened Reconciliation
  import Persistence
  import Protection
  import Risk

  datatype Settings = Settings(
    rules: Rules, limits: Risk.Limits, coordinated: bool, reentryDelay: real, tpGrace: real, pauseAfterCycle: bool)

  datatype Failure = UnexpectedSide | RestoreFailed(error: StrategyError) | PlanFailed(reason: PlanError)
                   | ExchangeDisagrees | CallFailed

  datatype Status =
    | FlatPaused
    | ReentryWait(remaining: real)
    | EntryBlocked
    | EntrySubmitted
    | WaitingForReconciliation
    | ProtectionAmbiguous
    | TakeProfitOnly
    | MaxDcaHeld
    | OrdersRebuilt

  datatype Synced = Synced(status: Status, protection: Option<Protection.Status>)

  // The strategy after the sync's own reading: paused for an unexpected side, else reconciled.
  function LocalAfterReading(s: State, first: Position, second: Position, stored: Option<Stored>): (after: State)
    ensures after.config == s.config
  {
    if first.side != Buy then s.Pause() else Reconciled(s, second, stored).0
  }

  // ---------------------------------------------------------------- the flat sync

  // The service's own fields beside the strategy.
  datatype Local = Local(strategy: State, flatSince: Option<real>, entrySubmittedAt: Option<real>)

  // What a flat sync reads: the clock, the sized entry (None when it is not exchange-legal), the
  // account, the coordinator's verdict, whether the submission goes through and the clock then.
  datatype Market = Market(now: real, sized: Option<real>, price: real, account: Account, allowed: bool,
                           submitted: bool, after: real)

  // The strategy once the closed basket is taken off.
  function Closed(s: State, pauseAfterCycle: bool): State {
    if s.cycle.None? then s
    else if s.state == Paused || pauseAfterCycle then s.MarkClosed().value.Pause()
    else s.MarkClosed().value
  }

  predicate BlockedByStrategy(settings: Settings, config: Config, market: Market)
    requires market.sized.Some? && config.leverage != 0
  {
    var margin := Product(market.sized.value, market.price) / config.leverage as real;
    || margin > settings.limits.maxMargin
    || (!settings.coordinated
        && market.account.available - margin
           < Risk.Floor(settings.limits.minAvailable, settings.limits.minEquityRatio, market.account))
  }

  function FlatSince(local: Local, now: real): real {
    if local.flatSince.Some? then local.flatSince.value else now
  }

  function Remaining(settings: Settings, local: Local, now: real): real {
    Max(0.0, settings.reentryDelay - (now - FlatSince(local, now)))
  }

  // The entry order is handed to the exchange.
  predicate Submits(settings: Settings, local: Local, market: Market)
    requires local.strategy.config.leverage != 0
  {
    && Closed(local.strategy, settings.pauseAfterCycle).state != Paused
    && Remaining(settings, local, market.now) <= 0.0
    && market.sized.Some? && !BlockedByStrategy(settings, local.strategy.config, market)
    && (settings.coordinated ==> market.allowed)
  }

  // The quantities handed over.
  function Submitted(settings: Settings, local: Local, market: Market): seq<real>
    requires local.strategy.config.leverage != 0
  {
    if Submits(settings, local, market) then [market.sized.value] else []
  }

  function FlatStep(settings: Settings, local: Local, market: Market): (Local, Result<Synced, Failure>)
    requires local.strategy.config.leverage != 0
  {
    var closed := local.(strategy := Closed(local.strategy, settings.pauseAfterCycle));
    var waiting := closed.(flatSince := Some(FlatSince(local, market.now)));
    if closed.strategy.state == Paused then (closed.(flatSince := None), Ok(Synced(FlatPaused, None)))
    else if Remaining(settings, local, market.now) > 0.0
    then (waiting, Ok(Synced(ReentryWait(Remaining(settings, local, market.now)), None)))
    else if !Submits(settings, local, market) then (waiting, Ok(Synced(EntryBlocked, None)))
    else if !market.submitted then (waiting, Err(CallFailed))
    else (closed.(flatSince := None, entrySubmittedAt := Some(market.after)), Ok(Synced(EntrySubmitted, None)))
  }

  // How long the symbol has been seen flat.
  function FlatFor(local: Local, now: real): real {
    if local.flatSince.Some? then now - local.flatSince.value else 0.0
  }

  // Taking off the closed basket pauses the service.
  predicate PausesNow(settings: Settings, local: Local) {
    local.strategy.state == Paused || (local.strategy.cycle.Some? && settings.pauseAfterCycle)
  }

  // What an entry has to satisfy: its margin is within the cap, the coordinator allows it where there
  // is one, and where there is none it leaves the reserve untouched.
  predicate EntryAllowed(settings: Settings, config: Config, market: Market)
    requires config.leverage != 0
  {
    && market.sized.Some?
    && var margin := Product(market.sized.value, market.price) / config.leverage as real;
       && margin <= settings.limits.maxMargin
       && (settings.coordinated ==> market.allowed)
       && (!settings.coordinated ==>
             && market.account.available >= settings.limits.minAvailable + margin
             && market.account.available >= Product(market.account.equity, settings.limits.minEquityRatio) + margin)
  }

  // An entry goes out exactly when the service is not paused, the symbol has been flat for the
  // re-entry delay, and the entry is allowed. The clock, the status and what is remembered follow.
  lemma {:induction false} FlatStepExactly(settings: Settings, local: Local, market: Market)
    requires Invariant(local.strategy)
    ensures Submits(settings, local, market)
            <==> !PausesNow(settings, local) && FlatFor(local, market.now) >= settings.reentryDelay
                 && EntryAllowed(settings, local.strategy.config, market)
    ensures var (after, r) := FlatStep(settings, local, market);
            var waits := FlatFor(local, market.now) < settings.reentryDelay;
            && after.strategy.cycle.None?
            && (r == Ok(Synced(FlatPaused, None)) <==> PausesNow(settings, local))
            && (r.Ok? && r.value.status.ReentryWait? <==> !PausesNow(settings, local) && waits)
            && (r.Ok? && r.value.status.ReentryWait? ==>
                  r.value.status.remaining == settings.reentryDelay - FlatFor(local, market.now))
            && (r == Ok(Synced(EntrySubmitted, None)) <==> Submits(settings, local, market) && market.submitted)
            && (r == Err(CallFailed) <==> Submits(settings, local, market) && !market.submitted)
            && (after.flatSince.None?
                <==> PausesNow(settings, local) || (Submits(settings, local, market) && market.submitted))
            && (after.flatSince.Some? ==> market.now - after.flatSince.value == FlatFor(local, market.now))
            && after.entrySubmittedAt == if Submits(settings, local, market) && market.submitted then Some(market.after)
                                         else local.entrySubmittedAt
  {
  }

  // One sync as the flat clock sees it.
  datatype Observation = SawOpen | SawFlat(market: Market)

  ghost predicate ClockRun(settings: Settings, locals: seq<Local>, seen: seq<Observation>) {
    && |locals| == |seen|
    && (forall i | 0 <= i < |locals| :: locals[i].strategy.config.leverage != 0)
    && (forall i | 0 <= i < |locals| :: ClockAt(settings, locals, seen, i))
  }

  // Syncs, process restarts and anything that leaves the clock alone: after a restart or a sync
  // that saw a position, the clock is unset; after a flat sync it is as that sync left it.
  ghost predicate ClockAt(settings: Settings, locals: seq<Local>, seen: seq<Observation>, i: nat)
    requires i < |locals| == |seen| && forall k | 0 <= k < |locals| :: locals[k].strategy.config.leverage != 0
  {
    || locals[i].flatSince.None?
    || (i > 0 && seen[i - 1].SawFlat?
        && locals[i].flatSince == FlatStep(settings, locals[i - 1], seen[i - 1].market).0.flatSince)
  }

  // The entries a run hands to the exchange.
  ghost function Entries(settings: Settings, locals: seq<Local>, seen: seq<Observation>): seq<real>
    requires |locals| == |seen| && forall i | 0 <= i < |locals| :: locals[i].strategy.config.leverage != 0
  {
    if locals == [] then []
    else
      var n := |locals| - 1;
      Entries(settings, locals[..n], seen[..n]) + Observed(settings, locals[n], seen[n])
  }

  // The clock after the last sync.
  ghost predicate ClockNow(settings: Settings, locals: seq<Local>, seen: seq<Observation>, flatSince: Option<real>)
    requires ClockRun(settings, locals, seen)
  {
    flatSince == if locals == [] then None else ClockAfter(settings, locals[|locals| - 1], seen[|locals| - 1])
  }

  // The clock after a sync that saw this.
  function ClockAfter(settings: Settings, local: Local, saw: Observation): Option<real>
    requires local.strategy.config.leverage != 0
  {
    if saw.SawOpen? then None else FlatStep(settings, local, saw.market).0.flatSince
  }

  // The entries such a sync hands over.
  function Observed(settings: Settings, local: Local, saw: Observation): seq<real>
    requires local.strategy.config.leverage != 0
  {
    if saw.SawFlat? then Submitted(settings, local, saw.market) else []
  }

  lemma ClockRunExtends(settings: Settings, locals: seq<Local>, seen: seq<Observation>, local: Local, saw: Observation)
    requires ClockRun(settings, locals, seen) && local.strategy.config.leverage != 0
    requires local.flatSince == None || ClockNow(settings, locals, seen, local.flatSince)
    ensures ClockRun(settings, locals + [local], seen + [saw])
    ensures Entries(settings, locals + [local], seen + [saw])
         == Entries(settings, locals, seen) + Observed(settings, local, saw)
  {
    var longer, more := locals + [local], seen + [saw];
    assert longer[..|locals|] == locals && more[..|seen|] == seen;
    assert forall i | 0 <= i < |longer| :: longer[i].strategy.config.leverage != 0;
    forall i | 0 <= i < |longer| ensures ClockAt(settings, longer, more, i) {
      if i < |locals| {
        assert ClockAt(settings, locals, seen, i);
      }
    }
  }

  // A flat sync saw the market of its own world.
  ghost predicate OwnMarkets(worlds: seq<World>, seen: seq<Observation>)
    requires |seen| <= |worlds|
  {
    forall i | 0 <= i < |seen| && seen[i].SawFlat? :: seen[i].market == worlds[i].market
  }

  // The syncs of the first worlds, with the clock and the entries after them.
  ghost predicate RunSoFar(settings: Settings, worlds: seq<World>, locals: seq<Local>, seen: seq<Observation>,
                           flatSince: Option<real>, before: seq<real>, entries: seq<real>)
  {
    && |locals| == |seen| <= |worlds|
    && OwnMarkets(worlds, seen)
    && ClockRun(settings, locals, seen) && ClockNow(settings, locals, seen, flatSince)
    && entries == before + Entries(settings, locals, seen)
  }

  lemma RunGrows(settings: Settings, worlds: seq<World>, locals: seq<Local>, seen: seq<Observation>, local: Local,
                 saw: Observation, before: seq<real>)
    requires |seen| < |worlds| && local.strategy.config.leverage != 0
    requires saw.SawFlat? ==> saw.market == worlds[|seen|].market
    requires |locals| == |seen| && ClockRun(settings, locals, seen)
    requires OwnMarkets(worlds, seen)
    requires local.flatSince == None || ClockNow(settings, locals, seen, local.flatSince)
    ensures RunSoFar(settings, worlds, locals + [local], seen + [saw], ClockAfter(settings, local, saw), before,
                     before + Entries(settings, locals, seen) + Observed(settings, local, saw))
  {
    ClockRunExtends(settings, locals, seen, local, saw);
    OneMoreMarket(worlds, seen, saw);
  }

  lemma OneMoreMarket(worlds: seq<World>, seen: seq<Observation>, saw: Observation)
    requires |seen| < |worlds| && OwnMarkets(worlds, seen) && (saw.SawFlat? ==> saw.market == worlds[|seen|].market)
    ensures OwnMarkets(worlds, seen + [saw])
  {
  }

  // Flat since sync j, without a break.
  ghost predicate FlatFrom(seen: seq<Observation>, j: nat, k: nat, t: real) {
    && j <= k < |seen| && (forall i | j <= i <= k :: seen[i].SawFlat?) && seen[j].market.now == t
  }

  lemma {:induction false} FlatSinceMeans(settings: Settings, locals: seq<Local>, seen: seq<Observation>, k: nat)
    returns (j: nat)
    requires ClockRun(settings, locals, seen) && k < |seen| && seen[k].SawFlat?
    ensures FlatFrom(seen, j, k, FlatSince(locals[k], seen[k].market.now))
  {
    assert ClockAt(settings, locals, seen, k);
    if locals[k].flatSince.None? {
      j := k;
    } else {
      j := FlatSinceMeans(settings, locals, seen, k - 1);
    }
  }

  // Over any run of syncs and restarts: an entry goes out only while not paused, within the margin
  // cap, and only when every sync of at least the re-entry delay has seen the symbol flat.
  lemma {:induction false} EntryWaitsOutTheDelay(settings: Settings, locals: seq<Local>, seen: seq<Observation>, k: nat)
    returns (j: nat)
    requires ClockRun(settings, locals, seen) && k < |seen| && seen[k].SawFlat?
    requires Submits(settings, locals[k], seen[k].market)
    ensures j <= k && (forall i | j <= i <= k :: seen[i].SawFlat?)
    ensures seen[k].market.now - seen[j].market.now >= settings.reentryDelay
    ensures locals[k].strategy.state != Paused
    ensures var market := seen[k].market;
            && market.sized.Some?
            && Product(market.sized.value, market.price) / locals[k].strategy.config.leverage as real
               <= settings.limits.maxMargin
    ensures EntryAllowed(settings, locals[k].strategy.config, seen[k].market)
  {
    j := FlatSinceMeans(settings, locals, seen, k);
  }

  // ---------------------------------------------------------------- what an open sync reads

  // None: the sync ends before it lists the open orders, without touching the exchange.
  function ReadingFor(settings: Settings, s: State, first: Position, second: Position, stored: Option<Stored>,
                      account: Account, orders: seq<OpenOrder>, allowed: bool): Option<Reading>
    requires ValidSettings(settings) && s.config.leverage != 0
  {
    if first.side != Buy || !Reconciled(s, second, stored).1.Restored? then None
    else
      var plan := BuildRestingOrderPlan(Reconciled(s, second, stored).0, settings.rules, Some(settings.limits),
                                        if settings.coordinated then None else Some(account));
      if plan.Err? then None
      else
        var level := Reconciled(s, second, stored).0.cycle.value.DcaLevel();
        Some(Reading(first.size, plan.value, stored.value.cycleId, level, orders, allowed))
  }

  // How a sync that ends early ends.
  function EarlyResult(settings: Settings, s: State, first: Position, second: Position, stored: Option<Stored>,
                       account: Account): Result<Synced, Failure>
    requires ValidSettings(settings) && s.config.leverage != 0
    requires ReadingFor(settings, s, first, second, stored, account, [], true).None?
  {
    if first.side != Buy then Err(UnexpectedSide)
    else match Reconciled(s, second, stored).1
      case Unreconciled => Ok(Synced(WaitingForReconciliation, None))
      case RestoreRaised(error) => Err(RestoreFailed(error))
      case FoundFlat => Err(PlanFailed(NoPosition))
      case Restored =>
        Err(PlanFailed(BuildRestingOrderPlan(Reconciled(s, second, stored).0, settings.rules, Some(settings.limits),
                                             if settings.coordinated then None else Some(account)).error))
  }

  // The journal and the position make a basket.
  predicate Restorable(config: Config, reference: TriggerReference, position: Position, stored: Option<Stored>) {
    && position.size > 0.0 && position.averageEntry > 0.0 && position.side == Buy
    && stored.Some? && SameSize(stored.value.summary, position) && stored.value.summary.lastOrderQty > 0.0
    && 0 <= stored.value.summary.dcaLevel <= |config.dcaSteps|
    && (stored.value.summary.dcaLevel == 0 || reference.WeightedAverage?)
  }

  // The exit of a position: the whole of it, the percentage above its average, both rounded.
  predicate IsExitFor(settings: Settings, config: Config, position: Position, target: OrderTarget)
    requires ValidSettings(settings)
  {
    && target.qty == Steps(position.size, settings.rules.qtyStep, RoundFloor)
    && target.price == Steps(position.averageEntry + Product(position.averageEntry, config.tpPercent / 100.0),
                             settings.rules.tickSize, RoundCeiling)
  }

  // The DCA of a position: the step's multiple of the last order, the step's drop below its average,
  // both rounded, at a level within the ladder and the cap.
  predicate IsDcaFor(settings: Settings, config: Config, position: Position, summary: Persistence.Summary,
                     target: OrderTarget)
    requires ValidSettings(settings)
  {
    && 0 <= summary.dcaLevel < |config.dcaSteps| && summary.dcaLevel < settings.limits.maxDcaLevel
    && var step := config.dcaSteps[summary.dcaLevel];
       && target.qty == Steps(Product(summary.lastOrderQty, step.multiplier), settings.rules.qtyStep, RoundFloor)
       && target.price == Steps(position.averageEntry - Product(position.averageEntry, step.drop / 100.0),
                                settings.rules.tickSize, RoundFloor)
  }

  // What a sync reads and plans, of the exchange and the journal alone: it lists the open orders only
  // for a long position that makes a basket with the journal, and plans that basket's orders.
  lemma {:induction false} ReadingExactly(settings: Settings, s: State, first: Position, second: Position,
                                          stored: Option<Stored>, account: Account, orders: seq<OpenOrder>,
                                          allowed: bool)
    requires ValidSettings(settings) && ValidConfig(s.config)
    ensures var read := ReadingFor(settings, s, first, second, stored, account, orders, allowed);
            read.Some? ==>
              && first.side == Buy && Restorable(s.config, s.reference, second, stored)
              && var summary, r := stored.value.summary, read.value;
                 && r.positionQty == first.size && r.cycleId == stored.value.cycleId && r.level == summary.dcaLevel
                 && r.orders == orders && r.allowed == allowed
                 && IsExitFor(settings, s.config, second, r.plan.takeProfit)
                 && (r.plan.maxDcaReached <==> summary.dcaLevel == |s.config.dcaSteps|)
                 && (r.plan.nextDca.Some? ==>
                       IsDcaFor(settings, s.config, second, summary, r.plan.nextDca.value))
    ensures ReadingFor(settings, s, first, second, stored, account, [], true).None? ==>
              var early := EarlyResult(settings, s, first, second, stored, account);
              && (early == Err(UnexpectedSide) <==> first.side != Buy)
              && (early == Ok(Synced(WaitingForReconciliation, None))
                  <==> first.side == Buy && second.size > 0.0
                       && !(second.side == Buy && stored.Some? && SameSize(stored.value.summary, second)))
              && (early.Err? && early.error.PlanFailed?
                  <==> first.side == Buy && (second.size <= 0.0 || Restorable(s.config, s.reference, second, stored)))
              && (early.Err? && early.error.PlanFailed? && second.size <= 0.0 ==> early.error.reason == NoPosition)
  {
    ReconciledExactly(s, second, stored);
    if first.side == Buy && Reconciled(s, second, stored).1.Restored? {
      RestoredPlans(settings, s, second, stored.value, if settings.coordinated then None else Some(account));
    }
  }

  // The price moved by the percentage.
  lemma Percent(price: real, percent: real)
    ensures Raised(price, percent) == price + Product(price, percent / 100.0)
    ensures Lowered(price, percent) == price - Product(price, percent / 100.0)
  {
  }

  // The plan of a restored basket.
  lemma {:induction false} RestoredPlans(settings: Settings, s: State, position: Position, stored: Stored,
                                         account: Option<Account>)
    requires ValidSettings(settings) && ValidConfig(s.config)
    requires Reconciled(s, position, Some(stored)).1.Restored?
    ensures var basket := Reconciled(s, position, Some(stored)).0;
            && basket.cycle.Some? && basket.cycle.value.leverage != 0
            && basket.cycle.value.DcaLevel() == stored.summary.dcaLevel
            && var built := BuildRestingOrderPlan(basket, settings.rules, Some(settings.limits), account);
               built.Ok? ==>
                 && IsExitFor(settings, s.config, position, built.value.takeProfit)
                 && (built.value.maxDcaReached <==> stored.summary.dcaLevel == |s.config.dcaSteps|)
                 && (built.value.nextDca.Some? ==>
                       IsDcaFor(settings, s.config, position, stored.summary, built.value.nextDca.value))
  {
    var basket := Reconciled(s, position, Some(stored)).0;
    RestoredBasketIsTheExchanges(s, position, stored);
    RestoreExactly(s, stored.cycleId, position.averageEntry, position.size, stored.summary.dcaLevel,
                   stored.summary.lastOrderQty);
    RulesRound(settings.rules, basket.cycle.value.TpPrice().value, position.size);
    Percent(position.averageEntry, s.config.tpPercent);
    if stored.summary.dcaLevel < |s.config.dcaSteps| {
      var step := s.config.dcaSteps[stored.summary.dcaLevel];
      RulesRound(settings.rules, Lowered(position.averageEntry, step.drop),
                 Product(stored.summary.lastOrderQty, step.multiplier));
      Percent(position.averageEntry, step.drop);
      SingleFill(basket.cycle.value.fills[0]);
      assert basket.NextTrigger() == Some(Lowered(position.averageEntry, step.drop));
    }
    PlannedExactly(basket, settings.rules, Some(settings.limits), account);
  }

  ghost predicate ValidSettings(settings: Settings) {
    ValidRules(settings.rules)
  }

  // Placements and cancels of an open sync depend on the exchange, the journal, the configuration
  // and the coordinator; the local state of the process before the sync makes no difference.
  lemma {:induction false} RestartIsTransparent(
    settings: Settings, s: State, other: State, first: Position, second: Position, stored: Option<Stored>,
    account: Account,
    orders: seq<OpenOrder>, allowed: bool)
    requires ValidSettings(settings) && s.config.leverage != 0
    requires s.config == other.config && s.reference == other.reference
    ensures ReadingFor(settings, s, first, second, stored, account, orders, allowed)
         == ReadingFor(settings, other, first, second, stored, account, orders, allowed)
  {
    if IsOpen(second) {
      ReconcileForgetsLocalState(s, other, second, stored, settings.rules, Some(settings.limits),
                                 if settings.coordinated then None else Some(account));
    }
  }

  // With a coordinator a sync repeated in a quiet exchange, even by another process, with another
  // account reading and another listing order, mutates nothing exactly when the first was held, or
  // it could leave the planned take profit and was not kept from a DCA the second may place: by a
  // refusal, or because the planned identity was spent on an order that has filled.
  lemma {:induction false} RepeatedSyncMutatesNothing(
    settings: Settings, s: State, other: State, position: Position, stored: Option<Stored>, account: Account,
    laterAccount: Account, allowed: bool, laterAllowed: bool,
    first: Reading, start: Book, session: seq<Event>, second: Reading)
    requires ValidSettings(settings) && settings.coordinated && s.config.leverage != 0
    requires s.config == other.config && s.reference == other.reference
    requires ReadingFor(settings, s, position, position, stored, account, first.orders, allowed) == Some(first)
    requires ReadingFor(settings, other, position, position, stored, laterAccount, second.orders, laterAllowed)
             == Some(second)
    requires Read(first, start) && Completes(session, Script(first)) && LegalSession(start, session)
    requires Quiet(start, session)
    requires Read(second, BookAfter(start, session))
    ensures Script(second) == []
            <==> !AtMostOneTp(start)
                 || (Replaceable(first, start)
                     && (WouldPlace(first) && laterAllowed ==> allowed && PlannedDca(first) !in start.filled))
  {
    RestartIsTransparent(settings, s, other, position, position, stored, account, second.orders, laterAllowed);
    assert second.plan == first.plan && first.allowed == allowed && second.allowed == laterAllowed;
    AmbiguousMeansHold(first, start);
    if AtMostOneTp(start) {
      SecondSyncMutatesNothing(first, start, session, second);
    } else {
      SecondSyncStaysHeld(first, start, session, second);
    }
  }

  // The basket a sync plans for.
  function RestoredState(s: State, position: Position, stored: Option<Stored>): State {
    Reconciled(s, position, stored).0
  }

  // Without a coordinator the plan also reads the account, which the first sync's own order changes.
  // A sync repeated in a quiet exchange mutates nothing exactly when the first could leave the
  // planned take profit, and the DCA is settled. Where the planned identities were free to be used
  // that is: a partially filled DCA rests, or something else blocks the next DCA, or the reserve
  // check decides the same for both readings. A DCA the second reading blocks is cancelled.
  lemma {:induction false} RepeatedSyncReadsTheReserve(
    settings: Settings, s: State, position: Position, stored: Option<Stored>, account: Account, later: Account,
    first: Reading, start: Book, session: seq<Event>, second: Reading)
    requires ValidSettings(settings) && !settings.coordinated && s.config.leverage != 0
    requires ReadingFor(settings, s, position, position, stored, account, first.orders, true) == Some(first)
    requires ReadingFor(settings, s, position, position, stored, later, second.orders, true) == Some(second)
    requires Read(first, start) && Completes(session, Script(first)) && LegalSession(start, session)
    requires Quiet(start, session)
    requires AtMostOneTp(start) && Read(second, BookAfter(start, session))
    ensures RestoredState(s, position, stored).cycle.Some?
            && RestoredState(s, position, stored).cycle.value.leverage != 0
    ensures var book, holds := BookAfter(start, session), DcaHolds(settings, s, position, stored, later);
            && (Script(second) == []
                <==> Replaceable(first, start)
                     && if LeavesDca(first, start) then PartialDcaRests(book) || holds else !holds)
            && (Replaceable(first, start) && LeavesDca(first, start) && !PartialDcaRests(book) && !holds ==>
                  exists id :: HoldsDca(book, id) && Script(second) == [Cancel(id)])
    ensures var basket := RestoredState(s, position, stored);
            Replaceable(first, start) && (WouldPlace(first) ==> PlannedDca(first) !in start.filled) ==>
              (Script(second) == []
               <==> PartialDcaRests(BookAfter(start, session)) || Risk.BlockedRegardless(basket, settings.limits)
                    || Risk.ReserveHolds(basket, settings.limits, account)
                       == Risk.ReserveHolds(basket, settings.limits, later))
  {
    PlansOf(settings, s, position, stored, account, first);
    PlansOf(settings, s, position, stored, later, second);
    PlansAgree(settings, s, position, stored, account, later, first, second);
    SecondSyncExactly(first, start, session, second);
    if Replaceable(first, start) && (WouldPlace(first) ==> PlannedDca(first) !in start.filled) {
      SecondSyncUnspent(first, start, session, second);
    }
  }

  // The ladder, the caps and the reserve allow the next DCA under this account reading.
  predicate DcaHolds(settings: Settings, s: State, position: Position, stored: Option<Stored>, account: Account)
    requires RestoredState(s, position, stored).cycle.Some?
    requires RestoredState(s, position, stored).cycle.value.leverage != 0
  {
    var basket := RestoredState(s, position, stored);
    !Risk.BlockedRegardless(basket, settings.limits) && Risk.ReserveHolds(basket, settings.limits, account)
  }

  // Two account readings make plans that agree but for whether they have a DCA.
  lemma PlansAgree(settings: Settings, s: State, position: Position, stored: Option<Stored>, account: Account,
                   later: Account, first: Reading, second: Reading)
    requires ValidSettings(settings) && !settings.coordinated && s.config.leverage != 0
    requires ReadingFor(settings, s, position, position, stored, account, first.orders, true) == Some(first)
    requires ReadingFor(settings, s, position, position, stored, later, second.orders, true) == Some(second)
    ensures first.plan.takeProfit == second.plan.takeProfit && first.plan.maxDcaReached == second.plan.maxDcaReached
    ensures first.plan.nextDca.Some? && second.plan.nextDca.Some? ==> first.plan.nextDca == second.plan.nextDca
  {
    PlansOf(settings, s, position, stored, account, first);
    PlansOf(settings, s, position, stored, later, second);
    AccountDecidesOnlyTheDca(RestoredState(s, position, stored), settings.rules, settings.limits, account, later);
  }

  // What a reading's plan is, and that it blocks the DCA exactly when the checks do.
  lemma PlansOf(settings: Settings, s: State, position: Position, stored: Option<Stored>, account: Account, r: Reading)
    requires ValidSettings(settings) && !settings.coordinated && s.config.leverage != 0
    requires ReadingFor(settings, s, position, position, stored, account, r.orders, true) == Some(r)
    ensures var basket := RestoredState(s, position, stored);
            && basket.cycle.Some? && basket.cycle.value.leverage != 0 && r.allowed
            && BuildRestingOrderPlan(basket, settings.rules, Some(settings.limits), Some(account)) == Ok(r.plan)
            && (r.plan.maxDcaReached ==> r.plan.nextDca.None?)
            && (r.plan.nextDca.Some? <==> DcaHolds(settings, s, position, stored, account))
  {
    Risk.BlockedExactly(RestoredState(s, position, stored), settings.limits, account);
  }

  // For example: a basket of 1 bought at 10 at leverage 1, whose next DCA is 1 at 9. With 30
  // available and a reserve of 20 it is placed; once its own margin of 9 is set aside it is blocked.
  lemma {:induction false} OwnMarginBreaksTheReserve(s: State, stored: Stored)
    requires s.config.leverage == 1 && s.config.dcaSteps == [DcaStep(10.0, 1.0)] && s.reference == WeightedAverage
    requires stored.summary.dcaLevel == 0 && stored.summary.lastOrderQty == 1.0 && stored.summary.totalBuyQty == 1.0
    ensures var position, limits := Position(Buy, 1.0, 10.0), Risk.Limits(1, 100.0, 20.0, 0.0);
            var basket := RestoredState(s, position, Some(stored));
            && Reconciled(s, position, Some(stored)).1.Restored?
            && basket.cycle.Some? && basket.cycle.value.leverage == 1 && !Risk.BlockedRegardless(basket, limits)
            && Risk.NextMargin(basket) == 9.0
            && Risk.ReserveHolds(basket, limits, Account(100.0, 30.0))
            && !Risk.ReserveHolds(basket, limits, Account(100.0, 30.0 - 9.0))
  {
    var position := Position(Buy, 1.0, 10.0);
    var basket := RestoredState(s, position, Some(stored));
    assert Product(1.0, RELATIVE_TOLERANCE) == 0.000001;
    RestoredBasketIsTheExchanges(s, position, stored);
    assert basket.cycle.value.fills == [Fill(10.0, 1.0, RestoredFill)];
    SingleFill(Fill(10.0, 1.0, RestoredFill));
    assert Product(10.0, 1.0) == 10.0 && Product(1.0, 1.0) == 1.0 && Product(100.0, 0.0) == 0.0;
    assert Lowered(10.0, 10.0) == 9.0 && Product(9.0, 1.0) == 9.0;
    assert basket.NextTrigger() == Some(9.0) && basket.NextQty() == Some(1.0);
  }

  // ---------------------------------------------------------------- what a completed sync reports

  // The take profit of an entry this process just submitted is not in place yet.
  predicate InitialTpPending(settings: Settings, r: Reading, entrySubmittedAt: Option<real>, now: real) {
    && Assessed(r).status.Missing? && Assessed(r).restingTpOrders == 0
    && entrySubmittedAt.Some? && now - entrySubmittedAt.value <= settings.tpGrace
  }

  function FinalProtection(r: Reading, pending: bool): Protection.Status {
    if Assessed(r).status.Missing? && TpMatch(r).None?
    then (if pending then Protection.Protected else Protection.Repaired)
    else Assessed(r).status
  }

  // The entry is forgotten once its take profit is known to rest.
  function EntryAfter(r: Reading, entrySubmittedAt: Option<real>, pending: bool): Option<real> {
    if Assessed(r).status.Ambiguous? then entrySubmittedAt
    else if if TpMatch(r).None? then pending else Assessed(r).status.Protected? then None
    else entrySubmittedAt
  }

  function StatusOf(r: Reading, hasLadder: bool): Status {
    if Assessed(r).status.Ambiguous? then ProtectionAmbiguous
    else if r.plan.maxDcaReached then (if hasLadder then MaxDcaHeld else TakeProfitOnly)
    else OrdersRebuilt
  }

  // An open position without any take profit, which is not one just entered.
  predicate ProtectionLost(settings: Settings, r: Reading, entrySubmittedAt: Option<real>, now: real) {
    && Assessed(r).status.Missing? && Assessed(r).restingTpOrders == 0
    && (entrySubmittedAt.Some? ==> now > entrySubmittedAt.value + settings.tpGrace)
  }

  // Before its first command the sync reads the position once more exactly when the protection is
  // lost, and goes flat there exactly when that reading is flat.
  ghost predicate Rechecks(settings: Settings, r: Reading, entrySubmittedAt: Option<real>, now: real,
                           more: seq<Position>, session: seq<Event>, wentFlat: bool) {
    if ProtectionLost(settings, r, entrySubmittedAt, now)
    then more != [] && (wentFlat && Count(session) == 0 <==> !IsOpen(more[0]))
    else !(wentFlat && Count(session) == 0)
  }

  lemma MissingHasOneAtMost(r: Reading)
    ensures Assessed(r).status.Missing? ==> Assessed(r).restingTpOrders <= 1
  {
  }

  // What a completed sync reports: the status and the protection it ended with.
  predicate Reports(settings: Settings, r: Reading, after: State, entrySubmittedAt: Option<real>, now: real,
                    synced: Synced) {
    && after.cycle.Some?
    && synced.status == StatusOf(r, after.cycle.value.HasDcaLadder())
    && synced.protection == Some(FinalProtection(r, InitialTpPending(settings, r, entrySubmittedAt, now)))
  }

  // The bot has no exit of the position resting.
  ghost predicate NoExit(r: Reading) {
    forall k :: !Protection.ExitAt(r.orders, k)
  }

  // This process submitted the entry so recently that its exit may not be there yet.
  predicate JustEntered(settings: Settings, entrySubmittedAt: Option<real>, now: real) {
    entrySubmittedAt.Some? && entrySubmittedAt.value >= now - settings.tpGrace
  }

  // A position with no exit at all is a fresh entry or has lost its protection.
  lemma {:induction false} LostExactly(settings: Settings, r: Reading, entrySubmittedAt: Option<real>, now: real)
    requires r.positionQty > 0.0
    ensures ProtectionLost(settings, r, entrySubmittedAt, now)
            <==> NoExit(r) && !JustEntered(settings, entrySubmittedAt, now)
    ensures InitialTpPending(settings, r, entrySubmittedAt, now)
            <==> NoExit(r) && JustEntered(settings, entrySubmittedAt, now)
  {
    var places := Protection.TakeProfitPlaces(r.orders);
    if places != [] {
      assert Protection.ExitAt(r.orders, places[0]);
    }
  }

  // What is reported of a completed sync, case by case: the take profit was fine, was placed for a
  // fresh entry, repairs a lack of protection, or is kept although it does not cover the position.
  lemma {:induction false} ReportedExactly(r: Reading, pending: bool, hasLadder: bool, entrySubmittedAt: Option<real>)
    requires !Assessed(r).status.Ambiguous? && r.positionQty > 0.0
    ensures StatusOf(r, hasLadder) == OrdersRebuilt <==> !r.plan.maxDcaReached
    ensures StatusOf(r, hasLadder) == MaxDcaHeld <==> r.plan.maxDcaReached && hasLadder
    ensures StatusOf(r, hasLadder) == TakeProfitOnly <==> r.plan.maxDcaReached && !hasLadder
    ensures var missing, placed := Assessed(r).status.Missing?, !TpListed(r);
            && (FinalProtection(r, pending) == Protection.Repaired <==> missing && placed && !pending)
            && (FinalProtection(r, pending) == Protection.Missing <==> missing && !placed)
            && (FinalProtection(r, pending) == Protection.Protected <==> !missing || (placed && pending))
            && EntryAfter(r, entrySubmittedAt, pending)
               == if (placed && pending) || (!placed && !missing) then None else entrySubmittedAt
  {
    TpMatchExactly(r);
    Protection.AssessedExactly(r.positionQty, r.orders, Some(r.plan.takeProfit.qty));
  }

  // What holds in every state of a sync, however it ends.
  ghost predicate Safe(r: Reading, start: Book, session: seq<Event>) {
    && (SoleDca(start) && ClearToPlace(r, start) ==>
          forall n: nat | n <= |session| ::
            SoleDca(BookAfter(start, session[..n])) && AtMostOneDca(BookAfter(start, session[..n])))
    && (Protectable(r, start) && StaysOpen(start, session) ==>
          forall n: nat | n <= |session| :: SomeTp(BookAfter(start, session[..n])))
    && (!AtMostOneTp(start) ==> Count(session) == 0)
  }

  // Some take profit rests, and the sync finds the planned one listed or its identity free.
  ghost predicate Protectable(r: Reading, start: Book) {
    SomeTp(start) && (AtMostOneTp(start) ==> Replaceable(r, start))
  }

  ghost predicate OpenAndReplaceable(r: Reading, start: Book, session: seq<Event>) {
    StaysOpen(start, session) && (AtMostOneTp(start) ==> Replaceable(r, start))
  }

  lemma SyncIsSafe(r: Reading, start: Book, session: seq<Event>)
    requires Read(r, start) && LegalSession(start, session) && Follows(session, Script(r))
    ensures Safe(r, start, session)
    ensures SoleDca(start) && ClearToPlace(r, start) ==> SoleDca(BookAfter(start, session))
    ensures Protectable(r, start) && StaysOpen(start, session) ==>
              SomeTp(BookAfter(start, session)) && IsOpen(start.position)
  {
    AmbiguousMeansHold(r, start);
    forall n: nat | n <= |session| && SoleDca(start) && ClearToPlace(r, start)
      ensures SoleDca(BookAfter(start, session[..n])) && AtMostOneDca(BookAfter(start, session[..n]))
    {
      PrefixIsLegal(start, session, Script(r), n);
      SyncKeepsSoleDca(r, start, session[..n]);
      SoleDcaIsOne(BookAfter(start, session[..n]));
    }
    forall n: nat | n <= |session| && Protectable(r, start) && StaysOpen(start, session)
      ensures SomeTp(BookAfter(start, session[..n]))
    {
      PrefixIsLegal(start, session, Script(r), n);
      SyncKeepsProtection(r, start, session[..n]);
    }
    assert session[..|session|] == session && session[..0] == [];
    PrefixIsLegal(start, session, Script(r), 0);
  }

  // What holds once a sync has returned normally with the position open: the planned take profit
  // rests when it was listed or its identity was free, and alone when no request of an earlier sync
  // was under way; without such requests nothing rests otherwise. All that rests is accounted for.
  ghost predicate Settled(r: Reading, start: Book, session: seq<Event>) {
    var book := BookAfter(start, session);
    AtMostOneTp(start) && StaysOpen(start, session) ==>
      && (Replaceable(r, start) ==> exists id :: PlannedTpLeft(r, book, id))
      && (forall id | UnderTpRole(book, id) :: TpAccounted(r, start, book.orders[id]))
      && (NoLateTp(r, start) ==> (ExactlyOneTp(book, r.plan.takeProfit) <==> Replaceable(r, start)))
      && (NoLateTp(r, start) && !Replaceable(r, start) ==> !SomeTp(book))
  }

  lemma CompletedSyncIsSettled(r: Reading, start: Book, session: seq<Event>)
    requires Read(r, start) && LegalSession(start, session) && Completes(session, Script(r))
    ensures Settled(r, start, session)
  {
    if AtMostOneTp(start) && StaysOpen(start, session) {
      AmbiguousMeansHold(r, start);
      TpsAreAccounted(r, start, session);
      if NoLateTp(r, start) {
        SyncEndsProtectedExactly(r, start, session);
      }
      if Replaceable(r, start) {
        PlannedTpIsLeft(r, start, session);
      }
    }
  }

  // A sync plans for a legal position of n steps with float drift. The planned exit, left alone, is
  // judged protective: always when it is the one just placed, whose quantity is exactly the planned
  // one, and for positions of at least 0.0011 also when it was kept.
  lemma {:induction false} LegalEndIsProtected(
    settings: Settings, s: State, position: Position, stored: Option<Stored>, account: Account, allowed: bool,
    r: Reading, n: nat, drift: real, book: Book, list: seq<OpenOrder>) returns (id: nat)
    requires ValidSettings(settings) && s.config.leverage != 0
    requires ReadingFor(settings, s, position, position, stored, account, r.orders, allowed) == Some(r)
    requires n > 0 && Abs(drift) <= Product(settings.rules.qtyStep, RATIO_NOISE)
    requires position.size == Product(settings.rules.qtyStep, n as real) + drift
    requires ValidBook(book) && Lists(list, book.orders) && ExactlyOneTp(book, r.plan.takeProfit)
    ensures HoldsTp(book, id) && r.plan.takeProfit.qty == Product(settings.rules.qtyStep, n as real)
    ensures position.size >= 0.0011 || book.orders[id].qty == r.plan.takeProfit.qty ==>
              Protection.AssessProtection(position.size, list, Some(r.plan.takeProfit.qty)).status.Protected?
  {
    var basket := RestoredState(s, position, stored);
    var limits, reserve := Some(settings.limits), if settings.coordinated then None else Some(account);
    RestoredBasketIsTheExchanges(s, position, stored.value);
    PlannedQty(basket, settings.rules, limits, reserve);
    DriftIsAbsorbed(n, drift, settings.rules.qtyStep, RoundFloor);
    LegalSizeIsPositive(settings.rules.qtyStep, n, drift);
    id := EndIsProtectedExactly(book, list, position.size, r.plan.takeProfit);
  }

  lemma LegalSizeIsPositive(step: real, n: nat, drift: real)
    requires step > 0.0 && n > 0 && Abs(drift) <= Product(step, RATIO_NOISE)
    ensures Product(step, n as real) > 0.0 && Abs(drift) <= Product(step, n as real) * 0.000000001
    ensures Product(step, n as real) + drift > 0.0
  {
    Scale(step, 1.0, n as real);
    assert Product(step, 1.0) == step;
    assert Product(step, RATIO_NOISE) == step * RATIO_NOISE;
  }

  // ---------------------------------------------------------------- the service

  // The environment of one sync: what the reads return and how the calls outside the order book go.
  datatype World = World(stored: Option<Stored>, account: Account, allowed: bool, now: real, market: Market)

  class LiveStrategyService {
    const settings: Settings
    const strategy: DcaStrategy
    const exchange: Exchange
    var flatSince: Option<real>
    var entrySubmittedAt: Option<real>
    // Quantities of the entries handed to the exchange.
    ghost var entries: seq<real>

    ghost predicate Valid()
      reads this, exchange
    {
      exchange.Valid() && ValidSettings(settings) && strategy.config.leverage != 0
    }

    ghost function View(): Local
      reads this, strategy
    {
      Local(strategy.View(), flatSince, entrySubmittedAt)
    }

    constructor (settings: Settings, strategy: DcaStrategy, exchange: Exchange)
      requires exchange.Valid() && ValidSettings(settings) && strategy.config.leverage != 0
      ensures Valid() && this.settings == settings && this.strategy == strategy && this.exchange == exchange
      ensures View() == Local(strategy.View(), None, None) && entries == []
    {
      this.settings, this.strategy, this.exchange := settings, strategy, exchange;
      flatSince, entrySubmittedAt := None, None;
      entries := [];
    }

    method TakeOffClosedBasket()
      modifies strategy
      ensures strategy.View() == Closed(old(strategy.View()), settings.pauseAfterCycle)
    {
      var wasPaused := strategy.state == Paused;
      if strategy.currentCycle.Some? {
        var _ := strategy.MarkClosed();
        if wasPaused {
          strategy.Pause();
        } else if settings.pauseAfterCycle {
          strategy.Pause();
        }
      }
    }

    method SyncFlatPosition(market: Market) returns (r: Result<Synced, Failure>)
      requires Valid()
      modifies `flatSince, `entrySubmittedAt, `entries, strategy
      ensures Valid() && (View(), r) == FlatStep(settings, old(View()), market)
      ensures entries == old(entries) + Submitted(settings, old(View()), market)
    {
      TakeOffClosedBasket();
      if strategy.state == Paused {
        flatSince := None;
        return Ok(Synced(FlatPaused, None));
      }
      if flatSince.None? {
        flatSince := Some(market.now);
      }
      var remaining := Max(0.0, settings.reentryDelay - (market.now - flatSince.value));
      if remaining > 0.0 {
        return Ok(Synced(ReentryWait(remaining), None));
      }
      if market.sized.None? {
        return Ok(Synced(EntryBlocked, None));
      }
      if BlockedByStrategy(settings, strategy.config, market) {
        return Ok(Synced(EntryBlocked, None));
      }
      if settings.coordinated && !market.allowed {
        return Ok(Synced(EntryBlocked, None));
      }
      entries := entries + [market.sized.value];
      if !market.submitted {
        return Err(CallFailed);
      }
      flatSince, entrySubmittedAt := None, Some(market.after);
      r := Ok(Synced(EntrySubmitted, None));
    }

    // Cancels every listed order but the kept one, stopping at a raise.
    method CancelAll(orders: seq<OpenOrder>, keep: Option<OpenOrder>, ghost script: seq<Command>, ghost base: nat)
      returns (raised: bool)
      requires exchange.Valid() && Follows(exchange.session, script) && !Failed(exchange.session)
      requires Count(exchange.session) == base && base + |Cancels(orders, keep)| <= |script|
      requires script[base..base + |Cancels(orders, keep)|] == Cancels(orders, keep)
      modifies exchange`book, exchange`session, exchange`nextId
      ensures exchange.Valid() && Follows(exchange.session, script) && Failed(exchange.session) == raised
      ensures !raised ==> Count(exchange.session) == base + |Cancels(orders, keep)|
    {
      var i := 0;
      assert orders[..0] == [];
      while i < |orders|
        invariant 0 <= i <= |orders| && exchange.Valid()
        invariant Follows(exchange.session, script) && !Failed(exchange.session)
        invariant Count(exchange.session) == base + |Cancels(orders[..i], keep)|
      {
        CancelsSoFar(orders, keep, i);
        if !Kept(orders[i], keep) {
          assert script[Count(exchange.session)] == Cancels(orders, keep)[|Cancels(orders[..i], keep)|];
          raised := exchange.CancelOrder(orders[i].orderId, script);
          if raised {
            return;
          }
        }
        i := i + 1;
      }
      assert orders[..i] == orders;
      raised := false;
    }

    // The take profit: the matching one is kept, otherwise the planned one is placed first; then
    // the others are cancelled.
    method RestTakeProfit(r: Reading, pending: bool, ghost script: seq<Command>) returns (ack: Ack)
      requires Valid() && !Assessed(r).status.Ambiguous? && script == Script(r)
      requires Follows(exchange.session, script) && !Failed(exchange.session) && Count(exchange.session) == 0
      modifies `entrySubmittedAt, exchange`book, exchange`session, exchange`nextId
      ensures Valid() && Follows(exchange.session, script) && Failed(exchange.session) == !ack.Accepted?
      ensures ack.Accepted? ==>
                && Count(exchange.session) == |TpScript(r)|
                && entrySubmittedAt == EntryAfter(r, old(entrySubmittedAt), pending)
      ensures ack.AlreadyClosed? ==> entrySubmittedAt == old(entrySubmittedAt)
    {
      var tps := BotOrders(r.orders, "tp");
      var keep := MatchingLimit(tps, Sell, r.plan.takeProfit, true);
      ghost var base := 0;
      ack := Accepted;
      if keep.None? {
        FirstIsPlaceTp(r);
        ack := exchange.PlaceOrder(TakeProfit(r.cycleId, r.plan.takeProfit), script);
        if !ack.Accepted? {
          return;
        }
        base := 1;
        if pending {
          entrySubmittedAt := None;
        }
      } else if Assessed(r).status.Protected? {
        entrySubmittedAt := None;
      }
      TpCancelsInScript(r, base);
      var raised := CancelAll(tps, keep, script, base);
      ack := if raised then Raising else Accepted;
    }

    // The DCA: stale ones are cancelled before the planned one is authorised and placed.
    method ReplaceDca(r: Reading, ghost script: seq<Command>) returns (raised: bool)
      requires exchange.Valid() && !Assessed(r).status.Ambiguous? && script == Script(r)
      requires Follows(exchange.session, script) && !Failed(exchange.session)
      requires Count(exchange.session) == |TpScript(r)|
      modifies exchange`book, exchange`session, exchange`nextId
      ensures exchange.Valid() && Follows(exchange.session, script) && Failed(exchange.session) == raised
      ensures !raised ==> Completes(exchange.session, script)
    {
      var dcas := BotOrders(r.orders, "dca");
      DcaCancelsInScript(r);
      if r.plan.maxDcaReached {
        raised := CancelAll(dcas, None, script, |TpScript(r)|);
        return;
      }
      var partial := PartiallyFilled(dcas);
      var keep: Option<OpenOrder> := None;
      if partial.Some? {
        keep := partial;
      } else if r.plan.nextDca.Some? {
        keep := MatchingLimit(dcas, Buy, r.plan.nextDca.value, false);
      }
      raised := CancelAll(dcas, keep, script, |TpScript(r)|);
      if raised {
        return;
      }
      if partial.None? && r.plan.nextDca.Some? && keep.None? && r.allowed {
        LastIsPlaceDca(r);
        var ack := exchange.PlaceOrder(Dca(r.cycleId, r.level, r.plan.nextDca.value), script);
        raised := !ack.Accepted?;
      }
    }

    // Reconciles and plans. Without a plan the sync ends there, with `r`.
    method ReadPlan(position: Position, world: World)
      returns (plan: Option<RestingPlan>, r: Result<Synced, Failure>, second: Position)
      requires Valid()
      modifies strategy, exchange`book, exchange`session, exchange`nextId, exchange`observed
      ensures exchange.observed == old(exchange.observed) + if position.side == Buy then [second] else []
      ensures position.side != Buy ==> second == position
      ensures Valid() && Count(exchange.session) == Count(old(exchange.session))
      ensures strategy.View() == LocalAfterReading(old(strategy.View()), position, second, world.stored)
      ensures plan.Some? ==>
                && world.stored.Some? && strategy.View().cycle.Some?
                && forall orders ::
                     ReadingOf(old(strategy.View()), position, second, world, orders)
                     == Some(Reading(position.size, plan.value, world.stored.value.cycleId,
                                     strategy.View().cycle.value.DcaLevel(), orders,
                                     settings.coordinated ==> world.allowed))
      ensures plan.None? ==>
                && ReadingOf(old(strategy.View()), position, second, world, []).None?
                && ReadingFor(settings, old(strategy.View()), position, second, world.stored, world.account, [],
                              true).None?
                && r == EarlyResult(settings, old(strategy.View()), position, second, world.stored, world.account)
      ensures SoleDca(old(exchange.book)) ==> SoleDca(exchange.book)
      ensures plan.Some? && SomeTp(old(exchange.book)) ==> SomeTp(exchange.book)
    {
      second := position;
      plan := None;
      if position.side != Buy {
        strategy.Pause();
        return None, Err(UnexpectedSide), second;
      }
      second := exchange.GetPosition([]);
      var outcome := ReconcileStrategy(strategy, second, world.stored);
      if outcome.Unreconciled? {
        return None, Ok(Synced(WaitingForReconciliation, None)), second;
      }
      if outcome.RestoreRaised? {
        return None, Err(RestoreFailed(outcome.error)), second;
      }
      var built := BuildRestingOrderPlan(strategy.View(), settings.rules, Some(settings.limits),
                                         if settings.coordinated then None else Some(world.account));
      if built.Err? {
        return None, Err(PlanFailed(built.error)), second;
      }
      plan := Some(built.value);
      r := Err(CallFailed);
    }

    ghost function ReadingOf(s: State, first: Position, second: Position, world: World,
                             orders: seq<OpenOrder>): Option<Reading>
      requires ValidSettings(settings) && s.config.leverage != 0
    {
      ReadingFor(settings, s, first, second, world.stored, world.account, orders,
                 settings.coordinated ==> world.allowed)
    }

    // The position closed under the sync: it goes on as a flat one.
    method GoFlat(market: Market) returns (r: Result<Synced, Failure>)
      requires Valid()
      modifies `flatSince, `entrySubmittedAt, `entries, strategy
      ensures Valid() && (View(), r) == FlatStep(settings, old(View()).(flatSince := None), market)
      ensures entries == old(entries) + Submitted(settings, old(View()).(flatSince := None), market)
    {
      flatSince := None;
      r := SyncFlatPosition(market);
    }

    // A position that has lost its protection is read once more: it may have been closed.
    method RecheckLost(reading: Reading, pending: bool, now: real, ghost script: seq<Command>)
      returns (closed: bool, ghost more: seq<Position>)
      requires Valid() && exchange.session == [] && !Assessed(reading).status.Ambiguous?
      requires pending == InitialTpPending(settings, reading, entrySubmittedAt, now)
      modifies exchange`book, exchange`session, exchange`nextId, exchange`observed
      ensures Valid() && Follows(exchange.session, script) && Count(exchange.session) == 0 && !Failed(exchange.session)
      ensures exchange.observed == old(exchange.observed) + more
      ensures if ProtectionLost(settings, reading, entrySubmittedAt, now)
              then more == [exchange.book.position] && (closed <==> !IsOpen(exchange.book.position))
              else more == [] && !closed
    {
      closed, more := false, [];
      var assessment := Assessed(reading);
      var resizing := assessment.status.Missing? && assessment.restingTpOrders == 1;
      if assessment.status.Missing? && !pending && !resizing {
        MissingHasOneAtMost(reading);
        var latest := exchange.GetPosition(script);
        closed, more := !IsOpen(latest), [latest];
      }
    }

    // Everything after the listing, on an unambiguous book.
    method RestOrders(reading: Reading, world: World, ghost script: seq<Command>)
      returns (r: Result<Synced, Failure>, wentFlat: bool, ghost more: seq<Position>)
      requires Valid() && strategy.currentCycle.Some? && !Assessed(reading).status.Ambiguous?
      requires script == Script(reading)
      requires exchange.session == []
      modifies this, strategy, exchange`book, exchange`session, exchange`nextId, exchange`observed
      ensures Valid() && Follows(exchange.session, script)
      ensures exchange.observed == old(exchange.observed) + more
      ensures Rechecks(settings, reading, old(entrySubmittedAt), world.now, more, exchange.session, wentFlat)
      ensures wentFlat ==>
                && (View(), r) == FlatStep(settings, old(View()).(flatSince := None), world.market)
                && entries == old(entries) + Submitted(settings, old(View()).(flatSince := None), world.market)
      ensures wentFlat ==> !IsOpen(exchange.book.position) && (Count(exchange.session) == 0 || Failed(exchange.session))
      ensures !wentFlat ==>
                strategy.View() == old(strategy.View()) && flatSince == old(flatSince) && entries == old(entries)
      ensures !wentFlat && r.Err? ==> Failed(exchange.session)
      ensures !wentFlat && r.Ok? ==>
                && Completes(exchange.session, script)
                && var pending := InitialTpPending(settings, reading, old(entrySubmittedAt), world.now);
                   && entrySubmittedAt == EntryAfter(reading, old(entrySubmittedAt), pending)
                   && r.value == Synced(StatusOf(reading, old(strategy.currentCycle).value.HasDcaLadder()),
                                        Some(FinalProtection(reading, pending)))
    {
      var pending := InitialTpPending(settings, reading, entrySubmittedAt, world.now);
      var ack := Accepted;
      wentFlat, more := RecheckLost(reading, pending, world.now, script);
      if !wentFlat {
        ack := RestTakeProfit(reading, pending, script);
        if ack.AlreadyClosed? {
          var latest := exchange.GetPosition(script);
          more := more + [latest];
          FailedCounts(exchange.session);
          if IsOpen(latest) {
            r := Err(ExchangeDisagrees);
            return;
          }
          wentFlat := true;
        }
      }
      if wentFlat {
        r := GoFlat(world.market);
        return;
      }
      if ack.Raising? {
        r := Err(CallFailed);
        return;
      }
      var raised := ReplaceDca(reading, script);
      if raised {
        r := Err(CallFailed);
        return;
      }
      var status := if !reading.plan.maxDcaReached then OrdersRebuilt
                    else if strategy.currentCycle.value.HasDcaLadder() then MaxDcaHeld
                    else TakeProfitOnly;
      r := Ok(Synced(status, Some(FinalProtection(reading, pending))));
    }

    // One sync of an open position. Whatever the exchange does, the commands issued are a part of
    // the script of what was read, the whole of it on a normal return.
    method SyncOpenPosition(position: Position, world: World)
      returns (r: Result<Synced, Failure>, wentFlat: bool, second: Position, reading: Option<Reading>,
               ghost more: seq<Position>)
      requires Valid() && IsOpen(position)
      modifies this, strategy, exchange
      ensures Valid()
      ensures exchange.observed == old(exchange.observed) + (if position.side == Buy then [second] else []) + more
      ensures reading.Some? && !Assessed(reading.value).status.Ambiguous? ==>
                Rechecks(settings, reading.value, old(entrySubmittedAt), world.now, more, exchange.session, wentFlat)
      ensures position.side != Buy ==> second == position
      ensures reading.None? ==>
                && Count(exchange.session) == Count(old(exchange.session))
                && exchange.snapshot == old(exchange.snapshot)
                && ReadingFor(settings, old(strategy.View()), position, second, world.stored, world.account, [],
                              true).None?
                && r == EarlyResult(settings, old(strategy.View()), position, second, world.stored, world.account)
                && !wentFlat
                && (SoleDca(old(exchange.book)) ==> SoleDca(exchange.book))
      ensures reading.Some? ==>
                && reading == ReadingOf(old(strategy.View()), position, second, world, reading.value.orders)
                && Read(reading.value, exchange.snapshot) && Follows(exchange.session, Script(reading.value))
                && (SoleDca(old(exchange.book)) ==> SoleDca(exchange.snapshot))
                && (SomeTp(old(exchange.book)) && IsOpen(exchange.snapshot.position) ==> SomeTp(exchange.snapshot))
                && (wentFlat ==> !IsOpen(exchange.book.position))
                && (!wentFlat && r.Err? ==> Failed(exchange.session))
      ensures var after := old(View()).(strategy := LocalAfterReading(old(strategy.View()), position, second,
                                                                      world.stored));
              if wentFlat then
                && (View(), r) == FlatStep(settings, after.(flatSince := None), world.market)
                && entries == old(entries) + Submitted(settings, after.(flatSince := None), world.market)
              else strategy.View() == after.strategy && flatSince == old(flatSince) && entries == old(entries)
      ensures !wentFlat && reading.Some? && r.Ok? ==>
                && Completes(exchange.session, Script(reading.value))
                && Reports(settings, reading.value, strategy.View(), old(entrySubmittedAt), world.now, r.value)
    {
      wentFlat, reading := false, None;
      var plan;
      more := [];
      plan, r, second := ReadPlan(position, world);
      if plan.None? {
        return;
      }
      var orders := exchange.GetOpenOrders();
      var read := Reading(position.size, plan.value, world.stored.value.cycleId, strategy.View().cycle.value.DcaLevel(),
                          orders,
                          settings.coordinated ==> world.allowed);
      reading := Some(read);
      if Assessed(read).status.Ambiguous? {
        r := Ok(Synced(ProtectionAmbiguous, Some(Protection.Ambiguous)));
        return;
      }
      r, wentFlat, more := RestOrders(read, world, Script(read));
    }

    // One sync: it ends early, or goes flat, or follows the script of what it read, which keeps
    // the DCA sole and the position protected in every state and settles on the planned take profit.
    method Sync(world: World)
      returns (r: Result<Synced, Failure>, first: Position, wentFlat: bool, second: Position, reading: Option<Reading>,
               ghost more: seq<Position>)
      requires Valid()
      modifies this, strategy, exchange
      ensures Valid()
      ensures exchange.observed
              == old(exchange.observed) + [first] + (if IsOpen(first) && first.side == Buy then [second] else []) + more
      ensures reading.Some? && !Assessed(reading.value).status.Ambiguous? ==>
                Rechecks(settings, reading.value, old(entrySubmittedAt), world.now, more, exchange.session, wentFlat)
      ensures !IsOpen(first) ==>
                && (View(), r) == FlatStep(settings, old(View()), world.market)
                && entries == old(entries) + Submitted(settings, old(View()), world.market)
                && reading.None? && !wentFlat
      ensures reading.None? ==>
                && Count(exchange.session) == Count(old(exchange.session))
                && (SoleDca(old(exchange.book)) ==> SoleDca(exchange.book))
      ensures IsOpen(first) && reading.None? ==>
                && ReadingFor(settings, old(strategy.View()), first, second, world.stored, world.account, [],
                              true).None?
                && r == EarlyResult(settings, old(strategy.View()), first, second, world.stored, world.account)
      ensures IsOpen(first) ==>
                var after := Local(LocalAfterReading(old(strategy.View()), first, second, world.stored), None,
                                   old(entrySubmittedAt));
                if wentFlat then
                  && (View(), r) == FlatStep(settings, after, world.market)
                  && entries == old(entries) + Submitted(settings, after, world.market)
                else strategy.View() == after.strategy && flatSince == None && entries == old(entries)
      ensures reading.Some? ==>
                && IsOpen(first)
                && reading == ReadingOf(old(strategy.View()), first, second, world, reading.value.orders)
                && Safe(reading.value, exchange.snapshot, exchange.session)
                && (!wentFlat && r.Err? ==> Failed(exchange.session))
                && (!wentFlat && r.Ok? ==> Settled(reading.value, exchange.snapshot, exchange.session))
                && (SoleDca(old(exchange.book)) && ClearToPlace(reading.value, exchange.snapshot) ==>
                      SoleDca(exchange.book))
                && (SomeTp(old(exchange.book)) ==>
                      OpenAndReplaceable(reading.value, exchange.snapshot, exchange.session) ==> SomeTp(exchange.book))
    {
      wentFlat, reading, more := false, None, [];
      first := exchange.GetPosition([]);
      second := first;
      if IsOpen(first) {
        flatSince := None;
        r, wentFlat, second, reading, more := SyncOpenPosition(first, world);
        if reading.Some? {
          SyncIsSafe(reading.value, exchange.snapshot, exchange.session);
          PrefixIsLegal(exchange.snapshot, exchange.session, Script(reading.value), 0);
          assert exchange.session[..0] == [];
          if !wentFlat && r.Ok? {
            CompletedSyncIsSettled(reading.value, exchange.snapshot, exchange.session);
          }
        }
      } else {
        r := SyncFlatPosition(world.market);
      }
    }

    // One sync as the flat clock sees it. A flat one saw the market of its world.
    method ObservedSync(world: World) returns (ghost local: Local, ghost saw: Observation)
      requires Valid()
      modifies this, strategy, exchange
      ensures Valid() && local.strategy.config.leverage != 0
      ensures local.flatSince == None || local.flatSince == old(flatSince)
      ensures saw.SawFlat? ==> saw.market == world.market
      ensures flatSince == ClockAfter(settings, local, saw)
      ensures entries == old(entries) + Observed(settings, local, saw)
    {
      ghost var before := View();
      ghost var more;
      var r, first, wentFlat, second, reading;
      r, first, wentFlat, second, reading, more := Sync(world);
      local, saw := before, SawOpen;
      if !IsOpen(first) {
        saw := SawFlat(world.market);
      } else if wentFlat {
        local := Local(LocalAfterReading(before.strategy, first, second, world.stored), None, before.entrySubmittedAt);
        saw := SawFlat(world.market);
      }
    }

    // Sync after sync of a new service: what the flat clock sees of it is a run of the clock, each
    // flat sync saw the market of its own world, and the entries handed over are exactly that run's.
    method SyncAll(worlds: seq<World>) returns (ghost locals: seq<Local>, ghost seen: seq<Observation>)
      requires Valid() && flatSince == None
      modifies this, strategy, exchange
      ensures Valid() && |locals| == |seen| == |worlds|
      ensures forall i | 0 <= i < |worlds| && seen[i].SawFlat? :: seen[i].market == worlds[i].market
      ensures ClockRun(settings, locals, seen)
      ensures entries == old(entries) + Entries(settings, locals, seen)
    {
      locals, seen := [], [];
      for i := 0 to |worlds|
        invariant Valid() && |seen| == i
        invariant RunSoFar(settings, worlds, locals, seen, flatSince, old(entries), entries)
      {
        ghost var local, saw := ObservedSync(worlds[i]);
        RunGrows(settings, worlds, locals, seen, local, saw, old(entries));
        locals, seen := locals + [local], seen + [saw];
      }
    }
  }

  lemma CancelsSoFar(orders: seq<OpenOrder>, keep: Option<OpenOrder>, i: nat)
    requires i < |orders|
    ensures Cancels(orders[..i + 1], keep)
         == Cancels(orders[..i], keep) + if Kept(orders[i], keep) then [] else [Cancel(orders[i].orderId)]
    ensures Cancels(orders[..i + 1], keep) <= Cancels(orders, keep)
    decreases |orders| - i
  {
    assert orders[..i + 1][..i] == orders[..i];
    if i + 1 == |orders| {
      assert orders[..i + 1] == orders;
    } else {
      CancelsSoFar(orders, keep, i + 1);
    }
  }

  lemma TpCancelsInScript(r: Reading, base: nat)
    requires !Assessed(r).status.Ambiguous? && base == (if TpMatch(r).None? then 1 else 0)
    ensures var cancels := Cancels(BotOrders(r.orders, "tp"), TpMatch(r));
            && base + |cancels| == |TpScript(r)| <= |Script(r)| && Script(r)[base..base + |cancels|] == cancels
  {
  }

  lemma DcaCancelsInScript(r: Reading)
    requires !Assessed(r).status.Ambiguous?
    ensures var base, cancels := |TpScript(r)|, Cancels(BotOrders(r.orders, "dca"), DcaMatch(r));
            && base + |cancels| <= |Script(r)| && Script(r)[base..base + |cancels|] == cancels
            && (!PlacesDca(r) ==> base + |cancels| == |Script(r)|)
            && (PlacesDca(r) ==> base + |cancels| + 1 == |Script(r)|)
  {
    var tp, cancels := TpScript(r), Cancels(BotOrders(r.orders, "dca"), DcaMatch(r));
    var placed := if PlacesDca(r) then [Place(PlannedDca(r))] else [];
    assert Script(r) == tp + cancels + placed;
    assert (tp + cancels + placed)[|tp|..|tp| + |cancels|] == cancels;
  }
}
