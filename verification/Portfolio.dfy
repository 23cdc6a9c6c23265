// Account-level authorisation with time-limited reservations (botdca/portfolio.py).
//
// Exposures and reservations are maps keyed by symbol: every enabled symbol has one service, and
// the coordinator keeps one reservation a symbol.
module Portfolio {
  import opened Common
  import opened Orders

  type Symbol = string

  datatype Guards = Guards(
    maxMargin: real, maxNotional: real, minAvailable: real, minEquityRatio: real,
    deepLevel: int, maxDeepBaskets: int, maxFloatingLoss: Option<real>)

  datatype Exposure = Exposure(level: int, qty: real, margin: real, notional: real, pnl: real)

  datatype Candidate = Candidate(symbol: Symbol, qty: real, price: real, leverage: int, targetLevel: int)
  {
    function Notional(): real {
      Product(qty, price)
    }

    function Margin(): real
      requires leverage != 0
    {
      Notional() / leverage as real
    }
  }

  datatype Reservation = Reservation(margin: real, notional: real, targetLevel: int, expiresAt: real)

  type Exposures = map<Symbol, Exposure>
  type Reservations = map<Symbol, Reservation>

  datatype Guard = MaxMargin | MaxNotional | AccountUnreadable | MinAvailable | DeepBaskets | FloatingLoss

  // ---------------------------------------------------------------- sums over maps

  ghost function Sum(m: map<Symbol, real>): real
    decreases |m|
  {
    if m == map[] then 0.0
    else
      var s :| s in m;
      m[s] + Sum(m - {s})
  }

  lemma SumWithout(m: map<Symbol, real>, s: Symbol)
    requires s in m
    ensures Sum(m) == m[s] + Sum(m - {s})
    decreases |m|
  {
    var t :| t in m && Sum(m) == m[t] + Sum(m - {t});
    if t != s {
      SumWithout(m - {t}, s);
      SumWithout(m - {s}, t);
      assert m - {t} - {s} == m - {s} - {t};
    }
  }

  lemma SumUpdate(m: map<Symbol, real>, s: Symbol, value: real)
    ensures Sum(m[s := value]) == Sum(m) - (if s in m then m[s] else 0.0) + value
  {
    SumWithout(m[s := value], s);
    if s in m {
      SumWithout(m, s);
      assert m[s := value] - {s} == m - {s};
    } else {
      assert m[s := value] - {s} == m;
    }
  }

  lemma WithoutAbsent(m: map<Symbol, real>, s: Symbol)
    requires s !in m
    ensures m - {s} == m
  {
  }

  // A part of nonnegative entries sums to no more than the whole.
  lemma SumOfPart(part: map<Symbol, real>, whole: map<Symbol, real>)
    requires forall s | s in whole :: whole[s] >= 0.0
    requires forall s | s in part :: s in whole && part[s] <= whole[s]
    ensures Sum(part) <= Sum(whole)
    decreases |whole|
  {
    if whole == map[] {
      assert part == map[];
    } else {
      var s :| s in whole;
      SumWithout(whole, s);
      SumOfPart(part - {s}, whole - {s});
      if s in part {
        SumWithout(part, s);
      } else {
        WithoutAbsent(part, s);
      }
    }
  }

  lemma {:induction false} SumOfUnion(m: map<Symbol, real>, other: map<Symbol, real>)
    requires m.Keys !! other.Keys
    ensures Sum(m + other) == Sum(m) + Sum(other)
    decreases |other|
  {
    if other == map[] {
      assert m + other == m;
    } else {
      var s :| s in other;
      SumOfUnion(m, other - {s});
      SumWithout(other, s);
      UnionWithout(m, other, s);
      SumWithout(m + other, s);
    }
  }

  lemma UnionWithout(m: map<Symbol, real>, other: map<Symbol, real>, s: Symbol)
    requires s in other && s !in m
    ensures s in m + other && (m + other)[s] == other[s] && m + other - {s} == m + (other - {s})
  {
  }

  lemma {:induction false} SumWithoutZeros(part: map<Symbol, real>, whole: map<Symbol, real>)
    requires forall s | s in part :: s in whole && part[s] == whole[s]
    requires forall s | s in whole && s !in part :: whole[s] == 0.0
    ensures Sum(part) == Sum(whole)
    decreases |whole|
  {
    if whole == map[] {
      assert part == map[];
    } else {
      var s :| s in whole;
      SumWithout(whole, s);
      SumWithoutZeros(part - {s}, whole - {s});
      if s in part {
        SumWithout(part, s);
      } else {
        WithoutAbsent(part, s);
      }
    }
  }

  method Total(m: map<Symbol, real>) returns (total: real)
    ensures total == Sum(m)
  {
    total := 0.0;
    var rest := m;
    while rest != map[]
      invariant total + Sum(rest) == Sum(m)
      decreases |rest|
    {
      var s :| s in rest;
      SumWithout(rest, s);
      total := total + rest[s];
      rest := rest - {s};
    }
  }

  function Margins(exposures: Exposures): map<Symbol, real> {
    map s | s in exposures :: exposures[s].margin
  }

  function Notionals(exposures: Exposures): map<Symbol, real> {
    map s | s in exposures :: exposures[s].notional
  }

  function Pnls(exposures: Exposures): map<Symbol, real> {
    map s | s in exposures :: exposures[s].pnl
  }

  function ReservedMargins(reservations: Reservations): map<Symbol, real> {
    map s | s in reservations :: reservations[s].margin
  }

  function ReservedNotionals(reservations: Reservations): map<Symbol, real> {
    map s | s in reservations :: reservations[s].notional
  }

  // ---------------------------------------------------------------- the coordinator

  // The symbol's own exposure has reached the level the reservation was taken for.
  predicate Landed(r: Reservation, exposures: Exposures, s: Symbol) {
    s in exposures && exposures[s].level >= r.targetLevel && (r.targetLevel > 0 || exposures[s].qty > 0.0)
  }

  // The reservation has expired, or its entry has been observed, or its level reached.
  predicate Over(r: Reservation, exposures: Exposures, s: Symbol, now: real) {
    || now >= r.expiresAt
    || (r.targetLevel <= 0 && s in exposures && exposures[s].qty > 0.0 && exposures[s].level >= r.targetLevel)
    || (r.targetLevel > 0 && s in exposures && exposures[s].level >= r.targetLevel)
  }

  function Pruned(reservations: Reservations, exposures: Exposures, now: real): Reservations {
    map s | s in reservations && reservations[s].expiresAt > now && !Landed(reservations[s], exposures, s) ::
      reservations[s]
  }

  predicate IsDeep(e: Exposure, deepLevel: int) {
    e.qty > 0.0 && e.level >= deepLevel
  }

  function DeepAfter(g: Guards, c: Candidate, exposures: Exposures): set<Symbol> {
    (set s | s in exposures && IsDeep(exposures[s], g.deepLevel))
    + (if c.targetLevel >= g.deepLevel then {c.symbol} else {})
  }

  // The first guard that refuses the candidate, in the source's order; None allows it.
  ghost function Evaluate(g: Guards, c: Candidate, account: Option<Account>, exposures: Exposures,
                          reservations: Reservations): Option<Guard>
    requires c.leverage != 0
  {
    var reserved := Sum(ReservedMargins(reservations));
    if Sum(Margins(exposures)) + reserved + c.Margin() > g.maxMargin then Some(MaxMargin)
    else if Sum(Notionals(exposures)) + Sum(ReservedNotionals(reservations)) + c.Notional() > g.maxNotional
         then Some(MaxNotional)
    else if account.None? then Some(AccountUnreadable)
    else if account.value.available - reserved - c.Margin()
            < Max(g.minAvailable, Product(account.value.equity, g.minEquityRatio))
    then Some(MinAvailable)
    else if |DeepAfter(g, c, exposures)| > g.maxDeepBaskets then Some(DeepBaskets)
    else if g.maxFloatingLoss.Some? && Sum(Pnls(exposures)) < 0.0 && Abs(Sum(Pnls(exposures))) > g.maxFloatingLoss.value
    then Some(FloatingLoss)
    else None
  }

  // The order in which guards are reported.
  function Rank(guard: Guard): nat {
    match guard
    case MaxMargin => 0
    case MaxNotional => 1
    case AccountUnreadable => 2
    case MinAvailable => 3
    case DeepBaskets => 4
    case FloatingLoss => 5
  }

  // What each guard demands of the candidate, beside what is observed and what is pending.
  ghost predicate Satisfies(guard: Guard, g: Guards, c: Candidate, account: Option<Account>, exposures: Exposures,
                            reservations: Reservations)
    requires c.leverage != 0
  {
    var reserved := Sum(ReservedMargins(reservations));
    match guard
    case MaxMargin => Sum(Margins(exposures)) + reserved + c.Margin() <= g.maxMargin
    case MaxNotional =>
      Sum(Notionals(exposures)) + Sum(ReservedNotionals(reservations)) + c.Notional() <= g.maxNotional
    case AccountUnreadable => account.Some?
    case MinAvailable =>
      account.Some? ==>
        && account.value.available >= g.minAvailable + reserved + c.Margin()
        && account.value.available >= Product(account.value.equity, g.minEquityRatio) + reserved + c.Margin()
    case DeepBaskets =>
      forall deep: set<Symbol> | AreDeep(deep, g, c, exposures) :: |deep| <= g.maxDeepBaskets
    case FloatingLoss =>
      g.maxFloatingLoss.Some? ==> Sum(Pnls(exposures)) >= 0.0 || -Sum(Pnls(exposures)) <= g.maxFloatingLoss.value
  }

  ghost predicate AreDeep(deep: set<Symbol>, g: Guards, c: Candidate, exposures: Exposures) {
    forall s :: s in deep <==> DeepOnceCounted(g, c, exposures, s)
  }

  // The symbol is deep, or will be once the candidate fills.
  predicate DeepOnceCounted(g: Guards, c: Candidate, exposures: Exposures, s: Symbol) {
    || (s in exposures && exposures[s].qty > 0.0 && exposures[s].level >= g.deepLevel)
    || (s == c.symbol && c.targetLevel >= g.deepLevel)
  }

  // A guard is reported exactly when it is the first that the candidate does not satisfy, and the
  // candidate is allowed exactly when it satisfies them all.
  lemma {:induction false} RefusedExactly(g: Guards, c: Candidate, account: Option<Account>, exposures: Exposures,
                                          reservations: Reservations)
    requires c.leverage != 0
    ensures Evaluate(g, c, account, exposures, reservations).None?
            <==> forall guard :: Satisfies(guard, g, c, account, exposures, reservations)
    ensures forall guard ::
              Evaluate(g, c, account, exposures, reservations) == Some(guard)
              <==> FirstRefusal(guard, g, c, account, exposures, reservations)
  {
    DeepExactly(g, c, account, exposures, reservations);
    var refusal := Evaluate(g, c, account, exposures, reservations);
    if refusal.Some? {
      assert FirstRefusal(refusal.value, g, c, account, exposures, reservations);
      forall guard | FirstRefusal(guard, g, c, account, exposures, reservations) ensures guard == refusal.value {
        SameRank(guard, refusal.value);
      }
    }
  }

  ghost predicate FirstRefusal(guard: Guard, g: Guards, c: Candidate, account: Option<Account>, exposures: Exposures,
                               reservations: Reservations)
    requires c.leverage != 0
  {
    && !Satisfies(guard, g, c, account, exposures, reservations)
    && forall other | Rank(other) < Rank(guard) :: Satisfies(other, g, c, account, exposures, reservations)
  }

  lemma SameRank(guard: Guard, other: Guard)
    ensures Rank(guard) == Rank(other) ==> guard == other
  {
  }

  // What a candidate costs.
  lemma CostsAre(c: Candidate)
    requires c.leverage != 0
    ensures c.Notional() == c.qty * c.price && c.Margin() == c.qty * c.price / c.leverage as real
  {
  }

  lemma {:induction false} DeepExactly(g: Guards, c: Candidate, account: Option<Account>, exposures: Exposures,
                                       reservations: Reservations)
    requires c.leverage != 0
    ensures Satisfies(DeepBaskets, g, c, account, exposures, reservations)
            <==> |DeepAfter(g, c, exposures)| <= g.maxDeepBaskets
  {
    var all := DeepAfter(g, c, exposures);
    forall s ensures s in all <==> DeepOnceCounted(g, c, exposures, s) {
    }
    assert AreDeep(all, g, c, exposures);
    forall deep: set<Symbol> | AreDeep(deep, g, c, exposures) ensures deep == all {
    }
  }

  function ReservationFor(c: Candidate, expiresAt: real): Reservation
    requires c.leverage != 0
  {
    Reservation(c.Margin(), c.Notional(), c.targetLevel, expiresAt)
  }

  class PortfolioCoordinator {
    const guards: Guards
    const ttl: real
    var reservations: Reservations

    constructor (guards: Guards, ttl: real)
      ensures this.guards == guards && this.ttl == ttl && reservations == map[]
    {
      this.guards, this.ttl := guards, ttl;
      reservations := map[];
    }

    method PruneReservations(exposures: Exposures, now: real)
      modifies this
      ensures reservations == Pruned(old(reservations), exposures, now)
      ensures forall s ::
                s in reservations <==> s in old(reservations) && !Over(old(reservations)[s], exposures, s, now)
    {
      var pending := reservations.Keys;
      while pending != {}
        invariant pending <= reservations.Keys
        invariant forall s | s in pending :: s in old(reservations) && reservations[s] == old(reservations)[s]
        invariant forall s ::
                    s in reservations - pending <==> s in Pruned(old(reservations), exposures, now) && s !in pending
        invariant forall s | s in reservations :: s in old(reservations) && reservations[s] == old(reservations)[s]
        decreases |pending|
      {
        var s :| s in pending;
        pending := pending - {s};
        var reservation := reservations[s];
        if reservation.expiresAt <= now {
          reservations := reservations - {s};
        } else if s in exposures && exposures[s].level >= reservation.targetLevel
                  && (reservation.targetLevel > 0 || exposures[s].qty > 0.0) {
          reservations := reservations - {s};
        }
      }
      assert reservations == Pruned(old(reservations), exposures, now);
    }

    method EvaluateCandidate(c: Candidate, account: Option<Account>, exposures: Exposures)
      returns (refusal: Option<Guard>)
      requires c.leverage != 0
      ensures refusal == Evaluate(guards, c, account, exposures, reservations)
    {
      var observedMargin := Total(Margins(exposures));
      var observedNotional := Total(Notionals(exposures));
      var reservedMargin := Total(ReservedMargins(reservations));
      var reservedNotional := Total(ReservedNotionals(reservations));
      if observedMargin + reservedMargin + c.Margin() > guards.maxMargin {
        return Some(MaxMargin);
      }
      if observedNotional + reservedNotional + c.Notional() > guards.maxNotional {
        return Some(MaxNotional);
      }
      if account.None? {
        return Some(AccountUnreadable);
      }
      var floor := Max(guards.minAvailable, Product(account.value.equity, guards.minEquityRatio));
      if account.value.available - reservedMargin - c.Margin() < floor {
        return Some(MinAvailable);
      }
      if |DeepAfter(guards, c, exposures)| > guards.maxDeepBaskets {
        return Some(DeepBaskets);
      }
      if guards.maxFloatingLoss.Some? {
        var floating := Total(Pnls(exposures));
        if floating < 0.0 && Abs(floating) > guards.maxFloatingLoss.value {
          return Some(FloatingLoss);
        }
      }
      refusal := None;
    }

    // The whole critical section. `submitted` is whether the submission went through; `reserveAt`
    // is the second reading of the clock, when the reservation is taken.
    method Authorize(c: Candidate, account: Option<Account>, exposures: Exposures, now: real, reserveAt: real,
                     submitted: bool)
      returns (refusal: Option<Guard>)
      requires c.leverage != 0
      modifies this
      ensures refusal == Evaluate(guards, c, account, exposures, Pruned(old(reservations), exposures, now))
      ensures reservations
              == Authorized(guards, old(reservations), c, account, exposures, now, reserveAt + ttl, submitted)
      ensures refusal.None? && submitted ==>
                c.symbol in reservations
                && reservations[c.symbol] == Reservation(c.qty * c.price / c.leverage as real, c.qty * c.price,
                                                         c.targetLevel, reserveAt + ttl)
      ensures forall s | s != c.symbol || refusal.Some? ::
                s in reservations <==> s in old(reservations) && !Over(old(reservations)[s], exposures, s, now)
      ensures refusal.None? && !submitted ==> c.symbol !in reservations
      ensures forall s | s in reservations && (s != c.symbol || refusal.Some?) ::
                reservations[s] == old(reservations)[s]
    {
      CostsAre(c);
      PruneReservations(exposures, now);
      refusal := EvaluateCandidate(c, account, exposures);
      if refusal.None? {
        Submit(c, reserveAt, submitted);
      }
    }

    // The reservation is taken before the order goes out and released when the submission raises.
    method Submit(c: Candidate, now: real, submitted: bool)
      requires c.leverage != 0
      modifies this
      ensures reservations == Submitted(old(reservations), c, now + ttl, submitted)
    {
      Reserve(c, now);
      if !submitted {
        Release(c.symbol);
        assert old(reservations)[c.symbol := ReservationFor(c, now + ttl)] - {c.symbol}
               == old(reservations) - {c.symbol};
      }
    }

    method Reserve(c: Candidate, now: real)
      requires c.leverage != 0
      modifies this
      ensures reservations == old(reservations)[c.symbol := ReservationFor(c, now + ttl)]
    {
      reservations := reservations[c.symbol := Reservation(c.Margin(), c.Notional(), c.targetLevel, now + ttl)];
    }

    method Release(symbol: Symbol)
      modifies this
      ensures reservations == old(reservations) - {symbol}
    {
      reservations := reservations - {symbol};
    }
  }

  // The reservations after an authorisation.
  ghost function Authorized(g: Guards, reservations: Reservations, c: Candidate, account: Option<Account>,
                            exposures: Exposures, now: real, expiresAt: real, submitted: bool): Reservations
    requires c.leverage != 0
  {
    var pruned := Pruned(reservations, exposures, now);
    if Evaluate(g, c, account, exposures, pruned).Some? then pruned else Submitted(pruned, c, expiresAt, submitted)
  }

  function Submitted(reservations: Reservations, c: Candidate, expiresAt: real, submitted: bool): Reservations
    requires c.leverage != 0
  {
    if submitted then reservations[c.symbol := ReservationFor(c, expiresAt)] else reservations - {c.symbol}
  }

  // ---------------------------------------------------------------- the system

  // One account, any number of symbols: the baskets the services observe and those they do not,
  // what is reserved, and the orders that were submitted and have neither been observed as filled
  // nor died. Only observed baskets and reservations are known to the coordinator.
  datatype System = System(
    now: real, exposures: Exposures, unobserved: Exposures, reservations: Reservations, inFlight: Reservations)

  // A submission returns, or raises without an order, or raises although the order went through.
  datatype Submission = Returned | Refused | Unanswered

  datatype Step =
    | Tick(elapsed: real)
    | Authorise(candidate: Candidate, account: Option<Account>, submission: Submission)
    | Snapshot
    | Fill(symbol: Symbol, observed: Exposure, rest: Option<Reservation>)
    | Die(deadSymbol: Symbol)
    | Reduce(heldSymbol: Symbol, left: Exposure)
    | Fade(unseenSymbol: Symbol, remaining: Option<Exposure>)
    | Observe(seenSymbol: Symbol)
    | Release(freeSymbol: Symbol)
    | Restart

  const FLAT := Exposure(0, 0.0, 0.0, 0.0, 0.0)

  function ExposureOf(exposures: Exposures, s: Symbol): Exposure {
    if s in exposures then exposures[s] else FLAT
  }

  // A basket's margin is its notional divided by a leverage of at least one.
  predicate ValidExposure(e: Exposure) {
    0.0 <= e.margin <= e.notional
  }

  // A basket that lost nothing or something to an exit.
  predicate Reduces(before: Exposure, after: Exposure) {
    && ValidExposure(after) && after.margin <= before.margin && after.notional <= before.notional
    && after.level <= before.level && after.qty <= before.qty
  }

  function Left(rest: Option<Reservation>): Reservation {
    if rest.Some? then rest.value else Reservation(0.0, 0.0, 0, 0.0)
  }

  // Assumptions on the environment, step by step: the clock moves forward; a service observes its
  // own basket first, and proposes a positive order for a symbol with none in flight, an entry when
  // flat and the next level otherwise; what a fill adds and what it leaves are no more than was in
  // flight. Orders may rest for as long as they like, fill in parts and come through although their
  // submission raised; baskets may shrink or close, observed or not; reservations may be released
  // and the process restarted at any time.
  ghost predicate Enabled(y: System, step: Step) {
    match step
    case Tick(elapsed) => elapsed >= 0.0
    case Authorise(c, _, _) =>
      && c.leverage > 0 && c.qty > 0.0 && c.price > 0.0 && c.symbol !in y.inFlight && c.symbol !in y.unobserved
      && c.targetLevel >= 0
      && (if c.targetLevel == 0 then ExposureOf(y.exposures, c.symbol).qty <= 0.0
          else ExposureOf(y.exposures, c.symbol).level < c.targetLevel)
    case Fill(s, observed, rest) =>
      && s in y.inFlight && s !in y.unobserved && ValidExposure(observed)
      && (rest.Some? ==> rest.value.margin > 0.0 && rest.value.notional > 0.0)
      && var before, left := ExposureOf(y.exposures, s), Left(rest);
         && before.margin <= observed.margin <= before.margin + y.inFlight[s].margin - left.margin
         && before.notional <= observed.notional <= before.notional + y.inFlight[s].notional - left.notional
    case Die(s) => s in y.inFlight
    case Reduce(s, left) => s in y.exposures && Reduces(y.exposures[s], left)
    case Fade(s, remaining) =>
      && s in y.unobserved
      && (remaining.Some? ==> Reduces(y.unobserved[s], remaining.value) && remaining.value.notional > 0.0)
    case Observe(s) => s in y.unobserved
    case _ => true
  }

  ghost function Pruning(y: System): System {
    y.(reservations := Pruned(y.reservations, y.exposures, y.now))
  }

  ghost function Reserving(y: System, s: Symbol, r: Reservation): System {
    y.(reservations := y.reservations[s := r], inFlight := y.inFlight[s := r])
  }

  // An order went out and its reservation was released.
  ghost function SendingLoose(y: System, s: Symbol, r: Reservation): System {
    y.(reservations := y.reservations - {s}, inFlight := y.inFlight[s := r])
  }

  // A fill was observed, with nothing or something still to come.
  ghost function Filling(y: System, s: Symbol, observed: Exposure, rest: Option<Reservation>): System {
    y.(exposures := y.exposures[s := observed],
       inFlight := if rest.Some? then y.inFlight[s := rest.value] else y.inFlight - {s})
  }

  function Held(exposures: Exposures): Exposures {
    map s | s in exposures && exposures[s].notional > 0.0 :: exposures[s]
  }

  // A new process has no reservations, and has not observed any basket yet.
  ghost function Restarted(y: System): System {
    y.(exposures := map[], unobserved := y.unobserved + Held(y.exposures), reservations := map[])
  }

  // A service's sync has restored its basket.
  ghost function Observing(y: System, s: Symbol): System
    requires s in y.unobserved
  {
    y.(exposures := y.exposures[s := y.unobserved[s]], unobserved := y.unobserved - {s})
  }

  ghost function Fading(y: System, s: Symbol, remaining: Option<Exposure>): System {
    y.(unobserved := if remaining.Some? then y.unobserved[s := remaining.value] else y.unobserved - {s})
  }

  ghost function Later(y: System, elapsed: real): System {
    y.(now := y.now + elapsed)
  }

  ghost function Releasing(y: System, s: Symbol): System {
    y.(reservations := y.reservations - {s})
  }

  ghost predicate Allows(g: Guards, y: System, c: Candidate, account: Option<Account>)
    requires c.leverage != 0
  {
    Evaluate(g, c, account, y.exposures, Pruning(y).reservations).None?
  }

  ghost function After(g: Guards, ttl: real, y: System, step: Step): System
    requires Enabled(y, step)
  {
    match step
    case Tick(elapsed) => Later(y, elapsed)
    case Authorise(c, account, submission) =>
      var goesOut := Allows(g, y, c, account) && !submission.Refused?;
      y.(reservations := Authorized(g, y.reservations, c, account, y.exposures, y.now, y.now + ttl,
                                    submission.Returned?),
         inFlight := if goesOut then y.inFlight[c.symbol := ReservationFor(c, y.now + ttl)] else y.inFlight)
    case Snapshot => Pruning(y)
    case Fill(s, observed, rest) => Filling(y, s, observed, rest)
    case Die(s) => y.(inFlight := y.inFlight - {s})
    case Reduce(s, left) => y.(exposures := y.exposures[s := left])
    case Fade(s, remaining) => Fading(y, s, remaining)
    case Observe(s) => Observing(y, s)
    case Release(s) => Releasing(y, s)
    case Restart => Restarted(y)
  }

  ghost predicate NonNegative(y: System) {
    && (forall s | s in y.exposures :: ValidExposure(y.exposures[s]))
    && (forall s | s in y.unobserved :: ValidExposure(y.unobserved[s]) && y.unobserved[s].notional > 0.0)
    && (forall s | s in y.reservations :: y.reservations[s].margin >= 0.0 && y.reservations[s].notional >= 0.0)
    && (forall s | s in y.inFlight :: y.inFlight[s].margin > 0.0 && y.inFlight[s].notional > 0.0)
  }

  predicate Covers(r: Reservation, order: Reservation) {
    order.margin <= r.margin && order.notional <= r.notional
  }

  // What holds whatever becomes of the reservations: one of a symbol with an order in flight, if
  // there is any, covers that order. A basket is either observed or not.
  ghost predicate Tracked(y: System) {
    && NonNegative(y) && y.exposures.Keys !! y.unobserved.Keys
    && forall s | s in y.inFlight && s in y.reservations :: Covers(y.reservations[s], y.inFlight[s])
  }

  // The next authorisation will still count the reservation of every order in flight.
  ghost predicate Remembered(y: System) {
    forall s | s in y.inFlight :: Counts(y, s)
  }

  // The symbol's reservation has neither expired nor landed.
  ghost predicate Counts(y: System, s: Symbol) {
    s in y.reservations && y.reservations[s].expiresAt > y.now && !Landed(y.reservations[s], y.exposures, s)
  }

  // What is really committed: all baskets, observed or not, and all that is in flight.
  ghost function CommittedMargin(y: System): real {
    Sum(Margins(y.exposures)) + Sum(Margins(y.unobserved)) + Sum(ReservedMargins(y.inFlight))
  }

  ghost function CommittedNotional(y: System): real {
    Sum(Notionals(y.exposures)) + Sum(Notionals(y.unobserved)) + Sum(ReservedNotionals(y.inFlight))
  }

  ghost predicate WithinCaps(g: Guards, y: System) {
    CommittedMargin(y) <= g.maxMargin && CommittedNotional(y) <= g.maxNotional
  }

  // Every basket is observed, every order in flight remembered.
  ghost predicate Known(y: System) {
    Remembered(y) && y.unobserved == map[]
  }

  ghost predicate SystemInvariant(g: Guards, y: System) {
    Tracked(y) && Known(y) && WithinCaps(g, y)
  }

  // What is committed beyond what an authorisation counts: orders in flight and unobserved baskets
  // on the one hand, reservations on the other.
  ghost function UncountedMargin(y: System): real {
    Sum(Margins(y.unobserved)) + Sum(ReservedMargins(y.inFlight)) - Sum(ReservedMargins(Pruning(y).reservations))
  }

  ghost function UncountedNotional(y: System): real {
    Sum(Notionals(y.unobserved)) + Sum(ReservedNotionals(y.inFlight))
    - Sum(ReservedNotionals(Pruning(y).reservations))
  }

  // The coordinator counts at least what is committed.
  ghost predicate Backed(y: System) {
    UncountedMargin(y) <= 0.0 && UncountedNotional(y) <= 0.0
  }

  // When every order in flight is remembered and every basket observed, what is in flight is part
  // of what is reserved.
  lemma InFlightIsReserved(y: System)
    requires Tracked(y) && Known(y)
    ensures Backed(y)
  {
    NoExposure();
    SumOfPart(ReservedMargins(y.inFlight), ReservedMargins(Pruning(y).reservations));
    SumOfPart(ReservedNotionals(y.inFlight), ReservedNotionals(Pruning(y).reservations));
  }

  lemma InFlightAdd(inFlight: Reservations, s: Symbol, r: Reservation)
    requires s !in inFlight
    ensures Sum(ReservedMargins(inFlight[s := r])) == Sum(ReservedMargins(inFlight)) + r.margin
    ensures Sum(ReservedNotionals(inFlight[s := r])) == Sum(ReservedNotionals(inFlight)) + r.notional
  {
    assert ReservedMargins(inFlight[s := r]) == ReservedMargins(inFlight)[s := r.margin];
    assert ReservedNotionals(inFlight[s := r]) == ReservedNotionals(inFlight)[s := r.notional];
    SumUpdate(ReservedMargins(inFlight), s, r.margin);
    SumUpdate(ReservedNotionals(inFlight), s, r.notional);
  }

  lemma InFlightRemove(inFlight: Reservations, s: Symbol)
    requires s in inFlight
    ensures Sum(ReservedMargins(inFlight - {s})) == Sum(ReservedMargins(inFlight)) - inFlight[s].margin
    ensures Sum(ReservedNotionals(inFlight - {s})) == Sum(ReservedNotionals(inFlight)) - inFlight[s].notional
  {
    assert ReservedMargins(inFlight - {s}) == ReservedMargins(inFlight) - {s};
    assert ReservedNotionals(inFlight - {s}) == ReservedNotionals(inFlight) - {s};
    SumWithout(ReservedMargins(inFlight), s);
    SumWithout(ReservedNotionals(inFlight), s);
  }

  lemma ExposureChange(exposures: Exposures, s: Symbol, e: Exposure)
    ensures Sum(Margins(exposures[s := e])) == Sum(Margins(exposures)) - ExposureOf(exposures, s).margin + e.margin
    ensures Sum(Notionals(exposures[s := e]))
            == Sum(Notionals(exposures)) - ExposureOf(exposures, s).notional + e.notional
  {
    assert Margins(exposures[s := e]) == Margins(exposures)[s := e.margin];
    assert Notionals(exposures[s := e]) == Notionals(exposures)[s := e.notional];
    SumUpdate(Margins(exposures), s, e.margin);
    SumUpdate(Notionals(exposures), s, e.notional);
  }

  lemma CandidateIsPositive(c: Candidate)
    requires c.leverage > 0 && c.qty > 0.0 && c.price > 0.0
    ensures c.Notional() > 0.0 && 0.0 < c.Margin() <= c.Notional()
  {
    MulMonoStrict(c.qty, 0.0, c.price);
    var leverage := c.leverage as real;
    Quotient(c.Notional(), leverage, 0.0);
    assert Product(leverage, 0.0) == 0.0;
    Quotient(c.Notional(), leverage, c.Notional());
    MulMono(c.Notional(), 1.0, leverage);
    assert Product(leverage, c.Notional()) == leverage * c.Notional();
  }

  // What an authorisation leaves of the caps beside the observed exposures and the reservations.
  ghost function MarginRoom(g: Guards, y: System): real {
    g.maxMargin - Sum(Margins(y.exposures)) - Sum(ReservedMargins(Pruning(y).reservations))
  }

  ghost function NotionalRoom(g: Guards, y: System): real {
    g.maxNotional - Sum(Notionals(y.exposures)) - Sum(ReservedNotionals(Pruning(y).reservations))
  }

  lemma AllowedFits(g: Guards, y: System, c: Candidate, account: Option<Account>)
    requires c.leverage != 0 && Allows(g, y, c, account)
    ensures c.Margin() <= MarginRoom(g, y) && c.Notional() <= NotionalRoom(g, y)
  {
  }

  lemma CandidateReservation(y: System, c: Candidate, account: Option<Account>, submission: Submission, expiresAt: real)
    requires Enabled(y, Authorise(c, account, submission))
    ensures var r := ReservationFor(c, expiresAt);
            r.margin > 0.0 && r.notional > 0.0 && !Landed(r, y.exposures, c.symbol)
  {
    CandidateIsPositive(c);
  }

  lemma AfterAuthorise(g: Guards, ttl: real, y: System, c: Candidate, account: Option<Account>, submission: Submission)
    requires Enabled(y, Authorise(c, account, submission))
    ensures After(g, ttl, y, Authorise(c, account, submission))
         == if !Allows(g, y, c, account) then Pruning(y)
            else match submission
                 case Returned => Reserving(Pruning(y), c.symbol, ReservationFor(c, y.now + ttl))
                 case Refused => Releasing(Pruning(y), c.symbol)
                 case Unanswered => SendingLoose(Pruning(y), c.symbol, ReservationFor(c, y.now + ttl))
  {
  }

  // ---------------------------------------------------------------- runs within the caps

  // The step sends an order out.
  ghost predicate GoesOut(g: Guards, y: System, step: Step)
    requires Enabled(y, step)
  {
    step.Authorise? && !step.submission.Refused? && Allows(g, y, step.candidate, step.account)
  }

  lemma SendingKeepsCaps(g: Guards, y: System, s: Symbol, r: Reservation)
    requires WithinCaps(g, y) && Backed(y) && s !in y.inFlight
    requires r.margin <= MarginRoom(g, y) && r.notional <= NotionalRoom(g, y)
    ensures WithinCaps(g, y.(inFlight := y.inFlight[s := r]))
  {
    InFlightAdd(y.inFlight, s, r);
  }

  // An authorisation keeps the caps when the coordinator counts at least what is committed.
  lemma {:induction false} AuthoriseKeepsCaps(
    g: Guards, ttl: real, y: System, c: Candidate, account: Option<Account>, submission: Submission)
    requires WithinCaps(g, y) && Enabled(y, Authorise(c, account, submission))
    requires GoesOut(g, y, Authorise(c, account, submission)) ==> Backed(y)
    ensures WithinCaps(g, After(g, ttl, y, Authorise(c, account, submission)))
  {
    AfterAuthorise(g, ttl, y, c, account, submission);
    if GoesOut(g, y, Authorise(c, account, submission)) {
      AllowedFits(g, y, c, account);
      SendingKeepsCaps(g, y, c.symbol, ReservationFor(c, y.now + ttl));
    }
  }

  // A fill moves from what is in flight to what is observed.
  lemma {:induction false} FillKeepsCaps(g: Guards, y: System, s: Symbol, observed: Exposure, rest: Option<Reservation>)
    requires WithinCaps(g, y) && Enabled(y, Fill(s, observed, rest))
    ensures WithinCaps(g, Filling(y, s, observed, rest))
  {
    ExposureChange(y.exposures, s, observed);
    InFlightRemove(y.inFlight, s);
    if rest.Some? {
      assert y.inFlight[s := rest.value] == (y.inFlight - {s})[s := rest.value];
      InFlightAdd(y.inFlight - {s}, s, rest.value);
    }
  }

  lemma {:induction false} ReduceKeepsCaps(g: Guards, y: System, s: Symbol, left: Exposure)
    requires WithinCaps(g, y) && s in y.exposures && Reduces(y.exposures[s], left)
    ensures WithinCaps(g, y.(exposures := y.exposures[s := left]))
  {
    ExposureChange(y.exposures, s, left);
  }

  lemma {:induction false} FadeKeepsCaps(g: Guards, y: System, s: Symbol, remaining: Option<Exposure>)
    requires NonNegative(y) && WithinCaps(g, y) && Enabled(y, Fade(s, remaining))
    ensures WithinCaps(g, Fading(y, s, remaining))
  {
    if remaining.Some? {
      ExposureChange(y.unobserved, s, remaining.value);
    } else {
      ExposureRemove(y.unobserved, s);
    }
  }

  lemma ExposureRemove(exposures: Exposures, s: Symbol)
    requires s in exposures
    ensures Sum(Margins(exposures - {s})) == Sum(Margins(exposures)) - exposures[s].margin
    ensures Sum(Notionals(exposures - {s})) == Sum(Notionals(exposures)) - exposures[s].notional
  {
    assert Margins(exposures - {s}) == Margins(exposures) - {s};
    assert Notionals(exposures - {s}) == Notionals(exposures) - {s};
    SumWithout(Margins(exposures), s);
    SumWithout(Notionals(exposures), s);
  }

  // Observing a basket commits nothing and frees nothing.
  lemma {:induction false} ObservingCommitsNothing(y: System, s: Symbol)
    requires s in y.unobserved && s !in y.exposures
    ensures CommittedMargin(Observing(y, s)) == CommittedMargin(y)
    ensures CommittedNotional(Observing(y, s)) == CommittedNotional(y)
  {
    ExposureChange(y.exposures, s, y.unobserved[s]);
    ExposureRemove(y.unobserved, s);
  }

  // Nor does a restart.
  lemma {:induction false} RestartCommitsNothing(y: System)
    requires Tracked(y)
    ensures CommittedMargin(Restarted(y)) == CommittedMargin(y)
    ensures CommittedNotional(Restarted(y)) == CommittedNotional(y)
  {
    NoExposure();
    Joined(y.unobserved, y.exposures);
  }

  // The baskets of two disjoint maps, leaving out those that commit nothing.
  lemma {:induction false} Joined(unseen: Exposures, seen: Exposures)
    requires seen.Keys !! unseen.Keys && forall s | s in seen :: ValidExposure(seen[s])
    ensures Sum(Margins(unseen + Held(seen))) == Sum(Margins(unseen)) + Sum(Margins(seen))
    ensures Sum(Notionals(unseen + Held(seen))) == Sum(Notionals(unseen)) + Sum(Notionals(seen))
  {
    assert Margins(unseen + Held(seen)) == Margins(unseen) + Margins(Held(seen));
    assert Notionals(unseen + Held(seen)) == Notionals(unseen) + Notionals(Held(seen));
    SumOfUnion(Margins(unseen), Margins(Held(seen)));
    SumOfUnion(Notionals(unseen), Notionals(Held(seen)));
    SumWithoutZeros(Margins(Held(seen)), Margins(seen));
    SumWithoutZeros(Notionals(Held(seen)), Notionals(seen));
  }

  lemma {:induction false} DieKeepsCaps(g: Guards, ttl: real, y: System, s: Symbol)
    requires NonNegative(y) && WithinCaps(g, y) && Enabled(y, Die(s))
    ensures WithinCaps(g, After(g, ttl, y, Die(s)))
  {
    InFlightRemove(y.inFlight, s);
  }

  lemma PruningStaysTracked(y: System)
    requires Tracked(y)
    ensures Tracked(Pruning(y))
  {
  }

  lemma SendingStaysTracked(y: System, s: Symbol, r: Reservation)
    requires Tracked(y) && r.margin > 0.0 && r.notional > 0.0
    ensures Tracked(Reserving(y, s, r)) && Tracked(SendingLoose(y, s, r)) && Tracked(Releasing(y, s))
  {
  }

  lemma {:induction false} AuthoriseStaysTracked(
    g: Guards, ttl: real, y: System, c: Candidate, account: Option<Account>, submission: Submission)
    requires Tracked(y) && Enabled(y, Authorise(c, account, submission))
    ensures Tracked(After(g, ttl, y, Authorise(c, account, submission)))
  {
    AfterAuthorise(g, ttl, y, c, account, submission);
    CandidateReservation(y, c, account, submission, y.now + ttl);
    PruningStaysTracked(y);
    SendingStaysTracked(Pruning(y), c.symbol, ReservationFor(c, y.now + ttl));
  }

  lemma FillStaysTracked(y: System, s: Symbol, observed: Exposure, rest: Option<Reservation>)
    requires Tracked(y) && Enabled(y, Fill(s, observed, rest))
    ensures Tracked(Filling(y, s, observed, rest))
  {
  }

  lemma BasketsStayTracked(y: System, exposures: Exposures, unobserved: Exposures)
    requires Tracked(y) && exposures.Keys !! unobserved.Keys
    requires forall s | s in exposures :: ValidExposure(exposures[s])
    requires forall s | s in unobserved :: ValidExposure(unobserved[s]) && unobserved[s].notional > 0.0
    ensures Tracked(y.(exposures := exposures, unobserved := unobserved))
    ensures Tracked(y.(exposures := exposures, unobserved := unobserved, reservations := map[]))
  {
  }

  lemma {:induction false} StepStaysTracked(g: Guards, ttl: real, y: System, step: Step)
    requires Tracked(y) && Enabled(y, step)
    ensures Tracked(After(g, ttl, y, step))
  {
    var after := After(g, ttl, y, step);
    match step
    case Authorise(c, account, submission) => AuthoriseStaysTracked(g, ttl, y, c, account, submission);
    case Fill(s, observed, rest) => FillStaysTracked(y, s, observed, rest);
    case Snapshot => PruningStaysTracked(y);
    case Reduce(_, _) => BasketsStayTracked(y, after.exposures, after.unobserved);
    case Fade(_, _) => BasketsStayTracked(y, after.exposures, after.unobserved);
    case Observe(_) => BasketsStayTracked(y, after.exposures, after.unobserved);
    case Restart => BasketsStayTracked(y, after.exposures, after.unobserved);
    case _ =>
  }

  lemma {:induction false} StepKeepsCaps(g: Guards, ttl: real, y: System, step: Step)
    requires Tracked(y) && WithinCaps(g, y) && Enabled(y, step)
    requires GoesOut(g, y, step) ==> Backed(y)
    ensures WithinCaps(g, After(g, ttl, y, step))
  {
    match step
    case Authorise(c, account, submission) => AuthoriseKeepsCaps(g, ttl, y, c, account, submission);
    case Fill(s, observed, rest) => FillKeepsCaps(g, y, s, observed, rest);
    case Die(s) => DieKeepsCaps(g, ttl, y, s);
    case Reduce(s, left) => ReduceKeepsCaps(g, y, s, left);
    case Fade(s, remaining) => FadeKeepsCaps(g, y, s, remaining);
    case Observe(s) => ObservingCommitsNothing(y, s);
    case Restart => RestartCommitsNothing(y);
    case _ =>
  }

  // A run: states linked by enabled steps.
  ghost predicate IsRun(g: Guards, ttl: real, states: seq<System>, steps: seq<Step>) {
    && |states| == |steps| + 1
    && forall i | 0 <= i < |steps| ::
         Enabled(states[i], steps[i]) && states[i + 1] == After(g, ttl, states[i], steps[i])
  }

  ghost predicate BackedAt(g: Guards, states: seq<System>, steps: seq<Step>, i: nat)
    requires i < |steps| <= |states| && Enabled(states[i], steps[i])
  {
    GoesOut(g, states[i], steps[i]) ==> Backed(states[i])
  }

  // Over every interleaving, what all baskets and all orders in flight commit stays within the caps,
  // as long as each order goes out while the coordinator counts at least what is committed.
  lemma {:induction false} RunStaysWithinCaps(g: Guards, ttl: real, states: seq<System>, steps: seq<Step>, k: nat)
    requires IsRun(g, ttl, states, steps) && Tracked(states[0]) && WithinCaps(g, states[0]) && k < |states|
    requires forall i | 0 <= i < |steps| :: BackedAt(g, states, steps, i)
    ensures Tracked(states[k]) && WithinCaps(g, states[k])
  {
    if k > 0 {
      RunStaysWithinCaps(g, ttl, states, steps, k - 1);
      assert BackedAt(g, states, steps, k - 1);
      StepStaysTracked(g, ttl, states[k - 1], steps[k - 1]);
      StepKeepsCaps(g, ttl, states[k - 1], steps[k - 1]);
    }
  }

  // ---------------------------------------------------------------- what is remembered

  ghost predicate Unexpired(y: System, elapsed: real) {
    forall s | s in y.inFlight && s in y.reservations :: y.reservations[s].expiresAt > y.now + elapsed
  }

  // The step forgets no order in flight and no basket: no order outlives its reservation, fills in
  // part and so lands it, is released or goes out under a submission that raises, and the process
  // is not restarted while there is an order or a basket.
  ghost predicate Forgetless(g: Guards, y: System, step: Step)
    requires Enabled(y, step)
  {
    match step
    case Tick(elapsed) => Unexpired(y, elapsed)
    case Authorise(_, _, submission) => submission.Unanswered? ==> !GoesOut(g, y, step)
    case Fill(s, observed, rest) =>
      rest.Some? && s in y.reservations ==> !Landed(y.reservations[s], y.exposures[s := observed], s)
    case Release(s) => s !in y.inFlight
    case Restart => y.inFlight == map[] && Held(y.exposures) == map[]
    case _ => true
  }

  lemma {:induction false} TickRemembersExactly(g: Guards, y: System, elapsed: real)
    requires SystemInvariant(g, y) && elapsed >= 0.0
    ensures SystemInvariant(g, Later(y, elapsed)) <==> Unexpired(y, elapsed)
  {
  }

  // A restart keeps the invariant exactly when nothing is in flight and no basket is open.
  lemma RestartKeepsInvariantExactly(g: Guards, y: System)
    requires SystemInvariant(g, y)
    ensures SystemInvariant(g, Restarted(y)) <==> y.inFlight == map[] && Held(y.exposures) == map[]
  {
    RestartCommitsNothing(y);
    BasketsStayTracked(y, map[], Restarted(y).unobserved);
    RestartKnowsExactly(y);
  }

  lemma RestartKnowsExactly(y: System)
    requires y.unobserved == map[]
    ensures Known(Restarted(y)) <==> y.inFlight == map[] && Held(y.exposures) == map[]
  {
    assert Restarted(y).unobserved == Held(y.exposures);
    if y.inFlight != map[] {
      var s :| s in y.inFlight;
      assert !Counts(Restarted(y), s);
    }
  }

  lemma PruningRemembers(y: System)
    requires Remembered(y)
    ensures Remembered(Pruning(y))
  {
    forall t | t in y.inFlight ensures Counts(Pruning(y), t) {
      assert Counts(y, t);
    }
  }

  lemma ReservingRemembers(y: System, s: Symbol, r: Reservation)
    requires Remembered(y) && r.expiresAt > y.now && !Landed(r, y.exposures, s)
    ensures Remembered(Reserving(y, s, r))
  {
    forall t | t in Reserving(y, s, r).inFlight && t != s ensures Counts(Reserving(y, s, r), t) {
      assert Counts(y, t);
    }
  }

  lemma {:induction false} AuthoriseRemembersExactly(
    g: Guards, ttl: real, y: System, c: Candidate, account: Option<Account>, submission: Submission)
    requires Remembered(y) && ttl > 0.0 && Enabled(y, Authorise(c, account, submission))
    ensures Remembered(After(g, ttl, y, Authorise(c, account, submission)))
            <==> Forgetless(g, y, Authorise(c, account, submission))
  {
    AfterAuthorise(g, ttl, y, c, account, submission);
    PruningRemembers(y);
    if Allows(g, y, c, account) {
      var r := ReservationFor(c, y.now + ttl);
      match submission
      case Returned =>
        CandidateReservation(y, c, account, submission, y.now + ttl);
        ReservingRemembers(Pruning(y), c.symbol, r);
      case Refused => ReleaseRemembersExactly(Pruning(y), c.symbol);
      case Unanswered => LooseIsForgotten(Pruning(y), c.symbol, r);
    }
  }

  lemma LooseIsForgotten(y: System, s: Symbol, r: Reservation)
    ensures !Remembered(SendingLoose(y, s, r))
  {
    assert s in SendingLoose(y, s, r).inFlight && !Counts(SendingLoose(y, s, r), s);
  }

  lemma {:induction false} FillRemembersExactly(y: System, s: Symbol, observed: Exposure, rest: Option<Reservation>)
    requires Remembered(y) && s in y.inFlight
    ensures Remembered(Filling(y, s, observed, rest))
            <==> (rest.Some? ==> !Landed(y.reservations[s], y.exposures[s := observed], s))
  {
    var after := Filling(y, s, observed, rest);
    assert Counts(y, s);
    forall t | t in after.inFlight && t != s ensures Counts(after, t) {
      assert Counts(y, t);
    }
    if rest.Some? {
      assert s in after.inFlight;
    }
  }

  lemma {:induction false} ReleaseRemembersExactly(y: System, s: Symbol)
    requires Remembered(y)
    ensures Remembered(Releasing(y, s)) <==> s !in y.inFlight
  {
    forall t | t in y.inFlight && t != s ensures Counts(Releasing(y, s), t) {
      assert Counts(y, t);
    }
    assert !Counts(Releasing(y, s), s);
  }

  // Reading the account, the death of an order and the exit of a basket forget nothing.
  lemma {:induction false} OthersRemember(g: Guards, ttl: real, y: System, step: Step)
    requires Remembered(y) && Enabled(y, step) && (step.Snapshot? || step.Die? || step.Reduce?)
    ensures Remembered(After(g, ttl, y, step))
  {
    var after := After(g, ttl, y, step);
    forall t | t in after.inFlight ensures Counts(after, t) {
      assert Counts(y, t);
    }
  }

  lemma {:induction false} StepRemembersExactly(g: Guards, ttl: real, y: System, step: Step)
    requires SystemInvariant(g, y) && ttl > 0.0 && Enabled(y, step)
    ensures Known(After(g, ttl, y, step)) <==> Forgetless(g, y, step)
  {
    match step
    case Tick(elapsed) => TickRemembersExactly(g, y, elapsed);
    case Authorise(c, account, submission) => AuthoriseRemembersExactly(g, ttl, y, c, account, submission);
    case Fill(s, observed, rest) =>
      FillRemembersExactly(y, s, observed, rest);
      assert Counts(y, s);
    case Release(s) => ReleaseRemembersExactly(y, s);
    case Restart => RestartKeepsInvariantExactly(g, y);
    case _ => OthersRemember(g, ttl, y, step);
  }

  // Every step keeps the invariant exactly when it forgets no order in flight and no basket.
  lemma {:induction false} StepKeepsInvariantExactly(g: Guards, ttl: real, y: System, step: Step)
    requires SystemInvariant(g, y) && ttl > 0.0 && Enabled(y, step)
    ensures SystemInvariant(g, After(g, ttl, y, step)) <==> Forgetless(g, y, step)
  {
    InFlightIsReserved(y);
    StepStaysTracked(g, ttl, y, step);
    StepKeepsCaps(g, ttl, y, step);
    StepRemembersExactly(g, ttl, y, step);
  }

  ghost predicate ForgetlessAt(g: Guards, states: seq<System>, steps: seq<Step>, i: nat)
    requires i < |steps| <= |states| && Enabled(states[i], steps[i])
  {
    Forgetless(g, states[i], steps[i])
  }

  // Over every interleaving that forgets none the whole invariant holds.
  lemma {:induction false} ForgetlessRunKeepsInvariant(g: Guards, ttl: real, states: seq<System>, steps: seq<Step>,
                                                       k: nat)
    requires IsRun(g, ttl, states, steps) && ttl > 0.0 && SystemInvariant(g, states[0]) && k < |states|
    requires forall i | 0 <= i < |steps| :: ForgetlessAt(g, states, steps, i)
    ensures SystemInvariant(g, states[k])
  {
    if k > 0 {
      ForgetlessRunKeepsInvariant(g, ttl, states, steps, k - 1);
      assert ForgetlessAt(g, states, steps, k - 1);
      StepKeepsInvariantExactly(g, ttl, states[k - 1], steps[k - 1]);
    }
  }

  // ---------------------------------------------------------------- exactly when the caps hold

  function DeepNow(g: Guards, exposures: Exposures): set<Symbol> {
    set s | s in exposures && IsDeep(exposures[s], g.deepLevel)
  }

  // No guard but the two caps stands against a further entry, and both leave some room.
  ghost predicate Room(g: Guards, y: System) {
    && MarginRoom(g, y) > 0.0 && NotionalRoom(g, y) > 0.0
    && g.deepLevel > 0 && |DeepNow(g, y.exposures)| <= g.maxDeepBaskets
    && !(g.maxFloatingLoss.Some? && Sum(Pnls(y.exposures)) < 0.0
         && Abs(Sum(Pnls(y.exposures))) > g.maxFloatingLoss.value)
  }

  // One authorisation leaves the caps kept.
  ghost predicate KeepsCaps(g: Guards, ttl: real, y: System, c: Candidate, account: Option<Account>,
                            submission: Submission) {
    var step := Authorise(c, account, submission);
    Enabled(y, step) ==> WithinCaps(g, After(g, ttl, y, step))
  }

  ghost predicate AlwaysKeepsCaps(g: Guards, ttl: real, y: System) {
    forall c, account, submission :: KeepsCaps(g, ttl, y, c, account, submission)
  }

  // The reservations make up for what is in flight and unobserved. An entry takes at least as much
  // notional as margin, so uncounted margin is harmless where the notional cap leaves less room.
  ghost predicate MadeUp(g: Guards, y: System) {
    && UncountedNotional(y) <= 0.0
    && UncountedMargin(y) <= Max(0.0, MarginRoom(g, y) - NotionalRoom(g, y))
  }

  // While there is room, every authorisation stays within the caps exactly when the reservations
  // make up for what is in flight and unobserved.
  lemma {:induction false} AuthorisationsAreSafeExactly(g: Guards, ttl: real, y: System)
    requires WithinCaps(g, y) && Room(g, y)
    ensures AlwaysKeepsCaps(g, ttl, y) <==> MadeUp(g, y)
  {
    var margin, notional := MarginRoom(g, y), NotionalRoom(g, y);
    if MadeUp(g, y) {
      forall c, account, submission ensures KeepsCaps(g, ttl, y, c, account, submission) {
        if Enabled(y, Authorise(c, account, submission)) {
          MadeUpKeepsCaps(g, ttl, y, c, account, submission);
        }
      }
    } else if UncountedNotional(y) > 0.0 {
      var leverage := (notional / margin).Floor + 1;
      EnoughLeverage(notional, margin);
      ExceedingEntry(g, ttl, y, notional, leverage);
    } else {
      assert Min(margin, notional) / 1.0 == Min(margin, notional);
      ExceedingEntry(g, ttl, y, Min(margin, notional), 1);
    }
  }

  lemma {:induction false} MadeUpKeepsCaps(
    g: Guards, ttl: real, y: System, c: Candidate, account: Option<Account>, submission: Submission)
    requires WithinCaps(g, y) && MadeUp(g, y) && Enabled(y, Authorise(c, account, submission))
    ensures WithinCaps(g, After(g, ttl, y, Authorise(c, account, submission)))
  {
    AfterAuthorise(g, ttl, y, c, account, submission);
    if GoesOut(g, y, Authorise(c, account, submission)) {
      AllowedFits(g, y, c, account);
      CandidateIsPositive(c);
      InFlightAdd(y.inFlight, c.symbol, ReservationFor(c, y.now + ttl));
    }
  }

  lemma EnoughLeverage(notional: real, margin: real)
    requires notional > 0.0 && margin > 0.0
    ensures var leverage := (notional / margin).Floor + 1;
            leverage > 0 && notional / leverage as real <= margin
  {
    var leverage := (notional / margin).Floor + 1;
    Quotient(notional, margin, 0.0);
    assert Product(margin, 0.0) == 0.0;
    Quotient(notional, margin, leverage as real);
    Quotient(notional, leverage as real, margin);
    assert Product(margin, leverage as real) == Product(leverage as real, margin);
  }

  function PlainEntry(s: Symbol, notional: real, leverage: int): Candidate {
    Candidate(s, 1.0, notional, leverage, 0)
  }

  ghost function RichAccount(g: Guards, y: System, margin: real): Account {
    Account(0.0, Max(g.minAvailable, 0.0) + Sum(ReservedMargins(Pruning(y).reservations)) + margin)
  }

  lemma PlainEntryCosts(s: Symbol, notional: real, leverage: int)
    requires leverage > 0
    ensures PlainEntry(s, notional, leverage).Notional() == notional
    ensures PlainEntry(s, notional, leverage).Margin() == notional / leverage as real
  {
    assert Product(1.0, notional) == notional;
  }

  // An entry that fits is allowed, though with what is not counted it may exceed a cap.
  lemma {:induction false} ExceedingEntry(g: Guards, ttl: real, y: System, notional: real, leverage: int)
    requires Room(g, y) && leverage > 0 && 0.0 < notional <= NotionalRoom(g, y)
    requires notional / leverage as real <= MarginRoom(g, y)
    requires notional + UncountedNotional(y) > NotionalRoom(g, y)
             || notional / leverage as real + UncountedMargin(y) > MarginRoom(g, y)
    ensures !AlwaysKeepsCaps(g, ttl, y)
  {
    var s := FreshSymbol(y.inFlight.Keys + y.exposures.Keys + y.unobserved.Keys);
    var c := PlainEntry(s, notional, leverage);
    var account := Some(RichAccount(g, y, notional / leverage as real));
    PlainEntryCosts(s, notional, leverage);
    EntryIsAllowed(g, y, s, notional, leverage);
    AfterAuthorise(g, ttl, y, c, account, Returned);
    InFlightAdd(y.inFlight, s, ReservationFor(c, y.now + ttl));
    assert !KeepsCaps(g, ttl, y, c, account, Returned);
  }

  lemma EntryIsAllowed(g: Guards, y: System, s: Symbol, notional: real, leverage: int)
    requires Room(g, y) && leverage > 0 && notional <= NotionalRoom(g, y)
    requires notional / leverage as real <= MarginRoom(g, y)
    ensures Allows(g, y, PlainEntry(s, notional, leverage), Some(RichAccount(g, y, notional / leverage as real)))
  {
    PlainEntryCosts(s, notional, leverage);
    assert Product(0.0, g.minEquityRatio) == 0.0;
    assert DeepAfter(g, PlainEntry(s, notional, leverage), y.exposures) == DeepNow(g, y.exposures);
  }

  // Each reservation left is that of an order in flight, at its size.
  ghost predicate OnlyInFlight(y: System) {
    forall s | s in y.reservations && Counts(y, s) :: s in y.inFlight && Covers(y.inFlight[s], y.reservations[s])
  }

  // Where that is so, it means that no order in flight was forgotten and every basket is observed.
  lemma {:induction false} ForgettingIsUnsafeExactly(g: Guards, ttl: real, y: System)
    requires Tracked(y) && WithinCaps(g, y) && Room(g, y) && OnlyInFlight(y)
    ensures AlwaysKeepsCaps(g, ttl, y) <==> Known(y)
  {
    AuthorisationsAreSafeExactly(g, ttl, y);
    if Known(y) {
      InFlightIsReserved(y);
    } else {
      ForgottenIsUncounted(y);
    }
  }

  lemma {:induction false} ForgottenIsUncounted(y: System)
    requires Tracked(y) && !Known(y) && OnlyInFlight(y)
    ensures UncountedNotional(y) > 0.0
  {
    var reserved, ordered := ReservedNotionals(Pruning(y).reservations), ReservedNotionals(y.inFlight);
    NoExposure();
    SumOfPart(map[], Notionals(y.unobserved));
    SumOfPart(reserved, ordered);
    if s :| s in y.unobserved {
      ExposureRemove(y.unobserved, s);
      SumOfPart(map[], Notionals(y.unobserved - {s}));
    } else {
      assert y.unobserved == map[];
      var s :| s in y.inFlight && !Counts(y, s);
      InFlightRemove(y.inFlight, s);
      SumOfPart(reserved, ReservedNotionals(y.inFlight - {s}));
    }
  }

  // A resting order that outlives its reservation is forgotten.
  lemma {:induction false} WaitingIsSafeExactly(g: Guards, ttl: real, y: System, elapsed: real)
    requires SystemInvariant(g, y) && OnlyInFlight(y) && elapsed >= 0.0 && Room(g, Later(y, elapsed))
    ensures AlwaysKeepsCaps(g, ttl, Later(y, elapsed)) <==> Unexpired(y, elapsed)
  {
    ForgettingIsUnsafeExactly(g, ttl, Later(y, elapsed));
  }

  // The services of these symbols have synced and restored what they hold.
  ghost function Reobserved(y: System, seen: set<Symbol>): System {
    y.(exposures := y.exposures + Found(y.unobserved, seen),
       unobserved := y.unobserved - seen)
  }

  // A restart forgets every order and every basket, and its services find their baskets again one
  // by one. Authorisations are safe exactly once nothing is in flight and no basket is left to find.
  lemma {:induction false} RestartIsSafeExactly(g: Guards, ttl: real, y: System, seen: set<Symbol>)
    requires SystemInvariant(g, y) && Room(g, Reobserved(Restarted(y), seen))
    ensures AlwaysKeepsCaps(g, ttl, Reobserved(Restarted(y), seen))
            <==> y.inFlight == map[] && Held(y.exposures).Keys <= seen
  {
    var z := Reobserved(Restarted(y), seen);
    RestartStaysTracked(g, y, seen);
    ForgettingIsUnsafeExactly(g, ttl, z);
    NothingLeftToFind(y, seen);
  }

  lemma {:induction false} RestartStaysTracked(g: Guards, y: System, seen: set<Symbol>)
    requires Tracked(y) && WithinCaps(g, y)
    ensures var z := Reobserved(Restarted(y), seen);
            Tracked(z) && WithinCaps(g, z) && OnlyInFlight(z)
  {
    RestartCommitsNothing(y);
    ReobservingCommitsNothing(Restarted(y), seen);
  }

  lemma {:induction false} NothingLeftToFind(y: System, seen: set<Symbol>)
    requires y.unobserved == map[]
    ensures Known(Reobserved(Restarted(y), seen)) <==> y.inFlight == map[] && Held(y.exposures).Keys <= seen
  {
    var z := Reobserved(Restarted(y), seen);
    assert Restarted(y).unobserved == Held(y.exposures);
    assert z.unobserved == map[] <==> z.unobserved.Keys == {};
    assert z.unobserved.Keys == Held(y.exposures).Keys - seen;
    if y.inFlight != map[] {
      var s :| s in y.inFlight;
      assert !Counts(z, s);
    }
  }

  function Found(exposures: Exposures, seen: set<Symbol>): Exposures {
    map s | s in exposures && s in seen :: exposures[s]
  }

  lemma {:induction false} ReobservingCommitsNothing(y: System, seen: set<Symbol>)
    requires Tracked(y) && y.exposures == map[]
    ensures Tracked(Reobserved(y, seen))
    ensures CommittedMargin(Reobserved(y, seen)) == CommittedMargin(y)
    ensures CommittedNotional(Reobserved(y, seen)) == CommittedNotional(y)
  {
    var found, rest := Found(y.unobserved, seen), y.unobserved - seen;
    assert map[] + found == found;
    ReobservedBaskets(y, found, rest);
    NoExposure();
    SplitBySeen(y.unobserved, seen);
  }

  lemma ReobservedBaskets(y: System, found: Exposures, rest: Exposures)
    requires Tracked(y) && found.Keys !! rest.Keys
    requires forall s | s in found :: s in y.unobserved && found[s] == y.unobserved[s]
    requires forall s | s in rest :: s in y.unobserved && rest[s] == y.unobserved[s]
    ensures Tracked(y.(exposures := found, unobserved := rest))
  {
    BasketsStayTracked(y, found, rest);
  }

  lemma {:induction false} SplitBySeen(exposures: Exposures, seen: set<Symbol>)
    ensures var found := Found(exposures, seen);
            && Sum(Margins(exposures)) == Sum(Margins(exposures - seen)) + Sum(Margins(found))
            && Sum(Notionals(exposures)) == Sum(Notionals(exposures - seen)) + Sum(Notionals(found))
  {
    var found, rest := Found(exposures, seen), exposures - seen;
    assert Margins(exposures) == Margins(rest) + Margins(found);
    assert Notionals(exposures) == Notionals(rest) + Notionals(found);
    SumOfUnion(Margins(rest), Margins(found));
    SumOfUnion(Notionals(rest), Notionals(found));
  }

  lemma FreshSymbol(used: set<Symbol>) returns (s: Symbol)
    ensures s !in used
  {
    var n := LongerThan(used);
    s := seq(n, i => 'X');
  }

  lemma LongerThan(used: set<Symbol>) returns (n: nat)
    ensures forall s | s in used :: |s| < n
  {
    if used == {} {
      n := 0;
    } else {
      var s :| s in used;
      var m := LongerThan(used - {s});
      n := if |s| < m then m else |s| + 1;
    }
  }

  // ---------------------------------------------------------------- three instances

  // A margin cap of 10, and nothing else in the way.
  const TIGHT := Guards(10.0, 1000.0, 0.0, 0.0, 5, 1, None)

  const RICH := Account(0.0, 100.0)

  lemma NoExposure()
    ensures Sum(Margins(map[])) == Sum(Notionals(map[])) == Sum(Pnls(map[])) == 0.0
    ensures Sum(ReservedMargins(map[])) == Sum(ReservedNotionals(map[])) == 0.0
  {
    assert Margins(map[]) == map[] && Notionals(map[]) == map[] && Pnls(map[]) == map[];
    assert ReservedMargins(map[]) == map[] && ReservedNotionals(map[]) == map[];
  }

  // A flat account or one basket with a margin of 1.
  lemma OneBasket(a: Symbol, e: Exposure)
    ensures Sum(Margins(map[a := e])) == e.margin && Sum(Notionals(map[a := e])) == e.notional
    ensures Sum(Pnls(map[a := e])) == e.pnl
  {
    NoExposure();
    assert map[a := e] == map[][a := e];
    ExposureChange(map[], a, e);
    assert Pnls(map[a := e]) == map[][a := e.pnl];
    SumUpdate(map[], a, e.pnl);
  }

  lemma OneOrder(a: Symbol, r: Reservation)
    ensures Sum(ReservedMargins(map[a := r])) == r.margin && Sum(ReservedNotionals(map[a := r])) == r.notional
  {
    NoExposure();
    assert map[a := r] == map[][a := r];
    InFlightAdd(map[], a, r);
  }

  // An entry of 6 is in flight, with the minute of its reservation to run.
  function EntryInFlight(a: Symbol): System {
    var order := Reservation(6.0, 6.0, 0, 60.0);
    System(0.0, map[], map[], map[a := order], map[a := order])
  }

  lemma EntryInFlightIsCovered(a: Symbol)
    ensures SystemInvariant(TIGHT, EntryInFlight(a)) && CommittedMargin(EntryInFlight(a)) == 6.0
  {
    NoExposure();
    OneOrder(a, Reservation(6.0, 6.0, 0, 60.0));
  }

  // An entry of 6 for another symbol then keeps the cap of 10, but exceeds it after a restart.
  lemma {:induction false} RestartCanExceedCap(a: Symbol, b: Symbol)
    requires a != b
    ensures SystemInvariant(TIGHT, EntryInFlight(a))
    ensures var before, step := EntryInFlight(a), Authorise(PlainEntry(b, 6.0, 1), Some(RICH), Returned);
            && Enabled(before, step) && WithinCaps(TIGHT, After(TIGHT, 60.0, before, step))
            && Enabled(Restarted(before), step)
            && CommittedMargin(After(TIGHT, 60.0, Restarted(before), step)) == 12.0
  {
    EntryInFlightIsCovered(a);
    InFlightIsReserved(EntryInFlight(a));
    AuthoriseKeepsCaps(TIGHT, 60.0, EntryInFlight(a), PlainEntry(b, 6.0, 1), Some(RICH), Returned);
    RestartCommitsNothing(EntryInFlight(a));
    NoExposure();
    SmallEntryGoesOut(Restarted(EntryInFlight(a)), b);
  }

  // A basket with a margin of 1 whose DCA of 6 rests, with the minute of its reservation to run.
  function RestingDca(a: Symbol): System {
    var order := Reservation(6.0, 6.0, 1, 60.0);
    System(0.0, map[a := Exposure(0, 1.0, 1.0, 1.0, 0.0)], map[], map[a := order], map[a := order])
  }

  lemma RestingDcaIsCovered(a: Symbol)
    ensures SystemInvariant(TIGHT, RestingDca(a))
    ensures Sum(Margins(RestingDca(a).exposures)) == Sum(Notionals(RestingDca(a).exposures)) == 1.0
    ensures Sum(Pnls(RestingDca(a).exposures)) == 0.0 && Sum(ReservedMargins(RestingDca(a).inFlight)) == 6.0
  {
    OneOrder(a, Reservation(6.0, 6.0, 1, 60.0));
    OneBasket(a, Exposure(0, 1.0, 1.0, 1.0, 0.0));
  }

  // A second after that minute an entry of 6 for another symbol goes out, and 13 of 10 are committed.
  lemma {:induction false} WaitingCanExceedCap(a: Symbol, b: Symbol)
    requires a != b
    ensures SystemInvariant(TIGHT, RestingDca(a))
    ensures var step := Authorise(PlainEntry(b, 6.0, 1), Some(RICH), Returned);
            && Enabled(Later(RestingDca(a), 61.0), step)
            && var after := After(TIGHT, 60.0, Later(RestingDca(a), 61.0), step);
               CommittedMargin(after) == 13.0
  {
    RestingDcaIsCovered(a);
    SmallEntryGoesOut(Later(RestingDca(a), 61.0), b);
  }

  // A basket of 6 is open and nothing is in flight.
  function IdleBasket(a: Symbol): System {
    System(0.0, map[a := Exposure(0, 6.0, 6.0, 6.0, 0.0)], map[], map[], map[])
  }

  lemma IdleBasketIsCovered(a: Symbol)
    ensures SystemInvariant(TIGHT, IdleBasket(a)) && CommittedMargin(IdleBasket(a)) == 6.0
  {
    NoExposure();
    OneBasket(a, Exposure(0, 6.0, 6.0, 6.0, 0.0));
  }

  // After a restart an entry of 6 for another symbol goes out before the basket's service has
  // synced, and 12 of 10 are committed.
  lemma {:induction false} UnobservedBasketCanExceedCap(a: Symbol, b: Symbol)
    requires a != b
    ensures SystemInvariant(TIGHT, IdleBasket(a)) && IdleBasket(a).inFlight == map[]
    ensures var step := Authorise(PlainEntry(b, 6.0, 1), Some(RICH), Returned);
            && Enabled(Restarted(IdleBasket(a)), step)
            && CommittedMargin(After(TIGHT, 60.0, Restarted(IdleBasket(a)), step)) == 12.0
  {
    IdleBasketIsCovered(a);
    RestartCommitsNothing(IdleBasket(a));
    NoExposure();
    SmallEntryGoesOut(Restarted(IdleBasket(a)), b);
  }

  // What an entry of 6 does where nothing is reserved any more and at most 1 is committed.
  lemma SmallEntryGoesOut(y: System, b: Symbol)
    requires Pruning(y).reservations == map[] && b !in y.inFlight && b !in y.exposures && b !in y.unobserved
    requires Sum(Margins(y.exposures)) <= 1.0 && Sum(Notionals(y.exposures)) <= 1.0 && Sum(Pnls(y.exposures)) == 0.0
    requires forall s | s in y.exposures :: y.exposures[s].level == 0
    ensures var step := Authorise(PlainEntry(b, 6.0, 1), Some(RICH), Returned);
            && Enabled(y, step)
            && var after := After(TIGHT, 60.0, y, step);
               && after.exposures == y.exposures && after.unobserved == y.unobserved
               && CommittedMargin(after) == CommittedMargin(y) + 6.0
  {
    var c := PlainEntry(b, 6.0, 1);
    SmallEntryIsAllowed(y, b);
    PlainEntryCosts(b, 6.0, 1);
    AfterAuthorise(TIGHT, 60.0, y, c, Some(RICH), Returned);
    ReservingCommits(Pruning(y), b, ReservationFor(c, y.now + 60.0));
    assert CommittedMargin(Pruning(y)) == CommittedMargin(y);
  }

  lemma ReservingCommits(y: System, s: Symbol, r: Reservation)
    requires s !in y.inFlight
    ensures CommittedMargin(Reserving(y, s, r)) == CommittedMargin(y) + r.margin
  {
    InFlightAdd(y.inFlight, s, r);
  }

  lemma SmallEntryIsAllowed(y: System, b: Symbol)
    requires Pruning(y).reservations == map[]
    requires Sum(Margins(y.exposures)) <= 1.0 && Sum(Notionals(y.exposures)) <= 1.0 && Sum(Pnls(y.exposures)) == 0.0
    requires forall s | s in y.exposures :: y.exposures[s].level == 0
    ensures Allows(TIGHT, y, PlainEntry(b, 6.0, 1), Some(RICH))
  {
    NoExposure();
    PlainEntryCosts(b, 6.0, 1);
    assert Product(0.0, 0.0) == 0.0;
    assert DeepAfter(TIGHT, PlainEntry(b, 6.0, 1), y.exposures) == {};
  }
}
