// What one live sync asks of the exchange (botdca/live_service.py, lines 418-664), and exactly when
// that keeps an open position protected and its orders single.
//
// A sync lists the open orders once and then issues a fixed script of placements and cancels, while
// the book moves on. A raise or a crash ends the sync where it is.
module LiveScript {
  import opened Common
  import opened Orders
  import opened OrderPlan
  import opened LiveBook
  import Protection

  // ---------------------------------------------------------------- one sync's script

  // What the sync has read by the time it acts.
  datatype Reading = Reading(
    positionQty: real, plan: RestingPlan, cycleId: string, level: int, orders: seq<OpenOrder>, allowed: bool)

  // The identities of the planned orders.
  function PlannedTp(r: Reading): Intent {
    TakeProfit(r.cycleId, r.plan.takeProfit)
  }

  function PlannedDca(r: Reading): Intent
    requires r.plan.nextDca.Some?
  {
    Dca(r.cycleId, r.level, r.plan.nextDca.value)
  }

  const MATCH_TOLERANCE: real := 0.000000001

  predicate Matches(order: OpenOrder, side: Side, target: OrderTarget, reduceOnly: bool) {
    && order.side == side && order.orderType == Limit
    && Abs(order.qty - target.qty) <= MATCH_TOLERANCE && Abs(order.price - target.price) <= MATCH_TOLERANCE
    && order.reduceOnly == reduceOnly
  }

  function MatchingLimit(orders: seq<OpenOrder>, side: Side, target: OrderTarget, reduceOnly: bool): Option<OpenOrder> {
    if orders == [] then None
    else if Matches(orders[0], side, target, reduceOnly) then Some(orders[0])
    else MatchingLimit(orders[1..], side, target, reduceOnly)
  }

  function BotOrders(orders: seq<OpenOrder>, role: string): seq<OpenOrder> {
    if orders == [] then []
    else (if IsBotOrder(orders[0], role) then [orders[0]] else []) + BotOrders(orders[1..], role)
  }

  function PartiallyFilled(orders: seq<OpenOrder>): Option<OpenOrder> {
    if orders == [] then None
    else if orders[0].partiallyFilled then Some(orders[0])
    else PartiallyFilled(orders[1..])
  }

  predicate Kept(order: OpenOrder, keep: Option<OpenOrder>) {
    keep.Some? && order.orderId == keep.value.orderId
  }

  function Cancels(orders: seq<OpenOrder>, keep: Option<OpenOrder>): seq<Command> {
    if orders == [] then []
    else Cancels(orders[..|orders| - 1], keep)
         + if Kept(orders[|orders| - 1], keep) then [] else [Cancel(orders[|orders| - 1].orderId)]
  }

  function TpMatch(r: Reading): Option<OpenOrder> {
    MatchingLimit(BotOrders(r.orders, "tp"), Sell, r.plan.takeProfit, true)
  }

  function DcaMatch(r: Reading): Option<OpenOrder> {
    var dcas := BotOrders(r.orders, "dca");
    if r.plan.maxDcaReached then None
    else if PartiallyFilled(dcas).Some? then PartiallyFilled(dcas)
    else if r.plan.nextDca.Some? then MatchingLimit(dcas, Buy, r.plan.nextDca.value, false)
    else None
  }

  function TpScript(r: Reading): seq<Command> {
    (if TpMatch(r).None? then [Place(PlannedTp(r))] else []) + Cancels(BotOrders(r.orders, "tp"), TpMatch(r))
  }

  predicate PlacesDca(r: Reading) {
    !r.plan.maxDcaReached && r.plan.nextDca.Some? && DcaMatch(r).None? && r.allowed
  }

  function DcaScript(r: Reading): seq<Command> {
    Cancels(BotOrders(r.orders, "dca"), DcaMatch(r))
    + if PlacesDca(r) then [Place(PlannedDca(r))] else []
  }

  function Assessed(r: Reading): Protection.Assessment {
    Protection.AssessProtection(r.positionQty, r.orders, Some(r.plan.takeProfit.qty))
  }

  function Script(r: Reading): seq<Command> {
    if Assessed(r).status.Ambiguous? then [] else TpScript(r) + DcaScript(r)
  }

  // ---------------------------------------------------------------- orders as planned

  // An exit limit order of the planned quantity at the planned price, up to a billionth.
  predicate IsExitOf(order: OpenOrder, target: OrderTarget) {
    && order.side == Sell && order.orderType == Limit && order.reduceOnly
    && -0.000000001 <= order.qty - target.qty <= 0.000000001
    && -0.000000001 <= order.price - target.price <= 0.000000001
  }

  // A buying limit order of the planned quantity at the planned price, up to a billionth.
  predicate IsDcaOf(order: OpenOrder, target: OrderTarget) {
    && order.side == Buy && order.orderType == Limit && !order.reduceOnly
    && -0.000000001 <= order.qty - target.qty <= 0.000000001
    && -0.000000001 <= order.price - target.price <= 0.000000001
  }

  // The planned take profit is listed.
  ghost predicate TpListed(r: Reading) {
    exists o :: o in r.orders && IsBotOrder(o, "tp") && IsExitOf(o, r.plan.takeProfit)
  }

  // The DCA order may stay: it has begun to fill, or it is the planned one.
  predicate DcaStays(r: Reading, o: OpenOrder) {
    && !r.plan.maxDcaReached && IsBotOrder(o, "dca")
    && (o.partiallyFilled || (r.plan.nextDca.Some? && IsDcaOf(o, r.plan.nextDca.value)))
  }

  ghost predicate DcaListed(r: Reading) {
    exists o :: o in r.orders && DcaStays(r, o)
  }

  // The plan has a DCA, and none is listed that may stay.
  ghost predicate WouldPlace(r: Reading)
    ensures WouldPlace(r) ==> r.plan.nextDca.Some?
  {
    !r.plan.maxDcaReached && r.plan.nextDca.Some? && !DcaListed(r)
  }

  lemma {:induction false} TpMatchExactly(r: Reading)
    ensures TpMatch(r).Some? <==> TpListed(r)
  {
    var tps := BotOrders(r.orders, "tp");
    MatchIsFound(tps, Sell, r.plan.takeProfit, true);
    if TpMatch(r).Some? {
      TpMatchIsListed(r);
      BotOrdersAre(r.orders, "tp", TpMatch(r).value);
    } else {
      forall o | o in r.orders && IsBotOrder(o, "tp") ensures !IsExitOf(o, r.plan.takeProfit) {
        BotOrdersAre(r.orders, "tp", o);
      }
    }
  }

  lemma {:induction false} DcaMatchExactly(r: Reading)
    ensures DcaMatch(r).Some? <==> DcaListed(r)
  {
    var dcas := BotOrders(r.orders, "dca");
    PartialIsFound(dcas);
    if r.plan.nextDca.Some? {
      MatchIsFound(dcas, Buy, r.plan.nextDca.value, false);
    }
    if DcaMatch(r).Some? {
      DcaMatchIsListed(r);
      assert DcaStays(r, DcaMatch(r).value);
    } else {
      forall o | o in r.orders ensures !DcaStays(r, o) {
        BotOrdersAre(r.orders, "dca", o);
      }
    }
  }

  // ---------------------------------------------------------------- listings

  ghost predicate Distinct(orders: seq<OpenOrder>) {
    forall i, j | 0 <= i < j < |orders| :: orders[i].orderId != orders[j].orderId
  }

  // A listing shows every order of the book once, in any order.
  ghost predicate Lists(list: seq<OpenOrder>, orders: map<nat, OpenOrder>) {
    && (forall i | 0 <= i < |list| :: list[i].orderId in orders && orders[list[i].orderId] == list[i])
    && (forall id | id in orders :: orders[id] in list)
    && Distinct(list)
  }

  lemma {:induction false} BotOrdersAre(orders: seq<OpenOrder>, role: string, order: OpenOrder)
    ensures order in BotOrders(orders, role) <==> order in orders && IsBotOrder(order, role)
  {
    if orders != [] {
      BotOrdersAre(orders[1..], role, order);
      assert orders == [orders[0]] + orders[1..];
    }
  }

  lemma {:induction false} MatchIsFound(orders: seq<OpenOrder>, side: Side, target: OrderTarget, reduceOnly: bool)
    ensures var m := MatchingLimit(orders, side, target, reduceOnly);
            && (m.Some? ==> m.value in orders && Matches(m.value, side, target, reduceOnly))
            && (m.None? ==> forall o | o in orders :: !Matches(o, side, target, reduceOnly))
  {
    if orders != [] {
      MatchIsFound(orders[1..], side, target, reduceOnly);
      assert orders == [orders[0]] + orders[1..];
    }
  }

  lemma {:induction false} PartialIsFound(orders: seq<OpenOrder>)
    ensures var p := PartiallyFilled(orders);
            && (p.Some? ==> p.value in orders && p.value.partiallyFilled)
            && (p.None? ==> forall o | o in orders :: !o.partiallyFilled)
  {
    if orders != [] {
      PartialIsFound(orders[1..]);
      assert orders == [orders[0]] + orders[1..];
    }
  }

  lemma {:induction false} CancelsAre(orders: seq<OpenOrder>, keep: Option<OpenOrder>, command: Command)
    ensures command in Cancels(orders, keep)
            <==> command.Cancel? && exists o :: o in orders && o.orderId == command.orderId && !Kept(o, keep)
  {
    if orders != [] {
      var last := |orders| - 1;
      CancelsAre(orders[..last], keep, command);
      assert orders == orders[..last] + [orders[last]];
    }
  }

  lemma {:induction false} NothingToCancel(orders: seq<OpenOrder>, keep: Option<OpenOrder>)
    requires forall o | o in orders :: Kept(o, keep)
    ensures Cancels(orders, keep) == []
  {
    if orders != [] {
      NothingToCancel(orders[..|orders| - 1], keep);
    }
  }

  lemma RolesDiffer(order: OpenOrder)
    ensures !IsBotOrder(order, "tp") || !IsBotOrder(order, "dca")
  {
    if order.linkId.Text? {
      RoleLetter(order.linkId.text);
    } else {
      assert "tp"[0] == 't' && "dca"[0] == 'd';
    }
  }

  lemma RoleLetter(text: string)
    ensures "botdca-" + "tp" + "-" <= text ==> |text| > 7 && text[7] == 't'
    ensures "botdca-" + "dca" + "-" <= text ==> |text| > 7 && text[7] == 'd'
  {
    var tp, dca := "botdca-" + "tp" + "-", "botdca-" + "dca" + "-";
    assert tp[7] == 't' && dca[7] == 'd';
  }

  lemma BearerRole(order: OpenOrder, intent: Intent)
    requires Bears(order, intent)
    ensures IsBotOrder(order, "tp") <==> intent.TakeProfit?
    ensures IsBotOrder(order, "dca") <==> intent.Dca?
    ensures intent.TakeProfit? && Genuine(order) ==> Protection.IsBotTakeProfit(order)
  {
    assert "tp"[0] == 't' && "dca"[0] == 'd';
  }

  lemma {:induction false} TakeProfitsAre(orders: seq<OpenOrder>, order: OpenOrder)
    ensures order in Protection.TakeProfits(orders) <==> order in orders && Protection.IsBotTakeProfit(order)
  {
    if orders != [] {
      var last := |orders| - 1;
      TakeProfitsAre(orders[..last], order);
      assert orders == orders[..last] + [orders[last]];
    }
  }

  // Distinct listings give distinct take profits, so more than one in the list is more than one.
  lemma {:induction false} TakeProfitsDistinct(orders: seq<OpenOrder>)
    requires Distinct(orders)
    ensures Distinct(Protection.TakeProfits(orders))
  {
    if orders != [] {
      var last := |orders| - 1;
      TakeProfitsDistinct(orders[..last]);
      var front := Protection.TakeProfits(orders[..last]);
      forall i | 0 <= i < |front| ensures front[i].orderId != orders[last].orderId {
        TakeProfitsAre(orders[..last], front[i]);
        assert front[i] in orders[..last];
      }
    }
  }

  // A book's protective orders.
  predicate HoldsTp(book: Book, id: nat) {
    id in book.orders && Protection.IsBotTakeProfit(book.orders[id])
  }

  predicate HoldsDca(book: Book, id: nat) {
    id in book.orders && IsBotOrder(book.orders[id], "dca")
  }

  ghost predicate SomeTp(book: Book) {
    exists id :: HoldsTp(book, id)
  }

  ghost predicate AtMostOneTp(book: Book) {
    forall id, other | HoldsTp(book, id) && HoldsTp(book, other) :: id == other
  }

  ghost predicate AtMostOneDca(book: Book) {
    forall id, other | HoldsDca(book, id) && HoldsDca(book, other) :: id == other
  }

  // The sync read this book.
  ghost predicate Read(r: Reading, book: Book) {
    ValidBook(book) && Lists(r.orders, book.orders) && r.positionQty > 0.0
  }

  // Two or more resting take profits: the sync mutates nothing. Otherwise it acts.
  lemma {:induction false} AmbiguousMeansHold(r: Reading, book: Book)
    requires Read(r, book)
    ensures Assessed(r).status.Ambiguous? <==> !AtMostOneTp(book)
    ensures !AtMostOneTp(book) ==> Script(r) == []
  {
    var tps := Protection.TakeProfits(r.orders);
    TakeProfitsDistinct(r.orders);
    forall o ensures o in tps <==> o in r.orders && Protection.IsBotTakeProfit(o) {
      TakeProfitsAre(r.orders, o);
    }
    if |tps| > 1 {
      assert tps[0] in tps && tps[1] in tps && tps[0].orderId != tps[1].orderId;
      assert HoldsTp(book, tps[0].orderId) && HoldsTp(book, tps[1].orderId);
    } else {
      forall id, other | HoldsTp(book, id) && HoldsTp(book, other) ensures id == other {
        assert book.orders[id] in tps && book.orders[other] in tps;
      }
    }
  }

  // ---------------------------------------------------------------- what a script can cancel

  predicate Stale(r: Reading, o: OpenOrder) {
    (IsBotOrder(o, "tp") && !Kept(o, TpMatch(r))) || (IsBotOrder(o, "dca") && !Kept(o, DcaMatch(r)))
  }

  lemma {:induction false} CancelsOnlyListed(r: Reading, id: nat)
    requires Cancel(id) in Script(r)
    ensures exists o :: o in r.orders && o.orderId == id && Stale(r, o)
  {
    var tps, dcas := BotOrders(r.orders, "tp"), BotOrders(r.orders, "dca");
    CancelsAre(tps, TpMatch(r), Cancel(id));
    CancelsAre(dcas, DcaMatch(r), Cancel(id));
    if Cancel(id) in TpScript(r) {
      var o :| o in tps && o.orderId == id && !Kept(o, TpMatch(r));
      BotOrdersAre(r.orders, "tp", o);
    } else {
      var o :| o in dcas && o.orderId == id && !Kept(o, DcaMatch(r));
      BotOrdersAre(r.orders, "dca", o);
    }
  }

  lemma {:induction false} CancelsEveryOther(r: Reading, o: OpenOrder)
    requires !Assessed(r).status.Ambiguous? && o in r.orders
    ensures IsBotOrder(o, "tp") && !Kept(o, TpMatch(r)) ==> Cancel(o.orderId) in TpScript(r)
    ensures IsBotOrder(o, "dca") && !Kept(o, DcaMatch(r)) ==>
              Cancel(o.orderId) in Cancels(BotOrders(r.orders, "dca"), DcaMatch(r))
  {
    BotOrdersAre(r.orders, "tp", o);
    BotOrdersAre(r.orders, "dca", o);
    CancelsAre(BotOrders(r.orders, "tp"), TpMatch(r), Cancel(o.orderId));
    CancelsAre(BotOrders(r.orders, "dca"), DcaMatch(r), Cancel(o.orderId));
  }

  lemma {:induction false} TpMatchIsListed(r: Reading)
    requires TpMatch(r).Some?
    ensures var m := TpMatch(r).value;
            m in r.orders && Protection.IsBotTakeProfit(m) && IsExitOf(m, r.plan.takeProfit)
  {
    var tps := BotOrders(r.orders, "tp");
    MatchIsFound(tps, Sell, r.plan.takeProfit, true);
    BotOrdersAre(r.orders, "tp", TpMatch(r).value);
  }

  lemma {:induction false} DcaMatchIsListed(r: Reading)
    requires DcaMatch(r).Some?
    ensures var m := DcaMatch(r).value;
            && m in r.orders && IsBotOrder(m, "dca")
            && (m.partiallyFilled || (r.plan.nextDca.Some? && IsDcaOf(m, r.plan.nextDca.value)))
  {
    var dcas := BotOrders(r.orders, "dca");
    PartialIsFound(dcas);
    if r.plan.nextDca.Some? {
      MatchIsFound(dcas, Buy, r.plan.nextDca.value, false);
    }
    BotOrdersAre(r.orders, "dca", DcaMatch(r).value);
  }

  lemma {:induction false} CancelsPlaceNothing(orders: seq<OpenOrder>, keep: Option<OpenOrder>, k: nat)
    requires k < |Cancels(orders, keep)|
    ensures Cancels(orders, keep)[k].Cancel?
  {
    CancelsAre(orders, keep, Cancels(orders, keep)[k]);
  }

  lemma TpPlacement(r: Reading, k: nat)
    requires k < |TpScript(r)|
    ensures TpScript(r)[k].Place? ==> k == 0 && TpMatch(r).None? && TpScript(r)[k].intent == PlannedTp(r)
  {
    var skipped := if TpMatch(r).None? then 1 else 0;
    if k >= skipped {
      CancelsPlaceNothing(BotOrders(r.orders, "tp"), TpMatch(r), k - skipped);
    }
  }

  lemma DcaPlacement(r: Reading, k: nat)
    requires k < |DcaScript(r)|
    ensures DcaScript(r)[k].Place? ==>
              k == |DcaScript(r)| - 1 && PlacesDca(r) && DcaScript(r)[k].intent == PlannedDca(r)
  {
    var cancels := Cancels(BotOrders(r.orders, "dca"), DcaMatch(r));
    if k < |cancels| {
      CancelsPlaceNothing(BotOrders(r.orders, "dca"), DcaMatch(r), k);
    }
  }

  // A placement of a take profit comes first, one of a DCA comes last.
  lemma {:induction false} WherePlacementsAre(r: Reading, k: nat)
    requires k < |Script(r)| && Script(r)[k].Place?
    ensures if Script(r)[k].intent.TakeProfit? then k == 0 && TpMatch(r).None? && Script(r)[k].intent == PlannedTp(r)
            else k == |Script(r)| - 1 && PlacesDca(r) && Script(r)[k].intent == PlannedDca(r)
  {
    if k < |TpScript(r)| {
      TpPlacement(r, k);
    } else {
      DcaPlacement(r, k - |TpScript(r)|);
    }
  }

  lemma FirstIsPlaceTp(r: Reading)
    requires TpMatch(r).None? && !Assessed(r).status.Ambiguous?
    ensures 0 < |Script(r)| && Script(r)[0] == Place(PlannedTp(r))
  {
  }

  lemma LastIsPlaceDca(r: Reading)
    requires PlacesDca(r) && !Assessed(r).status.Ambiguous?
    ensures 0 < |Script(r)| && Script(r)[|Script(r)| - 1] == Place(PlannedDca(r))
  {
  }

  lemma StaleTpIsCancelled(r: Reading, o: OpenOrder) returns (k: nat)
    requires !Assessed(r).status.Ambiguous? && o in r.orders && IsBotOrder(o, "tp") && !Kept(o, TpMatch(r))
    ensures k < |Script(r)| && Script(r)[k] == Cancel(o.orderId)
  {
    CancelsEveryOther(r, o);
    k :| 0 <= k < |TpScript(r)| && TpScript(r)[k] == Cancel(o.orderId);
    assert Script(r)[k] == TpScript(r)[k];
  }

  lemma StaleDcaIsCancelled(r: Reading, o: OpenOrder) returns (k: nat)
    requires !Assessed(r).status.Ambiguous? && o in r.orders && IsBotOrder(o, "dca") && !Kept(o, DcaMatch(r))
    ensures k < |Script(r)| && Script(r)[k] == Cancel(o.orderId)
  {
    CancelsEveryOther(r, o);
    var cancels := Cancels(BotOrders(r.orders, "dca"), DcaMatch(r));
    var j :| 0 <= j < |cancels| && cancels[j] == Cancel(o.orderId);
    assert DcaScript(r)[j] == cancels[j];
    k := |TpScript(r)| + j;
    assert Script(r)[k] == DcaScript(r)[j];
  }

  // ---------------------------------------------------------------- what a sync asks for

  // The order is the bot's and not as planned: a take profit of another quantity or price, or a DCA
  // that has not begun to fill and is of another quantity or price, or is not planned any more.
  predicate Outdated(r: Reading, o: OpenOrder) {
    || (IsBotOrder(o, "tp") && !IsExitOf(o, r.plan.takeProfit))
    || (IsBotOrder(o, "dca") && !DcaStays(r, o))
  }

  // A sync that is not held cancels every outdated order.
  lemma {:induction false} OutdatedIsCancelled(r: Reading, o: OpenOrder)
    requires !Assessed(r).status.Ambiguous? && o in r.orders && Outdated(r, o)
    requires forall other | other in r.orders && other.orderId == o.orderId :: other == o
    ensures Cancel(o.orderId) in Script(r)
  {
    RolesDiffer(o);
    CancelsEveryOther(r, o);
    if IsBotOrder(o, "tp") {
      if TpMatch(r).Some? {
        TpMatchIsListed(r);
      }
    } else if DcaMatch(r).Some? {
      DcaMatchIsListed(r);
      DcaMatchStays(r);
    }
  }

  lemma DcaMatchStays(r: Reading)
    requires DcaMatch(r).Some?
    ensures DcaMatch(r).value in r.orders && DcaStays(r, DcaMatch(r).value)
  {
    DcaMatchIsListed(r);
  }

  // Where one take profit and one DCA rest at most, a sync cancels exactly what is outdated, and
  // places exactly what is planned and not listed: a DCA only when it is allowed.
  lemma {:induction false} ScriptExactly(r: Reading, book: Book)
    requires Read(r, book) && AtMostOneTp(book) && AtMostOneDca(book)
    ensures forall id ::
              Cancel(id) in Script(r) <==> id in book.orders && Outdated(r, book.orders[id])
    ensures forall intent ::
              Place(intent) in Script(r)
              <==> (intent == PlannedTp(r) && !TpListed(r))
                   || (WouldPlace(r) && r.allowed && intent == PlannedDca(r))
  {
    AmbiguousMeansHold(r, book);
    TpMatchExactly(r);
    DcaMatchExactly(r);
    forall id ensures Cancel(id) in Script(r) <==> id in book.orders && Outdated(r, book.orders[id]) {
      if Cancel(id) in Script(r) {
        CancelsOnlyListed(r, id);
        var o :| o in r.orders && o.orderId == id && Stale(r, o);
        StaleIsOutdated(r, book, o);
      }
      if id in book.orders && Outdated(r, book.orders[id]) {
        OutdatedIsCancelled(r, book.orders[id]);
      }
    }
    forall intent ensures Place(intent) in Script(r)
                          <==> (intent == PlannedTp(r) && !TpListed(r))
                               || (WouldPlace(r) && r.allowed && intent == PlannedDca(r))
    {
      PlacesExactly(r, intent);
    }
  }

  lemma PlacesExactly(r: Reading, intent: Intent)
    requires !Assessed(r).status.Ambiguous?
    ensures Place(intent) in Script(r)
            <==> (intent == PlannedTp(r) && !TpListed(r)) || (WouldPlace(r) && r.allowed && intent == PlannedDca(r))
  {
    TpMatchExactly(r);
    DcaMatchExactly(r);
    if Place(intent) in Script(r) {
      var k :| 0 <= k < |Script(r)| && Script(r)[k] == Place(intent);
      WherePlacementsAre(r, k);
    } else {
      if TpMatch(r).None? {
        FirstIsPlaceTp(r);
      }
      if PlacesDca(r) {
        LastIsPlaceDca(r);
      }
    }
  }

  // An order as planned would be kept, as the only one of its role.
  lemma StaleIsOutdated(r: Reading, book: Book, o: OpenOrder)
    requires Read(r, book) && AtMostOneTp(book) && AtMostOneDca(book) && o in r.orders && Stale(r, o)
    ensures Outdated(r, o) && book.orders[o.orderId] == o
  {
    RolesDiffer(o);
    TpMatchExactly(r);
    DcaMatchExactly(r);
    if IsBotOrder(o, "tp") && IsExitOf(o, r.plan.takeProfit) {
      TpMatchIsListed(r);
      assert HoldsTp(book, o.orderId) && HoldsTp(book, TpMatch(r).value.orderId);
    } else if IsBotOrder(o, "dca") && DcaStays(r, o) {
      DcaMatchIsListed(r);
      assert HoldsDca(book, o.orderId) && HoldsDca(book, DcaMatch(r).value.orderId);
    }
  }

  // ---------------------------------------------------------------- one session

  // Every cancel is of an order that was listed.
  ghost predicate CancelsListed(start: Book, script: seq<Command>) {
    forall id | Cancel(id) in script :: id in start.orders
  }

  lemma {:induction false} CancelsTargetTheBook(r: Reading, start: Book)
    requires Read(r, start)
    ensures CancelsListed(start, Script(r))
  {
    forall id | Cancel(id) in Script(r) ensures id in start.orders {
      CancelsOnlyListed(r, id);
    }
  }

  // A take profit that no issued command cancelled rests as long as the position is open.
  lemma {:induction false} TpSurvives(start: Book, session: seq<Event>, script: seq<Command>, id: nat)
    requires LegalSession(start, session) && Follows(session, script) && StaysOpen(start, session)
    requires HoldsTp(start, id) && Cancel(id) !in script[..Count(session)]
    ensures HoldsTp(BookAfter(start, session), id)
  {
    if session != [] {
      var front, last := session[..|session| - 1], session[|session| - 1];
      assert script[..Count(front)] <= script[..Count(session)];
      TpSurvives(start, front, script, id);
      SeenCovers(start, front, id);
      if last.Issued? {
        assert script[..Count(session)][Count(front)] == last.command;
      }
    }
  }

  // A cancel that was issued and did not raise has removed its order for good.
  lemma {:induction false} CancelledIsGone(start: Book, session: seq<Event>, script: seq<Command>, k: nat)
    requires LegalSession(start, session) && Follows(session, script)
    requires k < Count(session) && script[k].Cancel? && script[k].orderId in start.orders && !Nth(session, k).raised
    ensures script[k].orderId !in BookAfter(start, session).orders
  {
    var front, last := session[..|session| - 1], session[|session| - 1];
    NthFollows(session, script, k);
    if !(last.Issued? && Count(front) == k) {
      CancelledIsGone(start, front, script, k);
      SeenCovers(start, front, script[k].orderId);
    }
  }

  // A kept take profit is never among the cancels.
  lemma {:induction false} MatchIsKept(r: Reading, start: Book)
    requires Read(r, start) && TpMatch(r).Some?
    ensures HoldsTp(start, TpMatch(r).value.orderId) && Cancel(TpMatch(r).value.orderId) !in Script(r)
  {
    var m := TpMatch(r).value;
    TpMatchIsListed(r);
    if Cancel(m.orderId) in Script(r) {
      CancelsOnlyListed(r, m.orderId);
      var o :| o in r.orders && o.orderId == m.orderId && Stale(r, o);
      RolesDiffer(m);
    }
  }

  // ---------------------------------------------------------------- when protection is kept

  // The planned take profit rests as an order the sync has not listed.
  ghost predicate NewTpRests(start: Book, book: Book, planned: Intent) {
    exists id :: id in book.orders && id !in start.orders && Bears(book.orders[id], planned)
  }

  // It stays while the position is open: the script cancels only what was listed.
  lemma NewTpStays(start: Book, book: Book, seen: set<nat>, event: Event, planned: Intent)
    requires ValidBook(book) && NewTpRests(start, book, planned) && planned.TakeProfit?
    requires MayHappen(book, seen, event) && book.orders.Keys <= seen && IsOpen(Next(book, event).position)
    requires event.Issued? && event.command.Cancel? ==> event.command.orderId in start.orders
    ensures NewTpRests(start, Next(book, event), planned)
  {
    var id :| id in book.orders && id !in start.orders && Bears(book.orders[id], planned);
    BearerRole(book.orders[id], planned);
    var next := Next(book, event);
    assert id in next.orders && Bears(next.orders[id], planned);
  }

  // While the position is open, an identity that was free at the listing is taken only by a new
  // order, which rests from then on.
  lemma {:induction false} TakenMeansResting(start: Book, session: seq<Event>, script: seq<Command>, planned: Intent)
    requires LegalSession(start, session) && Follows(session, script) && StaysOpen(start, session)
    requires CancelsListed(start, script)
    requires planned.TakeProfit? && !Taken(start, planned) && Taken(BookAfter(start, session), planned)
    ensures NewTpRests(start, BookAfter(start, session), planned)
  {
    var front, last := session[..|session| - 1], session[|session| - 1];
    var before, after := BookAfter(start, front), BookAfter(start, session);
    SessionCovers(start, front);
    if last.Issued? {
      assert last.command in script;
    }
    if Taken(before, planned) {
      TakenMeansResting(start, front, script, planned);
      NewTpStays(start, before, Seen(start, front), last, planned);
    } else {
      var id :| id in after.orders && Bears(after.orders[id], planned);
      assert id !in before.orders;
    }
  }

  lemma SessionCovers(start: Book, session: seq<Event>)
    requires LegalSession(start, session)
    ensures ValidBook(BookAfter(start, session))
    ensures start.orders.Keys <= Seen(start, session) && BookAfter(start, session).orders.Keys <= Seen(start, session)
  {
    SeenCovers(start, session, 0);
    forall id | id in start.orders || id in BookAfter(start, session).orders ensures id in Seen(start, session) {
      SeenCovers(start, session, id);
    }
  }

  // Once its placement has returned, a take profit with a free identity rests.
  lemma {:induction false} PlacedTpRests(start: Book, session: seq<Event>, script: seq<Command>, planned: Intent)
    requires LegalSession(start, session) && Follows(session, script) && StaysOpen(start, session)
    requires CancelsListed(start, script)
    requires planned.TakeProfit? && !Taken(start, planned)
    requires 0 < Count(session) && script[0] == Place(planned) && !Nth(session, 0).raised
    ensures NewTpRests(start, BookAfter(start, session), planned)
  {
    var front, last := session[..|session| - 1], session[|session| - 1];
    var before, after := BookAfter(start, front), BookAfter(start, session);
    SessionCovers(start, front);
    SessionCovers(start, session);
    if last.Issued? && Count(front) == 0 {
      if last.effect.Created? {
        assert last.effect.order.orderId in after.orders;
      } else {
        TakenMeansResting(start, front, script, planned);
      }
    } else {
      if last.Issued? {
        assert last.command in script;
      }
      PlacedTpRests(start, front, script, planned);
      NewTpStays(start, before, Seen(start, front), last, planned);
    }
  }

  // The sync can leave the planned take profit resting: it already does, or its identity is free,
  // borne by no live order and not filled.
  ghost predicate Replaceable(r: Reading, start: Book) {
    TpListed(r) || !Taken(start, PlannedTp(r))
  }

  // While the position stays open, protection that was there when the sync read the book is there
  // in every state of the sync, however the exchange moves and wherever the sync stops.
  lemma {:induction false} SyncKeepsProtection(r: Reading, start: Book, session: seq<Event>)
    requires Read(r, start) && LegalSession(start, session) && Follows(session, Script(r)) && StaysOpen(start, session)
    requires SomeTp(start) && (AtMostOneTp(start) ==> Replaceable(r, start))
    ensures SomeTp(BookAfter(start, session))
  {
    TpMatchExactly(r);
    var script, book := Script(r), BookAfter(start, session);
    CancelsTargetTheBook(r, start);
    AmbiguousMeansHold(r, start);
    SessionCovers(start, session);
    var id :| HoldsTp(start, id);
    if Count(session) == 0 {
      TpSurvives(start, session, script, id);
    } else if TpMatch(r).Some? {
      MatchIsKept(r, start);
      TpSurvives(start, session, script, TpMatch(r).value.orderId);
    } else {
      FirstIsPlaceTp(r);
      NthFollows(session, script, 0);
      if Nth(session, 0).raised {
        assert Count(session) == 1 && script[..1] == [script[0]];
        TpSurvives(start, session, script, id);
      } else {
        PlacedTpRests(start, session, script, PlannedTp(r));
        var other :| other in book.orders && other !in start.orders && Bears(book.orders[other], PlannedTp(r));
        BearerRole(book.orders[other], PlannedTp(r));
        assert HoldsTp(book, other);
      }
    }
  }

  // ---------------------------------------------------------------- where a sync ends

  ghost predicate ExactlyOneTp(book: Book, target: OrderTarget) {
    AtMostOneTp(book) && exists id :: HoldsTp(book, id) && IsExitOf(book.orders[id], target)
  }

  // No take-profit request of an earlier sync is under way, save one for the very order this sync
  // is about to place.
  ghost predicate NoLateTp(r: Reading, start: Book) {
    forall intent | intent in start.inFlight && intent.TakeProfit? :: !TpListed(r) && intent == PlannedTp(r)
  }

  // While the position is open, an identity taken at the listing is still taken when the first
  // command goes out.
  lemma {:induction false} TakenUntilFirst(start: Book, session: seq<Event>, script: seq<Command>, planned: Intent)
    requires LegalSession(start, session) && Follows(session, script) && StaysOpen(start, session)
    requires Count(session) == 0
    requires planned.TakeProfit? && Taken(start, planned)
    ensures Taken(BookAfter(start, session), planned)
  {
    if session != [] {
      var front := session[..|session| - 1];
      var before, after := BookAfter(start, front), BookAfter(start, session);
      TakenUntilFirst(start, front, script, planned);
      SessionCovers(start, front);
      if planned !in before.filled {
        var id :| id in before.orders && Bears(before.orders[id], planned);
        BearerRole(before.orders[id], planned);
        assert id in after.orders && Bears(after.orders[id], planned);
      }
    }
  }

  // So its placement creates nothing, now or later.
  lemma {:induction false} TakenIsNeverNew(start: Book, session: seq<Event>, script: seq<Command>, planned: Intent)
    requires LegalSession(start, session) && Follows(session, script) && StaysOpen(start, session)
    requires planned.TakeProfit? && Taken(start, planned)
    requires forall k | 0 < k < |script| :: script[k] != Place(planned)
    ensures planned !in BookAfter(start, session).inFlight && !NewTpRests(start, BookAfter(start, session), planned)
  {
    if session != [] {
      var front, last := session[..|session| - 1], session[|session| - 1];
      var before := BookAfter(start, front);
      TakenIsNeverNew(start, front, script, planned);
      SessionCovers(start, front);
      if last.Issued? && last.command == Place(planned) {
        TakenUntilFirst(start, front, script, planned);
      }
      if id :| id in BookAfter(start, session).orders && id !in start.orders
               && Bears(BookAfter(start, session).orders[id], planned) {
        assert id !in before.orders || !Bears(before.orders[id], planned);
      }
    }
  }

  // After a completed sync the orders under the take-profit role are the kept match and orders not
  // there at the listing.
  lemma {:induction false} TpLeft(r: Reading, start: Book, session: seq<Event>, id: nat)
    requires Read(r, start) && LegalSession(start, session) && Completes(session, Script(r))
    requires !Assessed(r).status.Ambiguous?
    requires id in BookAfter(start, session).orders && IsBotOrder(BookAfter(start, session).orders[id], "tp")
    ensures if id in start.orders then TpMatch(r).Some? && id == TpMatch(r).value.orderId
            else NewOrder(start, Script(r), |Script(r)|, BookAfter(start, session).orders[id])
  {
    var script, order := Script(r), BookAfter(start, session).orders[id];
    SessionCovers(start, session);
    Origin(start, session, script, id);
    if id in start.orders && !Kept(start.orders[id], TpMatch(r)) {
      var k := StaleTpIsCancelled(r, start.orders[id]);
      NthFollows(session, script, k);
      CancelledIsGone(start, session, script, k);
    }
  }

  // Without late requests a new order under the take-profit role is the planned one.
  lemma {:induction false} NewTpIsPlanned(r: Reading, start: Book, n: nat, order: OpenOrder)
    requires Read(r, start) && n <= |Script(r)| && NewOrder(start, Script(r), n, order) && IsBotOrder(order, "tp")
    requires NoLateTp(r, start)
    ensures TpMatch(r).None? && order.linkId.intent == PlannedTp(r)
    ensures order.qty == r.plan.takeProfit.qty && order.price == r.plan.takeProfit.price
            && Protection.IsBotTakeProfit(order)
  {
    TpMatchExactly(r);
    var intent := order.linkId.intent;
    BearerRole(order, intent);
    if intent !in start.inFlight {
      var k :| 0 <= k < n && Script(r)[..n][k] == Place(intent);
      WherePlacementsAre(r, k);
    }
  }

  // A sync that returns normally from an unambiguous book, with the position open throughout and
  // no earlier request still under way, leaves exactly one take profit, the planned one, exactly
  // when that order was listed or its identity was free. Otherwise it leaves none at all.
  lemma {:induction false} SyncEndsProtectedExactly(r: Reading, start: Book, session: seq<Event>)
    requires Read(r, start) && LegalSession(start, session) && Completes(session, Script(r))
    requires StaysOpen(start, session)
    requires AtMostOneTp(start) && NoLateTp(r, start)
    ensures ExactlyOneTp(BookAfter(start, session), r.plan.takeProfit) <==> Replaceable(r, start)
    ensures !Replaceable(r, start) ==> !SomeTp(BookAfter(start, session))
  {
    TpMatchExactly(r);
    AmbiguousMeansHold(r, start);
    SessionCovers(start, session);
    var book := BookAfter(start, session);
    forall id | HoldsTp(book, id) ensures id in start.orders ==> TpMatch(r).Some? && id == TpMatch(r).value.orderId
                                  ensures id !in start.orders ==>
                                            TpMatch(r).None? && Bears(book.orders[id], PlannedTp(r))
    {
      TpLeft(r, start, session, id);
      if id !in start.orders {
        NewTpIsPlanned(r, start, |Script(r)|, book.orders[id]);
      }
    }
    if !Replaceable(r, start) {
      OnlyFirstPlacesTp(r);
      TakenIsNeverNew(start, session, Script(r), PlannedTp(r));
    } else {
      AtMostOneLeft(r, start, session);
      PlannedTpIsLeft(r, start, session);
      var id :| PlannedTpLeft(r, book, id);
      assert HoldsTp(book, id) && IsExitOf(book.orders[id], r.plan.takeProfit);
    }
  }

  lemma ListedOnce(list: seq<OpenOrder>, i: nat, k: nat)
    requires Distinct(list) && i < |list| && k < |list| && list[i].orderId == list[k].orderId
    ensures i == k
  {
  }

  // The exit left by a sync protects the position exactly when it leaves no more of it uncovered than
  // the tolerance: whatever the list of the orders left, the check says so.
  lemma {:induction false} EndIsProtectedExactly(book: Book, list: seq<OpenOrder>, positionQty: real,
                                                 target: OrderTarget) returns (id: nat)
    requires ValidBook(book) && Lists(list, book.orders) && positionQty > 0.0 && ExactlyOneTp(book, target)
    ensures HoldsTp(book, id) && IsExitOf(book.orders[id], target)
    ensures Protection.AssessProtection(positionQty, list, Some(target.qty)).status.Protected?
            <==> positionQty - book.orders[id].qty <= 0.000000001
                 || positionQty - book.orders[id].qty <= Abs(positionQty) * 0.000001
  {
    id :| HoldsTp(book, id) && IsExitOf(book.orders[id], target);
    var k :| 0 <= k < |list| && list[k] == book.orders[id];
    Protection.AssessedExactly(positionQty, list, Some(target.qty));
    forall i | Protection.ExitAt(list, i) ensures i == k {
      assert HoldsTp(book, list[i].orderId);
      ListedOnce(list, i, k);
    }
    assert Protection.SoleExit(list, k);
  }

  // Every completed course of the sync with the position open ends on exactly the planned take
  // profit exactly when that order was listed or its identity was free, and no take-profit request
  // of an earlier sync is still under way.
  lemma {:induction false} AlwaysEndsProtectedExactly(r: Reading, start: Book)
    requires Read(r, start) && IsOpen(start.position) && AtMostOneTp(start)
    ensures (forall session | OpenCourse(r, start, session) ::
               ExactlyOneTp(BookAfter(start, session), r.plan.takeProfit))
            <==> Replaceable(r, start) && NoLateTp(r, start)
  {
    if Replaceable(r, start) && NoLateTp(r, start) {
      forall session | OpenCourse(r, start, session)
        ensures ExactlyOneTp(BookAfter(start, session), r.plan.takeProfit)
      {
        SyncEndsProtectedExactly(r, start, session);
      }
    } else if !Replaceable(r, start) {
      var session := UnprotectedEnd(r, start);
      assert OpenCourse(r, start, session);
    } else {
      var late :| late in start.inFlight && late.TakeProfit? && !(!TpListed(r) && late == PlannedTp(r));
      var session := LateTpEnd(r, start, late);
      assert OpenCourse(r, start, session);
    }
  }

  // A completed course with the position open throughout.
  ghost predicate OpenCourse(r: Reading, start: Book, session: seq<Event>) {
    LegalSession(start, session) && Completes(session, Script(r)) && StaysOpen(start, session)
  }

  // The late request lands when the sync has done its work.
  lemma {:induction false} LateTpEnd(r: Reading, start: Book, late: Intent) returns (session: seq<Event>)
    requires Read(r, start) && IsOpen(start.position) && AtMostOneTp(start) && Replaceable(r, start)
    requires late in start.inFlight && late.TakeProfit? && !(!TpListed(r) && late == PlannedTp(r))
    ensures OpenCourse(r, start, session) && !AtMostOneTp(BookAfter(start, session))
  {
    var script := Script(r);
    var firstId := IdsAreBelow(start.orders.Keys);
    var front := IdealSession(start, script, |script|, firstId);
    IdealIsLegal(start, script, |script|, firstId);
    AmbiguousMeansHold(r, start);
    PlannedTpIsLeft(r, start, front);
    LateTpIsNotPlaced(r, late);
    session := LateTpLands(start, front, script, late, firstId + |script|);
  }

  lemma LateTpIsNotPlaced(r: Reading, late: Intent)
    requires late.TakeProfit? && !(!TpListed(r) && late == PlannedTp(r))
    ensures Place(late) !in Script(r)
  {
    TpMatchExactly(r);
    if Place(late) in Script(r) {
      var k :| 0 <= k < |Script(r)| && Script(r)[k] == Place(late);
      WherePlacementsAre(r, k);
    }
  }

  lemma LateTpLands(start: Book, front: seq<Event>, script: seq<Command>, late: Intent, id: nat)
    returns (session: seq<Event>)
    requires LegalSession(start, front) && Completes(front, script) && StaysOpen(start, front)
    requires SomeTp(BookAfter(start, front)) && id !in Seen(start, front)
    requires late in BookAfter(start, front).inFlight && late.TakeProfit?
    ensures LegalSession(start, session) && Completes(session, script) && StaysOpen(start, session)
    ensures !AtMostOneTp(BookAfter(start, session))
  {
    var order := Fulfilment(late, id);
    var other :| HoldsTp(BookAfter(start, front), other);
    session := front + [Landed(order)];
    LandingIsLegal(start, front, script, late, id);
    OneMore(start, front, Landed(order), script);
    RealisedRole(late, order);
    SessionCovers(start, front);
    assert HoldsTp(BookAfter(start, session), other) && HoldsTp(BookAfter(start, session), id);
  }

  // What a completed course leaves, late requests or not: every order under the take-profit role is
  // the kept match, or bears the planned identity, or that of a request that was under way.
  ghost predicate TpAccounted(r: Reading, start: Book, order: OpenOrder) {
    if order.orderId in start.orders then TpMatch(r).Some? && order.orderId == TpMatch(r).value.orderId
    else
      && order.linkId.Minted?
      && (order.linkId.intent in start.inFlight || (TpMatch(r).None? && order.linkId.intent == PlannedTp(r)))
  }

  lemma {:induction false} TpsAreAccounted(r: Reading, start: Book, session: seq<Event>)
    requires Read(r, start) && LegalSession(start, session) && Completes(session, Script(r))
    requires !Assessed(r).status.Ambiguous?
    ensures forall id | UnderTpRole(BookAfter(start, session), id) ::
              TpAccounted(r, start, BookAfter(start, session).orders[id])
  {
    forall id | UnderTpRole(BookAfter(start, session), id)
      ensures TpAccounted(r, start, BookAfter(start, session).orders[id])
    {
      var order := BookAfter(start, session).orders[id];
      SessionCovers(start, session);
      TpLeft(r, start, session, id);
      if id !in start.orders && order.linkId.intent !in start.inFlight {
        BearerRole(order, order.linkId.intent);
        var k :| 0 <= k < |Script(r)| && Script(r)[..|Script(r)|][k] == Place(order.linkId.intent);
        WherePlacementsAre(r, k);
      }
    }
  }

  lemma OnlyFirstPlacesTp(r: Reading)
    ensures forall k | 0 < k < |Script(r)| :: Script(r)[k] != Place(PlannedTp(r))
  {
    forall k | 0 < k < |Script(r)| ensures Script(r)[k] != Place(PlannedTp(r)) {
      if Script(r)[k].Place? {
        WherePlacementsAre(r, k);
      }
    }
  }

  predicate UnderTpRole(book: Book, id: nat) {
    id in book.orders && IsBotOrder(book.orders[id], "tp")
  }

  ghost predicate OneUnderTpRole(book: Book) {
    forall id, other | UnderTpRole(book, id) && UnderTpRole(book, other) :: id == other
  }

  lemma OneOfTheRoleIsOneTp(book: Book)
    requires OneUnderTpRole(book)
    ensures AtMostOneTp(book)
  {
    forall id, other | HoldsTp(book, id) && HoldsTp(book, other) ensures id == other {
      assert UnderTpRole(book, id) && UnderTpRole(book, other);
    }
  }

  lemma {:induction false} AtMostOneLeft(r: Reading, start: Book, session: seq<Event>)
    requires Read(r, start) && LegalSession(start, session) && Completes(session, Script(r))
    requires !Assessed(r).status.Ambiguous? && NoLateTp(r, start)
    ensures OneUnderTpRole(BookAfter(start, session)) && AtMostOneTp(BookAfter(start, session))
  {
    var book := BookAfter(start, session);
    forall id, other | UnderTpRole(book, id) && UnderTpRole(book, other) ensures id == other {
      TpLeftIsPlanned(r, start, session, id);
      TpLeftIsPlanned(r, start, session, other);
      if id !in start.orders && other !in start.orders {
        OneBearer(start, session, PlannedTp(r), id, other);
      }
    }
    OneOfTheRoleIsOneTp(book);
  }

  // The order left is the kept match, or a new one bearing the planned identity.
  lemma {:induction false} TpLeftIsPlanned(r: Reading, start: Book, session: seq<Event>, id: nat)
    requires Read(r, start) && LegalSession(start, session) && Completes(session, Script(r))
    requires !Assessed(r).status.Ambiguous? && NoLateTp(r, start) && UnderTpRole(BookAfter(start, session), id)
    ensures if id in start.orders then TpMatch(r).Some? && id == TpMatch(r).value.orderId
            else TpMatch(r).None? && Bears(BookAfter(start, session).orders[id], PlannedTp(r))
  {
    TpLeft(r, start, session, id);
    if id !in start.orders {
      NewTpIsPlanned(r, start, |Script(r)|, BookAfter(start, session).orders[id]);
    }
  }

  ghost predicate PlannedTpLeft(r: Reading, book: Book, id: nat) {
    HoldsTp(book, id) && IsExitOf(book.orders[id], r.plan.takeProfit)
  }

  lemma {:induction false} PlannedTpIsLeft(r: Reading, start: Book, session: seq<Event>)
    requires Read(r, start) && LegalSession(start, session) && Completes(session, Script(r))
    requires StaysOpen(start, session)
    requires !Assessed(r).status.Ambiguous? && Replaceable(r, start)
    ensures exists id :: PlannedTpLeft(r, BookAfter(start, session), id)
  {
    TpMatchExactly(r);
    if TpMatch(r).Some? {
      MatchIsLeft(r, start, session);
    } else {
      FirstIsPlaceTp(r);
      NthFollows(session, Script(r), 0);
      CancelsTargetTheBook(r, start);
      NewTpIsLeft(r, start, session, Script(r));
    }
  }

  lemma {:induction false} MatchIsLeft(r: Reading, start: Book, session: seq<Event>)
    requires Read(r, start) && LegalSession(start, session) && Follows(session, Script(r)) && StaysOpen(start, session)
    requires TpMatch(r).Some?
    ensures PlannedTpLeft(r, BookAfter(start, session), TpMatch(r).value.orderId)
  {
    var m := TpMatch(r).value;
    MatchIsKept(r, start);
    TpMatchIsListed(r);
    TpSurvives(start, session, Script(r), m.orderId);
    Origin(start, session, Script(r), m.orderId);
  }

  lemma {:induction false} NewTpIsLeft(r: Reading, start: Book, session: seq<Event>, script: seq<Command>)
    requires LegalSession(start, session) && Follows(session, script) && StaysOpen(start, session)
    requires CancelsListed(start, script)
    requires !Taken(start, PlannedTp(r)) && 0 < Count(session) && script[0] == Place(PlannedTp(r))
    requires !Nth(session, 0).raised
    ensures exists id :: PlannedTpLeft(r, BookAfter(start, session), id)
  {
    var book := BookAfter(start, session);
    SessionCovers(start, session);
    PlacedTpRests(start, session, script, PlannedTp(r));
    var id :| id in book.orders && id !in start.orders && Bears(book.orders[id], PlannedTp(r));
    Origin(start, session, script, id);
    BearerRole(book.orders[id], PlannedTp(r));
    assert PlannedTpLeft(r, book, id);
  }

  // ---------------------------------------------------------------- exactly when there is only one

  // What may come to rest as a take profit, or as a DCA: an order that does, or a request under way.
  datatype Claim = Resting(id: nat) | Coming(intent: Intent)

  ghost predicate Sole(claims: set<Claim>) {
    forall a, b | a in claims && b in claims :: a == b
  }

  ghost function TpClaims(book: Book): set<Claim> {
    (set id | id in book.orders && Protection.IsBotTakeProfit(book.orders[id]) :: Resting(id))
    + (set intent | intent in book.inFlight && intent.TakeProfit? :: Coming(intent))
  }

  ghost function DcaClaims(book: Book): set<Claim> {
    (set id | id in book.orders && IsBotOrder(book.orders[id], "dca") :: Resting(id)) + DcaRequests(book)
  }

  ghost function DcaRequests(book: Book): set<Claim> {
    set intent | intent in book.inFlight && intent.Dca? :: Coming(intent)
  }

  // The sync would create its planned take profit.
  ghost predicate CreatesTp(r: Reading, start: Book) {
    !Assessed(r).status.Ambiguous? && TpMatch(r).None? && !Taken(start, PlannedTp(r))
  }

  ghost function TpClaimsOf(r: Reading, start: Book): set<Claim> {
    TpClaims(start) + if CreatesTp(r, start) then {Coming(PlannedTp(r))} else {}
  }

  ghost predicate AlwaysOneTp(r: Reading, start: Book) {
    forall session | LegalSession(start, session) && Follows(session, Script(r)) ::
      AtMostOneTp(BookAfter(start, session))
  }

  // The claim stands: the order rests, or the request is under way.
  ghost predicate Stands(book: Book, claim: Claim) {
    match claim
    case Resting(id) => id in book.orders
    case Coming(intent) => intent in book.inFlight
  }

  // What a standing claim has become: the resting order itself, or one realising the request.
  ghost predicate Becomes(before: Book, claim: Claim, after: Book, id: nat) {
    && id in after.orders
    && match claim
       case Resting(own) => id == own && own in before.orders && after.orders[id] == before.orders[own]
       case Coming(intent) => Realises(intent, after.orders[id])
  }

  // A standing claim may come to rest without disturbing anything else.
  lemma ClaimRests(start: Book, session: seq<Event>, script: seq<Command>, claim: Claim)
    returns (more: seq<Event>, id: nat)
    requires LegalSession(start, session) && Follows(session, script) && Stands(BookAfter(start, session), claim)
    ensures LegalSession(start, more) && Follows(more, script)
    ensures Becomes(BookAfter(start, session), claim, BookAfter(start, more), id)
    ensures claim.Coming? ==> id !in BookAfter(start, session).orders
    ensures forall other | other in BookAfter(start, session).orders ::
              other in BookAfter(start, more).orders
              && BookAfter(start, more).orders[other] == BookAfter(start, session).orders[other]
    ensures forall other | Stands(BookAfter(start, session), other) && other != claim ::
              Stands(BookAfter(start, more), other)
  {
    more := session;
    match claim {
      case Resting(own) => id := own;
      case Coming(intent) =>
        SessionCovers(start, session);
        id := IdsAreBelow(Seen(start, session));
        LandingIsLegal(start, session, script, intent, id);
        more := session + [Landed(Fulfilment(intent, id))];
    }
  }

  // Two standing claims may both come to rest.
  lemma TwoClaimsRest(start: Book, session: seq<Event>, script: seq<Command>, a: Claim, b: Claim)
    returns (more: seq<Event>, x: nat, y: nat)
    requires LegalSession(start, session) && Follows(session, script) && a != b
    requires Stands(BookAfter(start, session), a) && Stands(BookAfter(start, session), b)
    ensures LegalSession(start, more) && Follows(more, script) && x != y
    ensures Becomes(BookAfter(start, session), a, BookAfter(start, more), x)
    ensures Becomes(BookAfter(start, session), b, BookAfter(start, more), y)
  {
    var one;
    one, x := ClaimRests(start, session, script, a);
    more, y := ClaimRests(start, one, script, b);
  }

  lemma RealisedRole(intent: Intent, order: OpenOrder)
    requires Realises(intent, order)
    ensures intent.TakeProfit? ==> Protection.IsBotTakeProfit(order)
    ensures intent.Dca? ==> IsBotOrder(order, "dca")
  {
    BearerRole(order, intent);
  }

  lemma {:induction false} TwoTps(r: Reading, start: Book) returns (session: seq<Event>)
    requires Read(r, start) && !Sole(TpClaimsOf(r, start))
    ensures LegalSession(start, session) && Follows(session, Script(r)) && !AtMostOneTp(BookAfter(start, session))
  {
    var a, b :| a in TpClaimsOf(r, start) && b in TpClaimsOf(r, start) && a != b;
    if a in TpClaims(start) && b in TpClaims(start) {
      session := TwoTpsRest(start, [], Script(r), a, b);
    } else if a in TpClaims(start) {
      session := PlacedBesideTp(r, start, a);
    } else {
      session := PlacedBesideTp(r, start, b);
    }
  }

  lemma TwoTpsRest(start: Book, session: seq<Event>, script: seq<Command>, a: Claim, b: Claim)
    returns (more: seq<Event>)
    requires LegalSession(start, session) && Follows(session, script)
    requires a in TpClaims(BookAfter(start, session)) && b in TpClaims(BookAfter(start, session)) && a != b
    ensures LegalSession(start, more) && Follows(more, script) && !AtMostOneTp(BookAfter(start, more))
  {
    var x, y;
    more, x, y := TwoClaimsRest(start, session, script, a, b);
    if a.Coming? {
      RealisedRole(a.intent, BookAfter(start, more).orders[x]);
    }
    if b.Coming? {
      RealisedRole(b.intent, BookAfter(start, more).orders[y]);
    }
    assert HoldsTp(BookAfter(start, more), x) && HoldsTp(BookAfter(start, more), y);
  }

  lemma PlacedBesideTp(r: Reading, start: Book, claim: Claim) returns (session: seq<Event>)
    requires Read(r, start) && CreatesTp(r, start) && claim in TpClaims(start) && claim != Coming(PlannedTp(r))
    ensures LegalSession(start, session) && Follows(session, Script(r)) && !AtMostOneTp(BookAfter(start, session))
  {
    var planned := PlannedTp(r);
    var id := IdsAreBelow(start.orders.Keys);
    FirstIsPlaceTp(r);
    var placing := Issued(Place(planned), Created(Fulfilment(planned, id)), false);
    OneMore(start, [], placing, Script(r));
    assert [] + [placing] == [placing];
    RealisedRole(planned, Fulfilment(planned, id));
    var book := BookAfter(start, [placing]);
    assert book == Added(start, Fulfilment(planned, id));
    assert Resting(id) in TpClaims(book) && claim in TpClaims(book);
    session := TwoTpsRest(start, [placing], Script(r), Resting(id), claim);
  }

  // Two take profits never rest at once, in any state of any course of the sync, exactly when the
  // resting ones, the requests under way and the one the sync would create are no more than one.
  lemma {:induction false} SyncKeepsOneTpExactly(r: Reading, start: Book)
    requires Read(r, start)
    ensures AlwaysOneTp(r, start) <==> Sole(TpClaimsOf(r, start))
  {
    if Sole(TpClaimsOf(r, start)) {
      forall session | LegalSession(start, session) && Follows(session, Script(r))
        ensures AtMostOneTp(BookAfter(start, session))
      {
        SyncKeepsOneTp(r, start, session);
      }
    } else {
      var session := TwoTps(r, start);
    }
  }

  // With no requests under way: exactly when the match was listed, or no take profit rests, or the
  // planned identity is taken.
  lemma {:induction false} OneTpWithoutRequests(r: Reading, start: Book)
    requires Read(r, start) && AtMostOneTp(start) && start.inFlight == {}
    ensures AlwaysOneTp(r, start) <==> TpListed(r) || !SomeTp(start) || Taken(start, PlannedTp(r))
  {
    TpMatchExactly(r);
    SyncKeepsOneTpExactly(r, start);
    AmbiguousMeansHold(r, start);
    if CreatesTp(r, start) && SomeTp(start) {
      var id :| HoldsTp(start, id);
      assert Resting(id) in TpClaimsOf(r, start) && Coming(PlannedTp(r)) in TpClaimsOf(r, start);
    } else {
      FewClaims(r, start);
    }
  }

  lemma FewClaims(r: Reading, start: Book)
    requires AtMostOneTp(start) && start.inFlight == {} && !(CreatesTp(r, start) && SomeTp(start))
    ensures Sole(TpClaimsOf(r, start))
  {
    var claims := TpClaimsOf(r, start);
    forall a | a in claims
      ensures if a.Resting? then HoldsTp(start, a.id) else CreatesTp(r, start) && a == Coming(PlannedTp(r))
    {
    }
  }

  // What a resting take profit is, in terms of the claims at the start.
  ghost predicate TpClaimed(r: Reading, start: Book, order: OpenOrder) {
    if order.orderId in start.orders then Resting(order.orderId) in TpClaims(start)
    else
      && order.linkId.Minted? && order.linkId.intent.TakeProfit?
      && (Coming(order.linkId.intent) in TpClaimsOf(r, start)
          || (order.linkId.intent == PlannedTp(r) && Borne(start, PlannedTp(r))))
  }

  lemma {:induction false} TpOrigin(r: Reading, start: Book, session: seq<Event>, id: nat)
    requires Read(r, start) && LegalSession(start, session) && Follows(session, Script(r))
    requires HoldsTp(BookAfter(start, session), id)
    ensures BookAfter(start, session).orders[id].orderId == id
            && TpClaimed(r, start, BookAfter(start, session).orders[id])
  {
    var order := BookAfter(start, session).orders[id];
    SessionCovers(start, session);
    Origin(start, session, Script(r), id);
    if id in start.orders {
      assert HoldsTp(start, id);
    } else {
      var intent := order.linkId.intent;
      BearerRole(order, intent);
      if intent !in start.inFlight {
        var k :| 0 <= k < Count(session) && Script(r)[..Count(session)][k] == Place(intent);
        WherePlacementsAre(r, k);
        if intent in start.filled {
          FilledIsNeverNew(start, session, intent, id);
        }
      }
    }
  }

  lemma {:induction false} SyncKeepsOneTp(r: Reading, start: Book, session: seq<Event>)
    requires Read(r, start) && LegalSession(start, session) && Follows(session, Script(r))
    requires Sole(TpClaimsOf(r, start))
    ensures AtMostOneTp(BookAfter(start, session))
  {
    var book := BookAfter(start, session);
    forall id, other | HoldsTp(book, id) && HoldsTp(book, other) ensures id == other {
      TpOrigin(r, start, session, id);
      TpOrigin(r, start, session, other);
      TwoClaimedAreOne(r, start, session, id, other);
    }
  }

  lemma {:induction false} TwoClaimedAreOne(r: Reading, start: Book, session: seq<Event>, id: nat, other: nat)
    requires Read(r, start) && LegalSession(start, session) && Follows(session, Script(r)) && Sole(TpClaimsOf(r, start))
    requires var book := BookAfter(start, session);
             && HoldsTp(book, id) && book.orders[id].orderId == id && TpClaimed(r, start, book.orders[id])
             && HoldsTp(book, other) && book.orders[other].orderId == other && TpClaimed(r, start, book.orders[other])
    ensures id == other
  {
    var book, planned := BookAfter(start, session), PlannedTp(r);
    if id in start.orders && other in start.orders {
      assert Resting(id) == Resting(other);
    } else {
      if Borne(start, planned) {
        var t :| t in start.orders && Bears(start.orders[t], planned);
        BearerRole(start.orders[t], planned);
        assert Resting(t) in TpClaims(start);
        if id in start.orders {
          Origin(start, session, Script(r), id);
          assert Resting(id) == Resting(t);
        }
        if other in start.orders {
          Origin(start, session, Script(r), other);
          assert Resting(other) == Resting(t);
        }
      }
      if id !in start.orders && other !in start.orders {
        OneBearer(start, session, book.orders[id].linkId.intent, id, other);
      } else if id !in start.orders {
        OneBearer(start, session, book.orders[id].linkId.intent, id, other);
      } else {
        OneBearer(start, session, book.orders[other].linkId.intent, other, id);
      }
    }
  }

  // Protection is kept in every course of the sync with the position open exactly when the match
  // was listed or the planned identity is free. Both can be looked up before the call.
  lemma {:induction false} ProtectionKeptExactly(r: Reading, start: Book)
    requires Read(r, start) && IsOpen(start.position) && SomeTp(start) && AtMostOneTp(start)
    ensures (forall session | LegalSession(start, session) && Follows(session, Script(r))
             && StaysOpen(start, session) ::
               SomeTp(BookAfter(start, session)))
            <==> Replaceable(r, start)
  {
    if Replaceable(r, start) {
      forall session | LegalSession(start, session) && Follows(session, Script(r)) && StaysOpen(start, session)
        ensures SomeTp(BookAfter(start, session))
      {
        SyncKeepsProtection(r, start, session);
      }
    } else {
      var session := UnprotectedEnd(r, start);
    }
  }

  // With the planned identity taken, a sync in which nothing goes wrong strips the protection.
  lemma {:induction false} UnprotectedEnd(r: Reading, start: Book) returns (session: seq<Event>)
    requires Read(r, start) && IsOpen(start.position) && AtMostOneTp(start) && !Replaceable(r, start)
    ensures LegalSession(start, session) && Completes(session, Script(r)) && StaysOpen(start, session)
    ensures !SomeTp(BookAfter(start, session))
  {
    var id := IdsAreBelow(start.orders.Keys);
    session := IdealSession(start, Script(r), |Script(r)|, id);
    IdealIsLegal(start, Script(r), |Script(r)|, id);
    IdealIsQuiet(start, Script(r), |Script(r)|, id);
    AmbiguousMeansHold(r, start);
    forall tp ensures !HoldsTp(BookAfter(start, session), tp) {
      NoTpLeft(r, start, session, tp);
    }
  }

  lemma {:induction false} IdealIsQuiet(start: Book, script: seq<Command>, n: nat, firstId: nat)
    requires n <= |script|
    ensures Quiet(start, IdealSession(start, script, n, firstId))
  {
    if n > 0 {
      IdealIsQuiet(start, script, n - 1, firstId);
      var front := IdealSession(start, script, n - 1, firstId);
      assert IdealSession(start, script, n, firstId)[..|front|] == front;
    }
  }

  // In a quiet exchange a new order comes from one of the issued placements.
  lemma {:induction false} QuietOrigin(start: Book, session: seq<Event>, script: seq<Command>, id: nat)
    requires LegalSession(start, session) && Follows(session, script) && Quiet(start, session)
    requires id in BookAfter(start, session).orders && id !in start.orders
    ensures var order := BookAfter(start, session).orders[id];
            order.linkId.Minted? && Place(order.linkId.intent) in script[..Count(session)]
  {
    var front, last := session[..|session| - 1], session[|session| - 1];
    assert script[..Count(front)] <= script[..Count(session)];
    SessionCovers(start, front);
    if id in BookAfter(start, front).orders
       && BookAfter(start, front).orders[id] == BookAfter(start, session).orders[id] {
      QuietOrigin(start, front, script, id);
    } else {
      assert script[..Count(session)][Count(front)] == last.command;
    }
  }

  // A taken identity whose placement could only come first creates nothing.
  lemma {:induction false} QuietTakenIsNeverNew(start: Book, session: seq<Event>, script: seq<Command>, planned: Intent)
    requires LegalSession(start, session) && Follows(session, script) && Quiet(start, session) && Taken(start, planned)
    requires forall k | 0 < k < |script| :: script[k] != Place(planned)
    ensures !NewTpRests(start, BookAfter(start, session), planned)
  {
    if session != [] {
      var front, last := session[..|session| - 1], session[|session| - 1];
      QuietTakenIsNeverNew(start, front, script, planned);
      QuietStart(start, front);
      SessionCovers(start, front);
      var before, after := BookAfter(start, front), BookAfter(start, session);
      if id :| id in after.orders && id !in start.orders && Bears(after.orders[id], planned) {
        assert id !in before.orders || !Bears(before.orders[id], planned);
      }
    }
  }

  // A completed quiet sync whose planned identity was taken leaves no take profit.
  lemma {:induction false} NoTpLeft(r: Reading, start: Book, session: seq<Event>, id: nat)
    requires Read(r, start) && LegalSession(start, session) && Completes(session, Script(r)) && Quiet(start, session)
    requires !Assessed(r).status.Ambiguous? && !Replaceable(r, start)
    ensures !HoldsTp(BookAfter(start, session), id)
  {
    TpMatchExactly(r);
    OnlyFirstPlacesTp(r);
    QuietTakenIsNeverNew(start, session, Script(r), PlannedTp(r));
    if HoldsTp(BookAfter(start, session), id) {
      TpLeft(r, start, session, id);
      QuietOrigin(start, session, Script(r), id);
      var intent := BookAfter(start, session).orders[id].linkId.intent;
      BearerRole(BookAfter(start, session).orders[id], intent);
      var k :| 0 <= k < |Script(r)| && Script(r)[..|Script(r)|][k] == Place(intent);
      WherePlacementsAre(r, k);
    }
  }

  // ---------------------------------------------------------------- one DCA

  ghost predicate SoleDca(book: Book) {
    Sole(DcaClaims(book))
  }

  // No DCA request with another identity is under way when the sync is about to create one.
  ghost predicate ClearToPlace(r: Reading, start: Book) {
    !Assessed(r).status.Ambiguous? && WouldPlace(r) && r.allowed && PlannedDca(r) !in start.filled ==>
      forall intent | intent in start.inFlight && intent.Dca? :: intent == PlannedDca(r)
  }

  // The claim is not an order of the start and is for this intent.
  ghost predicate ClaimsFor(start: Book, book: Book, claim: Claim, intent: Intent) {
    match claim
    case Resting(id) => id in book.orders && id !in start.orders && Bears(book.orders[id], intent)
    case Coming(own) => own == intent && own in book.inFlight
  }

  lemma {:induction false} OneClaimPerIntent(start: Book, session: seq<Event>, a: Claim, b: Claim, intent: Intent)
    requires LegalSession(start, session)
    requires ClaimsFor(start, BookAfter(start, session), a, intent)
    requires ClaimsFor(start, BookAfter(start, session), b, intent)
    ensures a == b
  {
    var book := BookAfter(start, session);
    SessionCovers(start, session);
    if a.Resting? && b.Resting? {
      OneBearer(start, session, intent, a.id, b.id);
    } else {
      assert intent in book.inFlight ==> !Borne(book, intent);
    }
  }

  // Where a DCA claim comes from: an order of the start, or a sourced intent.
  lemma {:induction false} DcaClaimOrigin(start: Book, session: seq<Event>, script: seq<Command>, claim: Claim)
    returns (intent: Option<Intent>)
    requires LegalSession(start, session) && Follows(session, script) && claim in DcaClaims(BookAfter(start, session))
    ensures intent.None? ==> claim in DcaClaims(start) && claim.Resting?
    ensures intent.Some? ==>
              && intent.value.Dca? && Sourced(start, script, Count(session), intent.value)
              && ClaimsFor(start, BookAfter(start, session), claim, intent.value)
  {
    var book := BookAfter(start, session);
    match claim {
      case Coming(own) =>
        InFlightOrigin(start, session, script, own);
        intent := Some(own);
      case Resting(id) =>
        Origin(start, session, script, id);
        SessionCovers(start, session);
        if id in start.orders {
          intent := None;
        } else {
          intent := Some(book.orders[id].linkId.intent);
          BearerRole(book.orders[id], intent.value);
        }
    }
  }

  // As long as no DCA placement has been issued, a sole claim stays the sole one.
  lemma {:induction false} SoleDcaWithoutPlacement(start: Book, session: seq<Event>, script: seq<Command>)
    requires LegalSession(start, session) && Follows(session, script) && SoleDca(start)
    requires forall intent: Intent | Place(intent) in script[..Count(session)] :: !intent.Dca?
    ensures SoleDca(BookAfter(start, session))
  {
    forall a, b | a in DcaClaims(BookAfter(start, session)) && b in DcaClaims(BookAfter(start, session))
      ensures a == b
    {
      var i := DcaClaimOrigin(start, session, script, a);
      var j := DcaClaimOrigin(start, session, script, b);
      var first := if i.None? then a else Coming(i.value);
      var second := if j.None? then b else Coming(j.value);
      assert first in DcaClaims(start) && second in DcaClaims(start);
      if i.Some? {
        OneClaimPerIntent(start, session, a, b, i.value);
      }
    }
  }

  // Once the closing DCA placement has been issued, nothing of the start is left, and every claim
  // is for a request that was under way or for the planned order.
  lemma {:induction false} PlacedDcaClaim(r: Reading, start: Book, session: seq<Event>, claim: Claim)
    returns (intent: Intent)
    requires Read(r, start) && LegalSession(start, session) && Follows(session, Script(r)) && ClearToPlace(r, start)
    requires PlacesDca(r) && 0 < Count(session) == |Script(r)| && claim in DcaClaims(BookAfter(start, session))
    ensures intent.Dca? && ClaimsFor(start, BookAfter(start, session), claim, intent)
    ensures if PlannedDca(r) in start.filled then intent in start.inFlight else intent == PlannedDca(r)
  {
    DcaMatchExactly(r);
    var script := Script(r);
    var origin := DcaClaimOrigin(start, session, script, claim);
    if origin.None? {
      EarlierDcaIsGone(r, start, session, claim.id);
    }
    intent := origin.value;
    if intent !in start.inFlight {
      var k :| 0 <= k < |script| && script[..|script|][k] == Place(intent);
      WherePlacementsAre(r, k);
    }
    if intent in start.filled {
      FilledIsNeverNew(start, session, intent, if claim.Resting? then claim.id else 0);
    }
  }

  lemma {:induction false} EarlierDcaIsGone(r: Reading, start: Book, session: seq<Event>, id: nat)
    requires Read(r, start) && LegalSession(start, session) && Follows(session, Script(r))
    requires PlacesDca(r) && 0 < Count(session) == |Script(r)| && HoldsDca(start, id)
    ensures id !in BookAfter(start, session).orders
  {
    var k := StaleDcaIsCancelled(r, start.orders[id]);
    LastIsPlaceDca(r);
    NthFollows(session, Script(r), k);
    CancelledIsGone(start, session, Script(r), k);
  }

  // A sole DCA claim stays the sole one in every state of the sync.
  lemma {:induction false} SyncKeepsSoleDca(r: Reading, start: Book, session: seq<Event>)
    requires Read(r, start) && LegalSession(start, session) && Follows(session, Script(r))
    requires SoleDca(start) && ClearToPlace(r, start)
    ensures SoleDca(BookAfter(start, session))
  {
    var script, book := Script(r), BookAfter(start, session);
    if intent: Intent :| Place(intent) in script[..Count(session)] && intent.Dca? {
      var k :| 0 <= k < Count(session) && script[..Count(session)][k] == Place(intent);
      WherePlacementsAre(r, k);
      forall a, b | a in DcaClaims(book) && b in DcaClaims(book) ensures a == b {
        var i := PlacedDcaClaim(r, start, session, a);
        var j := PlacedDcaClaim(r, start, session, b);
        if PlannedDca(r) in start.filled {
          assert Coming(i) in DcaClaims(start) && Coming(j) in DcaClaims(start);
        }
        OneClaimPerIntent(start, session, a, b, i);
      }
    } else {
      SoleDcaWithoutPlacement(start, session, script);
    }
  }

  lemma SoleDcaIsOne(book: Book)
    requires SoleDca(book)
    ensures AtMostOneDca(book)
  {
    forall id, other | HoldsDca(book, id) && HoldsDca(book, other) ensures id == other {
      assert Resting(id) in DcaClaims(book) && Resting(other) in DcaClaims(book);
    }
  }

  ghost predicate AlwaysOneDca(r: Reading, start: Book) {
    forall session | LegalSession(start, session) && Follows(session, Script(r)) ::
      AtMostOneDca(BookAfter(start, session))
  }

  // Two DCA orders never rest at once, in any state of any course of the sync, exactly when there is
  // at most one to begin with, counting requests under way, and none of those has another identity
  // when the sync is about to create an order.
  lemma {:induction false} SyncKeepsOneDcaExactly(r: Reading, start: Book)
    requires Read(r, start)
    ensures AlwaysOneDca(r, start) <==> SoleDca(start) && ClearToPlace(r, start)
  {
    if !SoleDca(start) {
      var session := TwoDcasRest(start, Script(r));
    } else if !ClearToPlace(r, start) {
      var session := PlacedBesideDca(r, start);
    } else {
      forall session | LegalSession(start, session) && Follows(session, Script(r))
        ensures AtMostOneDca(BookAfter(start, session))
      {
        SyncKeepsSoleDca(r, start, session);
        SoleDcaIsOne(BookAfter(start, session));
      }
    }
  }

  lemma {:induction false} TwoDcasRest(start: Book, script: seq<Command>) returns (session: seq<Event>)
    requires ValidBook(start) && !SoleDca(start)
    ensures LegalSession(start, session) && Follows(session, script) && !AtMostOneDca(BookAfter(start, session))
  {
    var a, b :| a in DcaClaims(start) && b in DcaClaims(start) && a != b;
    var x, y;
    session, x, y := TwoClaimsRest(start, [], script, a, b);
    if a.Coming? {
      RealisedRole(a.intent, BookAfter(start, session).orders[x]);
    }
    if b.Coming? {
      RealisedRole(b.intent, BookAfter(start, session).orders[y]);
    }
    assert HoldsDca(BookAfter(start, session), x) && HoldsDca(BookAfter(start, session), y);
  }

  // The late request lands beside the order that was just created.
  lemma {:induction false} PlacedBesideDca(r: Reading, start: Book) returns (session: seq<Event>)
    requires Read(r, start) && SoleDca(start) && !ClearToPlace(r, start)
    ensures LegalSession(start, session) && Follows(session, Script(r)) && !AtMostOneDca(BookAfter(start, session))
  {
    DcaMatchExactly(r);
    var late :| late in start.inFlight && late.Dca? && late != PlannedDca(r);
    OnlyRequest(start, late, PlannedDca(r));
    var firstId := IdsAreBelow(start.orders.Keys);
    var n := |Script(r)| - 1;
    LastIsPlaceDca(r);
    var front := IdealSession(start, Script(r), n, firstId);
    IdealIsLegal(start, Script(r), n, firstId);
    NotBorneBeforeLast(r, start, front);
    OnlyPlannedDcaIsPlaced(r, late);
    session := LandsBesideLast(start, front, Script(r), PlannedDca(r), late, firstId + n);
  }

  lemma OnlyRequest(start: Book, late: Intent, other: Intent)
    requires SoleDca(start) && late in start.inFlight && late.Dca? && other.Dca? && other != late
    ensures other !in start.inFlight
  {
    assert Coming(late) in DcaClaims(start) && (other in start.inFlight ==> Coming(other) in DcaClaims(start));
  }

  lemma LandsBesideLast(start: Book, front: seq<Event>, script: seq<Command>, planned: Intent, late: Intent, id: nat)
    returns (session: seq<Event>)
    requires LegalSession(start, front) && Follows(front, script) && !Failed(front)
    requires Count(front) < |script| && script[Count(front)] == Place(planned) && id !in Seen(start, front)
    requires planned.Dca? && late.Dca? && planned != late && !Taken(BookAfter(start, front), planned)
    requires late in BookAfter(start, front).inFlight
    ensures LegalSession(start, session) && Follows(session, script) && !AtMostOneDca(BookAfter(start, session))
  {
    var order := Fulfilment(planned, id);
    var placing := Issued(Place(planned), Created(order), false);
    OneMore(start, front, placing, script);
    RealisedRole(planned, order);
    var done := front + [placing];
    assert HoldsDca(BookAfter(start, done), id);
    var other;
    session, other := ClaimRests(start, done, script, Coming(late));
    RealisedRole(late, BookAfter(start, session).orders[other]);
    assert HoldsDca(BookAfter(start, session), other) && HoldsDca(BookAfter(start, session), id);
  }

  lemma OnlyPlannedDcaIsPlaced(r: Reading, intent: Intent)
    requires intent.Dca? && PlacesDca(r) && intent != PlannedDca(r)
    ensures Place(intent) !in Script(r)
  {
    if Place(intent) in Script(r) {
      var k :| 0 <= k < |Script(r)| && Script(r)[k] == Place(intent);
      WherePlacementsAre(r, k);
    }
  }

  // Before the closing placement no order bears the planned DCA's identity, unless its request was
  // under way: listed ones have been cancelled, and nothing else places it.
  lemma {:induction false} NotBorneBeforeLast(r: Reading, start: Book, front: seq<Event>)
    requires Read(r, start) && LegalSession(start, front) && Follows(front, Script(r)) && !Failed(front)
    requires !Assessed(r).status.Ambiguous? && PlacesDca(r) && Count(front) == |Script(r)| - 1
    requires PlannedDca(r) !in start.inFlight
    ensures !Borne(BookAfter(start, front), PlannedDca(r))
  {
    var planned, book := PlannedDca(r), BookAfter(start, front);
    if id :| id in book.orders && Bears(book.orders[id], planned) {
      Origin(start, front, Script(r), id);
      BearerRole(book.orders[id], planned);
      if id in start.orders {
        ListedDcaIsGone(r, start, front, id);
      } else {
        PlannedDcaIsLast(r);
      }
    }
  }

  lemma {:induction false} ListedDcaIsGone(r: Reading, start: Book, front: seq<Event>, id: nat)
    requires Read(r, start) && LegalSession(start, front) && Follows(front, Script(r)) && !Failed(front)
    requires !Assessed(r).status.Ambiguous? && PlacesDca(r) && Count(front) == |Script(r)| - 1 && HoldsDca(start, id)
    ensures id !in BookAfter(start, front).orders
  {
    var k := StaleDcaIsCancelled(r, start.orders[id]);
    LastIsPlaceDca(r);
    NthFollows(front, Script(r), k);
    CancelledIsGone(start, front, Script(r), k);
  }

  lemma PlannedDcaIsLast(r: Reading)
    requires PlacesDca(r) && |Script(r)| > 0
    ensures Place(PlannedDca(r)) !in Script(r)[..|Script(r)| - 1]
  {
    var n := |Script(r)| - 1;
    if Place(PlannedDca(r)) in Script(r)[..n] {
      var k :| 0 <= k < n && Script(r)[..n][k] == Place(PlannedDca(r));
      WherePlacementsAre(r, k);
    }
  }

  // ---------------------------------------------------------------- whole runs

  // Sync after sync. Between two of them the exchange moves on by itself; each reads the book it
  // starts from, and one that was held, failed early or crashed has issued only part of its script.
  datatype Round = Round(before: Book, idle: seq<Event>, reading: Reading, session: seq<Event>)

  function Start(round: Round): Book {
    BookAfter(round.before, round.idle)
  }

  function End(round: Round): Book {
    BookAfter(Start(round), round.session)
  }

  ghost predicate LegalRound(round: Round) {
    && LegalSession(round.before, round.idle) && Count(round.idle) == 0
    && Read(round.reading, Start(round))
    && LegalSession(Start(round), round.session) && Follows(round.session, Script(round.reading))
  }

  ghost predicate IsRun(rounds: seq<Round>) {
    forall i | 0 <= i < |rounds| :: RunsAt(rounds, i)
  }

  ghost predicate RunsAt(rounds: seq<Round>, i: nat)
    requires i < |rounds|
  {
    LegalRound(rounds[i]) && (i > 0 ==> rounds[i].before == End(rounds[i - 1]))
  }

  lemma {:induction false} PrefixIsLegal(start: Book, session: seq<Event>, script: seq<Command>, n: nat)
    requires LegalSession(start, session) && Follows(session, script) && n <= |session|
    ensures LegalSession(start, session[..n]) && Follows(session[..n], script)
    ensures StaysOpen(start, session) ==> StaysOpen(start, session[..n])
    decreases |session| - n
  {
    if n == |session| {
      assert session[..n] == session;
    } else {
      PrefixIsLegal(start, session, script, n + 1);
      Prefixes(session, n);
      OneMore(start, session[..n], session[n], script);
    }
  }

  // A session without commands follows every script.
  lemma {:induction false} IdleFollows(session: seq<Event>, script: seq<Command>)
    requires Count(session) == 0
    ensures Follows(session, script)
  {
    if session != [] {
      IdleFollows(session[..|session| - 1], script);
    }
  }

  lemma {:induction false} IdleKeepsSoleDca(before: Book, idle: seq<Event>)
    requires LegalSession(before, idle) && Count(idle) == 0 && SoleDca(before)
    ensures SoleDca(BookAfter(before, idle))
  {
    IdleFollows(idle, []);
    SoleDcaWithoutPlacement(before, idle, []);
  }

  lemma {:induction false} IdleKeepsTp(before: Book, idle: seq<Event>)
    requires LegalSession(before, idle) && Count(idle) == 0 && StaysOpen(before, idle)
    ensures SomeTp(before) ==> SomeTp(BookAfter(before, idle))
    ensures !AtMostOneTp(before) ==> !AtMostOneTp(BookAfter(before, idle))
  {
    IdleFollows(idle, []);
    forall id | HoldsTp(before, id) ensures HoldsTp(BookAfter(before, idle), id) {
      TpSurvives(before, idle, [], id);
    }
    if !AtMostOneTp(before) {
      var id, other :| HoldsTp(before, id) && HoldsTp(before, other) && id != other;
      assert HoldsTp(BookAfter(before, idle), id) && HoldsTp(BookAfter(before, idle), other);
    }
  }

  // The sync is about to create a DCA only when none with another identity is under way.
  ghost predicate ClearAt(rounds: seq<Round>, i: nat)
    requires i < |rounds|
  {
    ClearToPlace(rounds[i].reading, Start(rounds[i]))
  }

  // Over any run, in every state of every sync: a sole DCA, counting requests under way, stays so.
  lemma {:induction false} RunKeepsOneDca(rounds: seq<Round>, i: nat, n: nat)
    requires IsRun(rounds) && i < |rounds| && n <= |rounds[i].session|
    requires SoleDca(rounds[0].before) && forall j | 0 <= j < |rounds| :: ClearAt(rounds, j)
    ensures SoleDca(BookAfter(Start(rounds[i]), rounds[i].session[..n]))
    ensures AtMostOneDca(BookAfter(Start(rounds[i]), rounds[i].session[..n]))
  {
    assert RunsAt(rounds, i) && ClearAt(rounds, i);
    var round := rounds[i];
    if i > 0 {
      var last := rounds[i - 1];
      RunKeepsOneDca(rounds, i - 1, |last.session|);
      assert last.session[..|last.session|] == last.session;
    }
    IdleKeepsSoleDca(round.before, round.idle);
    PrefixIsLegal(Start(round), round.session, Script(round.reading), n);
    SyncKeepsSoleDca(round.reading, Start(round), round.session[..n]);
    SoleDcaIsOne(BookAfter(Start(round), round.session[..n]));
  }

  // The position is open throughout the round.
  ghost predicate OpenThroughout(round: Round) {
    StaysOpen(round.before, round.idle) && StaysOpen(Start(round), round.session)
  }

  ghost predicate OpenAt(rounds: seq<Round>, i: nat)
    requires i < |rounds|
  {
    OpenThroughout(rounds[i])
  }

  ghost predicate ReplaceableAt(rounds: seq<Round>, i: nat)
    requires i < |rounds|
  {
    AtMostOneTp(Start(rounds[i])) ==> Replaceable(rounds[i].reading, Start(rounds[i]))
  }

  lemma RoundStaysProtected(round: Round, n: nat)
    requires LegalRound(round) && OpenThroughout(round) && n <= |round.session| && SomeTp(round.before)
    requires AtMostOneTp(Start(round)) ==> Replaceable(round.reading, Start(round))
    ensures SomeTp(BookAfter(Start(round), round.session[..n]))
  {
    IdleKeepsTp(round.before, round.idle);
    PrefixIsLegal(Start(round), round.session, Script(round.reading), n);
    SyncKeepsProtection(round.reading, Start(round), round.session[..n]);
  }

  // Over any run during which the position stays open, a position protected at the start is
  // protected in every state of every sync, as long as each sync finds its planned take profit
  // listed or its identity free.
  lemma {:induction false} RunStaysProtected(rounds: seq<Round>, i: nat, n: nat)
    requires IsRun(rounds) && i < |rounds| && n <= |rounds[i].session|
    requires SomeTp(rounds[0].before)
    requires forall j | 0 <= j < |rounds| :: OpenAt(rounds, j) && ReplaceableAt(rounds, j)
    ensures SomeTp(BookAfter(Start(rounds[i]), rounds[i].session[..n]))
  {
    assert RunsAt(rounds, i) && OpenAt(rounds, i) && ReplaceableAt(rounds, i);
    if i > 0 {
      var last := rounds[i - 1];
      RunStaysProtected(rounds, i - 1, |last.session|);
      assert last.session[..|last.session|] == last.session;
    }
    RoundStaysProtected(rounds[i], n);
  }

  // Two resting take profits hold the sync, and still rest when it is over.
  lemma {:induction false} AmbiguousRoundHolds(round: Round)
    requires LegalRound(round) && OpenThroughout(round) && !AtMostOneTp(round.before)
    ensures Script(round.reading) == [] && !AtMostOneTp(End(round))
  {
    IdleKeepsTp(round.before, round.idle);
    AmbiguousMeansHold(round.reading, Start(round));
    IdleKeepsTp(Start(round), round.session);
  }

  // Over any run while the position is open: once two rest, no sync ever issues a command again.
  lemma {:induction false} AmbiguityPersists(rounds: seq<Round>, i: nat)
    requires IsRun(rounds) && i < |rounds|
    requires !AtMostOneTp(rounds[0].before) && forall j | 0 <= j < |rounds| :: OpenAt(rounds, j)
    ensures Script(rounds[i].reading) == [] && !AtMostOneTp(End(rounds[i]))
  {
    if i == 0 {
      assert RunsAt(rounds, 0) && OpenAt(rounds, 0);
      AmbiguousRoundHolds(rounds[0]);
    } else {
      AmbiguityPersists(rounds, i - 1);
      assert RunsAt(rounds, i) && OpenAt(rounds, i);
      AmbiguousNextHolds(rounds[i - 1], rounds[i]);
    }
  }

  lemma AmbiguousNextHolds(last: Round, round: Round)
    requires !AtMostOneTp(End(last)) && round.before == End(last) && LegalRound(round) && OpenThroughout(round)
    ensures Script(round.reading) == [] && !AtMostOneTp(End(round))
  {
    AmbiguousRoundHolds(round);
  }

  ghost predicate OpenRunFrom(rounds: seq<Round>, book: Book) {
    && IsRun(rounds) && (rounds != [] ==> rounds[0].before == book)
    && forall j | 0 <= j < |rounds| :: OpenAt(rounds, j)
  }

  // ---------------------------------------------------------------- two findings

  // The replacement is placed before the old take profit is cancelled, so a stop in between leaves
  // two resting; over any run from there, while the position is open, no sync issues a command.
  lemma {:induction false} StopAfterPlacingLeavesTwo(r: Reading, start: Book, placed: OpenOrder, rounds: seq<Round>,
                                                     i: nat)
    requires Read(r, start) && SomeTp(start) && CreatesTp(r, start)
    requires Realises(PlannedTp(r), placed) && placed.orderId !in start.orders
    ensures var session := [Issued(Place(PlannedTp(r)), Created(placed), false)];
            && LegalSession(start, session) && Follows(session, Script(r))
            && !AtMostOneTp(BookAfter(start, session))
            && (OpenRunFrom(rounds, BookAfter(start, session)) && i < |rounds| ==> Script(rounds[i].reading) == [])
  {
    var placing := Issued(Place(PlannedTp(r)), Created(placed), false);
    FirstIsPlaceTp(r);
    OneMore(start, [], placing, Script(r));
    assert [] + [placing] == [placing];
    var book := BookAfter(start, [placing]);
    var id :| HoldsTp(start, id);
    RealisedRole(PlannedTp(r), placed);
    assert HoldsTp(book, id) && HoldsTp(book, placed.orderId);
    if OpenRunFrom(rounds, book) && i < |rounds| {
      AmbiguityPersists(rounds, i);
    }
  }

  // A take profit whose price or quantity was amended by hand keeps the planned identity. The sync
  // finds no match, its placement is answered with that very order, and then cancels it: however
  // the sync goes, if it returns with the position open no take profit is left. It may so return.
  lemma {:induction false} AmendedTpIsStripped(r: Reading, start: Book, amended: OpenOrder, session: seq<Event>)
    returns (course: seq<Event>)
    requires Read(r, start) && IsOpen(start.position) && AtMostOneTp(start) && NoLateTp(r, start)
    requires amended in r.orders && Bears(amended, PlannedTp(r)) && !IsExitOf(amended, r.plan.takeProfit)
    ensures LegalSession(start, session) && Completes(session, Script(r)) && StaysOpen(start, session) ==>
              !SomeTp(BookAfter(start, session))
    ensures LegalSession(start, course) && Completes(course, Script(r)) && StaysOpen(start, course)
  {
    TpMatchExactly(r);
    BearerRole(amended, PlannedTp(r));
    assert HoldsTp(start, amended.orderId);
    if TpMatch(r).Some? {
      TpMatchIsListed(r);
      assert HoldsTp(start, TpMatch(r).value.orderId);
    }
    assert Borne(start, PlannedTp(r));
    if LegalSession(start, session) && Completes(session, Script(r)) && StaysOpen(start, session) {
      SyncEndsProtectedExactly(r, start, session);
    }
    course := UnprotectedEnd(r, start);
  }

  // ---------------------------------------------------------------- the fixed point

  // A quiet exchange: nothing drifts and nothing lands.
  ghost predicate Quiet(start: Book, session: seq<Event>) {
    if session == [] then true
    else
      var front, last := session[..|session| - 1], session[|session| - 1];
      Quiet(start, front) && !last.Landed? && (last.Drifted? ==> last.after == BookAfter(start, front))
  }

  lemma {:induction false} QuietKeeps(start: Book, session: seq<Event>, script: seq<Command>, id: nat)
    requires LegalSession(start, session) && Follows(session, script) && Quiet(start, session)
    requires id in start.orders && Cancel(id) !in script[..Count(session)]
    ensures id in BookAfter(start, session).orders && BookAfter(start, session).orders[id] == start.orders[id]
  {
    if session != [] {
      var front, last := session[..|session| - 1], session[|session| - 1];
      assert script[..Count(front)] <= script[..Count(session)];
      QuietKeeps(start, front, script, id);
      SessionCovers(start, front);
      if last.Issued? {
        assert script[..Count(session)][Count(front)] == last.command;
      }
    }
  }

  lemma {:induction false} QuietFilled(start: Book, session: seq<Event>)
    requires Quiet(start, session)
    ensures BookAfter(start, session).filled == start.filled
  {
    if session != [] {
      QuietFilled(start, session[..|session| - 1]);
    }
  }

  // The k-th command placed this order, which rests.
  ghost predicate PlacedAt(start: Book, session: seq<Event>, k: nat, order: OpenOrder) {
    && k < Count(session) && Nth(session, k).effect == Created(order)
    && order.orderId in BookAfter(start, session).orders && BookAfter(start, session).orders[order.orderId] == order
    && order.orderId !in start.orders
  }

  // The book just before the k-th command.
  ghost function BookBefore(start: Book, session: seq<Event>, k: nat): Book
    requires k < Count(session)
  {
    var last := |session| - 1;
    if session[last].Issued? && Count(session[..last]) == k
    then BookAfter(start, session[..last]) else BookBefore(start, session[..last], k)
  }

  // A placement that returned and whose identity was free has created an order that rests.
  lemma {:induction false} QuietPlacement(start: Book, session: seq<Event>, script: seq<Command>, k: nat)
    returns (order: OpenOrder)
    requires LegalSession(start, session) && Follows(session, script) && Quiet(start, session)
    requires CancelsListed(start, script)
    requires k < Count(session) && script[k].Place? && !Nth(session, k).raised
    requires !Taken(BookBefore(start, session, k), script[k].intent)
    ensures PlacedAt(start, session, k, order) && Realises(script[k].intent, order)
  {
    var front, last := session[..|session| - 1], session[|session| - 1];
    SessionCovers(start, front);
    NthFollows(session, script, k);
    if last.Issued? && Count(front) == k {
      order := last.effect.order;
    } else {
      order := QuietPlacement(start, front, script, k);
      if last.Issued? {
        assert last.command in script;
      }
    }
  }

  lemma {:induction false} QuietStart(start: Book, session: seq<Event>)
    requires Quiet(start, session)
    ensures Count(session) == 0 ==> BookAfter(start, session) == start
    ensures Count(session) > 0 ==> BookBefore(start, session, 0) == start
  {
    if session != [] {
      QuietStart(start, session[..|session| - 1]);
    }
  }

  // A first sync of a quiet exchange, and a second that reads the book it left behind.
  ghost predicate Revisits(first: Reading, start: Book, session: seq<Event>, second: Reading) {
    && Read(first, start) && LegalSession(start, session) && Completes(session, Script(first)) && Quiet(start, session)
    && AtMostOneTp(start)
    && Read(second, BookAfter(start, session)) && second.plan.takeProfit == first.plan.takeProfit
  }

  // A new order comes from one of the two placements.
  lemma {:induction false} QuietNewOrder(r: Reading, start: Book, session: seq<Event>, id: nat)
    requires Read(r, start) && LegalSession(start, session) && Follows(session, Script(r)) && Quiet(start, session)
    requires id in BookAfter(start, session).orders && id !in start.orders
    ensures var link := BookAfter(start, session).orders[id].linkId;
            && link.Minted?
            && if link.intent.TakeProfit? then TpMatch(r).None? && link.intent == PlannedTp(r)
               else PlacesDca(r) && link.intent == PlannedDca(r)
  {
    QuietOrigin(start, session, Script(r), id);
    var intent, n := BookAfter(start, session).orders[id].linkId.intent, Count(session);
    var k :| 0 <= k < n && Script(r)[..n][k] == Place(intent);
    WherePlacementsAre(r, k);
  }

  ghost predicate LeftTp(book: Book, tp: OpenOrder, target: OrderTarget) {
    && tp.orderId in book.orders && book.orders[tp.orderId] == tp
    && IsBotOrder(tp, "tp") && IsExitOf(tp, target)
  }

  // The take profit a quiet sync leaves.
  lemma {:induction false} QuietTp(r: Reading, start: Book, session: seq<Event>) returns (tp: OpenOrder)
    requires Read(r, start) && LegalSession(start, session) && Completes(session, Script(r)) && Quiet(start, session)
    requires !Assessed(r).status.Ambiguous? && Replaceable(r, start)
    ensures LeftTp(BookAfter(start, session), tp, r.plan.takeProfit)
  {
    TpMatchExactly(r);
    if TpMatch(r).Some? {
      tp := TpMatch(r).value;
      MatchIsKept(r, start);
      TpMatchIsListed(r);
      QuietKeeps(start, session, Script(r), tp.orderId);
    } else {
      CancelsTargetTheBook(r, start);
      FirstIsPlaceTp(r);
      tp := QuietNewTp(start, session, Script(r), PlannedTp(r));
    }
  }

  lemma {:induction false} QuietNewTp(start: Book, session: seq<Event>, script: seq<Command>, planned: Intent)
    returns (tp: OpenOrder)
    requires LegalSession(start, session) && Completes(session, script) && Quiet(start, session)
    requires CancelsListed(start, script)
    requires 0 < |script| && script[0] == Place(planned) && planned.TakeProfit? && !Taken(start, planned)
    ensures LeftTp(BookAfter(start, session), tp, planned.target)
  {
    NthFollows(session, script, 0);
    QuietStart(start, session);
    tp := QuietPlacement(start, session, script, 0);
    BearerRole(tp, planned);
  }

  // Only one order under the take-profit role is left.
  lemma {:induction false} QuietOneLeft(r: Reading, start: Book, session: seq<Event>)
    requires Read(r, start) && LegalSession(start, session) && Completes(session, Script(r)) && Quiet(start, session)
    requires !Assessed(r).status.Ambiguous?
    ensures OneUnderTpRole(BookAfter(start, session)) && AtMostOneTp(BookAfter(start, session))
  {
    var book := BookAfter(start, session);
    forall id, other | UnderTpRole(book, id) && UnderTpRole(book, other) ensures id == other {
      QuietTpLeft(r, start, session, id);
      QuietTpLeft(r, start, session, other);
      if id !in start.orders && other !in start.orders {
        OneBearer(start, session, PlannedTp(r), id, other);
      }
    }
    OneOfTheRoleIsOneTp(book);
  }

  lemma {:induction false} QuietTpLeft(r: Reading, start: Book, session: seq<Event>, id: nat)
    requires Read(r, start) && LegalSession(start, session) && Completes(session, Script(r)) && Quiet(start, session)
    requires !Assessed(r).status.Ambiguous? && UnderTpRole(BookAfter(start, session), id)
    ensures if id in start.orders then TpMatch(r).Some? && id == TpMatch(r).value.orderId
            else TpMatch(r).None? && Bears(BookAfter(start, session).orders[id], PlannedTp(r))
  {
    TpLeft(r, start, session, id);
    if id !in start.orders {
      QuietNewOrder(r, start, session, id);
      BearerRole(BookAfter(start, session).orders[id], BookAfter(start, session).orders[id].linkId.intent);
    }
  }

  // The second sync leaves the take profit alone exactly when the first could leave the planned one.
  lemma {:induction false} SecondTpScript(first: Reading, start: Book, session: seq<Event>, second: Reading)
    requires Revisits(first, start, session, second)
    ensures TpScript(second) == [] <==> Replaceable(first, start)
    ensures AtMostOneTp(BookAfter(start, session)) && !Assessed(second).status.Ambiguous?
  {
    var book := BookAfter(start, session);
    AmbiguousMeansHold(first, start);
    QuietOneLeft(first, start, session);
    AmbiguousMeansHold(second, book);
    if Replaceable(first, start) {
      var tp := QuietTp(first, start, session);
      assert tp in second.orders;
      forall o | o in second.orders && IsBotOrder(o, "tp") ensures o.orderId == tp.orderId {
        assert UnderTpRole(book, o.orderId) && UnderTpRole(book, tp.orderId);
      }
      OnlyMatchNeedsNothing(second, tp);
    } else if TpMatch(second).Some? {
      TpMatchIsListed(second);
      NoTpLeft(first, start, session, TpMatch(second).value.orderId);
    }
  }

  lemma OnlyMatchNeedsNothing(r: Reading, tp: OpenOrder)
    requires tp in r.orders && IsBotOrder(tp, "tp") && IsExitOf(tp, r.plan.takeProfit)
    requires forall o | o in r.orders && IsBotOrder(o, "tp") :: o.orderId == tp.orderId
    ensures TpScript(r) == []
  {
    var tps := BotOrders(r.orders, "tp");
    MatchIsFound(tps, Sell, r.plan.takeProfit, true);
    BotOrdersAre(r.orders, "tp", tp);
    forall o | o in tps ensures o.orderId == tp.orderId {
      BotOrdersAre(r.orders, "tp", o);
    }
    NothingToCancel(tps, TpMatch(r));
  }

  // The DCA that rests after a completed quiet sync.
  ghost predicate LeftDca(r: Reading, book: Book, dca: OpenOrder) {
    && dca.orderId in book.orders && book.orders[dca.orderId] == dca && IsBotOrder(dca, "dca")
    && (forall id | HoldsDca(book, id) :: id == dca.orderId)
    && (dca.partiallyFilled || (r.plan.nextDca.Some? && IsDcaOf(dca, r.plan.nextDca.value)))
  }


  // A quiet sync leaves a DCA: a match it kept, or the planned one, whose identity was not spent on
  // an order that has filled.
  ghost predicate LeavesDca(r: Reading, start: Book) {
    DcaListed(r) || (WouldPlace(r) && r.allowed && PlannedDca(r) !in start.filled)
  }

  lemma {:induction false} QuietDca(r: Reading, start: Book, session: seq<Event>) returns (left: Option<OpenOrder>)
    requires Read(r, start) && LegalSession(start, session) && Completes(session, Script(r)) && Quiet(start, session)
    requires !Assessed(r).status.Ambiguous?
    ensures left.Some? <==> LeavesDca(r, start)
    ensures left.Some? ==> !r.plan.maxDcaReached && LeftDca(r, BookAfter(start, session), left.value)
    ensures left.None? ==> forall id :: !HoldsDca(BookAfter(start, session), id)
  {
    DcaMatchExactly(r);
    var book := BookAfter(start, session);
    left := DcaMatch(r);
    if DcaMatch(r).Some? {
      DcaMatchIsListed(r);
      DcaMatchIsKept(r, start);
      QuietKeeps(start, session, Script(r), left.value.orderId);
    } else if LeavesDca(r, start) {
      var dca := QuietNewDca(r, start, session);
      left := Some(dca);
    }
    forall id | HoldsDca(book, id) ensures left.Some? && id == left.value.orderId {
      DcaLeft(r, start, session, id);
      if id !in start.orders {
        if PlannedDca(r) in start.filled {
          FilledIsNeverNew(start, session, PlannedDca(r), id);
        }
        OneBearer(start, session, PlannedDca(r), id, left.value.orderId);
      }
    }
  }

  lemma {:induction false} QuietNewDca(r: Reading, start: Book, session: seq<Event>) returns (dca: OpenOrder)
    requires Read(r, start) && LegalSession(start, session) && Completes(session, Script(r)) && Quiet(start, session)
    requires !Assessed(r).status.Ambiguous? && PlacesDca(r) && PlannedDca(r) !in start.filled
    ensures dca.orderId in BookAfter(start, session).orders && BookAfter(start, session).orders[dca.orderId] == dca
    ensures Bears(dca, PlannedDca(r)) && IsBotOrder(dca, "dca") && IsDcaOf(dca, r.plan.nextDca.value)
  {
    CancelsTargetTheBook(r, start);
    LastIsFree(r, start, session);
    dca := QuietLastPlacement(start, session, Script(r), PlannedDca(r));
  }

  // The last command is a placement whose identity is free when it goes out.
  ghost predicate EndsFree(start: Book, session: seq<Event>, script: seq<Command>, planned: Intent) {
    && 0 < |script| == Count(session) && script[|script| - 1] == Place(planned)
    && !Taken(BookBefore(start, session, |script| - 1), planned)
  }

  lemma LastIsFree(r: Reading, start: Book, session: seq<Event>)
    requires Read(r, start) && LegalSession(start, session) && Completes(session, Script(r)) && Quiet(start, session)
    requires !Assessed(r).status.Ambiguous? && PlacesDca(r) && PlannedDca(r) !in start.filled
    ensures EndsFree(start, session, Script(r), PlannedDca(r))
  {
    LastIsPlaceDca(r);
    FreeBeforeLast(r, start, session);
  }

  lemma {:induction false} QuietLastPlacement(start: Book, session: seq<Event>, script: seq<Command>, planned: Intent)
    returns (order: OpenOrder)
    requires LegalSession(start, session) && Completes(session, script) && Quiet(start, session)
    requires CancelsListed(start, script)
    requires EndsFree(start, session, script, planned) && planned.Dca?
    ensures order.orderId in BookAfter(start, session).orders
            && BookAfter(start, session).orders[order.orderId] == order
    ensures Bears(order, planned) && IsBotOrder(order, "dca") && IsDcaOf(order, planned.target)
  {
    NthFollows(session, script, |script| - 1);
    order := QuietPlacement(start, session, script, |script| - 1);
    BearerRole(order, planned);
  }

  // Just before the closing placement the planned DCA's identity is free.
  lemma {:induction false} FreeBeforeLast(r: Reading, start: Book, session: seq<Event>)
    requires Read(r, start) && LegalSession(start, session) && Follows(session, Script(r)) && Quiet(start, session)
    requires !Assessed(r).status.Ambiguous? && PlacesDca(r) && PlannedDca(r) !in start.filled
    requires Count(session) == |Script(r)| > 0
    ensures !Taken(BookBefore(start, session, |Script(r)| - 1), PlannedDca(r))
  {
    var front, last := session[..|session| - 1], session[|session| - 1];
    if last.Issued? {
      QuietFilled(start, front);
      QuietNotBorne(r, start, front);
    } else {
      FreeBeforeLast(r, start, front);
    }
  }

  // Nothing bears it: listed orders have been cancelled, and nothing else places it.
  lemma {:induction false} QuietNotBorne(r: Reading, start: Book, front: seq<Event>)
    requires Read(r, start) && LegalSession(start, front) && Follows(front, Script(r)) && Quiet(start, front)
    requires !Failed(front) && !Assessed(r).status.Ambiguous? && PlacesDca(r) && Count(front) == |Script(r)| - 1
    ensures !Borne(BookAfter(start, front), PlannedDca(r))
  {
    var planned, book := PlannedDca(r), BookAfter(start, front);
    if id :| id in book.orders && Bears(book.orders[id], planned) {
      if id in start.orders {
        Origin(start, front, Script(r), id);
        BearerRole(book.orders[id], planned);
        ListedDcaIsGone(r, start, front, id);
      } else {
        QuietOrigin(start, front, Script(r), id);
        PlannedDcaIsLast(r);
      }
    }
  }

  // The DCA orders left are the kept match and new ones bearing the planned identity.
  lemma {:induction false} DcaLeft(r: Reading, start: Book, session: seq<Event>, id: nat)
    requires Read(r, start) && LegalSession(start, session) && Completes(session, Script(r)) && Quiet(start, session)
    requires !Assessed(r).status.Ambiguous? && HoldsDca(BookAfter(start, session), id)
    ensures if id in start.orders then DcaMatch(r).Some? && id == DcaMatch(r).value.orderId
            else PlacesDca(r) && Bears(BookAfter(start, session).orders[id], PlannedDca(r))
  {
    var script, order := Script(r), BookAfter(start, session).orders[id];
    Origin(start, session, script, id);
    if id in start.orders {
      if !Kept(start.orders[id], DcaMatch(r)) {
        var k := StaleDcaIsCancelled(r, start.orders[id]);
        NthFollows(session, script, k);
        CancelledIsGone(start, session, script, k);
      }
    } else {
      QuietNewOrder(r, start, session, id);
      BearerRole(order, order.linkId.intent);
    }
  }

  lemma {:induction false} DcaMatchIsKept(r: Reading, start: Book)
    requires Read(r, start) && DcaMatch(r).Some?
    ensures HoldsDca(start, DcaMatch(r).value.orderId) && start.orders[DcaMatch(r).value.orderId] == DcaMatch(r).value
    ensures Cancel(DcaMatch(r).value.orderId) !in Script(r)
  {
    var m := DcaMatch(r).value;
    DcaMatchIsListed(r);
    if Cancel(m.orderId) in Script(r) {
      CancelsOnlyListed(r, m.orderId);
      var o :| o in r.orders && o.orderId == m.orderId && Stale(r, o);
      RolesDiffer(m);
    }
  }

  lemma OnlyDcaNeedsNothing(r: Reading, dca: OpenOrder)
    requires !r.plan.maxDcaReached && dca in r.orders && IsBotOrder(dca, "dca")
    requires dca.partiallyFilled || (r.plan.nextDca.Some? && IsDcaOf(dca, r.plan.nextDca.value))
    requires forall o | o in r.orders && IsBotOrder(o, "dca") :: o.orderId == dca.orderId
    ensures DcaScript(r) == []
  {
    var dcas := BotOrders(r.orders, "dca");
    PartialIsFound(dcas);
    if r.plan.nextDca.Some? {
      MatchIsFound(dcas, Buy, r.plan.nextDca.value, false);
    }
    BotOrdersAre(r.orders, "dca", dca);
    forall o | o in dcas ensures o.orderId == dca.orderId {
      BotOrdersAre(r.orders, "dca", o);
    }
    NothingToCancel(dcas, DcaMatch(r));
  }

  lemma SoleListed(orders: seq<OpenOrder>, dca: OpenOrder)
    requires Distinct(orders) && dca in orders && IsBotOrder(dca, "dca")
    requires forall o | o in orders && IsBotOrder(o, "dca") :: o == dca
    ensures BotOrders(orders, "dca") == [dca]
  {
    var tail := orders[1..];
    assert orders == [orders[0]] + tail;
    if orders[0] == dca {
      forall o | o in tail ensures !IsBotOrder(o, "dca") {
        var i :| 0 <= i < |tail| && tail[i] == o;
        assert orders[i + 1] == o;
      }
      NoBotOrders(tail, "dca");
    } else {
      DistinctTail(orders);
      SoleListed(tail, dca);
    }
  }

  lemma DistinctTail(orders: seq<OpenOrder>)
    requires orders != [] && Distinct(orders)
    ensures Distinct(orders[1..])
  {
    forall i, j | 0 <= i < j < |orders[1..]| ensures orders[1..][i].orderId != orders[1..][j].orderId {
      assert orders[1..][i] == orders[i + 1] && orders[1..][j] == orders[j + 1];
    }
  }

  lemma NoBotOrders(orders: seq<OpenOrder>, role: string)
    requires forall o | o in orders :: !IsBotOrder(o, role)
    ensures BotOrders(orders, role) == []
  {
    if BotOrders(orders, role) != [] {
      BotOrdersAre(orders, role, BotOrders(orders, role)[0]);
    }
  }

  lemma ListedDcasRest(r: Reading, book: Book)
    requires Read(r, book)
    ensures forall o | o in r.orders && IsBotOrder(o, "dca") :: HoldsDca(book, o.orderId)
  {
  }

  // In a quiet exchange a second sync with the same plan has nothing left to do exactly when the
  // first could leave the planned take profit, and was not kept from a DCA the second may place: by
  // a refusal, or because the planned identity was spent on an order that has filled.
  lemma {:induction false} SecondSyncMutatesNothing(first: Reading, start: Book, session: seq<Event>, second: Reading)
    requires Revisits(first, start, session, second) && second.plan == first.plan
    ensures Script(second) == []
            <==> Replaceable(first, start)
                 && (WouldPlace(first) && second.allowed ==> first.allowed && PlannedDca(first) !in start.filled)
  {
    DcaMatchExactly(first);
    SecondSyncExactly(first, start, session, second);
    if DcaMatch(first).Some? {
      DcaMatchIsListed(first);
      if DcaMatch(first).value.partiallyFilled {
        PartialMatchRests(first, start, session);
      }
    }
  }

  lemma {:induction false} PartialMatchRests(r: Reading, start: Book, session: seq<Event>)
    requires Read(r, start) && LegalSession(start, session) && Completes(session, Script(r)) && Quiet(start, session)
    requires DcaMatch(r).Some? && DcaMatch(r).value.partiallyFilled
    ensures PartialDcaRests(BookAfter(start, session))
  {
    var id := DcaMatch(r).value.orderId;
    DcaMatchIsListed(r);
    DcaMatchIsKept(r, start);
    QuietKeeps(start, session, Script(r), id);
    assert HoldsDca(BookAfter(start, session), id);
  }

  // One after a sync that was held has nothing to do either.
  lemma {:induction false} SecondSyncStaysHeld(first: Reading, start: Book, session: seq<Event>, second: Reading)
    requires Read(first, start) && Completes(session, Script(first)) && Quiet(start, session)
    requires Assessed(first).status.Ambiguous?
    requires Read(second, BookAfter(start, session))
    ensures Script(second) == []
  {
    QuietStart(start, session);
    AmbiguousMeansHold(first, start);
    AmbiguousMeansHold(second, start);
  }

  ghost predicate PartialDcaRests(book: Book) {
    exists id :: HoldsDca(book, id) && book.orders[id].partiallyFilled
  }

  // The second sync's DCA script is empty.
  ghost predicate DcaSettled(first: Reading, start: Book, book: Book, second: Reading) {
    if LeavesDca(first, start) then PartialDcaRests(book) || second.plan.nextDca.Some?
    else second.plan.maxDcaReached || second.plan.nextDca.None? || !second.allowed
  }

  // With plans that may differ in the DCA: the second sync has nothing to do exactly when the first
  // could leave the planned take profit and the DCA is settled: where the first left one, that one
  // is partially filled or still planned; where it left none, the second places none. A DCA that is
  // no longer planned is cancelled.
  lemma {:induction false} SecondSyncExactly(first: Reading, start: Book, session: seq<Event>, second: Reading)
    requires Revisits(first, start, session, second)
    requires first.plan.maxDcaReached == second.plan.maxDcaReached
    requires first.plan.nextDca.Some? && second.plan.nextDca.Some? ==> first.plan.nextDca == second.plan.nextDca
    ensures Script(second) == []
            <==> Replaceable(first, start) && DcaSettled(first, start, BookAfter(start, session), second)
    ensures Replaceable(first, start) && LeavesDca(first, start) && second.plan.nextDca.None?
            && !PartialDcaRests(BookAfter(start, session)) ==>
              exists id :: HoldsDca(BookAfter(start, session), id) && Script(second) == [Cancel(id)]
  {
    var book := BookAfter(start, session);
    AmbiguousMeansHold(first, start);
    SecondTpScript(first, start, session, second);
    ListedDcasRest(second, book);
    var left := QuietDca(first, start, session);
    if left.None? {
      forall o | o in second.orders ensures !IsBotOrder(o, "dca") {
      }
      NoDcaDoesNext(second);
    } else {
      assert left.value in second.orders && HoldsDca(book, left.value.orderId);
      LeftDcaDoesNext(first, book, second, left.value);
    }
  }

  // Where neither sync was refused and the planned DCA was not spent: exactly when a partially filled
  // DCA rests or both plans have a DCA or neither has.
  lemma {:induction false} SecondSyncUnspent(first: Reading, start: Book, session: seq<Event>, second: Reading)
    requires Revisits(first, start, session, second) && first.allowed && second.allowed
    requires first.plan.maxDcaReached == second.plan.maxDcaReached
    requires first.plan.maxDcaReached ==> first.plan.nextDca.None? && second.plan.nextDca.None?
    requires first.plan.nextDca.Some? && second.plan.nextDca.Some? ==> first.plan.nextDca == second.plan.nextDca
    requires Replaceable(first, start) && (WouldPlace(first) ==> PlannedDca(first) !in start.filled)
    ensures Script(second) == []
            <==> PartialDcaRests(BookAfter(start, session)) || first.plan.nextDca.Some? == second.plan.nextDca.Some?
  {
    SecondSyncExactly(first, start, session, second);
    AmbiguousMeansHold(first, start);
    var left := QuietDca(first, start, session);
    if DcaMatch(first).Some? {
      DcaMatchIsListed(first);
      if DcaMatch(first).value.partiallyFilled {
        PartialMatchRests(first, start, session);
      }
    }
  }

  lemma NoDcaDoesNext(r: Reading)
    requires forall o | o in r.orders :: !IsBotOrder(o, "dca")
    ensures DcaScript(r) == [] <==> r.plan.maxDcaReached || r.plan.nextDca.None? || !r.allowed
  {
    NoBotOrders(r.orders, "dca");
  }

  lemma {:induction false} LeftDcaDoesNext(first: Reading, book: Book, second: Reading, left: OpenOrder)
    requires Read(second, book) && LeftDca(first, book, left) && !second.plan.maxDcaReached
    requires first.plan.nextDca.Some? && second.plan.nextDca.Some? ==> first.plan.nextDca == second.plan.nextDca
    ensures DcaScript(second)
            == if left.partiallyFilled || second.plan.nextDca.Some? then [] else [Cancel(left.orderId)]
  {
    ListedDcasRest(second, book);
    assert left in second.orders;
    if left.partiallyFilled || second.plan.nextDca.Some? {
      OnlyDcaNeedsNothing(second, left);
    } else {
      SoleListed(second.orders, left);
      PartialIsFound([left]);
      SingleCancel(left);
    }
  }

  lemma SingleCancel(order: OpenOrder)
    ensures Cancels([order], None) == [Cancel(order.orderId)] && Cancels([], None) == []
  {
    assert [order][..0] == [];
  }
}
