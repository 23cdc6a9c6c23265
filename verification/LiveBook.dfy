// The exchange a live sync faces: its order book, and what may happen to it while the sync issues
// commands (botdca/live_service.py, botdca/bybit_exchange.py).
//
// In between any two commands the book moves: orders fill or disappear, the position changes, and a
// placement whose request was lost on the way may still land. Any command may raise, whether or not
// it took effect. A placement that returns is answered by the order that already bears its identity
// when one is live or filled, and creates one otherwise.
module LiveBook {
  import opened Orders
  import Protection

  // `filled` are the intents whose order has filled, `inFlight` those whose request may still land.
  datatype Book = Book(position: Position, orders: map<nat, OpenOrder>, filled: set<Intent>, inFlight: set<Intent>)

  datatype Command = Place(intent: Intent) | Cancel(orderId: nat)

  datatype Effect = Nothing | Created(order: OpenOrder) | Delayed | Removed

  datatype Event = Drifted(after: Book) | Landed(order: OpenOrder)
                 | Issued(command: Command, effect: Effect, raised: bool)

  // Some live order bears the intent's identity.
  predicate Borne(book: Book, intent: Intent) {
    exists id :: id in book.orders && Bears(book.orders[id], intent)
  }

  // A placement of the intent would be answered by an order that already exists.
  predicate Taken(book: Book, intent: Intent) {
    intent in book.filled || Borne(book, intent)
  }

  // Amendments change price and quantity, not the side of an exit.
  predicate Genuine(order: OpenOrder) {
    order.linkId.Minted? && order.linkId.intent.TakeProfit? ==> order.side == Sell && order.reduceOnly
  }

  ghost predicate ValidBook(book: Book) {
    && (forall id | id in book.orders :: book.orders[id].orderId == id && Genuine(book.orders[id]))
    && (forall intent | intent in book.inFlight :: !Taken(book, intent))
  }

  // The same order, perhaps partially filled by now.
  predicate SameOrder(before: OpenOrder, after: OpenOrder) {
    after == before.(partiallyFilled := after.partiallyFilled)
  }

  // Drift takes no take profit from a position that is open, fills only what is live, and loses
  // requests for good.
  predicate MayDrift(before: Book, after: Book) {
    && (forall id | id in after.orders :: id in before.orders && SameOrder(before.orders[id], after.orders[id]))
    && (IsOpen(after.position) ==>
          forall id | id in before.orders && Protection.IsBotTakeProfit(before.orders[id]) :: id in after.orders)
    && before.filled <= after.filled
    && (forall intent | intent in after.filled - before.filled :: Borne(before, intent))
    && after.inFlight <= before.inFlight
  }

  // The order a placement of the intent creates.
  predicate Realises(intent: Intent, order: OpenOrder) {
    && Bears(order, intent) && order.orderType == Limit
    && order.qty == intent.target.qty && order.price == intent.target.price
    && (if intent.TakeProfit? then order.side == Sell && order.reduceOnly else order.side == Buy && !order.reduceOnly)
  }

  predicate MayHappen(book: Book, seen: set<nat>, event: Event) {
    match event
    case Drifted(after) => MayDrift(book, after)
    case Landed(order) =>
      order.linkId.Minted? && order.linkId.intent in book.inFlight && Realises(order.linkId.intent, order)
      && order.orderId !in seen
    case Issued(Cancel(_), effect, raised) => effect.Removed? || (effect.Nothing? && raised)
    case Issued(Place(intent), effect, raised) =>
      match effect
      case Nothing => raised || Taken(book, intent)
      case Created(order) => !Taken(book, intent) && Realises(intent, order) && order.orderId !in seen
      case Delayed => raised && !Taken(book, intent)
      case Removed => false
  }

  function Added(book: Book, order: OpenOrder): Book {
    book.(orders := book.orders[order.orderId := order],
          inFlight := book.inFlight - if order.linkId.Minted? then {order.linkId.intent} else {})
  }

  function Next(book: Book, event: Event): Book {
    match event
    case Drifted(after) => after
    case Landed(order) => Added(book, order)
    case Issued(_, Nothing, _) => book
    case Issued(_, Created(order), _) => Added(book, order)
    case Issued(Place(intent), Delayed, _) => book.(inFlight := book.inFlight + {intent})
    case Issued(Cancel(id), Removed, _) => book.(orders := book.orders - {id})
    case Issued(_, _, _) => book
  }

  function BookAfter(start: Book, session: seq<Event>): Book {
    if session == [] then start else Next(BookAfter(start, session[..|session| - 1]), session[|session| - 1])
  }

  function NewIds(event: Event): set<nat> {
    match event
    case Landed(order) => {order.orderId}
    case Issued(_, Created(order), _) => {order.orderId}
    case _ => {}
  }

  // Order identifiers are never used twice.
  function Seen(start: Book, session: seq<Event>): set<nat> {
    if session == [] then start.orders.Keys else Seen(start, session[..|session| - 1]) + NewIds(session[|session| - 1])
  }

  ghost predicate LegalSession(start: Book, session: seq<Event>) {
    if session == [] then ValidBook(start)
    else
      var front := session[..|session| - 1];
      LegalSession(start, front) && MayHappen(BookAfter(start, front), Seen(start, front), session[|session| - 1])
  }

  ghost predicate StaysOpen(start: Book, session: seq<Event>) {
    && IsOpen(BookAfter(start, session).position)
    && (session != [] ==> StaysOpen(start, session[..|session| - 1]))
  }

  // ---------------------------------------------------------------- following a script

  function Count(session: seq<Event>): nat {
    if session == [] then 0
    else Count(session[..|session| - 1]) + if session[|session| - 1].Issued? then 1 else 0
  }

  predicate Failed(session: seq<Event>) {
    session != []
    && (Failed(session[..|session| - 1]) || (session[|session| - 1].Issued? && session[|session| - 1].raised))
  }

  // The k-th command's outcome.
  function Nth(session: seq<Event>, k: nat): Event
    requires k < Count(session)
    ensures Nth(session, k).Issued?
  {
    var last := |session| - 1;
    if session[last].Issued? && Count(session[..last]) == k then session[last] else Nth(session[..last], k)
  }

  // Commands are issued in the script's order, and none after one that raised.
  ghost predicate Follows(session: seq<Event>, script: seq<Command>)
    ensures Follows(session, script) ==> Count(session) <= |script|
  {
    if session == [] then true
    else
      var front := session[..|session| - 1];
      && Follows(front, script)
      && match session[|session| - 1]
         case Issued(command, _, _) => !Failed(front) && Count(front) < |script| && command == script[Count(front)]
         case _ => true
  }

  // The whole script was issued and nothing raised: the sync returned normally.
  ghost predicate Completes(session: seq<Event>, script: seq<Command>) {
    Follows(session, script) && Count(session) == |script| && !Failed(session)
  }

  // What one more event adds.
  lemma OneMore(start: Book, session: seq<Event>, event: Event, script: seq<Command>)
    ensures var more := session + [event];
            && BookAfter(start, more) == Next(BookAfter(start, session), event)
            && Seen(start, more) == Seen(start, session) + NewIds(event)
            && Count(more) == Count(session) + (if event.Issued? then 1 else 0)
            && (LegalSession(start, more) <==>
                  LegalSession(start, session) && MayHappen(BookAfter(start, session), Seen(start, session), event))
            && (Failed(more) <==> Failed(session) || (event.Issued? && event.raised))
            && (StaysOpen(start, more) <==> StaysOpen(start, session) && IsOpen(BookAfter(start, more).position))
            && (Follows(more, script) <==>
                  Follows(session, script)
                  && (event.Issued? ==>
                        !Failed(session) && Count(session) < |script| && event.command == script[Count(session)]))
  {
    assert (session + [event])[..|session|] == session;
  }

  lemma {:induction false} NthFollows(session: seq<Event>, script: seq<Command>, k: nat)
    requires Follows(session, script) && k < Count(session)
    ensures Nth(session, k).command == script[k]
    ensures Nth(session, k).raised <==> k == Count(session) - 1 && Failed(session)
  {
    var last := |session| - 1;
    if !(session[last].Issued? && Count(session[..last]) == k) {
      NthFollows(session[..last], script, k);
    } else if Failed(session[..last]) {
    }
  }

  lemma {:induction false} FailedCounts(session: seq<Event>)
    ensures Failed(session) ==> Count(session) > 0
  {
    if session != [] {
      FailedCounts(session[..|session| - 1]);
    }
  }

  // ---------------------------------------------------------------- what every session keeps

  lemma NextIsValid(book: Book, seen: set<nat>, event: Event)
    requires ValidBook(book) && MayHappen(book, seen, event)
    ensures ValidBook(Next(book, event))
  {
    var next := Next(book, event);
    forall intent | intent in next.inFlight ensures !Taken(next, intent) {
      if id :| id in next.orders && Bears(next.orders[id], intent) {
        if id in book.orders && Bears(book.orders[id], intent) {
          assert Borne(book, intent);
        }
      }
    }
  }

  lemma {:induction false} SeenCovers(start: Book, session: seq<Event>, id: nat)
    requires LegalSession(start, session)
    ensures id in start.orders || id in BookAfter(start, session).orders ==> id in Seen(start, session)
    ensures ValidBook(BookAfter(start, session))
  {
    if session != [] {
      var front, last := session[..|session| - 1], session[|session| - 1];
      SeenCovers(start, front, id);
      NextIsValid(BookAfter(start, front), Seen(start, front), last);
    }
  }

  // The intents that orders not there at the start can bear.
  ghost predicate Sourced(start: Book, script: seq<Command>, n: nat, intent: Intent)
    requires n <= |script|
  {
    intent in start.inFlight || Place(intent) in script[..n]
  }

  // A request in flight was so at the start or is one of the issued placements.
  lemma {:induction false} InFlightOrigin(start: Book, session: seq<Event>, script: seq<Command>, intent: Intent)
    requires LegalSession(start, session) && Follows(session, script) && intent in BookAfter(start, session).inFlight
    ensures Sourced(start, script, Count(session), intent)
  {
    if session != [] {
      var front, last := session[..|session| - 1], session[|session| - 1];
      assert script[..Count(front)] <= script[..Count(session)];
      if intent in BookAfter(start, front).inFlight {
        InFlightOrigin(start, front, script, intent);
      } else {
        assert script[..Count(session)][Count(front)] == last.command;
      }
    }
  }

  // An order the book did not start with realises a sourced intent.
  ghost predicate NewOrder(start: Book, script: seq<Command>, n: nat, order: OpenOrder)
    requires n <= |script|
  {
    && order.orderId !in start.orders && order.linkId.Minted? && Realises(order.linkId.intent, order)
    && Sourced(start, script, n, order.linkId.intent)
  }

  lemma {:induction false} Origin(start: Book, session: seq<Event>, script: seq<Command>, id: nat)
    requires LegalSession(start, session) && Follows(session, script) && id in BookAfter(start, session).orders
    ensures var order := BookAfter(start, session).orders[id];
            if id in start.orders then SameOrder(start.orders[id], order)
            else NewOrder(start, script, Count(session), order)
  {
    if session != [] {
      var front, last := session[..|session| - 1], session[|session| - 1];
      var before := BookAfter(start, front);
      SeenCovers(start, front, id);
      SeenCovers(start, session, id);
      assert script[..Count(front)] <= script[..Count(session)];
      if id in before.orders {
        Origin(start, front, script, id);
      } else if last.Landed? {
        InFlightOrigin(start, front, script, last.order.linkId.intent);
      } else {
        assert script[..Count(session)][Count(front)] == last.command;
      }
    }
  }

  // No intent is borne by two orders, unless it was so at the start.
  lemma {:induction false} OneBearer(start: Book, session: seq<Event>, intent: Intent, id: nat, other: nat)
    requires LegalSession(start, session)
    requires id in BookAfter(start, session).orders && Bears(BookAfter(start, session).orders[id], intent)
    requires other in BookAfter(start, session).orders && Bears(BookAfter(start, session).orders[other], intent)
    requires id !in start.orders
    ensures id == other
  {
    if id != other {
      var front, last := session[..|session| - 1], session[|session| - 1];
      var before := BookAfter(start, front);
      SeenCovers(start, front, id);
      if id in before.orders && other in before.orders {
        OneBearer(start, front, intent, id, other);
      } else if id in before.orders || other in before.orders {
        assert Borne(before, intent);
        assert Taken(before, intent);
      }
    }
  }

  // An intent whose order has filled is never borne by a new order.
  lemma {:induction false} FilledIsNeverNew(start: Book, session: seq<Event>, intent: Intent, id: nat)
    requires LegalSession(start, session) && intent in start.filled
    ensures intent in BookAfter(start, session).filled && intent !in BookAfter(start, session).inFlight
    ensures id in BookAfter(start, session).orders && Bears(BookAfter(start, session).orders[id], intent) ==>
              id in start.orders
  {
    if session != [] {
      var front := session[..|session| - 1];
      FilledIsNeverNew(start, front, intent, id);
      SeenCovers(start, session, id);
      assert Taken(BookAfter(start, front), intent);
    }
  }

  // ---------------------------------------------------------------- a session in which all goes well

  // The order a placement creates, given its identifier.
  function Fulfilment(intent: Intent, id: nat): (order: OpenOrder)
    ensures Realises(intent, order) && order.orderId == id && !order.partiallyFilled
  {
    OpenOrder(id, Minted(intent, 0), if intent.TakeProfit? then Sell else Buy, Limit, intent.target.price,
              intent.target.qty,
              intent.TakeProfit?, false)
  }

  lemma IdsAreBelow(used: set<nat>) returns (bound: nat)
    ensures forall id | id in used :: id < bound
  {
    if used == {} {
      bound := 0;
    } else {
      var id :| id in used;
      var rest := IdsAreBelow(used - {id});
      bound := if id < rest then rest else id + 1;
      assert forall x | x in used :: x == id || x in used - {id};
    }
  }

  ghost function Ideal(book: Book, command: Command, id: nat): Event {
    match command
    case Cancel(_) => Issued(command, Removed, false)
    case Place(intent) =>
      Issued(command, if Taken(book, intent) then Nothing else Created(Fulfilment(intent, id)), false)
  }

  // The first n commands, answered at once.
  ghost function IdealSession(start: Book, script: seq<Command>, n: nat, firstId: nat): seq<Event>
    requires n <= |script|
  {
    if n == 0 then []
    else
      var front := IdealSession(start, script, n - 1, firstId);
      front + [Ideal(BookAfter(start, front), script[n - 1], firstId + n - 1)]
  }

  lemma {:induction false} IdealIsLegal(start: Book, script: seq<Command>, n: nat, firstId: nat)
    requires ValidBook(start) && n <= |script| && forall id | id in start.orders :: id < firstId
    ensures IdealCourse(start, script, n, firstId, IdealSession(start, script, n, firstId))
  {
    if n == 0 {
      IdealEmpty(start, script, firstId);
    } else {
      var front := IdealSession(start, script, n - 1, firstId);
      IdealIsLegal(start, script, n - 1, firstId);
      IdealNext(start, script, n, firstId, front);
    }
  }

  lemma IdealEmpty(start: Book, script: seq<Command>, firstId: nat)
    requires ValidBook(start) && forall id | id in start.orders :: id < firstId
    ensures IdealCourse(start, script, 0, firstId, [])
  {
  }

  ghost predicate IdealCourse(start: Book, script: seq<Command>, n: nat, firstId: nat, session: seq<Event>)
    requires n <= |script|
  {
    && LegalSession(start, session) && Follows(session, script) && Count(session) == n && !Failed(session)
    && (IsOpen(start.position) ==> StaysOpen(start, session))
    && (forall id | id in Seen(start, session) :: id < firstId + n)
    && BookAfter(start, session).position == start.position && BookAfter(start, session).filled == start.filled
    && (forall i | i in start.inFlight && Place(i) !in script[..n] :: i in BookAfter(start, session).inFlight)
  }

  lemma IdealNext(start: Book, script: seq<Command>, n: nat, firstId: nat, front: seq<Event>)
    requires 0 < n <= |script| && IdealCourse(start, script, n - 1, firstId, front)
    ensures IdealCourse(start, script, n, firstId,
                        front + [Ideal(BookAfter(start, front), script[n - 1], firstId + n - 1)])
  {
    var event := Ideal(BookAfter(start, front), script[n - 1], firstId + n - 1);
    OneMore(start, front, event, script);
    IdealHappens(BookAfter(start, front), Seen(start, front), script[n - 1], firstId + n - 1);
    assert script[..n] == script[..n - 1] + [script[n - 1]];
  }

  lemma IdealHappens(book: Book, seen: set<nat>, command: Command, id: nat)
    requires id !in seen
    ensures var event := Ideal(book, command, id);
            && MayHappen(book, seen, event) && event.Issued? && event.command == command && !event.raised
            && NewIds(event) <= {id}
            && Next(book, event).position == book.position && Next(book, event).filled == book.filled
            && (forall i | i in book.inFlight && command != Place(i) :: i in Next(book, event).inFlight)
  {
  }

  // A request under way may land now.
  lemma LandingIsLegal(start: Book, session: seq<Event>, script: seq<Command>, intent: Intent, id: nat)
    requires LegalSession(start, session) && Follows(session, script)
    requires intent in BookAfter(start, session).inFlight && id !in Seen(start, session)
    ensures var more := session + [Landed(Fulfilment(intent, id))];
            && LegalSession(start, more) && Follows(more, script)
            && BookAfter(start, more) == Added(BookAfter(start, session), Fulfilment(intent, id))
            && Seen(start, more) == Seen(start, session) + {id}
  {
    OneMore(start, session, Landed(Fulfilment(intent, id)), script);
  }

  // A request whose answer is lost on the way may still land: the call has failed, and the order
  // rests all the same.
  lemma DelayedMayLand(start: Book, session: seq<Event>, script: seq<Command>, intent: Intent, id: nat)
    requires LegalSession(start, session) && Follows(session, script) && !Failed(session)
    requires Count(session) < |script| && script[Count(session)] == Place(intent)
    requires !Taken(BookAfter(start, session), intent) && id !in Seen(start, session)
    ensures var more := session + [Issued(Place(intent), Delayed, true)] + [Landed(Fulfilment(intent, id))];
            && LegalSession(start, more) && Follows(more, script) && Failed(more)
            && BookAfter(start, more).orders == BookAfter(start, session).orders[id := Fulfilment(intent, id)]
  {
    var request, landing := Issued(Place(intent), Delayed, true), Landed(Fulfilment(intent, id));
    OneMore(start, session, request, script);
    LandingIsLegal(start, session + [request], script, intent, id);
    OneMore(start, session + [request], landing, script);
  }
}
