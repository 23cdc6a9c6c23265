// The exchange as one live sync calls it (botdca/exchange.py, botdca/bybit_exchange.py): the book
// moves on before every call, and commands may raise whether or not they took effect.
module LiveExchange {
  import opened Orders
  import opened LiveBook
  import opened LiveScript

  datatype Ack = Accepted | AlreadyClosed | Raising

  // What the book keeps while nobody issues commands.
  ghost predicate MovesOn(before: Book, after: Book) {
    && (SoleDca(before) ==> SoleDca(after))
    && (SomeTp(before) && IsOpen(after.position) ==> SomeTp(after))
  }

  class Exchange {
    var book: Book
    var nextId: nat
    ghost var snapshot: Book
    ghost var session: seq<Event>
    // The positions read so far.
    ghost var observed: seq<Position>

    // `session` records what has happened since the orders were last listed, in `snapshot`.
    ghost predicate Valid()
      reads this
    {
      && LegalSession(snapshot, session) && book == BookAfter(snapshot, session)
      && forall id | id in Seen(snapshot, session) :: id < nextId
    }

    constructor (position: Position)
      ensures Valid() && SoleDca(book) && observed == []
    {
      book, nextId := Book(position, map[], {}, {}), 0;
      snapshot, session, observed := Book(position, map[], {}, {}), [], [];
    }

    // An event enters the record.
    method Happen(event: Event, ghost script: seq<Command>)
      requires Valid() && MayHappen(book, Seen(snapshot, session), event)
      requires forall id | id in NewIds(event) :: id < nextId
      modifies `book, `session
      ensures Valid() && session == old(session) + [event] && book == Next(old(book), event)
      ensures Count(session) == Count(old(session)) + if event.Issued? then 1 else 0
      ensures Failed(session) <==> Failed(old(session)) || (event.Issued? && event.raised)
      ensures Follows(session, script) <==>
                Follows(old(session), script)
                && (event.Issued? ==>
                      !Failed(old(session)) && Count(old(session)) < |script|
                      && event.command == script[Count(old(session))])
    {
      OneMore(snapshot, session, event, script);
      book := Next(book, event);
      session := session + [event];
    }

    // A request under way lands.
    method Land(intent: Intent, ghost script: seq<Command>)
      requires Valid() && intent in book.inFlight
      modifies `book, `session, `nextId
      ensures Valid() && Count(session) == Count(old(session)) && Failed(session) == Failed(old(session))
      ensures Follows(old(session), script) ==> Follows(session, script)
      ensures book.inFlight == old(book).inFlight - {intent} && book.position == old(book).position
      ensures SoleDca(old(book)) ==> SoleDca(book)
      ensures SomeTp(old(book)) ==> SomeTp(book)
    {
      var order := Fulfilment(intent, nextId);
      nextId := nextId + 1;
      SessionCovers(snapshot, session);
      LandingKeeps(book, Seen(snapshot, session), order);
      Happen(Landed(order), script);
    }

    // Anything the outside world may do between two calls.
    method Drift(ghost script: seq<Command>)
      requires Valid()
      modifies `book, `session, `nextId
      ensures Valid() && Count(session) == Count(old(session)) && Failed(session) == Failed(old(session))
      ensures Follows(old(session), script) ==> Follows(session, script)
      ensures MovesOn(old(book), book)
    {
      while book.inFlight != {}
        invariant Valid() && Count(session) == Count(old(session)) && Failed(session) == Failed(old(session))
        invariant Follows(old(session), script) ==> Follows(session, script)
        invariant SoleDca(old(book)) ==> SoleDca(book)
        invariant SomeTp(old(book)) ==> SomeTp(book)
        decreases |book.inFlight|
      {
        var more: bool := *;
        if !more {
          break;
        }
        var intent :| intent in book.inFlight;
        Land(intent, script);
      }
      SessionCovers(snapshot, session);
      assert MayDrift(book, book);
      ghost var before := book;
      var after: Book :| MayDrift(book, after);
      DriftKeeps(book, after);
      Happen(Drifted(after), script);
    }

    method GetPosition(ghost script: seq<Command>) returns (position: Position)
      requires Valid()
      modifies `book, `session, `nextId, `observed
      ensures Valid() && position == book.position && MovesOn(old(book), book)
      ensures observed == old(observed) + [position]
      ensures Count(session) == Count(old(session)) && Failed(session) == Failed(old(session))
      ensures Follows(old(session), script) ==> Follows(session, script)
    {
      Drift(script);
      position := book.position;
      observed := observed + [position];
    }

    // The listing starts a new session.
    method GetOpenOrders() returns (orders: seq<OpenOrder>)
      requires Valid()
      modifies `book, `session, `nextId, `snapshot
      ensures Valid() && session == [] && snapshot == book && MovesOn(old(book), book)
      ensures ValidBook(snapshot) && Lists(orders, snapshot.orders)
    {
      Drift([]);
      SessionCovers(snapshot, session);
      orders := Listing(book);
      snapshot, session := book, [];
    }

    method CancelOrder(id: nat, ghost script: seq<Command>) returns (raised: bool)
      requires Valid()
      requires Follows(session, script) && !Failed(session) && Count(session) < |script|
      requires script[Count(session)] == Cancel(id)
      modifies `book, `session, `nextId
      ensures Valid() && Follows(session, script) && Count(session) == Count(old(session)) + 1
              && Failed(session) == raised
    {
      Drift(script);
      raised := *;
      var landed: bool := *;
      Happen(Issued(Cancel(id), if raised && !landed then Nothing else Removed, raised), script);
    }

    // Answered by the order that bears the identity when there is one, live or filled. Otherwise
    // the order is created, or refused, or created with the answer lost, or its request is lost on
    // the way and may land later.
    method PlaceOrder(intent: Intent, ghost script: seq<Command>) returns (ack: Ack)
      requires Valid()
      requires Follows(session, script) && !Failed(session) && Count(session) < |script|
      requires script[Count(session)] == Place(intent)
      modifies `book, `session, `nextId
      ensures Valid() && Follows(session, script) && Count(session) == Count(old(session)) + 1
              && Failed(session) == !ack.Accepted?
    {
      Drift(script);
      ack := *;
      var landed: bool, delayed: bool := *, *;
      var order := Fulfilment(intent, nextId);
      var effect := if Taken(book, intent) then Nothing
                    else if ack.Accepted? || landed then Created(order)
                    else if delayed then Delayed
                    else Nothing;
      SessionCovers(snapshot, session);
      nextId := nextId + 1;
      Happen(Issued(Place(intent), effect, !ack.Accepted?), script);
    }
  }

  // Every order of the book once, in whatever order the exchange chooses.
  method Listing(book: Book) returns (orders: seq<OpenOrder>)
    requires ValidBook(book)
    ensures Lists(orders, book.orders)
  {
    orders := [];
    var pending := book.orders.Keys;
    while pending != {}
      invariant pending <= book.orders.Keys
      invariant forall i | 0 <= i < |orders| ::
                  orders[i].orderId in book.orders.Keys - pending && book.orders[orders[i].orderId] == orders[i]
      invariant forall id | id in book.orders.Keys - pending :: book.orders[id] in orders
      invariant Distinct(orders)
      decreases |pending|
    {
      var id :| id in pending;
      orders := orders + [book.orders[id]];
      pending := pending - {id};
    }
  }

  lemma LandingKeeps(book: Book, seen: set<nat>, order: OpenOrder)
    requires ValidBook(book) && book.orders.Keys <= seen && MayHappen(book, seen, Landed(order))
    ensures SoleDca(book) ==> SoleDca(Next(book, Landed(order)))
    ensures SomeTp(book) ==> SomeTp(Next(book, Landed(order)))
  {
    var next := Next(book, Landed(order));
    if SoleDca(book) {
      OneMore(book, [], Landed(order), []);
      assert [] + [Landed(order)] == [Landed(order)];
      IdleKeepsSoleDca(book, [Landed(order)]);
    }
    if id :| HoldsTp(book, id) {
      assert HoldsTp(next, id);
    }
  }

  lemma DriftKeeps(before: Book, after: Book)
    requires ValidBook(before) && MayDrift(before, after)
    ensures MovesOn(before, after)
  {
    if SoleDca(before) {
      OneMore(before, [], Drifted(after), []);
      assert [] + [Drifted(after)] == [Drifted(after)];
      IdleKeepsSoleDca(before, [Drifted(after)]);
    }
    if id :| HoldsTp(before, id) && IsOpen(after.position) {
      assert HoldsTp(after, id);
    }
  }
}
