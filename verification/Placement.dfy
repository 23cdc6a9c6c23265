// Idempotent order placement against an unreliable exchange (botdca/bybit_exchange.py,
// botdca/order_identity.py).
//
// The exchange is adversarial: between any two calls orders may change status one way and lost
// requests may still arrive; any call may fail, and a failed placement may or may not have been
// accepted. It keeps one order per link id, shows live orders among the open ones and the others
// in the history.
module Placement {
  import opened Common

  type LinkId = string

  datatype Status = New | PartiallyFilled | Untriggered | Filled | Cancelled | Rejected | Deactivated

  // Statuses shown by the open-orders endpoint.
  predicate Live(s: Status) {
    s.New? || s.PartiallyFilled? || s.Untriggered?
  }

  predicate ActiveOrFilled(s: Status) {
    Live(s) || s.Filled?
  }

  // Only live orders change status.
  predicate MayBecome(before: Status, after: Status) {
    Live(before) || before == after
  }

  // ---------------------------------------------------------------- identities

  const ATTEMPTS := 10

  // The suffix of a one-digit attempt.
  function RetrySuffix(attempt: nat): string
    requires attempt < ATTEMPTS
  {
    "-r" + ["0123456789"[attempt]]
  }

  function RetryLinkId(base: LinkId, attempt: nat): LinkId
    requires attempt < ATTEMPTS
  {
    if attempt == 0 then base
    else
      var suffix := RetrySuffix(attempt);
      (if |base| <= 36 - |suffix| then base else base[..36 - |suffix|]) + suffix
  }

  // Identities short enough to keep whole in a retry, and not already shaped like one.
  predicate WellFormed(base: LinkId) {
    |base| <= 33 && !(|base| >= 3 && base[|base| - 3..|base| - 1] == "-r")
  }

  // deterministic_order_link_id, given the digest of the intent's parts.
  function DeterministicLinkId(role: string, digest: string): LinkId {
    var full := "botdca-" + (if |role| <= 8 then role else role[..8]) + "-" + digest;
    if |full| <= 36 then full else full[..36]
  }

  // The roles in use (open, dca, tp, close) give well-formed identities: a 20-digit hexadecimal
  // digest has no letter r.
  lemma DeterministicIsWellFormed(role: string, digest: string)
    requires |role| <= 5 && |digest| == 20 && 'r' !in digest
    ensures WellFormed(DeterministicLinkId(role, digest))
  {
    var id := DeterministicLinkId(role, digest);
    assert id == "botdca-" + role + "-" + digest;
    assert id[|id| - 2] == digest[18];
    assert id[|id| - 3..|id| - 1][1] == id[|id| - 2];
  }

  // Retry identities of well-formed intents never collide.
  lemma {:induction false} RetryIdsAreDistinct(base: LinkId, attempt: nat, other: LinkId, otherAttempt: nat)
    requires WellFormed(base) && WellFormed(other) && attempt < ATTEMPTS && otherAttempt < ATTEMPTS
    requires RetryLinkId(base, attempt) == RetryLinkId(other, otherAttempt)
    ensures base == other && attempt == otherAttempt
  {
    if attempt > 0 && otherAttempt > 0 {
      SuffixSplits(base, attempt, other, otherAttempt);
    } else if attempt > 0 {
      LooksRetried(base, attempt);
    } else if otherAttempt > 0 {
      LooksRetried(other, otherAttempt);
    }
  }

  lemma SuffixSplits(base: LinkId, attempt: nat, other: LinkId, otherAttempt: nat)
    requires 0 < attempt < ATTEMPTS && 0 < otherAttempt < ATTEMPTS
    requires base + RetrySuffix(attempt) == other + RetrySuffix(otherAttempt)
    ensures base == other && attempt == otherAttempt
  {
    var id := base + RetrySuffix(attempt);
    assert base == id[..|id| - 3] && other == (other + RetrySuffix(otherAttempt))[..|id| - 3];
    assert id[|id| - 1] == "0123456789"[attempt];
    assert (other + RetrySuffix(otherAttempt))[|id| - 1] == "0123456789"[otherAttempt];
  }

  // The identities, spelled out.
  lemma RetryLinkIdsAre(base: LinkId)
    requires |base| <= 33
    ensures RetryLinkId(base, 0) == base
    ensures RetryLinkId(base, 1) == base + "-r1" && RetryLinkId(base, 2) == base + "-r2"
    ensures RetryLinkId(base, 3) == base + "-r3" && RetryLinkId(base, 4) == base + "-r4"
    ensures RetryLinkId(base, 5) == base + "-r5" && RetryLinkId(base, 6) == base + "-r6"
    ensures RetryLinkId(base, 7) == base + "-r7" && RetryLinkId(base, 8) == base + "-r8"
    ensures RetryLinkId(base, 9) == base + "-r9"
  {
    assert RetrySuffix(1) == "-r1" && RetrySuffix(2) == "-r2" && RetrySuffix(3) == "-r3";
    assert RetrySuffix(4) == "-r4" && RetrySuffix(5) == "-r5" && RetrySuffix(6) == "-r6";
    assert RetrySuffix(7) == "-r7" && RetrySuffix(8) == "-r8" && RetrySuffix(9) == "-r9";
  }

  lemma LooksRetried(base: LinkId, attempt: nat)
    requires 0 < attempt < ATTEMPTS
    ensures var id := base + RetrySuffix(attempt); id[|id| - 3..|id| - 1] == "-r"
  {
  }

  // ---------------------------------------------------------------- the exchange

  // Orders accepted so far, by link id.
  type Orders = map<LinkId, Status>

  ghost predicate Evolves(before: Orders, after: Orders, inFlight: set<LinkId>) {
    && (forall id | id in before :: id in after && MayBecome(before[id], after[id]))
    && (forall id | id in after :: id in before || id in inFlight)
  }

  lemma EvolvesTransitively(a: Orders, b: Orders, c: Orders, inFlight: set<LinkId>, later: set<LinkId>)
    requires Evolves(a, b, inFlight) && Evolves(b, c, later) && later <= inFlight
    ensures Evolves(a, c, inFlight)
  {
  }

  // Retry identities are used as a prefix: whatever was sent under attempt k, every earlier
  // attempt was accepted and is neither live nor filled.
  ghost predicate PrefixInvariant(orders: Orders, inFlight: set<LinkId>) {
    forall base, k: nat, j: nat | WellFormed(base) && j < k < ATTEMPTS
      && (RetryLinkId(base, k) in orders || RetryLinkId(base, k) in inFlight) ::
      Spent(orders, RetryLinkId(base, j))
  }

  // An identity that was used and whose order is over without being filled.
  predicate Spent(orders: Orders, id: LinkId) {
    id in orders && !ActiveOrFilled(orders[id])
  }

  // So an intent never has two orders that are live or filled.
  lemma {:induction false} AtMostOneActive(orders: Orders, inFlight: set<LinkId>, base: LinkId, k: nat, l: nat)
    requires PrefixInvariant(orders, inFlight) && WellFormed(base) && k < ATTEMPTS && l < ATTEMPTS
    requires RetryLinkId(base, k) in orders && ActiveOrFilled(orders[RetryLinkId(base, k)])
    requires RetryLinkId(base, l) in orders && ActiveOrFilled(orders[RetryLinkId(base, l)])
    ensures k == l
  {
  }

  lemma EvolutionKeepsPrefix(before: Orders, after: Orders, inFlight: set<LinkId>, later: set<LinkId>)
    requires PrefixInvariant(before, inFlight) && Evolves(before, after, inFlight) && later <= inFlight
    ensures PrefixInvariant(after, later)
  {
    forall base, k: nat, j: nat | WellFormed(base) && j < k < ATTEMPTS
      && (RetryLinkId(base, k) in after || RetryLinkId(base, k) in later)
      ensures Spent(after, RetryLinkId(base, j))
    {
      assert Spent(before, RetryLinkId(base, j));
    }
  }

  // Sending attempt k is safe once every earlier attempt is spent and k itself was never accepted.
  lemma SendingKeepsPrefix(orders: Orders, inFlight: set<LinkId>, base: LinkId, k: nat, status: Status)
    requires PrefixInvariant(orders, inFlight) && WellFormed(base) && k < ATTEMPTS
    requires forall j: nat | j < k :: Spent(orders, RetryLinkId(base, j))
    ensures RetryLinkId(base, k) !in orders ==> PrefixInvariant(orders[RetryLinkId(base, k) := status], inFlight)
    ensures PrefixInvariant(orders, inFlight + {RetryLinkId(base, k)})
  {
    var id := RetryLinkId(base, k);
    forall other, l: nat, j: nat | WellFormed(other) && j < l < ATTEMPTS
      && (RetryLinkId(other, l) in orders || RetryLinkId(other, l) in inFlight || RetryLinkId(other, l) == id)
      ensures Spent(orders, RetryLinkId(other, j))
    {
      if RetryLinkId(other, l) == id {
        RetryIdsAreDistinct(other, l, base, k);
      }
    }
  }

  // What an endpoint shows: live orders among the open ones, the others in the history.
  function Shown(orders: Orders, id: LinkId, history: bool): Option<Status> {
    if id in orders && Live(orders[id]) != history then Some(orders[id]) else None
  }

  // A request for `id`: the exchange evolves, possibly accepts the new identity, and evolves on.
  ghost predicate Requested(before: Orders, inFlight: set<LinkId>, id: LinkId, middle: Orders, accepted: Orders,
                            after: Orders) {
    && Evolves(before, middle, inFlight)
    && (accepted == middle || (id !in middle && id in accepted && accepted == middle[id := accepted[id]]))
    && Evolves(accepted, after, inFlight + {id})
  }

  datatype PlacementError = CallFailed | RetriesExhausted(base: LinkId)

  // A call of the bot and its answer.
  datatype Call =
    | Asked(id: LinkId, history: bool, shown: Result<Option<Status>, PlacementError>)
    | Sent(id: LinkId, answer: Result<Status, PlacementError>)

  predicate Fails(call: Call) {
    match call
    case Asked(_, _, shown) => shown.Err?
    case Sent(_, answer) => answer.Err?
  }

  // The call showed the order under the identity, live or filled.
  predicate ShowsUsable(call: Call, id: LinkId) {
    && call.Asked? && call.id == id && call.shown.Ok?
    && call.shown.value in {Some(New), Some(PartiallyFilled), Some(Untriggered), Some(Filled)}
  }

  // Neither endpoint knows the identity.
  predicate NotFound(calls: seq<Call>, i: nat, id: LinkId) {
    i + 1 < |calls| && calls[i] == Asked(id, false, Ok(None)) && calls[i + 1] == Asked(id, true, Ok(None))
  }

  // The exchange session. Its fields are the exchange's own state, not the bot's; `calls` is the
  // history of the bot's calls and their answers.
  class Session {
    var orders: Orders
    var inFlight: set<LinkId>
    ghost var calls: seq<Call>

    // Anything the exchange does between two calls of the bot.
    method Environment()
      modifies `orders, `inFlight
      ensures Evolves(old(orders), orders, old(inFlight)) && inFlight <= old(inFlight)
    {
      var steps :| 0 <= steps;
      for n := 0 to steps
        invariant Evolves(old(orders), orders, old(inFlight)) && inFlight <= old(inFlight)
      {
        var id: LinkId := *;
        var status: Status := *;
        if id in orders {
          if Live(orders[id]) {
            orders := orders[id := status];
          }
        } else if id in inFlight {
          orders := orders[id := status];
          inFlight := inFlight - {id};
        }
      }
    }

    // One endpoint's answer for an identity.
    method Ask(id: LinkId, history: bool) returns (r: Result<Option<Status>, PlacementError>)
      modifies this
      ensures Evolves(old(orders), orders, old(inFlight)) && inFlight <= old(inFlight)
      ensures r.Ok? ==> r.value == Shown(orders, id, history)
      ensures r.Err? ==> r == Err(CallFailed)
      ensures calls == old(calls) + [Asked(id, history, r)]
    {
      Environment();
      var failed: bool := *;
      r := if failed then Err(CallFailed) else Ok(Shown(orders, id, history));
      calls := calls + [Asked(id, history, r)];
    }

    // A placement request: refused, accepted, accepted with the answer lost, or lost on the way
    // and possibly arriving later. An identity that already exists is refused.
    method PlaceOrder(id: LinkId) returns (r: Result<Status, PlacementError>)
      modifies this
      ensures exists middle: Orders, accepted: Orders ::
                Requested(old(orders), old(inFlight), id, middle, accepted, orders)
      ensures inFlight <= old(inFlight) + {id}
      ensures r.Ok? ==> id in orders
      ensures calls == old(calls) + [Sent(id, r)]
    {
      Environment();
      ghost var middle := orders;
      r := Err(CallFailed);
      if id !in orders {
        if * {
          var status: Status := *;
          orders := orders[id := status];
          if * {
            r := Ok(status);
          }
        } else if * {
          inFlight := inFlight + {id};
        }
      }
      ghost var accepted := orders;
      Environment();
      calls := calls + [Sent(id, r)];
      assert Requested(old(orders), old(inFlight), id, middle, accepted, orders);
    }
  }

  // ---------------------------------------------------------------- the bot's side

  // The calls of one lookup: the open orders, and the history when they do not show the identity.
  predicate Lookup(calls: seq<Call>, id: LinkId, r: Result<Option<Status>, PlacementError>) {
    || ((r.Err? || r.value.Some?) && calls == [Asked(id, false, r)])
    || calls == [Asked(id, false, Ok(None)), Asked(id, true, r)]
  }

  // Open orders first, then the history. An identity the exchange had accepted before the lookup
  // is found whatever happens between the two calls.
  method FindOrder(session: Session, id: LinkId)
    returns (r: Result<Option<Status>, PlacementError>, ghost said: seq<Call>)
    modifies session
    ensures Evolves(old(session.orders), session.orders, old(session.inFlight))
            && session.inFlight <= old(session.inFlight)
    ensures r.Ok? && r.value.None? ==> id !in old(session.orders)
    ensures r.Ok? && r.value.Some? ==> id in session.orders && MayBecome(r.value.value, session.orders[id])
    ensures r.Err? ==> r == Err(CallFailed)
    ensures session.calls == old(session.calls) + said && Lookup(said, id, r)
  {
    ghost var start, startFlight := session.orders, session.inFlight;
    r := session.Ask(id, false);
    said := [Asked(id, false, r)];
    if r.Err? || r.value.Some? {
      return;
    }
    ghost var middle, middleFlight := session.orders, session.inFlight;
    r := session.Ask(id, true);
    said := said + [Asked(id, true, r)];
    EvolvesTransitively(start, middle, session.orders, startFlight, middleFlight);
  }

  // Why the order of the two endpoints matters. Open orders first, an accepted identity is always
  // found; history first, it is missed when its order ends between the two reads.
  lemma OpenOrdersFirst(id: LinkId, before: Orders, after: Orders, inFlight: set<LinkId>)
    requires Evolves(before, after, inFlight) && id in before
    ensures Shown(before, id, false).Some? || Shown(after, id, true).Some?
    ensures Shown(before, id, true).None? && Shown(after, id, false).None? <==> Live(before[id]) && !Live(after[id])
  {
  }

  lemma HistoryFirstMisses(id: LinkId)
    ensures exists before: Orders, after: Orders ::
              Evolves(before, after, {}) && id in before && Shown(before, id, true).None?
              && Shown(after, id, false).None?
  {
    var before, after: Orders := map[id := New], map[id := Cancelled];
    assert Evolves(before, after, {});
    assert Shown(before, id, true).None? && Shown(after, id, false).None?;
  }

  ghost predicate IsAttempt(id: LinkId, base: LinkId) {
    exists k: nat :: k < ATTEMPTS && id == RetryLinkId(base, k)
  }

  // A placement for an intent only adds identities of that intent; other orders just evolve.
  ghost predicate OnlyAttempts(before: Orders, beforeFlight: set<LinkId>, after: Orders, afterFlight: set<LinkId>,
                               base: LinkId) {
    && (forall id | id in before :: id in after && MayBecome(before[id], after[id]))
    && (forall id | id in after || id in afterFlight :: id in before || id in beforeFlight || IsAttempt(id, base))
  }

  lemma OnlyAttemptsAfter(start: Orders, startFlight: set<LinkId>, before: Orders, beforeFlight: set<LinkId>,
                          after: Orders, afterFlight: set<LinkId>, base: LinkId)
    requires Evolves(start, before, startFlight) && beforeFlight <= startFlight
    requires OnlyAttempts(before, beforeFlight, after, afterFlight, base)
    ensures OnlyAttempts(start, startFlight, after, afterFlight, base)
  {
  }

  // What the exchange does with a request for attempt k keeps the invariant.
  lemma RequestKeepsPrefix(start: Orders, inFlight: set<LinkId>, middle: Orders, accepted: Orders, after: Orders,
                           later: set<LinkId>, base: LinkId, k: nat)
    requires PrefixInvariant(start, inFlight) && WellFormed(base) && k < ATTEMPTS
    requires forall j: nat | j < k :: Spent(start, RetryLinkId(base, j))
    requires Requested(start, inFlight, RetryLinkId(base, k), middle, accepted, after)
    requires later <= inFlight + {RetryLinkId(base, k)}
    ensures PrefixInvariant(after, later)
    ensures forall j: nat | j < k :: Spent(after, RetryLinkId(base, j))
    ensures OnlyAttempts(start, inFlight, after, later, base)
  {
    var id := RetryLinkId(base, k);
    forall j: nat | j < k
      ensures Spent(middle, RetryLinkId(base, j)) && Spent(accepted, RetryLinkId(base, j))
              && Spent(after, RetryLinkId(base, j))
    {
      assert Spent(start, RetryLinkId(base, j));
    }
    EvolutionKeepsPrefix(start, middle, inFlight, inFlight);
    if accepted != middle {
      SendingKeepsPrefix(middle, inFlight, base, k, accepted[id]);
    }
    SendingKeepsPrefix(accepted, inFlight, base, k, New);
    EvolutionKeepsPrefix(accepted, after, inFlight + {id}, later);
    assert IsAttempt(id, base);
  }

  // The calls of one submission: the request, and a lookup when it failed. The answer is the identity
  // exactly when the request returned or the lookup showed the order, live or filled.
  predicate Submission(calls: seq<Call>, id: LinkId, r: Result<LinkId, PlacementError>) {
    && calls != [] && calls[0].Sent? && calls[0].id == id
    && if calls[0].answer.Ok? then |calls| == 1 && r == Ok(id)
       else
         && |calls| > 1 && (forall i | 1 <= i < |calls| :: calls[i].Asked? && calls[i].id == id)
         && (r == Ok(id) || r == Err(CallFailed))
         && (r.Ok? <==> exists i :: 1 <= i < |calls| && ShowsUsable(calls[i], id))
  }

  lemma SubmissionOf(calls: seq<Call>, id: LinkId, answer: Result<Status, PlacementError>, looked: seq<Call>,
                     shown: Result<Option<Status>, PlacementError>)
    requires calls == [Sent(id, answer)] + looked && answer.Err? && Lookup(looked, id, shown)
    ensures var usable := shown.Ok? && shown.value.Some? && ActiveOrFilled(shown.value.value);
            Submission(calls, id, if usable then Ok(id) else Err(CallFailed))
  {
    assert calls[|calls| - 1] == looked[|looked| - 1];
    forall i | 1 <= i < |calls| ensures calls[i].Asked? && calls[i].id == id {
      assert calls[i] == looked[i - 1];
    }
    if shown.Ok? && shown.value.Some? && ActiveOrFilled(shown.value.value) {
      assert ShowsUsable(calls[|calls| - 1], id);
    }
  }

  // The request itself. After a failure the order is looked up once more before giving up.
  method Submit(session: Session, base: LinkId, attempt: nat)
    returns (r: Result<LinkId, PlacementError>, ghost said: seq<Call>)
    requires WellFormed(base) && attempt < ATTEMPTS
    requires PrefixInvariant(session.orders, session.inFlight)
    requires forall j: nat | j < attempt :: Spent(session.orders, RetryLinkId(base, j))
    modifies session
    ensures PrefixInvariant(session.orders, session.inFlight)
    ensures forall j: nat | j < attempt :: Spent(session.orders, RetryLinkId(base, j))
    ensures OnlyAttempts(old(session.orders), old(session.inFlight), session.orders, session.inFlight, base)
    ensures r.Ok? ==> r.value == RetryLinkId(base, attempt) && r.value in session.orders
    ensures r.Err? ==> r == Err(CallFailed)
    ensures session.calls == old(session.calls) + said && Submission(said, RetryLinkId(base, attempt), r)
  {
    var candidate := RetryLinkId(base, attempt);
    ghost var start, startFlight := session.orders, session.inFlight;
    var response := session.PlaceOrder(candidate);
    said := [Sent(candidate, response)];
    ghost var middle: Orders, accepted: Orders :|
      Requested(start, startFlight, candidate, middle, accepted, session.orders);
    RequestKeepsPrefix(start, startFlight, middle, accepted, session.orders, session.inFlight, base, attempt);
    if response.Ok? {
      return Ok(candidate), said;
    }
    ghost var sent, sentFlight := session.orders, session.inFlight;
    ghost var looked;
    var recovered;
    recovered, looked := FindOrder(session, candidate);
    said := said + looked;
    EvolutionKeepsPrefix(sent, session.orders, sentFlight, session.inFlight);
    forall j: nat | j < attempt ensures Spent(session.orders, RetryLinkId(base, j)) {
      assert Spent(sent, RetryLinkId(base, j));
    }
    SubmissionOf(said, candidate, response, looked, recovered);
    if recovered.Ok? && recovered.value.Some? && ActiveOrFilled(recovered.value.value) {
      return Ok(candidate), said;
    }
    r := Err(CallFailed);
  }

  // What one placement says to the exchange and how it takes the answers: it begins with the first
  // identity; sends the first one not found, and no other; answers with it when the request returned;
  // looks it up again when the request failed; answers with an identity that was shown live or
  // filled, and only with one that was so shown or returned; and fails only when a call failed.
  ghost predicate Conversation(calls: seq<Call>, base: LinkId, r: Result<LinkId, PlacementError>) {
    && calls != [] && calls[0].Asked? && calls[0].id == base && !calls[0].history
    && (forall i: nat, id | NotFound(calls, i, id) && NothingSent(calls, i) ::
          i + 2 < |calls| && calls[i + 2].Sent? && calls[i + 2].id == id)
    && (forall i: nat | i < |calls| && calls[i].Sent? ::
          i > 1 && NotFound(calls, i - 2, calls[i].id) && NothingSent(calls, i))
    && (forall i: nat | i < |calls| && calls[i].Sent? && calls[i].answer.Ok? ::
          r == Ok(calls[i].id) && i == |calls| - 1)
    && (forall i: nat | i < |calls| && calls[i].Sent? && calls[i].answer.Err? ::
          i + 1 < |calls| && calls[i + 1].Asked? && calls[i + 1].id == calls[i].id)
    && (forall i: nat, id | i < |calls| && ShowsUsable(calls[i], id) :: r == Ok(id))
    && (r.Ok? ==> exists i: nat :: i < |calls| && Answers(calls[i], r.value))
    && (r == Err(CallFailed) ==> exists i: nat :: i < |calls| && Fails(calls[i]))
    && (r.Err? && (forall i: nat | i < |calls| :: !Fails(calls[i])) ==> r == Err(RetriesExhausted(base)))
  }

  // The call justifies the answer.
  predicate Answers(call: Call, id: LinkId) {
    ShowsUsable(call, id) || (call.Sent? && call.id == id && call.answer.Ok?)
  }

  predicate NothingSent(calls: seq<Call>, i: nat) {
    forall j | 0 <= j < i && j < |calls| :: calls[j].Asked?
  }

  // Lookups so far, all of which found an order that is over.
  ghost predicate OnlySpent(calls: seq<Call>, base: LinkId) {
    && (forall i | 0 <= i < |calls| :: calls[i].Asked? && calls[i].shown.Ok? && !ShowsUsable(calls[i], calls[i].id))
    && (forall i: nat | i + 1 < |calls| :: !NotFound(calls, i, calls[i].id))
    && (calls != [] ==> calls[0].id == base && !calls[0].history && calls[|calls| - 1].shown.value.Some?)
  }

  lemma SpentLookup(calls: seq<Call>, more: seq<Call>, base: LinkId, id: LinkId, status: Status)
    requires OnlySpent(calls, base) && Lookup(more, id, Ok(Some(status))) && !ActiveOrFilled(status)
    requires calls == [] ==> id == base
    ensures OnlySpent(calls + more, base)
  {
    var all := calls + more;
    forall i: nat, id ensures !NotFound(all, i, id) {
      assert i + 1 < |calls| ==> !NotFound(calls, i, id);
    }
  }

  lemma EndsWithLookup(calls: seq<Call>, more: seq<Call>, base: LinkId, id: LinkId,
                       shown: Result<Option<Status>, PlacementError>, r: Result<LinkId, PlacementError>)
    requires OnlySpent(calls, base) && Lookup(more, id, shown) && (calls == [] ==> id == base)
    requires shown.Err? || (shown.value.Some? && ActiveOrFilled(shown.value.value))
    requires r == if shown.Err? then Err(CallFailed) else Ok(id)
    ensures Conversation(calls + more, base, r)
  {
    var all := calls + more;
    forall i: nat, other ensures !NotFound(all, i, other) {
      assert i + 1 < |calls| ==> !NotFound(calls, i, other);
    }
    var last := |all| - 1;
    assert all[last] == more[|more| - 1];
    assert shown.Err? ==> Fails(all[last]);
    assert shown.Ok? ==> Answers(all[last], id);
  }

  lemma EndsWithSubmission(calls: seq<Call>, more: seq<Call>, sent: seq<Call>, base: LinkId, id: LinkId,
                           r: Result<LinkId, PlacementError>)
    requires OnlySpent(calls, base) && Lookup(more, id, Ok(None)) && (calls == [] ==> id == base)
    requires Submission(sent, id, r)
    ensures Conversation(calls + more + sent, base, r)
  {
    var all, n := calls + more + sent, |calls + more|;
    assert all[n] == sent[0] && NotFound(all, n - 2, id);
    forall i: nat, other | NotFound(all, i, other) && NothingSent(all, i)
      ensures i + 2 < |all| && all[i + 2].Sent? && all[i + 2].id == other
    {
      assert i + 1 < |calls| ==> !NotFound(calls, i, other);
    }
    forall i: nat | i < |all| && all[i].Sent? ensures i == n {
    }
    if r.Ok? && sent[0].answer.Err? {
      var i :| 1 <= i < |sent| && ShowsUsable(sent[i], id);
      assert all[n + i] == sent[i] && Answers(all[n + i], id);
    } else if r.Ok? {
      assert Answers(all[n], id);
    } else {
      assert Fails(all[n]);
    }
    forall i: nat, other | i < |all| && ShowsUsable(all[i], other) ensures r == Ok(other) {
      assert i > n ==> all[i] == sent[i - n];
    }
  }

  // The calls of one attempt, and how it ends: None when the order under its identity is over.
  ghost predicate AttemptCalls(calls: seq<Call>, id: LinkId, r: Option<Result<LinkId, PlacementError>>) {
    if r.None? then exists status :: Lookup(calls, id, Ok(Some(status))) && !ActiveOrFilled(status)
    else
      || (exists shown :: LookupEnds(calls, id, shown, r.value))
      || (exists looked, sent :: calls == looked + sent && SubmitsAfter(looked, sent, id, r.value))
  }

  // The lookup failed or showed the order, live or filled.
  ghost predicate LookupEnds(calls: seq<Call>, id: LinkId, shown: Result<Option<Status>, PlacementError>,
                             r: Result<LinkId, PlacementError>) {
    && Lookup(calls, id, shown) && (shown.Err? || (shown.value.Some? && ActiveOrFilled(shown.value.value)))
    && r == if shown.Err? then Err(CallFailed) else Ok(id)
  }

  // The lookup found nothing, and a submission followed.
  ghost predicate SubmitsAfter(looked: seq<Call>, sent: seq<Call>, id: LinkId, r: Result<LinkId, PlacementError>) {
    Lookup(looked, id, Ok(None)) && Submission(sent, id, r)
  }

  lemma AttemptEnds(calls: seq<Call>, more: seq<Call>, base: LinkId, id: LinkId, r: Result<LinkId, PlacementError>)
    requires OnlySpent(calls, base) && AttemptCalls(more, id, Some(r)) && (calls == [] ==> id == base)
    ensures Conversation(calls + more, base, r)
  {
    if shown :| LookupEnds(more, id, shown, r) {
      EndsWithLookup(calls, more, base, id, shown, r);
    } else {
      var looked, sent :| more == looked + sent && SubmitsAfter(looked, sent, id, r);
      EndsWithSubmission(calls, looked, sent, base, id, r);
      assert calls + looked + sent == calls + more;
    }
  }

  // One identity: used when it is shown live or filled, passed over when its order is over, and
  // submitted when it is not found.
  method Attempt(session: Session, base: LinkId, attempt: nat)
    returns (r: Option<Result<LinkId, PlacementError>>, ghost said: seq<Call>)
    requires WellFormed(base) && attempt < ATTEMPTS
    requires PrefixInvariant(session.orders, session.inFlight)
    requires EarlierSpent(session.orders, base, attempt)
    modifies session
    ensures PrefixInvariant(session.orders, session.inFlight)
    ensures EarlierSpent(session.orders, base, attempt)
    ensures OnlyAttempts(old(session.orders), old(session.inFlight), session.orders, session.inFlight, base)
    ensures r.None? ==>
              && Evolves(old(session.orders), session.orders, old(session.inFlight))
              && session.inFlight <= old(session.inFlight) && Spent(session.orders, RetryLinkId(base, attempt))
    ensures r.Some? && r.value.Ok? ==> r.value.value == RetryLinkId(base, attempt) && r.value.value in session.orders
    ensures r.Some? && r.value.Err? ==> r.value == Err(CallFailed)
    ensures session.calls == old(session.calls) + said && AttemptCalls(said, RetryLinkId(base, attempt), r)
  {
    var candidate := RetryLinkId(base, attempt);
    ghost var before, flight := session.orders, session.inFlight;
    var existing;
    existing, said := FindOrder(session, candidate);
    EvolutionKeepsPrefix(before, session.orders, flight, session.inFlight);
    forall j: nat | j < attempt ensures Spent(session.orders, RetryLinkId(base, j)) {
      assert Spent(before, RetryLinkId(base, j));
    }
    if existing.Err? {
      assert LookupEnds(said, candidate, existing, Err(CallFailed));
      return Some(Err(CallFailed)), said;
    }
    if existing.value.Some? {
      if ActiveOrFilled(existing.value.value) {
        assert LookupEnds(said, candidate, existing, Ok(candidate));
        return Some(Ok(candidate)), said;
      }
      return None, said;
    }
    ghost var found, foundFlight, looked := session.orders, session.inFlight, said;
    ghost var sent;
    var submitted;
    submitted, sent := Submit(session, base, attempt);
    OnlyAttemptsAfter(before, flight, found, foundFlight, session.orders, session.inFlight, base);
    said := looked + sent;
    assert SubmitsAfter(looked, sent, candidate, submitted);
    r := Some(submitted);
  }

  // At most ten identities of the intent are tried, each only after all earlier ones are spent.
  method PlaceIdempotent(session: Session, base: LinkId)
    returns (r: Result<LinkId, PlacementError>, ghost said: seq<Call>)
    requires WellFormed(base)
    requires PrefixInvariant(session.orders, session.inFlight)
    modifies session
    ensures PrefixInvariant(session.orders, session.inFlight)
    ensures OnlyAttempts(old(session.orders), old(session.inFlight), session.orders, session.inFlight, base)
    ensures r.Ok? ==> exists k: nat :: Used(session.orders, base, k, r)
    ensures r == Err(RetriesExhausted(base)) ==> EarlierSpent(session.orders, base, 10)
    ensures session.calls == old(session.calls) + said && Conversation(said, base, r)
  {
    said := [];
    for attempt := 0 to ATTEMPTS
      invariant Progress(old(session.orders), old(session.inFlight), session.orders, session.inFlight, base, attempt)
      invariant session.calls == old(session.calls) + said && AllSpent(said, base, attempt)
    {
      ghost var before, flight := session.orders, session.inFlight;
      ghost var more;
      var ended;
      ended, more := Attempt(session, base, attempt);
      assert session.calls == old(session.calls) + (said + more);
      if ended.Some? {
        OnlyAttemptsAfter(
          old(session.orders), old(session.inFlight), before, flight, session.orders, session.inFlight, base);
        AttemptEnds(said, more, base, RetryLinkId(base, attempt), ended.value);
        assert Used(session.orders, base, attempt, ended.value);
        return ended.value, said + more;
      }
      ProgressPasses(
        old(session.orders), old(session.inFlight), before, flight, session.orders, session.inFlight, base, attempt);
      AttemptPasses(said, more, base, attempt);
      said := said + more;
    }
    Exhausted(said, base);
    r := Err(RetriesExhausted(base));
  }

  // The answer is the identity of this attempt, all earlier ones being spent.
  ghost predicate Used(orders: Orders, base: LinkId, k: nat, r: Result<LinkId, PlacementError>) {
    && k < 10 && (r.Ok? ==> r.value == RetryLinkId(base, k) && r.value in orders) && EarlierSpent(orders, base, k)
    && (r.Err? ==> r == Err(CallFailed))
  }

  ghost predicate EarlierSpent(orders: Orders, base: LinkId, attempt: nat) {
    forall j: nat | j < attempt && j < 10 :: Spent(orders, RetryLinkId(base, j))
  }

  // The identities before this attempt are spent, and nothing was sent.
  ghost predicate Progress(start: Orders, startFlight: set<LinkId>, orders: Orders, inFlight: set<LinkId>, base: LinkId,
                           attempt: nat) {
    && PrefixInvariant(orders, inFlight) && Evolves(start, orders, startFlight) && inFlight <= startFlight
    && EarlierSpent(orders, base, attempt)
  }

  lemma ProgressPasses(start: Orders, startFlight: set<LinkId>, before: Orders, flight: set<LinkId>, orders: Orders,
                       inFlight: set<LinkId>, base: LinkId, attempt: nat)
    requires attempt < 10 && Progress(start, startFlight, before, flight, base, attempt)
    requires PrefixInvariant(orders, inFlight) && Evolves(before, orders, flight) && inFlight <= flight
    requires EarlierSpent(orders, base, attempt) && Spent(orders, RetryLinkId(base, attempt))
    ensures Progress(start, startFlight, orders, inFlight, base, attempt + 1)
  {
    EvolvesTransitively(start, before, orders, startFlight, flight);
  }

  ghost predicate AllSpent(calls: seq<Call>, base: LinkId, attempt: nat) {
    OnlySpent(calls, base) && (calls == [] <==> attempt == 0)
  }

  lemma AttemptPasses(calls: seq<Call>, more: seq<Call>, base: LinkId, attempt: nat)
    requires attempt < ATTEMPTS && AllSpent(calls, base, attempt)
    requires AttemptCalls(more, RetryLinkId(base, attempt), None)
    ensures AllSpent(calls + more, base, attempt + 1)
  {
    var id := RetryLinkId(base, attempt);
    var status :| Lookup(more, id, Ok(Some(status))) && !ActiveOrFilled(status);
    SpentLookup(calls, more, base, id, status);
  }

  lemma Exhausted(calls: seq<Call>, base: LinkId)
    requires OnlySpent(calls, base) && calls != []
    ensures Conversation(calls, base, Err(RetriesExhausted(base)))
  {
    assert calls[0].Asked?;
  }

  // Over any sequence of placements, each of which may fail or be cut short at any exchange call,
  // no intent ever has two orders that are live or filled.
  method PlaceAll(session: Session, intents: seq<LinkId>)
    requires forall i | 0 <= i < |intents| :: WellFormed(intents[i])
    requires session.orders == map[] && session.inFlight == {}
    modifies session
    ensures PrefixInvariant(session.orders, session.inFlight)
    ensures forall base, k: nat, l: nat | WellFormed(base) && k < ATTEMPTS && l < ATTEMPTS
              && RetryLinkId(base, k) in session.orders && ActiveOrFilled(session.orders[RetryLinkId(base, k)])
              && RetryLinkId(base, l) in session.orders && ActiveOrFilled(session.orders[RetryLinkId(base, l)]) ::
                   k == l
  {
    for i := 0 to |intents|
      invariant PrefixInvariant(session.orders, session.inFlight)
    {
      var outcome, said := PlaceIdempotent(session, intents[i]);
    }
    forall base, k: nat, l: nat | WellFormed(base) && k < ATTEMPTS && l < ATTEMPTS
      && RetryLinkId(base, k) in session.orders && ActiveOrFilled(session.orders[RetryLinkId(base, k)])
      && RetryLinkId(base, l) in session.orders && ActiveOrFilled(session.orders[RetryLinkId(base, l)])
      ensures k == l
    {
      AtMostOneActive(session.orders, session.inFlight, base, k, l);
    }
  }
}
