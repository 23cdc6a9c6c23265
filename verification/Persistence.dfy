// The execution journal and the open basket rebuilt from it (botdca/persistence.py).
//
// Tables are maps keyed by primary key. Execution and order identifiers are numbers, so that the
// database's ordering of identifiers is an ordering of numbers; zero stands for a missing one.
module Persistence {
  import opened Common

  datatype Side = Buy | Sell | OtherSide

  datatype Execution = Execution(
    id: nat, orderId: nat, linkId: string, symbol: string, side: Side, price: real, qty: real, timeMs: int)

  type Executions = map<nat, Execution>

  predicate ValidExecution(e: Execution) {
    e.id != 0 && e.orderId != 0 && e.side != OtherSide && e.price > 0.0 && e.qty > 0.0 && e.timeMs > 0
  }

  // What the store refuses, field by field.
  lemma ValidExactly(e: Execution)
    ensures !ValidExecution(e)
            <==> e.id == 0 || e.orderId == 0 || e.side == OtherSide || e.price <= 0.0 || e.qty <= 0.0 || e.timeMs <= 0
  {
  }

  // What the table holds: valid executions under their own identifiers.
  ghost predicate Journal(executions: Executions) {
    forall id | id in executions :: executions[id].id == id && ValidExecution(executions[id])
  }

  // Persisting one fill: the first row under an identifier stays.
  function Recorded(executions: Executions, e: Execution): Executions {
    if e.id in executions then executions else executions[e.id := e]
  }

  function RecordedAll(executions: Executions, events: seq<Execution>): Executions {
    if events == [] then executions else Recorded(RecordedAll(executions, events[..|events| - 1]), events[|events| - 1])
  }

  // Fills are reported consistently: one execution per identifier.
  ghost predicate Consistent(events: seq<Execution>) {
    forall i, j | 0 <= i < |events| && 0 <= j < |events| && events[i].id == events[j].id :: events[i] == events[j]
  }

  lemma {:induction false} RecordedAllHolds(executions: Executions, events: seq<Execution>)
    requires Journal(executions) && forall i | 0 <= i < |events| :: ValidExecution(events[i])
    ensures Journal(RecordedAll(executions, events))
    ensures forall id | id in executions ::
              id in RecordedAll(executions, events) && RecordedAll(executions, events)[id] == executions[id]
    ensures forall i | 0 <= i < |events| :: events[i].id in RecordedAll(executions, events)
    ensures forall id | id in RecordedAll(executions, events) && id !in executions ::
              RecordedAll(executions, events)[id] in events
  {
    if events != [] {
      var n := |events| - 1;
      RecordedAllHolds(executions, events[..n]);
      forall i | 0 <= i < |events| ensures events[i].id in RecordedAll(executions, events) {
        if i < n {
          assert events[..n][i].id in RecordedAll(executions, events[..n]);
        }
      }
    }
  }

  // The journal is a function of the set of fills: arrival order and duplicates do not matter.
  lemma {:induction false} ArrivalDoesNotMatter(events: seq<Execution>, others: seq<Execution>)
    requires Consistent(events) && forall i | 0 <= i < |events| :: ValidExecution(events[i])
    requires forall e :: e in events <==> e in others
    ensures RecordedAll(map[], events) == RecordedAll(map[], others)
  {
    forall i | 0 <= i < |others| ensures ValidExecution(others[i]) {
      assert others[i] in events;
    }
    RecordedAllHolds(map[], events);
    RecordedAllHolds(map[], others);
    var a, b := RecordedAll(map[], events), RecordedAll(map[], others);
    SameKeys(a, b, events, others);
    SameKeys(b, a, others, events);
    forall id | id in a ensures a[id] == b[id] {
      assert a[id] in events && b[id] in events;
      assert a[id].id == b[id].id == id;
    }
  }

  lemma SameKeys(a: Executions, b: Executions, events: seq<Execution>, others: seq<Execution>)
    requires Journal(a) && Journal(b)
    requires forall id | id in a :: a[id] in events
    requires forall i | 0 <= i < |others| :: others[i].id in b
    requires forall e | e in events :: e in others
    ensures a.Keys <= b.Keys
  {
    forall id | id in a ensures id in b {
      var e := a[id];
      assert e in others && e.id == id;
    }
  }

  // ---------------------------------------------------------------- the ordered query

  predicate Before(a: Execution, b: Execution) {
    a.timeMs < b.timeMs || (a.timeMs == b.timeMs && a.id < b.id)
  }

  ghost predicate Ascending(rows: seq<Execution>) {
    forall i, j | 0 <= i < j < |rows| :: Before(rows[i], rows[j])
  }

  // The journaled rows of a symbol, ordered by execution time and then by identity.
  ghost predicate Selection(rows: seq<Execution>, executions: Executions, symbol: string) {
    && Ascending(rows)
    && forall e :: e in rows <==> e.id in executions && executions[e.id] == e && e.symbol == symbol
  }

  // There is only one answer to the query.
  lemma {:induction false} SelectionIsUnique(rows: seq<Execution>, others: seq<Execution>)
    requires Ascending(rows) && Ascending(others) && forall e :: e in rows <==> e in others
    ensures rows == others
  {
    if rows == [] {
      if others != [] {
        AlsoNonempty(others, rows);
      }
    } else {
      assert rows[0] in others;
      FirstIsLeast(rows, others);
      FirstIsLeast(others, rows);
      assert rows[0] == others[0];
      var tail, otherTail := rows[1..], others[1..];
      forall e ensures e in tail <==> e in otherTail {
        InTail(rows, e);
        InTail(others, e);
      }
      SelectionIsUnique(tail, otherTail);
      assert rows == [rows[0]] + tail && others == [others[0]] + otherTail;
    }
  }

  lemma AlsoNonempty(rows: seq<Execution>, others: seq<Execution>)
    requires rows != [] && forall e | e in rows :: e in others
    ensures others != []
  {
    assert rows[0] in others;
  }

  lemma FirstIsLeast(rows: seq<Execution>, others: seq<Execution>)
    requires Ascending(rows) && rows != [] && others != [] && others[0] in rows
    ensures rows[0] == others[0] || Before(rows[0], others[0])
  {
    var i :| 0 <= i < |rows| && rows[i] == others[0];
  }

  lemma InTail(rows: seq<Execution>, e: Execution)
    requires Ascending(rows) && rows != []
    ensures e in rows[1..] <==> e in rows && e != rows[0]
  {
    if e in rows[1..] {
      var i :| 0 <= i < |rows[1..]| && rows[1..][i] == e;
      assert Before(rows[0], rows[i + 1]);
    }
    if e in rows && e != rows[0] {
      var i :| 0 <= i < |rows| && rows[i] == e;
      assert rows[1..][i - 1] == e;
    }
  }

  // ---------------------------------------------------------------- the open basket

  const DUST: real := 0.000000001

  datatype Scan = Scan(open: seq<Execution>, net: real)

  function ScanRows(rows: seq<Execution>): Scan {
    if rows == [] then Scan([], 0.0)
    else
      var before, row := ScanRows(rows[..|rows| - 1]), rows[|rows| - 1];
      match row.side
      case Buy => Scan(before.open + [row], before.net + row.qty)
      case Sell => if before.net - row.qty <= DUST then Scan([], 0.0) else Scan(before.open, before.net - row.qty)
      case OtherSide => before
  }

  function Buys(rows: seq<Execution>): seq<Execution> {
    if rows == [] then []
    else Buys(rows[..|rows| - 1]) + if rows[|rows| - 1].side == Buy then [rows[|rows| - 1]] else []
  }

  function Net(rows: seq<Execution>): real {
    if rows == [] then 0.0
    else
      var row := rows[|rows| - 1];
      Net(rows[..|rows| - 1]) + (match row.side case Buy => row.qty case Sell => -row.qty case OtherSide => 0.0)
  }

  // Counting from `start`, no sell up to `end` brings the net quantity down to dust.
  ghost predicate StaysOpen(rows: seq<Execution>, start: nat, end: nat)
    requires start <= end <= |rows|
  {
    forall m | start < m <= end && rows[m - 1].side == Sell :: Net(rows[start..m]) > 0.000000001
  }

  // The points at which the position is flat: the beginning, and every sell that brings the net
  // quantity since the previous flat point down to dust.
  ghost predicate FlatPoint(rows: seq<Execution>, k: nat)
    requires k <= |rows|
  {
    k == 0 || exists j: nat :: j < k && FlatPoint(rows, j) && ReturnsToFlat(rows, j, k)
  }

  ghost predicate ReturnsToFlat(rows: seq<Execution>, start: nat, end: nat)
    requires start < end <= |rows|
  {
    rows[end - 1].side == Sell && StaysOpen(rows, start, end - 1) && Net(rows[start..end]) <= 0.000000001
  }

  ghost predicate LastFlat(rows: seq<Execution>, k: nat) {
    k <= |rows| && FlatPoint(rows, k) && StaysOpen(rows, k, |rows|)
  }

  lemma NetAppend(rows: seq<Execution>, row: Execution)
    ensures Net(rows + [row])
            == Net(rows) + (match row.side case Buy => row.qty case Sell => -row.qty case OtherSide => 0.0)
    ensures Buys(rows + [row]) == Buys(rows) + (if row.side == Buy then [row] else [])
  {
    assert (rows + [row])[..|rows|] == rows;
  }

  lemma FlatPointExtends(rows: seq<Execution>, longer: seq<Execution>, k: nat)
    requires rows <= longer && k <= |rows| && FlatPoint(rows, k)
    ensures FlatPoint(longer, k)
  {
    if k > 0 {
      var j: nat :| j < k && FlatPoint(rows, j) && ReturnsToFlat(rows, j, k);
      FlatPointExtends(rows, longer, j);
      ReturnExtends(rows, longer, j, k);
    }
  }

  lemma ReturnExtends(rows: seq<Execution>, longer: seq<Execution>, j: nat, k: nat)
    requires rows <= longer && j < k <= |rows| && ReturnsToFlat(rows, j, k)
    ensures ReturnsToFlat(longer, j, k)
  {
    assert longer[j..k] == rows[j..k];
    forall m | j < m <= k - 1 && longer[m - 1].side == Sell ensures Net(longer[j..m]) > DUST {
      assert longer[j..m] == rows[j..m];
    }
  }

  lemma StaysOpenExtends(front: seq<Execution>, row: Execution, j: nat)
    requires j <= |front| && StaysOpen(front, j, |front|)
    ensures StaysOpen(front + [row], j, |front|)
  {
    var rows := front + [row];
    forall m | j < m <= |front| && rows[m - 1].side == Sell ensures Net(rows[j..m]) > DUST {
      assert rows[j..m] == front[j..m] && rows[m - 1] == front[m - 1];
    }
  }

  // Where the last return to flat lies after one more row.
  lemma ExtendLastFlat(front: seq<Execution>, row: Execution, j: nat)
    requires LastFlat(front, j)
    ensures var rows := front + [row];
            LastFlat(rows, if row.side == Sell && Net(rows[j..]) <= DUST then |rows| else j)
  {
    var rows := front + [row];
    FlatPointExtends(front, rows, j);
    StaysOpenExtends(front, row, j);
    assert rows[j..|rows|] == rows[j..];
    if row.side == Sell && Net(rows[j..]) <= DUST {
      assert ReturnsToFlat(rows, j, |rows|);
    }
  }

  lemma SuffixOfAppend(front: seq<Execution>, row: Execution, k: nat)
    requires k <= |front|
    ensures (front + [row])[k..] == front[k..] + [row]
  {
  }

  // The scan finds the last return to flat: its open rows are the buys since then and its net
  // quantity is buys minus sells since then.
  lemma {:induction false} ScanFindsLastFlat(rows: seq<Execution>) returns (k: nat)
    ensures LastFlat(rows, k)
    ensures ScanRows(rows) == Scan(Buys(rows[k..]), Net(rows[k..]))
  {
    k := 0;
    if rows != [] {
      var front, row := rows[..|rows| - 1], rows[|rows| - 1];
      assert rows == front + [row];
      k := ScanFindsLastFlat(front);
      ExtendLastFlat(front, row, k);
      SuffixOfAppend(front, row, k);
      NetAppend(front[k..], row);
      if row.side == Sell && Net(rows[k..]) <= DUST {
        k := |rows|;
        assert rows[k..] == [];
      }
    }
  }

  // Flat points follow each other, so the last one is unique.
  lemma {:induction false} LastFlatIsUnique(rows: seq<Execution>, k: nat, l: nat)
    requires LastFlat(rows, k) && LastFlat(rows, l)
    ensures k == l
  {
    if k < l {
      NoFlatAfter(rows, k, l);
    } else if l < k {
      NoFlatAfter(rows, l, k);
    }
  }

  // No flat point lies strictly between a flat point and the next return to flat.
  lemma NoFlatAfter(rows: seq<Execution>, k: nat, l: nat)
    requires k < l <= |rows| && FlatPoint(rows, k) && FlatPoint(rows, l)
    ensures !StaysOpen(rows, k, |rows|)
    decreases l
  {
    var j: nat :| j < l && FlatPoint(rows, j) && ReturnsToFlat(rows, j, l);
    if j == k {
      assert Net(rows[k..l]) <= DUST && rows[l - 1].side == Sell;
    } else if k < j {
      NoFlatAfter(rows, k, j);
    } else {
      FlatBetween(rows, j, k, l);
    }
  }

  lemma FlatBetween(rows: seq<Execution>, j: nat, k: nat, l: nat)
    requires j < k < l <= |rows| && FlatPoint(rows, j) && FlatPoint(rows, k)
    ensures !StaysOpen(rows, j, l - 1)
    decreases k
  {
    var i: nat :| i < k && FlatPoint(rows, i) && ReturnsToFlat(rows, i, k);
    if i == j {
      assert Net(rows[j..k]) <= DUST && rows[k - 1].side == Sell;
    } else if j < i {
      FlatBetween(rows, j, i, l);
    } else {
      FlatBetween(rows, i, j, k);
    }
  }

  // An open basket has a positive net quantity.
  lemma {:induction false} OpenMeansPositive(rows: seq<Execution>)
    requires forall i | 0 <= i < |rows| :: rows[i].qty > 0.0
    ensures ScanRows(rows).net >= 0.0
    ensures ScanRows(rows).open != [] ==> ScanRows(rows).net > 0.0
    ensures ScanRows(rows).open == [] ==> ScanRows(rows).net == 0.0
  {
    if rows != [] {
      OpenMeansPositive(rows[..|rows| - 1]);
    }
  }

  // History before a flat point does not matter.
  lemma {:induction false} HistoryBeforeFlatDoesNotMatter(history: seq<Execution>, since: seq<Execution>)
    requires ScanRows(history) == Scan([], 0.0)
    ensures ScanRows(history + since) == ScanRows(since)
  {
    if since == [] {
      assert history + since == history;
    } else {
      var n := |since| - 1;
      HistoryBeforeFlatDoesNotMatter(history, since[..n]);
      assert (history + since)[..|history| + n] == history + since[..n];
    }
  }

  // ---------------------------------------------------------------- the summary

  datatype Summary = Summary(
    basket: seq<nat>, orderCount: nat, dcaLevel: int, totalBuyQty: real, weightedAverage: real, lastOrderQty: real)

  predicate BotExecution(e: Execution) {
    "botdca-" <= e.linkId
  }

  // Orders in the order their first fill appears.
  function OrderSequence(rows: seq<Execution>): seq<nat> {
    if rows == [] then []
    else
      var before, id := OrderSequence(rows[..|rows| - 1]), rows[|rows| - 1].orderId;
      if id in before then before else before + [id]
  }

  function QtyOfOrder(rows: seq<Execution>, orderId: nat): real {
    if rows == [] then 0.0
    else QtyOfOrder(rows[..|rows| - 1], orderId)
         + if rows[|rows| - 1].orderId == orderId then rows[|rows| - 1].qty else 0.0
  }

  function GrossQty(rows: seq<Execution>): real {
    if rows == [] then 0.0 else GrossQty(rows[..|rows| - 1]) + rows[|rows| - 1].qty
  }

  function GrossNotional(rows: seq<Execution>): real {
    if rows == [] then 0.0
    else GrossNotional(rows[..|rows| - 1]) + Product(rows[|rows| - 1].price, rows[|rows| - 1].qty)
  }

  function Ids(rows: seq<Execution>): seq<nat> {
    seq(|rows|, i requires 0 <= i < |rows| => rows[i].id)
  }

  // The basket id stands for the joined execution ids of its fills: the source hashes them.
  function SummaryOf(rows: seq<Execution>): Option<Summary> {
    var scan := ScanRows(rows);
    if scan.open == [] || (exists i :: 0 <= i < |scan.open| && !BotExecution(scan.open[i])) then None
    else
      var orders := OrderSequence(scan.open);
      Some(Summary(Ids(scan.open), |orders|, MaxInt(0, |orders| - 1), scan.net,
                   if GrossQty(scan.open) == 0.0 then 0.0 else GrossNotional(scan.open) / GrossQty(scan.open),
                   if orders == [] then 0.0 else QtyOfOrder(scan.open, orders[|orders| - 1])))
  }

  lemma {:induction false} OrdersAreDistinct(rows: seq<Execution>)
    ensures forall i, j | 0 <= i < j < |OrderSequence(rows)| :: OrderSequence(rows)[i] != OrderSequence(rows)[j]
    ensures forall id :: id in OrderSequence(rows) <==> exists r :: 0 <= r < |rows| && rows[r].orderId == id
    ensures rows != [] ==> OrderSequence(rows) != []
  {
    if rows != [] {
      var n := |rows| - 1;
      OrdersAreDistinct(rows[..n]);
      forall id ensures id in OrderSequence(rows) <==> exists r :: 0 <= r < |rows| && rows[r].orderId == id {
        if id in OrderSequence(rows[..n]) {
          var r :| 0 <= r < n && rows[..n][r].orderId == id;
          assert rows[r].orderId == id;
        }
        if exists r :: 0 <= r < |rows| && rows[r].orderId == id {
          var r :| 0 <= r < |rows| && rows[r].orderId == id;
          assert r < n ==> rows[..n][r].orderId == id;
        }
      }
    }
  }

  lemma GrossIsPositive(rows: seq<Execution>)
    requires rows != [] && forall i | 0 <= i < |rows| :: rows[i].qty > 0.0
    ensures GrossQty(rows) > 0.0
  {
    if |rows| > 1 {
      GrossIsPositive(rows[..|rows| - 1]);
    }
  }

  // The summary of a journal does not depend on how its fills arrived: in any order, with any
  // duplicates, and whatever happened before a point at which the position was flat.
  lemma {:induction false} SummaryIgnoresArrival(
    events: seq<Execution>, others: seq<Execution>, symbol: string, rows: seq<Execution>, otherRows: seq<Execution>)
    requires Consistent(events) && forall i | 0 <= i < |events| :: ValidExecution(events[i])
    requires forall e :: e in events <==> e in others
    requires Selection(rows, RecordedAll(map[], events), symbol)
    requires Selection(otherRows, RecordedAll(map[], others), symbol)
    ensures SummaryOf(rows) == SummaryOf(otherRows)
  {
    ArrivalDoesNotMatter(events, others);
    SelectionIsUnique(rows, otherRows);
  }

  lemma {:induction false} SummaryIgnoresClosedHistory(history: seq<Execution>, since: seq<Execution>)
    requires ScanRows(history) == Scan([], 0.0)
    ensures SummaryOf(history + since) == SummaryOf(since)
  {
    HistoryBeforeFlatDoesNotMatter(history, since);
  }

  // The rows of one order.
  function OfOrder(rows: seq<Execution>, orderId: nat): seq<Execution> {
    if rows == [] then []
    else
      OfOrder(rows[..|rows| - 1], orderId)
      + if rows[|rows| - 1].orderId == orderId then [rows[|rows| - 1]] else []
  }

  lemma {:induction false} OfOrderHolds(rows: seq<Execution>, orderId: nat)
    ensures forall e :: e in OfOrder(rows, orderId) <==> e in rows && e.orderId == orderId
  {
    if rows != [] {
      var n := |rows| - 1;
      OfOrderHolds(rows[..n], orderId);
      assert rows == rows[..n] + [rows[n]];
    }
  }

  lemma {:induction false} OrderQtyIsGross(rows: seq<Execution>, orderId: nat)
    ensures QtyOfOrder(rows, orderId) == GrossQty(OfOrder(rows, orderId))
  {
    if rows != [] {
      var n := |rows| - 1;
      OrderQtyIsGross(rows[..n], orderId);
      GrossAppend(OfOrder(rows[..n], orderId), rows[n]);
      assert OfOrder(rows[..n], orderId) + [] == OfOrder(rows[..n], orderId);
    }
  }

  // The order first appears at row r.
  predicate FirstFill(rows: seq<Execution>, orderId: nat, r: nat) {
    r < |rows| && rows[r].orderId == orderId && forall i | 0 <= i < r :: rows[i].orderId != orderId
  }

  // The order whose first fill comes last.
  ghost predicate LastOrder(rows: seq<Execution>, orderId: nat) {
    exists r: nat :: FirstFill(rows, orderId, r)
      && forall i | r < i < |rows| :: SeenBy(rows, r, rows[i].orderId)
  }

  lemma {:induction false} LastInSequence(rows: seq<Execution>)
    requires rows != []
    ensures OrderSequence(rows) != [] && LastOrder(rows, OrderSequence(rows)[|OrderSequence(rows)| - 1])
  {
    OrdersAreDistinct(rows);
    var n := |rows| - 1;
    var front, id := rows[..n], rows[n].orderId;
    OrdersAreDistinct(front);
    if id !in OrderSequence(front) {
      assert FirstFill(rows, id, n) by {
        forall i | 0 <= i < n ensures rows[i].orderId != id {
          assert front[i].orderId in OrderSequence(front);
        }
      }
    } else {
      LastInSequence(front);
      LastStays(front, rows[n], OrderSequence(front)[|OrderSequence(front)| - 1]);
      assert front + [rows[n]] == rows;
    }
  }

  // Another fill of an order seen before.
  lemma LastStays(front: seq<Execution>, row: Execution, last: nat)
    requires LastOrder(front, last) && exists k :: 0 <= k < |front| && front[k].orderId == row.orderId
    ensures LastOrder(front + [row], last)
  {
    var rows := front + [row];
    var r: nat :| FirstFill(front, last, r) && forall i | r < i < |front| :: SeenBy(front, r, front[i].orderId);
    var k :| 0 <= k < |front| && front[k].orderId == row.orderId;
    assert FirstFill(rows, last, r);
    forall i | r < i < |rows| ensures SeenBy(rows, r, rows[i].orderId) {
      var same := if i == |front| then k else i;
      if same > r {
        var j: nat :| j <= r && front[j].orderId == front[same].orderId;
        assert rows[j].orderId == rows[i].orderId;
      } else {
        assert rows[same].orderId == rows[i].orderId;
      }
    }
  }

  // A fill of the order comes no later than row r.
  ghost predicate SeenBy(rows: seq<Execution>, r: nat, orderId: nat) {
    exists j: nat :: j <= r && j < |rows| && rows[j].orderId == orderId
  }

  // Gross quantity and notional are what the rows add up to.
  lemma {:induction false} GrossAppend(rows: seq<Execution>, row: Execution)
    ensures GrossQty([]) == GrossNotional([]) == 0.0
    ensures GrossQty(rows + [row]) == GrossQty(rows) + row.qty
    ensures GrossNotional(rows + [row]) == GrossNotional(rows) + row.price * row.qty
  {
    assert (rows + [row])[..|rows|] == rows;
  }

  // The average price lies between the lowest and the highest.
  lemma {:induction false} AverageIsBetween(rows: seq<Execution>, low: real, high: real)
    requires rows != [] && forall i | 0 <= i < |rows| :: rows[i].qty > 0.0 && low <= rows[i].price <= high
    ensures GrossQty(rows) > 0.0
    ensures low <= GrossNotional(rows) / GrossQty(rows) <= high
  {
    GrossIsPositive(rows);
    NotionalIsBetween(rows, low, high);
    Quotient(GrossNotional(rows), GrossQty(rows), low);
    Quotient(GrossNotional(rows), GrossQty(rows), high);
  }

  lemma {:induction false} NotionalIsBetween(rows: seq<Execution>, low: real, high: real)
    requires forall i | 0 <= i < |rows| :: rows[i].qty > 0.0 && low <= rows[i].price <= high
    ensures Product(GrossQty(rows), low) <= GrossNotional(rows) <= Product(GrossQty(rows), high)
  {
    if rows != [] {
      var n := |rows| - 1;
      NotionalIsBetween(rows[..n], low, high);
      MulMono(rows[n].qty, low, rows[n].price);
      MulMono(rows[n].qty, rows[n].price, high);
      DistributeLeft(GrossQty(rows[..n]), rows[n].qty, low);
      DistributeLeft(GrossQty(rows[..n]), rows[n].qty, high);
      var qty, price := rows[n].qty, rows[n].price;
      assert Product(qty, low) == qty * low && Product(qty, high) == qty * high && Product(price, qty) == qty * price;
    }
  }

  // What a summary says: it covers the buys since the last return to flat, its quantity is buys
  // less sells since then and positive, its level counts their distinct orders less one, and its
  // last order is the one whose first fill comes last, with all the fills of that order. There is
  // none exactly when no buy is open or an open buy is not the bot's.
  lemma {:induction false} SummaryMeaning(rows: seq<Execution>) returns (k: nat)
    requires forall i | 0 <= i < |rows| :: ValidExecution(rows[i])
    ensures LastFlat(rows, k)
    ensures SummaryOf(rows).Some? ==> Summarises(SummaryOf(rows).value, Buys(rows[k..]), Net(rows[k..]))
    ensures SummaryOf(rows).None? <==> Buys(rows[k..]) == [] || SomeForeign(Buys(rows[k..]))
  {
    k := ScanFindsLastFlat(rows);
    OpenMeansPositive(rows);
    var buys := Buys(rows[k..]);
    BuysArePositive(rows[k..]);
    ForeignExactly(buys);
    if SummaryOf(rows).Some? {
      SummaryIsOf(SummaryOf(rows).value, buys, Net(rows[k..]));
    }
  }

  ghost predicate SomeForeign(buys: seq<Execution>) {
    exists e :: e in buys && !("botdca-" <= e.linkId)
  }

  lemma ForeignExactly(buys: seq<Execution>)
    ensures SomeForeign(buys) <==> exists i :: 0 <= i < |buys| && !BotExecution(buys[i])
  {
  }

  ghost predicate Summarises(summary: Summary, buys: seq<Execution>, net: real) {
    && buys != [] && summary.basket == Ids(buys) && summary.totalBuyQty == net > 0.0
    && summary.orderCount == |OrderSequence(buys)| > 0 && summary.dcaLevel == summary.orderCount - 1
    && GrossQty(buys) > 0.0 && summary.weightedAverage == GrossNotional(buys) / GrossQty(buys)
    && exists id :: LastOrder(buys, id) && summary.lastOrderQty == GrossQty(OfOrder(buys, id))
  }

  lemma SummaryIsOf(summary: Summary, buys: seq<Execution>, net: real)
    requires buys != [] && net > 0.0 && forall i | 0 <= i < |buys| :: buys[i].qty > 0.0
    requires var orders := OrderSequence(buys);
             summary == Summary(Ids(buys), |orders|, MaxInt(0, |orders| - 1), net,
                                if GrossQty(buys) == 0.0 then 0.0 else GrossNotional(buys) / GrossQty(buys),
                                if orders == [] then 0.0 else QtyOfOrder(buys, orders[|orders| - 1]))
    ensures Summarises(summary, buys, net)
  {
    OrdersAreDistinct(buys);
    GrossIsPositive(buys);
    LastInSequence(buys);
    var orders := OrderSequence(buys);
    OrderQtyIsGross(buys, orders[|orders| - 1]);
  }

  lemma BuysArePositive(rows: seq<Execution>)
    requires forall i | 0 <= i < |rows| :: ValidExecution(rows[i])
    ensures forall i | 0 <= i < |Buys(rows)| :: Buys(rows)[i].qty > 0.0 && Buys(rows)[i].side == Buy
  {
  }

  // ---------------------------------------------------------------- the store

  datatype StoreError = InvalidExecution

  class EventStore {
    var executions: Executions
    // Ends of the completed recovery windows, per symbol, in the order they were written.
    var recoveries: seq<(string, int)>

    constructor ()
      ensures executions == map[] && recoveries == []
    {
      executions, recoveries := map[], [];
    }

    method RecordExecution(e: Execution) returns (r: Result<bool, StoreError>)
      modifies `executions
      ensures r == if !ValidExecution(e) then Err(InvalidExecution) else Ok(e.id !in old(executions))
      ensures executions == if ValidExecution(e) then Recorded(old(executions), e) else old(executions)
    {
      if e.id == 0 || e.orderId == 0 || e.side == OtherSide || e.price <= 0.0 || e.qty <= 0.0 || e.timeMs <= 0 {
        return Err(InvalidExecution);
      }
      if e.id in executions {
        return Ok(false);
      }
      executions := executions[e.id := e];
      return Ok(true);
    }

    // The ordered query, by insertion.
    method SelectExecutions(symbol: string) returns (rows: seq<Execution>)
      requires Journal(executions)
      ensures Selection(rows, executions, symbol)
    {
      rows := [];
      var pending := executions.Keys;
      while pending != {}
        invariant pending <= executions.Keys
        invariant Ascending(rows)
        invariant forall e ::
                    e in rows <==> e.id in executions && e.id !in pending && executions[e.id] == e && e.symbol == symbol
        decreases |pending|
      {
        var id :| id in pending;
        pending := pending - {id};
        var row := executions[id];
        if row.symbol == symbol {
          rows := InsertRow(rows, row);
        }
      }
    }

    method OpenCycleExecutionSummary(symbol: string) returns (r: Option<Summary>)
      requires Journal(executions)
      ensures exists rows :: Selection(rows, executions, symbol) && r == SummaryOf(rows)
    {
      var rows := SelectExecutions(symbol);
      var openRows, netQty := ScanLoop(rows);
      assert Scan(openRows, netQty) == ScanRows(rows);
      if openRows == [] {
        return None;
      }
      var foreign := exists i :: 0 <= i < |openRows| && !BotExecution(openRows[i]);
      if foreign {
        return None;
      }
      var orders, orderSequence := GroupByOrder(openRows);
      SelectedArePositive(rows, executions, symbol);
      OpenArePositive(rows);
      OrdersAreDistinct(openRows);
      GrossIsPositive(openRows);
      var last := orderSequence[|orderSequence| - 1];
      var lastOrderQty := GrossQty(orders[last]);
      r := Some(Summary(Ids(openRows), |orderSequence|, MaxInt(0, |orderSequence| - 1), netQty,
                        GrossNotional(openRows) / GrossQty(openRows), lastOrderQty));
      assert r == SummaryOf(rows);
    }

    method RecordRecovery(symbol: string, endMs: int)
      modifies `recoveries
      ensures recoveries == old(recoveries) + [(symbol, endMs)]
    {
      recoveries := recoveries + [(symbol, endMs)];
    }

    method ExecutionRecoveryCheckpoint(symbol: string) returns (r: Option<int>)
      ensures r == LatestRecovery(recoveries, symbol)
    {
      var i := |recoveries|;
      WholePrefix(recoveries);
      while i > 0
        invariant 0 <= i <= |recoveries|
        invariant LatestRecovery(recoveries, symbol) == LatestRecovery(recoveries[..i], symbol)
      {
        assert recoveries[..i][..i - 1] == recoveries[..i - 1];
        if recoveries[i - 1].0 == symbol {
          return Some(recoveries[i - 1].1);
        }
        i := i - 1;
      }
      assert recoveries[..0] == [];
      r := None;
    }
  }

  function LatestRecovery(recoveries: seq<(string, int)>, symbol: string): Option<int> {
    if recoveries == [] then None
    else if recoveries[|recoveries| - 1].0 == symbol then Some(recoveries[|recoveries| - 1].1)
    else LatestRecovery(recoveries[..|recoveries| - 1], symbol)
  }

  // The latest recovery is the last one recorded for the symbol.
  lemma {:induction false} LatestIsLast(recoveries: seq<(string, int)>, symbol: string)
    ensures LatestRecovery(recoveries, symbol).None? <==> forall i | 0 <= i < |recoveries| :: recoveries[i].0 != symbol
    ensures LatestRecovery(recoveries, symbol).Some? ==>
              exists i :: 0 <= i < |recoveries| && recoveries[i] == (symbol, LatestRecovery(recoveries, symbol).value)
                && forall j | i < j < |recoveries| :: recoveries[j].0 != symbol
  {
    if recoveries != [] && recoveries[|recoveries| - 1].0 != symbol {
      var front := recoveries[..|recoveries| - 1];
      LatestIsLast(front, symbol);
      if LatestRecovery(front, symbol).Some? {
        var i :| 0 <= i < |front| && front[i] == (symbol, LatestRecovery(front, symbol).value)
                 && forall j | i < j < |front| :: front[j].0 != symbol;
        assert recoveries[i] == front[i];
      } else {
        forall i | 0 <= i < |recoveries| ensures recoveries[i].0 != symbol {
          assert i < |front| ==> recoveries[i] == front[i];
        }
      }
    }
  }

  method InsertRow(rows: seq<Execution>, row: Execution) returns (r: seq<Execution>)
    requires Ascending(rows) && forall i | 0 <= i < |rows| :: rows[i].id != row.id
    ensures Ascending(r) && forall e :: e in r <==> e in rows || e == row
  {
    var i := 0;
    while i < |rows| && Before(rows[i], row)
      invariant i <= |rows| && forall j | 0 <= j < i :: Before(rows[j], row)
    {
      i := i + 1;
    }
    r := rows[..i] + [row] + rows[i..];
    forall j, k | 0 <= j < k < |r| ensures Before(r[j], r[k]) {
      if i < |rows| && k > i {
        assert rows[i] == rows[k - 1] || Before(rows[i], rows[k - 1]);
      }
    }
    forall e ensures e in r <==> e in rows || e == row {
      if e in rows {
        var j :| 0 <= j < |rows| && rows[j] == e;
        assert r[if j < i then j else j + 1] == e;
      }
      assert r[i] == row;
    }
  }

  method ScanLoop(rows: seq<Execution>) returns (openRows: seq<Execution>, netQty: real)
    ensures Scan(openRows, netQty) == ScanRows(rows)
  {
    openRows, netQty := [], 0.0;
    for i := 0 to |rows|
      invariant Scan(openRows, netQty) == ScanRows(rows[..i])
    {
      assert rows[..i + 1][..i] == rows[..i];
      var row := rows[i];
      if row.side == Buy {
        openRows := openRows + [row];
        netQty := netQty + row.qty;
      } else if row.side == Sell {
        netQty := netQty - row.qty;
        if netQty <= DUST {
          openRows := [];
          netQty := 0.0;
        }
      }
    }
    WholePrefix(rows);
  }

  // The rows of each order, and the orders by first appearance.
  method GroupByOrder(rows: seq<Execution>) returns (orders: map<nat, seq<Execution>>, sequence: seq<nat>)
    ensures sequence == OrderSequence(rows)
    ensures forall id | id in sequence :: id in orders && GrossQty(orders[id]) == QtyOfOrder(rows, id)
  {
    orders, sequence := map[], [];
    for i := 0 to |rows|
      invariant sequence == OrderSequence(rows[..i])
      invariant forall id :: id in orders <==> id in sequence
      invariant forall id | id in sequence :: GrossQty(orders[id]) == QtyOfOrder(rows[..i], id)
      invariant forall id | id !in sequence :: QtyOfOrder(rows[..i], id) == 0.0
    {
      assert rows[..i + 1][..i] == rows[..i];
      var row := rows[i];
      if row.orderId !in orders {
        orders := orders[row.orderId := []];
        sequence := sequence + [row.orderId];
      }
      ghost var grouped := orders[row.orderId];
      assert (grouped + [row])[..|grouped|] == grouped;
      orders := orders[row.orderId := orders[row.orderId] + [row]];
    }
    WholePrefix(rows);
  }

  lemma SelectedArePositive(rows: seq<Execution>, executions: Executions, symbol: string)
    requires Journal(executions) && Selection(rows, executions, symbol)
    ensures forall i | 0 <= i < |rows| :: ValidExecution(rows[i])
  {
    forall i | 0 <= i < |rows| ensures ValidExecution(rows[i]) {
      assert rows[i] in rows;
    }
  }

  lemma OpenArePositive(rows: seq<Execution>)
    requires forall i | 0 <= i < |rows| :: ValidExecution(rows[i])
    ensures forall i | 0 <= i < |ScanRows(rows).open| :: ScanRows(rows).open[i].qty > 0.0
  {
  }
}
