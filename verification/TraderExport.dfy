// Grouping the close fragments of a trader export into cycles (botdca/trader_export.py).
module TraderExport {
  import opened Common

  // The fields of a row that grouping reads. Rows are told apart by their source row.
  datatype Row = Row(sourceRow: nat, symbol: string, side: string, leverage: real, averageEntry: real,
                     openedMs: int, closedMs: int, closingPrice: real)

  datatype Key = Key(symbol: string, side: string, leverage: real, averageEntry: real)

  function KeyOf(row: Row): Key {
    Key(row.symbol, row.side, row.leverage, row.averageEntry)
  }

  type Group = seq<Row>

  predicate WithinTolerances(a: Row, b: Row, timeMs: real, price: real) {
    Abs((a.closedMs - b.closedMs) as real) <= timeMs && Abs(a.closingPrice - b.closingPrice) <= price
  }

  lemma WithinIsSymmetric(a: Row, b: Row, timeMs: real, price: real)
    ensures WithinTolerances(a, b, timeMs, price) == WithinTolerances(b, a, timeMs, price)
  {
  }

  // ---------------------------------------------------------------- specification

  predicate Fits(row: Row, component: Group, timeMs: real, price: real) {
    forall m | 0 <= m < |component| :: WithinTolerances(row, component[m], timeMs, price)
  }

  ghost predicate Coherent(group: Group, timeMs: real, price: real) {
    forall x, y | 0 <= x < |group| && 0 <= y < |group| && x != y :: WithinTolerances(group[x], group[y], timeMs, price)
  }

  // Two groups can be merged when every row of one is within both tolerances of every row of the other.
  ghost predicate Mergeable(a: Group, b: Group, timeMs: real, price: real) {
    forall x, y | 0 <= x < |a| && 0 <= y < |b| :: WithinTolerances(a[x], b[y], timeMs, price)
  }

  function Flatten(groups: seq<Group>): seq<Row> {
    if groups == [] then [] else Flatten(groups[..|groups| - 1]) + groups[|groups| - 1]
  }

  ghost predicate Partition(groups: seq<Group>, rows: seq<Row>) {
    multiset(Flatten(groups)) == multiset(rows)
  }

  ghost predicate AllCoherent(groups: seq<Group>, timeMs: real, price: real) {
    forall g | 0 <= g < |groups| :: groups[g] != [] && Coherent(groups[g], timeMs, price)
  }

  ghost predicate NoneMergeable(groups: seq<Group>, timeMs: real, price: real) {
    forall g, h | 0 <= g < |groups| && 0 <= h < |groups| && g != h :: !Mergeable(groups[g], groups[h], timeMs, price)
  }

  // The groups hold exactly the given rows, each group is nonempty and pairwise within both
  // tolerances, and no two groups could be merged.
  ghost predicate Grouping(groups: seq<Group>, rows: seq<Row>, timeMs: real, price: real) {
    Partition(groups, rows) && AllCoherent(groups, timeMs, price) && NoneMergeable(groups, timeMs, price)
  }

  // ---------------------------------------------------------------- sorting

  ghost predicate SortedBy<T>(order: (T, T) -> bool, s: seq<T>) {
    forall i, j | 0 <= i < j < |s| :: order(s[i], s[j])
  }

  ghost predicate TotalOrder<T(!new)>(order: (T, T) -> bool) {
    && (forall a, b :: order(a, b) || order(b, a))
    && (forall a, b, c :: order(a, b) && order(b, c) ==> order(a, c))
  }

  function Insert<T>(order: (T, T) -> bool, s: seq<T>, x: T): seq<T> {
    if s == [] then [x]
    else if order(s[|s| - 1], x) then s + [x]
    else Insert(order, s[..|s| - 1], x) + [s[|s| - 1]]
  }

  // A stable sort.
  function SortBy<T>(order: (T, T) -> bool, s: seq<T>): seq<T> {
    if s == [] then [] else Insert(order, SortBy(order, s[..|s| - 1]), s[|s| - 1])
  }

  lemma InsertKeepsElements<T>(order: (T, T) -> bool, s: seq<T>, x: T)
    ensures multiset(Insert(order, s, x)) == multiset(s) + multiset{x}
  {
    if s != [] {
      var n := |s| - 1;
      assert s == s[..n] + [s[n]];
      InsertKeepsElements(order, s[..n], x);
    }
  }

  lemma InsertIsSorted<T(!new)>(order: (T, T) -> bool, s: seq<T>, x: T)
    requires TotalOrder(order) && SortedBy(order, s)
    ensures SortedBy(order, Insert(order, s, x))
  {
    if s != [] {
      var n := |s| - 1;
      if !order(s[n], x) {
        var front := Insert(order, s[..n], x);
        InsertIsSorted(order, s[..n], x);
        InsertKeepsElements(order, s[..n], x);
        forall i | 0 <= i < |front| ensures order(front[i], s[n]) {
          assert front[i] in multiset(front);
          assert front[i] == x || front[i] in s[..n];
        }
      }
    }
  }

  lemma {:induction false} SortIsSorted<T(!new)>(order: (T, T) -> bool, s: seq<T>)
    requires TotalOrder(order)
    ensures SortedBy(order, SortBy(order, s)) && multiset(SortBy(order, s)) == multiset(s)
  {
    if s != [] {
      var n := |s| - 1;
      assert s == s[..n] + [s[n]];
      SortIsSorted(order, s[..n]);
      InsertIsSorted(order, SortBy(order, s[..n]), s[n]);
      InsertKeepsElements(order, SortBy(order, s[..n]), s[n]);
    }
  }

  // ---------------------------------------------------------------- one bucket

  lemma FlattenUpdate(groups: seq<Group>, g: nat, row: Row)
    requires g < |groups|
    ensures multiset(Flatten(groups[g := groups[g] + [row]])) == multiset(Flatten(groups)) + multiset{row}
  {
    var n := |groups| - 1;
    var updated := groups[g := groups[g] + [row]];
    if g == n {
      assert updated[..n] == groups[..n];
      assert Flatten(updated) == Flatten(groups[..n]) + groups[n] + [row];
    } else {
      FlattenUpdate(groups[..n], g, row);
      assert updated[..n] == groups[..n][g := groups[..n][g] + [row]];
    }
  }

  lemma FlattenAppend(groups: seq<Group>, group: Group)
    ensures Flatten(groups + [group]) == Flatten(groups) + group
  {
    assert (groups + [group])[..|groups|] == groups;
  }

  lemma CoherentAppend(group: Group, row: Row, timeMs: real, price: real)
    requires Coherent(group, timeMs, price) && Fits(row, group, timeMs, price)
    ensures Coherent(group + [row], timeMs, price)
  {
    var longer := group + [row];
    forall x, y | 0 <= x < |longer| && 0 <= y < |longer| && x != y
      ensures WithinTolerances(longer[x], longer[y], timeMs, price)
    {
      if y == |group| {
        WithinIsSymmetric(longer[x], row, timeMs, price);
      }
    }
  }

  lemma AddToGroup(groups: seq<Group>, g: nat, row: Row, rows: seq<Row>, timeMs: real, price: real)
    requires Grouping(groups, rows, timeMs, price) && g < |groups|
    requires Fits(row, groups[g], timeMs, price)
    ensures Grouping(groups[g := groups[g] + [row]], rows + [row], timeMs, price)
  {
    var updated := groups[g := groups[g] + [row]];
    assert Partition(updated, rows + [row]) by {
      FlattenUpdate(groups, g, row);
    }
    CoherentAppend(groups[g], row, timeMs, price);
    NoneMergeableGrows(groups, updated, timeMs, price);
  }

  lemma NoneMergeableGrows(groups: seq<Group>, updated: seq<Group>, timeMs: real, price: real)
    requires |groups| == |updated| && forall g | 0 <= g < |groups| :: groups[g] <= updated[g]
    requires NoneMergeable(groups, timeMs, price)
    ensures NoneMergeable(updated, timeMs, price)
  {
    forall a, b | 0 <= a < |updated| && 0 <= b < |updated| && a != b
      ensures !Mergeable(updated[a], updated[b], timeMs, price)
    {
      NotMergeableGrows(groups[a], groups[b], updated[a], updated[b], timeMs, price);
    }
  }

  lemma NotMergeableGrows(a: Group, b: Group, a': Group, b': Group, timeMs: real, price: real)
    requires !Mergeable(a, b, timeMs, price) && a <= a' && b <= b'
    ensures !Mergeable(a', b', timeMs, price)
  {
    var x, y :| 0 <= x < |a| && 0 <= y < |b| && !WithinTolerances(a[x], b[y], timeMs, price);
    assert !WithinTolerances(a'[x], b'[y], timeMs, price);
  }

  lemma StartGroup(groups: seq<Group>, row: Row, rows: seq<Row>, timeMs: real, price: real)
    requires Grouping(groups, rows, timeMs, price)
    requires forall g | 0 <= g < |groups| :: !Fits(row, groups[g], timeMs, price)
    ensures Grouping(groups + [[row]], rows + [row], timeMs, price)
  {
    var updated := groups + [[row]];
    FlattenAppend(groups, [row]);
    forall a, b | 0 <= a < |updated| && 0 <= b < |updated| && a != b
      ensures !Mergeable(updated[a], updated[b], timeMs, price)
    {
      if a == |groups| || b == |groups| {
        var other := if a == |groups| then b else a;
        var m :| 0 <= m < |groups[other]| && !WithinTolerances(row, groups[other][m], timeMs, price);
        WithinIsSymmetric(row, groups[other][m], timeMs, price);
        assert updated[|groups|][0] == row && updated[other][m] == groups[other][m];
      }
    }
  }

  ghost predicate FitsTwo(row: Row, groups: seq<Group>, timeMs: real, price: real) {
    exists g, h :: 0 <= g < h < |groups| && Fits(row, groups[g], timeMs, price) && Fits(row, groups[h], timeMs, price)
  }

  // The greedy pass: each row joins the only group it fits or starts one; None when it fits two.
  ghost function Placed(groups: seq<Group>, row: Row, timeMs: real, price: real): Option<seq<Group>> {
    if FitsTwo(row, groups, timeMs, price) then None
    else if g :| 0 <= g < |groups| && Fits(row, groups[g], timeMs, price) then Some(groups[g := groups[g] + [row]])
    else Some(groups + [[row]])
  }

  ghost function Greedy(rows: seq<Row>, timeMs: real, price: real): Option<seq<Group>> {
    if rows == [] then Some([])
    else
      var front := Greedy(rows[..|rows| - 1], timeMs, price);
      if front == None then None else Placed(front.value, rows[|rows| - 1], timeMs, price)
  }

  // Row k fits two groups of the rows before it.
  ghost predicate AmbiguousAt(rows: seq<Row>, k: nat, timeMs: real, price: real) {
    && k < |rows| && Greedy(rows[..k], timeMs, price).Some?
    && FitsTwo(rows[k], Greedy(rows[..k], timeMs, price).value, timeMs, price)
  }

  // What the pass returns is a grouping of the rows.
  lemma {:induction false} GreedyGroups(rows: seq<Row>, timeMs: real, price: real)
    ensures Greedy(rows, timeMs, price).Some? ==> Grouping(Greedy(rows, timeMs, price).value, rows, timeMs, price)
  {
    if rows == [] {
      NoGroups(timeMs, price);
    } else {
      var n := |rows| - 1;
      GreedyGroups(rows[..n], timeMs, price);
      assert rows == rows[..n] + [rows[n]];
      if Greedy(rows[..n], timeMs, price).Some? {
        PlacedGroups(Greedy(rows[..n], timeMs, price).value, rows[..n], rows[n], timeMs, price);
      }
    }
  }

  // It refuses exactly when some row fits two groups of the rows before it.
  lemma {:induction false} GreedyRefusesExactly(rows: seq<Row>, timeMs: real, price: real)
    ensures Greedy(rows, timeMs, price).None? <==> exists k: nat :: AmbiguousAt(rows, k, timeMs, price)
  {
    if rows != [] {
      var n := |rows| - 1;
      GreedyRefusesExactly(rows[..n], timeMs, price);
      if k: nat :| AmbiguousAt(rows, k, timeMs, price) && k < n {
        AmbiguousInFront(rows, k, timeMs, price);
      }
      if k: nat :| AmbiguousAt(rows[..n], k, timeMs, price) {
        AmbiguousInFront(rows, k, timeMs, price);
      } else if Greedy(rows, timeMs, price).None? {
        assert AmbiguousAt(rows, n, timeMs, price);
      }
    }
  }

  lemma AmbiguousInFront(rows: seq<Row>, k: nat, timeMs: real, price: real)
    requires k < |rows| - 1
    ensures AmbiguousAt(rows, k, timeMs, price) <==> AmbiguousAt(rows[..|rows| - 1], k, timeMs, price)
  {
    assert rows[..|rows| - 1][..k] == rows[..k];
  }

  lemma PlacedGroups(groups: seq<Group>, rows: seq<Row>, row: Row, timeMs: real, price: real)
    requires Grouping(groups, rows, timeMs, price)
    ensures Placed(groups, row, timeMs, price).Some? ==>
              Grouping(Placed(groups, row, timeMs, price).value, rows + [row], timeMs, price)
  {
    if !FitsTwo(row, groups, timeMs, price) {
      if g :| 0 <= g < |groups| && Fits(row, groups[g], timeMs, price)
              && Placed(groups, row, timeMs, price) == Some(groups[g := groups[g] + [row]]) {
        AddToGroup(groups, g, row, rows, timeMs, price);
      } else {
        StartGroup(groups, row, rows, timeMs, price);
      }
    }
  }

  lemma NoGroups(timeMs: real, price: real)
    ensures Grouping([], [], timeMs, price)
  {
  }

  // Close time, then closing price, then the row of the export.
  predicate RowNotAfter(a: Row, b: Row) {
    || a.closedMs < b.closedMs
    || (a.closedMs == b.closedMs
        && (a.closingPrice < b.closingPrice || (a.closingPrice == b.closingPrice && a.sourceRow <= b.sourceRow)))
  }

  function SortedRows(bucket: seq<Row>): seq<Row> {
    SortBy(RowNotAfter, bucket)
  }

  // The greedy pass sees the rows by close time, those of one time by price, those of one price as in
  // the export.
  lemma {:induction false} RowsInOrder(bucket: seq<Row>, i: nat, j: nat)
    requires i < j < |SortedRows(bucket)|
    ensures multiset(SortedRows(bucket)) == multiset(bucket)
    ensures var a, b := SortedRows(bucket)[i], SortedRows(bucket)[j];
            && a.closedMs <= b.closedMs
            && (a.closedMs == b.closedMs ==> a.closingPrice <= b.closingPrice)
            && (a.closedMs == b.closedMs && a.closingPrice == b.closingPrice ==> a.sourceRow <= b.sourceRow)
  {
    SortIsSorted(RowNotAfter, bucket);
    assert RowNotAfter(SortedRows(bucket)[i], SortedRows(bucket)[j]);
  }

  // The greedy loop over one sorted bucket. None is the refusal of an ambiguous grouping.
  method CloseComponents(bucket: seq<Row>, timeMs: real, price: real) returns (r: Option<seq<Group>>)
    ensures r == Greedy(SortedRows(bucket), timeMs, price)
    ensures r.Some? ==> Grouping(r.value, bucket, timeMs, price)
  {
    var rows := SortedRows(bucket);
    SortIsSorted(RowNotAfter, bucket);
    r := GroupInOrder(rows, timeMs, price);
    GreedyGroups(rows, timeMs, price);
  }

  method GroupInOrder(rows: seq<Row>, timeMs: real, price: real) returns (r: Option<seq<Group>>)
    ensures r == Greedy(rows, timeMs, price)
  {
    var components: seq<Group> := [];
    WholePrefix(rows);
    for k := 0 to |rows|
      invariant Greedy(rows[..k], timeMs, price) == Some(components)
    {
      var placed := Place(components, rows[k], timeMs, price);
      GreedyNext(rows, k, timeMs, price);
      if placed == None {
        StaysRefused(rows, k + 1, timeMs, price);
        return None;
      }
      components := placed.value;
    }
    r := Some(components);
  }

  lemma GreedyNext(rows: seq<Row>, k: nat, timeMs: real, price: real)
    requires k < |rows| && Greedy(rows[..k], timeMs, price).Some?
    ensures Greedy(rows[..k + 1], timeMs, price)
            == Placed(Greedy(rows[..k], timeMs, price).value, rows[k], timeMs, price)
  {
    assert rows[..k + 1][..k] == rows[..k];
  }

  lemma StaysRefused(rows: seq<Row>, k: nat, timeMs: real, price: real)
    requires k <= |rows| && Greedy(rows[..k], timeMs, price).None?
    ensures Greedy(rows, timeMs, price).None?
    decreases |rows|
  {
    if k < |rows| {
      assert rows[..|rows| - 1][..k] == rows[..k];
      StaysRefused(rows[..|rows| - 1], k, timeMs, price);
    } else {
      assert rows[..k] == rows;
    }
  }

  // One row: into the only group it fits, or into a new one.
  method Place(components: seq<Group>, row: Row, timeMs: real, price: real) returns (r: Option<seq<Group>>)
    ensures r == Placed(components, row, timeMs, price)
  {
    var compatible := CompatibleComponents(row, components, timeMs, price);
    if |compatible| > 1 {
      assert Fits(row, components[compatible[0]], timeMs, price) && Fits(row, components[compatible[1]], timeMs, price);
      return None;
    }
    if compatible != [] {
      assert Fits(row, components[compatible[0]], timeMs, price);
      r := Some(components[compatible[0] := components[compatible[0]] + [row]]);
    } else {
      r := Some(components + [[row]]);
    }
  }

  method CompatibleComponents(row: Row, components: seq<Group>, timeMs: real, price: real)
    returns (compatible: seq<nat>)
    ensures forall i | 0 <= i < |compatible| ::
              compatible[i] < |components| && Fits(row, components[compatible[i]], timeMs, price)
    ensures forall i, j | 0 <= i < j < |compatible| :: compatible[i] < compatible[j]
    ensures forall g | 0 <= g < |components| && Fits(row, components[g], timeMs, price) :: g in compatible
  {
    compatible := [];
    for g := 0 to |components|
      invariant forall i | 0 <= i < |compatible| ::
                  compatible[i] < g && Fits(row, components[compatible[i]], timeMs, price)
      invariant forall i, j | 0 <= i < j < |compatible| :: compatible[i] < compatible[j]
      invariant forall h | 0 <= h < g && Fits(row, components[h], timeMs, price) :: h in compatible
    {
      if Fits(row, components[g], timeMs, price) {
        compatible := compatible + [g];
      }
    }
  }

  // ---------------------------------------------------------------- all buckets

  // Rows of a group share symbol, side, leverage and average entry, and two groups of one key
  // could not be merged.
  ghost predicate KeyedGrouping(groups: seq<Group>, rows: seq<Row>, timeMs: real, price: real) {
    && multiset(Flatten(groups)) == multiset(rows)
    && (forall g | 0 <= g < |groups| :: groups[g] != [] && Coherent(groups[g], timeMs, price))
    && (forall g, x | 0 <= g < |groups| && 0 <= x < |groups[g]| :: KeyOf(groups[g][x]) == KeyOf(groups[g][0]))
    && (forall g, h | 0 <= g < |groups| && 0 <= h < |groups| && g != h && KeyOf(groups[g][0]) == KeyOf(groups[h][0]) ::
          !Mergeable(groups[g], groups[h], timeMs, price))
  }

  // Rows of one group were closed together, at the same price, out of one position.
  predicate Together(a: Row, b: Row, timeMs: real, price: real) {
    && a.symbol == b.symbol && a.side == b.side && a.leverage == b.leverage && a.averageEntry == b.averageEntry
    && (b.closedMs as real) - timeMs <= a.closedMs as real <= (b.closedMs as real) + timeMs
    && b.closingPrice - price <= a.closingPrice <= b.closingPrice + price
  }

  lemma TogetherExactly(a: Row, b: Row, timeMs: real, price: real)
    ensures Together(a, b, timeMs, price) <==> KeyOf(a) == KeyOf(b) && WithinTolerances(a, b, timeMs, price)
  {
  }

  // A grouping puts into one group only what belongs together.
  lemma {:induction false} GroupsAreTogether(groups: seq<Group>, rows: seq<Row>, timeMs: real, price: real, g: nat,
                                             x: nat, y: nat)
    requires KeyedGrouping(groups, rows, timeMs, price)
    requires g < |groups| && x < |groups[g]| && y < |groups[g]| && x != y
    ensures Together(groups[g][x], groups[g][y], timeMs, price)
  {
    assert Coherent(groups[g], timeMs, price);
    assert KeyOf(groups[g][x]) == KeyOf(groups[g][0]) && KeyOf(groups[g][y]) == KeyOf(groups[g][0]);
    TogetherExactly(groups[g][x], groups[g][y], timeMs, price);
  }

  // Two groups always hold two rows that do not belong together.
  lemma {:induction false} GroupsAreApart(groups: seq<Group>, rows: seq<Row>, timeMs: real, price: real, g: nat, h: nat)
    returns (x: nat, y: nat)
    requires KeyedGrouping(groups, rows, timeMs, price) && g < |groups| && h < |groups| && g != h
    ensures x < |groups[g]| && y < |groups[h]| && !Together(groups[g][x], groups[h][y], timeMs, price)
  {
    x, y := 0, 0;
    assert groups[g] != [] && groups[h] != [];
    if KeyOf(groups[g][0]) == KeyOf(groups[h][0]) {
      assert !Mergeable(groups[g], groups[h], timeMs, price);
      x, y :| x < |groups[g]| && y < |groups[h]| && !WithinTolerances(groups[g][x], groups[h][y], timeMs, price);
    }
    TogetherExactly(groups[g][x], groups[h][y], timeMs, price);
  }

  // The rows of one key, in the order of the export.
  function RowsOf(rows: seq<Row>, key: Key): seq<Row> {
    if rows == [] then []
    else RowsOf(rows[..|rows| - 1], key) + if KeyOf(rows[|rows| - 1]) == key then [rows[|rows| - 1]] else []
  }

  lemma RowsOfMore(rows: seq<Row>, row: Row, key: Key)
    ensures RowsOf(rows + [row], key) == RowsOf(rows, key) + if KeyOf(row) == key then [row] else []
  {
    assert (rows + [row])[..|rows|] == rows;
  }

  lemma NoRowsOf(rows: seq<Row>, key: Key)
    requires forall x | 0 <= x < |rows| :: KeyOf(rows[x]) != key
    ensures RowsOf(rows, key) == []
  {
  }

  // Buckets in order of first appearance: distinct keys, each bucket holding the rows of its key.
  ghost predicate Buckets(keys: seq<Key>, buckets: seq<Group>, rows: seq<Row>) {
    && |keys| == |buckets|
    && multiset(Flatten(buckets)) == multiset(rows)
    && (forall i, j | 0 <= i < j < |keys| :: keys[i] != keys[j])
    && (forall i, x | 0 <= i < |buckets| && 0 <= x < |buckets[i]| :: KeyOf(buckets[i][x]) == keys[i])
  }

  // Each bucket is the rows of its key in the order of the export, and every row's key has one.
  ghost predicate ByKey(keys: seq<Key>, buckets: seq<Group>, rows: seq<Row>) {
    && |keys| == |buckets|
    && (forall i | 0 <= i < |keys| :: buckets[i] == RowsOf(rows, keys[i]))
    && (forall x | 0 <= x < |rows| :: KeyOf(rows[x]) in keys)
  }

  method BucketByKey(rows: seq<Row>) returns (keys: seq<Key>, buckets: seq<Group>)
    ensures Buckets(keys, buckets, rows) && ByKey(keys, buckets, rows)
  {
    keys, buckets := [], [];
    for k := 0 to |rows|
      invariant Buckets(keys, buckets, rows[..k]) && ByKey(keys, buckets, rows[..k])
    {
      var row := rows[k];
      Prefixes(rows, k);
      var i := 0;
      while i < |keys| && keys[i] != KeyOf(row)
        invariant i <= |keys|
        invariant forall j | 0 <= j < i :: keys[j] != KeyOf(row)
      {
        i := i + 1;
      }
      if i < |keys| {
        JoinBucket(keys, buckets, rows[..k], i, row);
        JoinByKey(keys, buckets, rows[..k], i, row);
        buckets := buckets[i := buckets[i] + [row]];
      } else {
        StartBucket(keys, buckets, rows[..k], row);
        StartByKey(keys, buckets, rows[..k], row);
        keys, buckets := keys + [KeyOf(row)], buckets + [[row]];
      }
    }
    assert rows[..|rows|] == rows;
  }

  lemma JoinBucket(keys: seq<Key>, buckets: seq<Group>, rows: seq<Row>, i: nat, row: Row)
    requires Buckets(keys, buckets, rows) && i < |keys| && keys[i] == KeyOf(row)
    ensures Buckets(keys, buckets[i := buckets[i] + [row]], rows + [row])
  {
    FlattenUpdate(buckets, i, row);
  }

  lemma JoinByKey(keys: seq<Key>, buckets: seq<Group>, rows: seq<Row>, i: nat, row: Row)
    requires Buckets(keys, buckets, rows) && ByKey(keys, buckets, rows) && i < |keys| && keys[i] == KeyOf(row)
    ensures ByKey(keys, buckets[i := buckets[i] + [row]], rows + [row])
  {
    forall j | 0 <= j < |keys| ensures buckets[i := buckets[i] + [row]][j] == RowsOf(rows + [row], keys[j]) {
      RowsOfMore(rows, row, keys[j]);
    }
  }

  lemma StartBucket(keys: seq<Key>, buckets: seq<Group>, rows: seq<Row>, row: Row)
    requires Buckets(keys, buckets, rows) && forall j | 0 <= j < |keys| :: keys[j] != KeyOf(row)
    ensures Buckets(keys + [KeyOf(row)], buckets + [[row]], rows + [row])
  {
    FlattenAppend(buckets, [row]);
  }

  lemma StartByKey(keys: seq<Key>, buckets: seq<Group>, rows: seq<Row>, row: Row)
    requires ByKey(keys, buckets, rows) && forall j | 0 <= j < |keys| :: keys[j] != KeyOf(row)
    ensures ByKey(keys + [KeyOf(row)], buckets + [[row]], rows + [row])
  {
    NoRowsOf(rows, KeyOf(row));
    var allKeys, all := keys + [KeyOf(row)], buckets + [[row]];
    forall j | 0 <= j < |allKeys| ensures all[j] == RowsOf(rows + [row], allKeys[j]) {
      RowsOfMore(rows, row, allKeys[j]);
    }
  }

  // Rows of a grouping keep whatever holds of all the grouped rows.
  lemma GroupedKey(groups: seq<Group>, rows: seq<Row>, key: Key)
    requires multiset(Flatten(groups)) == multiset(rows)
    requires forall x | 0 <= x < |rows| :: KeyOf(rows[x]) == key
    ensures forall g, x | 0 <= g < |groups| && 0 <= x < |groups[g]| :: KeyOf(groups[g][x]) == key
  {
    forall g, x | 0 <= g < |groups| && 0 <= x < |groups[g]| ensures KeyOf(groups[g][x]) == key {
      InFlatten(groups, g, x);
      assert groups[g][x] in multiset(rows);
    }
  }

  lemma InFlatten(groups: seq<Group>, g: nat, x: nat)
    requires g < |groups| && x < |groups[g]|
    ensures groups[g][x] in Flatten(groups)
  {
    if g < |groups| - 1 {
      InFlatten(groups[..|groups| - 1], g, x);
    }
  }

  lemma {:induction false} FlattenConcat(groups: seq<Group>, more: seq<Group>)
    ensures Flatten(groups + more) == Flatten(groups) + Flatten(more)
  {
    if more == [] {
      assert groups + more == groups;
    } else {
      var front, last := more[..|more| - 1], more[|more| - 1];
      assert more == front + [last] && groups + more == (groups + front) + [last];
      FlattenConcat(groups, front);
      FlattenAppend(groups + front, last);
      FlattenAppend(front, last);
    }
  }

  ghost predicate Passes(bucket: seq<Row>, timeMs: real, price: real) {
    Greedy(SortedRows(bucket), timeMs, price).Some?
  }

  // The greedy pass refuses the rows of some key.
  ghost predicate AmbiguousRows(rows: seq<Row>, timeMs: real, price: real) {
    exists key :: !Passes(RowsOf(rows, key), timeMs, price)
  }

  // Only the keys of actual rows can be refused.
  lemma AmbiguousKeyHasRows(rows: seq<Row>, keys: seq<Key>, buckets: seq<Group>, timeMs: real, price: real, key: Key)
    returns (i: nat)
    requires ByKey(keys, buckets, rows) && !Passes(RowsOf(rows, key), timeMs, price)
    ensures i < |keys| && keys[i] == key && !Passes(buckets[i], timeMs, price)
  {
    assert SortedRows([]) == [];
    if key !in keys {
      NoRowsOf(rows, key);
    }
    i :| 0 <= i < |keys| && keys[i] == key;
  }

  lemma NothingAmbiguous(rows: seq<Row>, keys: seq<Key>, buckets: seq<Group>, timeMs: real, price: real)
    requires ByKey(keys, buckets, rows) && forall j | 0 <= j < |buckets| :: Passes(buckets[j], timeMs, price)
    ensures !AmbiguousRows(rows, timeMs, price)
  {
    forall key ensures Passes(RowsOf(rows, key), timeMs, price) {
      if !Passes(RowsOf(rows, key), timeMs, price) {
        var i := AmbiguousKeyHasRows(rows, keys, buckets, timeMs, price, key);
      }
    }
  }

  method GroupCloseFragments(rows: seq<Row>, timeMs: real, price: real) returns (r: Option<seq<Group>>)
    ensures r.Some? ==> KeyedGrouping(r.value, rows, timeMs, price)
    ensures r.None? <==> AmbiguousRows(rows, timeMs, price)
  {
    var keys, buckets := BucketByKey(rows);
    var groups: seq<Group> := [];
    WholePrefix(buckets);
    for i := 0 to |buckets|
      invariant GroupedSoFar(groups, keys, buckets, i, timeMs, price)
    {
      var components := CloseComponents(buckets[i], timeMs, price);
      if components == None {
        assert !Passes(RowsOf(rows, keys[i]), timeMs, price);
        return None;
      }
      NextBucket(groups, components.value, keys, buckets, rows, i, timeMs, price);
      groups := groups + components.value;
    }
    r := Some(groups);
    NothingAmbiguous(rows, keys, buckets, timeMs, price);
  }

  ghost predicate GroupedSoFar(groups: seq<Group>, keys: seq<Key>, buckets: seq<Group>, i: nat, timeMs: real,
                               price: real)
    requires i <= |keys| == |buckets|
  {
    && KeyedGrouping(groups, Flatten(buckets[..i]), timeMs, price)
    && (forall g | 0 <= g < |groups| :: KeyOf(groups[g][0]) in keys[..i])
    && (forall j | 0 <= j < i :: Passes(buckets[j], timeMs, price))
  }

  lemma NextBucket(groups: seq<Group>, more: seq<Group>, keys: seq<Key>, buckets: seq<Group>, rows: seq<Row>, i: nat,
                   timeMs: real, price: real)
    requires Buckets(keys, buckets, rows) && i < |keys| && GroupedSoFar(groups, keys, buckets, i, timeMs, price)
    requires Grouping(more, buckets[i], timeMs, price) && Passes(buckets[i], timeMs, price)
    ensures GroupedSoFar(groups + more, keys, buckets, i + 1, timeMs, price)
  {
    GroupedKey(more, buckets[i], keys[i]);
    AddBucket(groups, more, Flatten(buckets[..i]), buckets[i], keys[..i], keys[i], timeMs, price);
    Prefixes(buckets, i);
    Prefixes(keys, i);
    FlattenAppend(buckets[..i], buckets[i]);
  }

  lemma AddBucket(groups: seq<Group>, more: seq<Group>, rows: seq<Row>, bucket: seq<Row>, keys: seq<Key>, key: Key,
                  timeMs: real, price: real)
    requires KeyedGrouping(groups, rows, timeMs, price) && Grouping(more, bucket, timeMs, price)
    requires forall g | 0 <= g < |groups| :: KeyOf(groups[g][0]) in keys
    requires key !in keys
    requires forall g, x | 0 <= g < |more| && 0 <= x < |more[g]| :: KeyOf(more[g][x]) == key
    ensures KeyedGrouping(groups + more, rows + bucket, timeMs, price)
    ensures forall g | 0 <= g < |groups + more| :: KeyOf((groups + more)[g][0]) in keys + [key]
  {
    FlattenConcat(groups, more);
    var all := groups + more;
    forall g | 0 <= g < |all| ensures KeyOf(all[g][0]) == key <==> g >= |groups| {
      if g >= |groups| {
        assert all[g] == more[g - |groups|] && more[g - |groups|] != [];
      }
    }
    forall g, h | 0 <= g < |all| && 0 <= h < |all| && g != h && KeyOf(all[g][0]) == KeyOf(all[h][0])
      ensures !Mergeable(all[g], all[h], timeMs, price)
    {
      if g >= |groups| {
        assert all[g] == more[g - |groups|] && all[h] == more[h - |groups|];
      }
    }
  }

  // ---------------------------------------------------------------- cycles

  datatype Cycle = Cycle(openedMs: int, closedMs: int, rows: Group)

  datatype ExportError = Ambiguous | Overlapping

  function FirstOpened(rows: Group): int
    requires rows != []
  {
    if |rows| == 1 then rows[0].openedMs else MinInt(FirstOpened(rows[..|rows| - 1]), rows[|rows| - 1].openedMs)
  }

  function LastClosed(rows: Group): int
    requires rows != []
  {
    if |rows| == 1 then rows[0].closedMs else MaxInt(LastClosed(rows[..|rows| - 1]), rows[|rows| - 1].closedMs)
  }

  function BuildCycle(rows: Group): Cycle
    requires rows != []
  {
    Cycle(FirstOpened(rows), LastClosed(rows), rows)
  }

  // The sort key of cycles: close time, then open time.
  predicate NotAfter(a: Cycle, b: Cycle) {
    a.closedMs < b.closedMs || (a.closedMs == b.closedMs && a.openedMs <= b.openedMs)
  }

  function Cycles(groups: seq<Group>): seq<Cycle>
    requires forall g | 0 <= g < |groups| :: groups[g] != []
  {
    seq(|groups|, g requires 0 <= g < |groups| => BuildCycle(groups[g]))
  }

  function SortedCycles(groups: seq<Group>): seq<Cycle>
    requires forall g | 0 <= g < |groups| :: groups[g] != []
  {
    SortBy(NotAfter, Cycles(groups))
  }

  // A cycle spans from its first opening to its last close.
  lemma {:induction false} CycleSpans(rows: Group, k: nat) returns (first: nat, last: nat)
    requires k < |rows|
    ensures first < |rows| && last < |rows|
    ensures BuildCycle(rows).openedMs == rows[first].openedMs <= rows[k].openedMs
    ensures BuildCycle(rows).closedMs == rows[last].closedMs >= rows[k].closedMs
    ensures BuildCycle(rows).rows == rows
  {
    var n := |rows| - 1;
    first, last := n, n;
    if n > 0 {
      var early, late := CycleSpans(rows[..n], MinInt(k, n - 1));
      first := if rows[early].openedMs <= rows[n].openedMs then early else n;
      last := if rows[late].closedMs >= rows[n].closedMs then late else n;
    }
  }

  // Cycles are ordered by their close, those closed at once by their opening.
  lemma {:induction false} CyclesInOrder(groups: seq<Group>, i: nat, j: nat)
    requires forall g | 0 <= g < |groups| :: groups[g] != []
    requires i < j < |SortedCycles(groups)|
    ensures multiset(SortedCycles(groups)) == multiset(Cycles(groups))
    ensures var a, b := SortedCycles(groups)[i], SortedCycles(groups)[j];
            a.closedMs <= b.closedMs && (a.closedMs == b.closedMs ==> a.openedMs <= b.openedMs)
  {
    SortIsSorted(NotAfter, Cycles(groups));
    assert NotAfter(SortedCycles(groups)[i], SortedCycles(groups)[j]);
  }

  // No cycle opens before another that is earlier in the order has closed.
  ghost predicate Disjoint(cycles: seq<Cycle>) {
    forall i, j | 0 <= i < j < |cycles| :: cycles[i].closedMs <= cycles[j].openedMs
  }

  // Cycles in sorted order are pairwise disjoint as soon as adjacent ones are.
  lemma AdjacentSuffices(cycles: seq<Cycle>)
    requires SortedBy(NotAfter, cycles)
    ensures (forall j | 1 <= j < |cycles| :: cycles[j - 1].closedMs <= cycles[j].openedMs) <==> Disjoint(cycles)
  {
    if forall j | 1 <= j < |cycles| :: cycles[j - 1].closedMs <= cycles[j].openedMs {
      forall i, j | 0 <= i < j < |cycles| ensures cycles[i].closedMs <= cycles[j].openedMs {
        assert i == j - 1 || NotAfter(cycles[i], cycles[j - 1]);
      }
    }
  }

  method CountOverlaps(cycles: seq<Cycle>) returns (overlaps: nat)
    ensures overlaps == 0 <==> forall j | 1 <= j < |cycles| :: cycles[j - 1].closedMs <= cycles[j].openedMs
  {
    overlaps := 0;
    for i := 1 to MaxInt(|cycles|, 1)
      invariant overlaps == 0 <==> forall j | 1 <= j < i :: cycles[j - 1].closedMs <= cycles[j].openedMs
    {
      if cycles[i].openedMs < cycles[i - 1].closedMs {
        overlaps := overlaps + 1;
      }
    }
  }

  // The whole of the parser's grouping. Looking at adjacent cycles only, it refuses exactly
  // the groupings whose cycles are not pairwise disjoint in time.
  method ParseCycles(rows: seq<Row>, timeMs: real, price: real)
    returns (r: Result<seq<Cycle>, ExportError>, groups: seq<Group>)
    ensures r != Err(Ambiguous) ==> KeyedGrouping(groups, rows, timeMs, price)
    ensures r == Err(Ambiguous) <==> AmbiguousRows(rows, timeMs, price)
    ensures r != Err(Ambiguous) ==>
              multiset(SortedCycles(groups)) == multiset(Cycles(groups)) && (r.Ok? <==> Disjoint(SortedCycles(groups)))
    ensures r.Ok? ==> r.value == SortedCycles(groups)
  {
    var grouped := GroupCloseFragments(rows, timeMs, price);
    if grouped == None {
      return Err(Ambiguous), [];
    }
    groups := grouped.value;
    var cycles := SortedCycles(groups);
    SortIsSorted(NotAfter, Cycles(groups));
    AdjacentSuffices(cycles);
    var overlaps := CountOverlaps(cycles);
    r := if overlaps > 0 then Err(Overlapping) else Ok(cycles);
  }
}
