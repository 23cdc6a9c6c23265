// Recovery of missed fills in checkpointed, overlapping, paginated windows
// (botdca/execution_recovery.py).
module Recovery {
  import opened Common
  import opened Persistence

  const WEEK_MS := 7 * 24 * 60 * 60 * 1000
  const OVERLAP_MS := 60000
  const MAX_PAGES := 100

  // One answer of the executions endpoint: parsed rows and the next cursor, empty on the last page.
  datatype Response = Page(rows: seq<Execution>, next: string) | Failure

  datatype Outcome = Completed | GapTooLong | CallFailed | InvalidRow | PaginationRepeated | TooManyPages

  function WindowStart(checkpoint: Option<int>, endMs: int): int {
    MaxInt(endMs - WEEK_MS, if checkpoint.Some? then checkpoint.value - OVERLAP_MS else endMs - WEEK_MS)
  }

  predicate Refuses(checkpoint: Option<int>, endMs: int) {
    checkpoint.Some? && endMs - checkpoint.value > WEEK_MS - OVERLAP_MS
  }

  // The refusal is exactly what makes every later window start one overlap before the last end.
  lemma {:induction false} WindowsOverlapExactly(checkpoint: int, endMs: int)
    ensures !Refuses(Some(checkpoint), endMs) <==> WindowStart(Some(checkpoint), endMs) == checkpoint - OVERLAP_MS
  {
  }

  // ---------------------------------------------------------------- one call

  // Rows are stored until the first invalid one.
  function StoreRows(executions: Executions, rows: seq<Execution>): (Executions, bool)
    decreases |rows|
  {
    if rows == [] then (executions, true)
    else if !ValidExecution(rows[0]) then (executions, false)
    else StoreRows(Recorded(executions, rows[0]), rows[1..])
  }

  // Pages from the k-th on, with the cursors seen so far. A missing answer is a failed call.
  function StorePages(executions: Executions, responses: seq<Response>, k: nat,
                      seen: set<string>): (Executions, Outcome)
    requires k <= MAX_PAGES
    decreases MAX_PAGES - k
  {
    if k == MAX_PAGES then (executions, TooManyPages)
    else if k >= |responses| || responses[k].Failure? then (executions, CallFailed)
    else
      var (stored, valid) := StoreRows(executions, responses[k].rows);
      if !valid then (stored, InvalidRow)
      else if responses[k].next == "" then (stored, Completed)
      else if responses[k].next in seen then (stored, PaginationRepeated)
      else StorePages(stored, responses, k + 1, seen + {responses[k].next})
  }

  datatype Ledger = Ledger(executions: Executions, checkpoint: Option<int>)

  function RecoverOnce(l: Ledger, endMs: int, responses: seq<Response>): (Ledger, Outcome) {
    if Refuses(l.checkpoint, endMs) then (l, GapTooLong)
    else
      var (stored, outcome) := StorePages(l.executions, responses, 0, {});
      (Ledger(stored, if outcome == Completed then Some(endMs) else l.checkpoint), outcome)
  }

  class ExecutionRecovery {
    const store: EventStore
    const symbol: string

    constructor (store: EventStore, symbol: string)
      ensures this.store == store && this.symbol == symbol
    {
      this.store, this.symbol := store, symbol;
    }

    ghost function View(): Ledger
      reads store
    {
      Ledger(store.executions, LatestRecovery(store.recoveries, symbol))
    }

    // Answers arrive one by one as pages are requested; `responses` lists them.
    method Call(endMs: int, responses: seq<Response>) returns (outcome: Outcome)
      modifies store
      ensures (View(), outcome) == RecoverOnce(old(View()), endMs, responses)
      ensures outcome != Completed ==> store.recoveries == old(store.recoveries)
    {
      var checkpoint := store.ExecutionRecoveryCheckpoint(symbol);
      if checkpoint.Some? && endMs - checkpoint.value > WEEK_MS - OVERLAP_MS {
        return GapTooLong;
      }
      var seen: set<string> := {};
      var k := 0;
      ghost var final := StorePages(store.executions, responses, 0, {});
      while k < MAX_PAGES
        invariant 0 <= k <= MAX_PAGES
        invariant StorePages(store.executions, responses, k, seen) == final
        invariant store.recoveries == old(store.recoveries)
      {
        if k >= |responses| || responses[k].Failure? {
          return CallFailed;
        }
        var valid := StoreEvents(responses[k].rows);
        if !valid {
          return InvalidRow;
        }
        var cursor := responses[k].next;
        if cursor == "" {
          store.RecordRecovery(symbol, endMs);
          assert store.recoveries[..|store.recoveries| - 1] == old(store.recoveries);
          return Completed;
        }
        if cursor in seen {
          return PaginationRepeated;
        }
        seen := seen + {cursor};
        k := k + 1;
      }
      outcome := TooManyPages;
    }

    method StoreEvents(rows: seq<Execution>) returns (valid: bool)
      modifies store`executions
      ensures (store.executions, valid) == StoreRows(old(store.executions), rows)
    {
      ghost var final := StoreRows(store.executions, rows);
      for i := 0 to |rows|
        invariant StoreRows(store.executions, rows[i..]) == final
      {
        assert rows[i..][1..] == rows[i + 1..];
        var recorded := store.RecordExecution(rows[i]);
        if recorded.Err? {
          return false;
        }
      }
      valid := true;
    }
  }

  // ---------------------------------------------------------------- how a call ends

  predicate AllValid(rows: seq<Execution>) {
    forall i | 0 <= i < |rows| :: ValidExecution(rows[i])
  }

  // The n-th request is answered with a page.
  predicate Answered(responses: seq<Response>, n: nat) {
    n < |responses| && responses[n].Page?
  }

  // The cursor of the n-th answer.
  function Cursor(responses: seq<Response>, n: nat): string {
    if Answered(responses, n) then responses[n].next else ""
  }

  function RowsOf(responses: seq<Response>, n: nat): seq<Execution> {
    if Answered(responses, n) then responses[n].rows else []
  }

  // The cursors of the answers before the k-th.
  ghost predicate Asked(responses: seq<Response>, k: nat, seen: set<string>) {
    forall cursor :: cursor in seen <==> CursorBefore(responses, k, cursor)
  }

  ghost predicate CursorBefore(responses: seq<Response>, k: nat, cursor: string) {
    exists i: nat :: i < k && Cursor(responses, i) == cursor
  }

  lemma AskedNext(responses: seq<Response>, k: nat, seen: set<string>)
    requires Asked(responses, k, seen)
    ensures Asked(responses, k + 1, seen + {Cursor(responses, k)})
  {
    var more := seen + {Cursor(responses, k)};
    forall cursor ensures cursor in more <==> CursorBefore(responses, k + 1, cursor) {
      if cursor in seen {
        var i: nat :| i < k && Cursor(responses, i) == cursor;
      }
      if CursorBefore(responses, k + 1, cursor) {
        var i: nat :| i < k + 1 && Cursor(responses, i) == cursor;
        assert i < k ==> CursorBefore(responses, k, cursor);
      }
    }
  }

  // The n-th answer leads on to another page.
  predicate Leads(responses: seq<Response>, n: nat) {
    Answered(responses, n) && AllValid(responses[n].rows) && responses[n].next != ""
  }

  // The n-th request is made: all earlier ones were answered with valid rows, and their cursors
  // lead on, each to a page not asked for before.
  ghost predicate Reaches(responses: seq<Response>, n: nat) {
    && (forall i: nat | i < n :: Leads(responses, i))
    && (forall i: nat, j: nat | i < j < n :: Cursor(responses, i) != Cursor(responses, j))
  }

  ghost predicate RepeatsCursor(responses: seq<Response>, n: nat) {
    CursorBefore(responses, n, Cursor(responses, n))
  }

  // How a call ends at the n-th request, in terms of the answers.
  ghost predicate EndsAt(responses: seq<Response>, n: nat, outcome: Outcome)
  {
    if n == 100 then outcome == TooManyPages
    else if !Answered(responses, n) then outcome == CallFailed
    else
      match outcome
      case InvalidRow => !AllValid(responses[n].rows)
      case Completed => AllValid(responses[n].rows) && responses[n].next == ""
      case PaginationRepeated => Leads(responses, n) && RepeatsCursor(responses, n)
      case _ => false
  }

  // A call that is not refused ends in exactly one way, told by the answers alone: it is completed
  // when a page without a next cursor comes before the hundredth and all rows up to it are valid;
  // it fails at the first missing answer, invalid row or repeated cursor, or after a hundred pages.
  lemma {:induction false} OutcomeExactly(l: Ledger, endMs: int, responses: seq<Response>, outcome: Outcome)
    ensures RecoverOnce(l, endMs, responses).1 == GapTooLong
            <==> l.checkpoint.Some? && endMs > l.checkpoint.value + 604740000
    ensures RecoverOnce(l, endMs, responses).1 != GapTooLong ==>
              (RecoverOnce(l, endMs, responses).1 == outcome
               <==> exists n: nat :: n <= 100 && Reaches(responses, n) && EndsAt(responses, n, outcome))
  {
    var n := PagesEnd(l.executions, responses, 0, {});
    var actual := StorePages(l.executions, responses, 0, {}).1;
    if m: nat :| m <= 100 && Reaches(responses, m) && EndsAt(responses, m, outcome) {
      OneEnd(responses, n, actual, m, outcome);
      OneEnd(responses, m, outcome, n, actual);
    }
  }

  lemma {:induction false} PagesEnd(executions: Executions, responses: seq<Response>, k: nat, seen: set<string>)
    returns (n: nat)
    requires k <= MAX_PAGES && Reaches(responses, k)
    requires Asked(responses, k, seen)
    ensures n <= 100 && Reaches(responses, n)
    ensures StorePages(executions, responses, k, seen).1 != GapTooLong
    ensures EndsAt(responses, n, StorePages(executions, responses, k, seen).1)
    decreases MAX_PAGES - k
  {
    n := k;
    if k < MAX_PAGES && Answered(responses, k) {
      StoreRowsExactly(executions, responses[k].rows);
      var stored := StoreRows(executions, responses[k].rows).0;
      if AllValid(responses[k].rows) && responses[k].next != "" && responses[k].next !in seen {
        AskedNext(responses, k, seen);
        ReachesNext(responses, k);
        n := PagesEnd(stored, responses, k + 1, seen + {responses[k].next});
      }
    }
  }

  lemma ReachesNext(responses: seq<Response>, k: nat)
    requires Reaches(responses, k) && Leads(responses, k) && !RepeatsCursor(responses, k)
    ensures Reaches(responses, k + 1)
  {
    forall i: nat, j: nat | i < j < k + 1 ensures Cursor(responses, i) != Cursor(responses, j) {
      assert j == k ==> !CursorBefore(responses, k, Cursor(responses, k));
    }
  }

  // No call ends in two places, or in two ways.
  lemma OneEnd(responses: seq<Response>, n: nat, outcome: Outcome, m: nat, other: Outcome)
    requires n <= 100 && m <= 100 && Reaches(responses, n) && Reaches(responses, m)
    requires EndsAt(responses, n, outcome) && EndsAt(responses, m, other)
    ensures n >= m && (n == m ==> outcome == other)
  {
    assert n < m ==> Leads(responses, n);
  }

  // However a call ends, every row of every page before that end is stored.
  lemma {:induction false} EarlierPagesAreStored(l: Ledger, endMs: int, responses: seq<Response>, n: nat, i: nat,
                                                 row: Execution)
    requires RecoverOnce(l, endMs, responses).1 != GapTooLong
    requires n <= 100 && Reaches(responses, n) && i < n && row in RowsOf(responses, i)
    ensures row.id in RecoverOnce(l, endMs, responses).0.executions
  {
    PagesAreStored(l.executions, responses, 0, {}, n, i, row);
  }

  lemma {:induction false} PagesAreStored(
    executions: Executions, responses: seq<Response>, k: nat, seen: set<string>, n: nat, i: nat, row: Execution)
    requires k <= n <= MAX_PAGES && Reaches(responses, n) && k <= i < n && row in RowsOf(responses, i)
    requires Asked(responses, k, seen)
    ensures row.id in StorePages(executions, responses, k, seen).0
    decreases MAX_PAGES - k
  {
    assert Leads(responses, k);
    var stored := StoreRows(executions, responses[k].rows).0;
    StoreRowsExactly(executions, responses[k].rows);
    assert responses[k].next == Cursor(responses, k);
    var more := seen + {responses[k].next};
    AskedNext(responses, k, seen);
    NotAskedBefore(responses, n, k, seen);
    if k == i {
      var rows := responses[k].rows;
      assert rows[..|rows|] == rows;
      RecordedAllStores(executions, rows, row);
      StorePagesKeeps(stored, responses, k + 1, more, row.id);
    } else {
      PagesAreStored(stored, responses, k + 1, more, n, i, row);
    }
  }

  lemma NotAskedBefore(responses: seq<Response>, n: nat, k: nat, seen: set<string>)
    requires Reaches(responses, n) && k < n && Asked(responses, k, seen)
    ensures Cursor(responses, k) !in seen
  {
    forall i: nat | i < k ensures Cursor(responses, i) != Cursor(responses, k) {
    }
  }

  lemma {:induction false} RecordedAllStores(executions: Executions, rows: seq<Execution>, row: Execution)
    requires row in rows
    ensures row.id in RecordedAll(executions, rows)
  {
    var n := |rows| - 1;
    if row != rows[n] {
      assert row in rows[..n];
      RecordedAllStores(executions, rows[..n], row);
    }
  }

  lemma {:induction false} StoreRowsKeeps(executions: Executions, rows: seq<Execution>, id: nat)
    requires id in executions
    ensures id in StoreRows(executions, rows).0 && StoreRows(executions, rows).0[id] == executions[id]
    decreases |rows|
  {
    if rows != [] && ValidExecution(rows[0]) {
      StoreRowsKeeps(Recorded(executions, rows[0]), rows[1..], id);
    }
  }

  lemma {:induction false} StorePagesKeeps(executions: Executions, responses: seq<Response>, k: nat, seen: set<string>,
                                           id: nat)
    requires k <= MAX_PAGES && id in executions
    ensures id in StorePages(executions, responses, k, seen).0
    ensures StorePages(executions, responses, k, seen).0[id] == executions[id]
    decreases MAX_PAGES - k
  {
    if k < MAX_PAGES && Answered(responses, k) {
      StoreRowsKeeps(executions, responses[k].rows, id);
      var (stored, valid) := StoreRows(executions, responses[k].rows);
      if valid && responses[k].next != "" && responses[k].next !in seen {
        StorePagesKeeps(stored, responses, k + 1, seen + {responses[k].next}, id);
      }
    }
  }

  // Rows are stored up to the first invalid one, and all are stored exactly when all are valid.
  lemma {:induction false} StoreRowsExactly(executions: Executions, rows: seq<Execution>)
    ensures StoreRows(executions, rows).1 <==> AllValid(rows)
    ensures exists n: nat :: n <= |rows| && AllValid(rows[..n]) && (n < |rows| ==> !ValidExecution(rows[n]))
              && StoreRows(executions, rows).0 == RecordedAll(executions, rows[..n])
    decreases |rows|
  {
    if rows == [] {
      assert rows[..0] == [];
    } else if !ValidExecution(rows[0]) {
      assert AllValid(rows[..0]) && rows[..0] == [];
    } else {
      var next := Recorded(executions, rows[0]);
      StoreRowsExactly(next, rows[1..]);
      var n: nat :| n <= |rows[1..]| && AllValid(rows[1..][..n])
                    && (n < |rows[1..]| ==> !ValidExecution(rows[1..][n]))
                    && StoreRows(next, rows[1..]).0 == RecordedAll(next, rows[1..][..n]);
      assert rows[..n + 1] == [rows[0]] + rows[1..][..n];
      RecordedFirst(executions, rows[0], rows[1..][..n]);
    }
  }

  lemma {:induction false} RecordedFirst(executions: Executions, row: Execution, rows: seq<Execution>)
    ensures RecordedAll(executions, [row] + rows) == RecordedAll(Recorded(executions, row), rows)
  {
    if rows == [] {
      assert [row] + rows == [row] && [row][..0] == [];
    } else {
      var n := |rows| - 1;
      RecordedFirst(executions, row, rows[..n]);
      assert ([row] + rows)[..n + 1] == [row] + rows[..n];
    }
  }

  // ---------------------------------------------------------------- many calls

  // A recovery of the symbol, or a fill of any symbol journaled by the stream in between.
  datatype Step = Attempt(endMs: int, responses: seq<Response>) | Streamed(fill: Execution)

  function AfterStep(l: Ledger, step: Step): Ledger {
    match step
    case Attempt(endMs, responses) => RecoverOnce(l, endMs, responses).0
    case Streamed(fill) => l.(executions := Recorded(l.executions, fill))
  }

  function Recovered(start: Ledger, steps: seq<Step>): Ledger {
    if steps == [] then start else AfterStep(Recovered(start, steps[..|steps| - 1]), steps[|steps| - 1])
  }

  predicate CompletesWindow(l: Ledger, step: Step) {
    step.Attempt? && RecoverOnce(l, step.endMs, step.responses).1 == Completed
  }

  // Where the first completed window began.
  function CoveredFrom(start: Ledger, steps: seq<Step>): Option<int> {
    if steps == [] then None
    else
      var n := |steps| - 1;
      var before, last := Recovered(start, steps[..n]), steps[n];
      if CoveredFrom(start, steps[..n]).Some? then CoveredFrom(start, steps[..n])
      else if CompletesWindow(before, last) then Some(WindowStart(before.checkpoint, last.endMs))
      else None
  }

  // The page that ends the listing.
  predicate FinalPage(responses: seq<Response>, n: nat) {
    && n < |responses| && responses[n].Page? && responses[n].next == ""
    && forall i | 0 <= i < n :: responses[i].Page? && responses[i].next != ""
  }

  // `fills` are the account's, of every symbol. A full listing of a window shows every fill of the
  // symbol in it that has become visible, and nothing but fills. Fills become visible within `lag`
  // of their execution time.
  ghost predicate Lists(responses: seq<Response>, symbol: string, fills: set<Execution>, startMs: int, endMs: int,
                        lag: int) {
    && (forall i, r | 0 <= i < |responses| && responses[i].Page? && r in responses[i].rows :: r in fills)
    && (forall n: nat, f | FinalPage(responses, n) && f in fills && f.symbol == symbol
                           && startMs <= f.timeMs <= endMs - lag ::
          exists i :: 0 <= i <= n && f in responses[i].rows)
  }

  // The stream journals fills; every recovery faces such an exchange, and the clock never runs
  // behind a completed window.
  ghost predicate HonestStep(l: Ledger, step: Step, symbol: string, fills: set<Execution>, lag: int) {
    match step
    case Streamed(fill) => fill in fills
    case Attempt(endMs, responses) =>
      && (l.checkpoint.Some? ==> l.checkpoint.value <= endMs)
      && Lists(responses, symbol, fills, WindowStart(l.checkpoint, endMs), endMs, lag)
  }

  ghost predicate Honest(start: Ledger, steps: seq<Step>, symbol: string, fills: set<Execution>, lag: int) {
    steps == [] ||
    (var n := |steps| - 1;
     Honest(start, steps[..n], symbol, fills, lag)
     && HonestStep(Recovered(start, steps[..n]), steps[n], symbol, fills, lag))
  }

  ghost predicate DistinctFills(fills: set<Execution>) {
    && (forall f | f in fills :: ValidExecution(f))
    && forall f, g | f in fills && g in fills && f.id == g.id :: f == g
  }

  ghost predicate HoldsOnly(executions: Executions, fills: set<Execution>) {
    forall id | id in executions :: executions[id].id == id && executions[id] in fills
  }

  ghost predicate Holds(executions: Executions, f: Execution) {
    f.id in executions && executions[f.id] == f
  }

  lemma {:induction false} StoreRowsHolds(executions: Executions, rows: seq<Execution>, fills: set<Execution>)
    requires DistinctFills(fills) && HoldsOnly(executions, fills) && forall r | r in rows :: r in fills
    ensures var (stored, valid) := StoreRows(executions, rows);
            && HoldsOnly(stored, fills)
            && (forall f | Holds(executions, f) :: Holds(stored, f))
            && (valid ==> forall r | r in rows :: Holds(stored, r))
    decreases |rows|
  {
    if rows != [] && ValidExecution(rows[0]) {
      var next := Recorded(executions, rows[0]);
      assert Holds(next, rows[0]);
      forall f | Holds(executions, f) ensures Holds(next, f) {
      }
      StoreRowsHolds(next, rows[1..], fills);
      forall r | r in rows && StoreRows(executions, rows).1 ensures Holds(StoreRows(executions, rows).0, r) {
        assert r == rows[0] || r in rows[1..];
      }
    }
  }

  lemma {:induction false} StorePagesHolds(executions: Executions, responses: seq<Response>, k: nat, seen: set<string>,
                                           fills: set<Execution>)
    requires k <= MAX_PAGES && DistinctFills(fills) && HoldsOnly(executions, fills)
    requires forall i, r | 0 <= i < |responses| && responses[i].Page? && r in responses[i].rows :: r in fills
    requires k <= |responses| && forall i | 0 <= i < k :: responses[i].Page? && responses[i].next != ""
    ensures var (stored, outcome) := StorePages(executions, responses, k, seen);
            && HoldsOnly(stored, fills)
            && (forall f | Holds(executions, f) :: Holds(stored, f))
            && (outcome == Completed ==>
                exists n: nat :: k <= n && FinalPage(responses, n)
                  && forall i, r | k <= i <= n && r in responses[i].rows :: Holds(stored, r))
    decreases MAX_PAGES - k
  {
    if k < MAX_PAGES && k < |responses| && responses[k].Page? {
      var (stored, valid) := StoreRows(executions, responses[k].rows);
      StoreRowsHolds(executions, responses[k].rows, fills);
      if valid && responses[k].next == "" {
        assert FinalPage(responses, k);
      } else if valid && responses[k].next !in seen {
        StorePagesHolds(stored, responses, k + 1, seen + {responses[k].next}, fills);
      }
    }
  }

  // One attempt: fills held before stay, and a completed one adds every visible fill of its window.
  lemma {:induction false} AttemptHolds(l: Ledger, endMs: int, responses: seq<Response>, symbol: string,
                                        fills: set<Execution>, lag: int)
    requires DistinctFills(fills) && HoldsOnly(l.executions, fills)
    requires Lists(responses, symbol, fills, WindowStart(l.checkpoint, endMs), endMs, lag)
    ensures var (after, outcome) := RecoverOnce(l, endMs, responses);
            && HoldsOnly(after.executions, fills)
            && (forall f | Holds(l.executions, f) :: Holds(after.executions, f))
            && (outcome == Completed ==>
                after.checkpoint == Some(endMs)
                && forall f | f in fills && f.symbol == symbol
                              && WindowStart(l.checkpoint, endMs) <= f.timeMs <= endMs - lag ::
                     Holds(after.executions, f))
            && (outcome != Completed ==> after.checkpoint == l.checkpoint)
  {
    if !Refuses(l.checkpoint, endMs) {
      StorePagesHolds(l.executions, responses, 0, {}, fills);
      var (stored, outcome) := StorePages(l.executions, responses, 0, {});
      if outcome == Completed {
        var n: nat :| FinalPage(responses, n)
                      && forall i, r | 0 <= i <= n && r in responses[i].rows :: Holds(stored, r);
        forall f | f in fills && f.symbol == symbol && WindowStart(l.checkpoint, endMs) <= f.timeMs <= endMs - lag
          ensures Holds(stored, f)
        {
          var i :| 0 <= i <= n && f in responses[i].rows;
        }
      }
    }
  }

  // Over any sequence of completed, refused and aborted recoveries, with the stream journaling
  // fills in between and the journal shared by all symbols: every fill of the symbol from the start
  // of the first completed window up to the checkpoint less the visibility lag is stored.
  lemma {:induction false} RecoveryLeavesNoGap(start: Ledger, steps: seq<Step>, symbol: string, fills: set<Execution>,
                                               lag: int)
    requires 0 <= lag <= 60001 && DistinctFills(fills)
    requires start.checkpoint == None && HoldsOnly(start.executions, fills)
    requires Honest(start, steps, symbol, fills, lag)
    ensures var l, from := Recovered(start, steps), CoveredFrom(start, steps);
            && HoldsOnly(l.executions, fills)
            && (l.checkpoint.Some? <==> from.Some?)
            && (l.checkpoint.Some? ==>
                forall f | f in fills && f.symbol == symbol && from.value <= f.timeMs <= l.checkpoint.value - lag ::
                  Holds(l.executions, f))
  {
    if steps != [] {
      var n := |steps| - 1;
      var before, last := Recovered(start, steps[..n]), steps[n];
      RecoveryLeavesNoGap(start, steps[..n], symbol, fills, lag);
      match last
      case Attempt(endMs, responses) => AttemptHolds(before, endMs, responses, symbol, fills, lag);
      case Streamed(fill) => StreamHolds(before.executions, fill, fills);
    }
  }

  lemma StreamHolds(executions: Executions, fill: Execution, fills: set<Execution>)
    requires DistinctFills(fills) && HoldsOnly(executions, fills) && fill in fills
    ensures HoldsOnly(Recorded(executions, fill), fills)
    ensures forall f | Holds(executions, f) :: Holds(Recorded(executions, fill), f)
  {
  }

  // The bound on the lag is exact: with a longer one a fill can be too young for one window and
  // too old for the next, however complete both listings are.
  lemma {:induction false} LongerLagLeavesGap(lag: int, f: Execution)
    requires 60001 < lag <= WEEK_MS && ValidExecution(f)
    ensures exists steps: seq<Step> :: Gap(steps, f, lag)
  {
    var empty := [Page([], "")];
    var first, second := Attempt(f.timeMs + 60001, empty), Attempt(f.timeMs + lag, empty);
    var start, steps := Ledger(map[], None), [first, second];
    assert StorePages(map[], empty, 0, {}) == (map[], Completed);
    assert steps[..1] == [first] && [first][..0] == [];
    assert Recovered(start, []) == start;
    assert Recovered(start, [first]) == Ledger(map[], Some(first.endMs));
    assert Recovered(start, steps) == Ledger(map[], Some(second.endMs));
    assert CoveredFrom(start, []) == None;
    assert CoveredFrom(start, [first]) == Some(first.endMs - WEEK_MS);
    assert CoveredFrom(start, steps) == Some(first.endMs - WEEK_MS);
    assert Honest(start, [], f.symbol, {f}, lag);
    assert Honest(start, [first], f.symbol, {f}, lag);
    assert Gap(steps, f, lag);
  }

  // A run with honest listings that ends with `f` inside the covered span but not stored.
  ghost predicate Gap(steps: seq<Step>, f: Execution, lag: int) {
    var start := Ledger(map[], None);
    var l, from := Recovered(start, steps), CoveredFrom(start, steps);
    && Honest(start, steps, f.symbol, {f}, lag)
    && l.checkpoint.Some? && from.Some? && from.value <= f.timeMs <= l.checkpoint.value - lag && f.id !in l.executions
  }
}
