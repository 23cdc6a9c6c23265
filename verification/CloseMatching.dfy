// Matching observed closes with replayed closes (botdca/historical_validation.py).
//
// Closes are given by their millisecond timestamps. The two dynamic-programming
// tables and the traceback are filled and walked as in the source; the contract
// of OrderedCloseMatches does not mention them.
module CloseMatching {
  import opened Common

  // An observed and a replayed close, by index.
  datatype Pair = Pair(actual: nat, simulated: nat)

  datatype Score = Score(matches: nat, error: real)

  // More matches first, less total error second.
  predicate Better(left: Score, right: Score) {
    left.matches > right.matches || (left.matches == right.matches && left.error < right.error)
  }

  function CloseError(actual: int, simulated: int): real {
    Abs((actual - simulated) as real) / 1000.0
  }

  // ---------------------------------------------------------------- specification

  ghost predicate InRange(pairs: seq<Pair>, n: nat, m: nat) {
    forall k | 0 <= k < |pairs| :: pairs[k].actual < n && pairs[k].simulated < m
  }

  ghost predicate StrictlyOrdered(pairs: seq<Pair>) {
    forall k, l | 0 <= k < l < |pairs| :: pairs[k].actual < pairs[l].actual && pairs[k].simulated < pairs[l].simulated
  }

  // A one-to-one matching that respects the order of both lists and pairs only
  // closes at most `window` seconds apart.
  ghost predicate OrderedMatching(pairs: seq<Pair>, actual: seq<int>, simulated: seq<int>, window: real) {
    && InRange(pairs, |actual|, |simulated|)
    && StrictlyOrdered(pairs)
    && forall k | 0 <= k < |pairs| :: CloseError(actual[pairs[k].actual], simulated[pairs[k].simulated]) <= window
  }

  ghost function TotalError(pairs: seq<Pair>, actual: seq<int>, simulated: seq<int>): real
    requires InRange(pairs, |actual|, |simulated|)
  {
    if pairs == [] then 0.0
    else
      CloseError(actual[pairs[0].actual], simulated[pairs[0].simulated]) + TotalError(pairs[1..], actual, simulated)
  }

  ghost function ScoreOf(pairs: seq<Pair>, actual: seq<int>, simulated: seq<int>): Score
    requires InRange(pairs, |actual|, |simulated|)
  {
    Score(|pairs|, TotalError(pairs, actual, simulated))
  }

  // No other matching has more pairs, or as many with less total error.
  ghost predicate Optimal(pairs: seq<Pair>, actual: seq<int>, simulated: seq<int>, window: real) {
    && OrderedMatching(pairs, actual, simulated, window)
    && forall other | OrderedMatching(other, actual, simulated, window) ::
         || |other| < |pairs|
         || (|other| == |pairs| && TotalError(other, actual, simulated) >= TotalError(pairs, actual, simulated))
  }

  // The error is the distance in time, in seconds.
  lemma ErrorIsDistance(actual: int, simulated: int, window: real)
    ensures CloseError(actual, simulated)
            == (if actual < simulated then simulated - actual else actual - simulated) as real / 1000.0
    ensures CloseError(actual, simulated) <= window
            <==> (actual - simulated) as real <= 1000.0 * window && (simulated - actual) as real <= 1000.0 * window
  {
  }

  // ---------------------------------------------------------------- the recurrence

  datatype Action = Stop | SkipActual | SkipSimulated | Match

  // One table cell from its three neighbours: the score kept and the action noted.
  function Cell(skipActual: Score, skipSimulated: Score, previous: Score, error: real, window: real): (Score, Action) {
    var kept := if Better(skipSimulated, skipActual) then (skipSimulated, SkipSimulated) else (skipActual, SkipActual);
    var matched := Score(previous.matches + 1, previous.error + error);
    if error <= window && Better(matched, kept.0) then (matched, Match) else kept
  }

  ghost function Table(actual: seq<int>, simulated: seq<int>, window: real, i: nat, j: nat): (Score, Action)
    requires i <= |actual| && j <= |simulated|
  {
    if i == 0 then (Score(0, 0.0), if j == 0 then Stop else SkipSimulated)
    else if j == 0 then (Score(0, 0.0), SkipActual)
    else
      Cell(Table(actual, simulated, window, i - 1, j).0, Table(actual, simulated, window, i, j - 1).0,
           Table(actual, simulated, window, i - 1, j - 1).0,
           CloseError(actual[i - 1], simulated[j - 1]), window)
  }

  lemma TotalErrorAppend(pairs: seq<Pair>, last: Pair, actual: seq<int>, simulated: seq<int>)
    requires InRange(pairs, |actual|, |simulated|) && last.actual < |actual| && last.simulated < |simulated|
    ensures InRange(pairs + [last], |actual|, |simulated|)
    ensures TotalError(pairs + [last], actual, simulated)
            == TotalError(pairs, actual, simulated) + CloseError(actual[last.actual], simulated[last.simulated])
  {
    if pairs == [] {
      assert pairs + [last] == [last];
    } else {
      assert (pairs + [last])[1..] == pairs[1..] + [last];
      TotalErrorAppend(pairs[1..], last, actual, simulated);
    }
  }

  // A cell is at least as good as each candidate it chose from.
  lemma CellDominates(skipActual: Score, skipSimulated: Score, previous: Score, error: real, window: real, other: Score)
    requires || !Better(other, skipActual)
             || !Better(other, skipSimulated)
             || (error <= window && other.matches > 0
                 && !Better(Score(other.matches - 1, other.error - error), previous))
    ensures !Better(other, Cell(skipActual, skipSimulated, previous, error, window).0)
  {
  }

  lemma RangeIsNonempty(pairs: seq<Pair>, n: nat, m: nat)
    requires InRange(pairs, n, m) && pairs != []
    ensures 0 < n && 0 < m
  {
    assert pairs[0].actual < n && pairs[0].simulated < m;
  }

  // No ordered matching inside the first i and j closes beats the table cell (i, j).
  lemma {:induction false} TableIsUpperBound(pairs: seq<Pair>, actual: seq<int>, simulated: seq<int>, window: real,
                                             i: nat, j: nat)
    requires i <= |actual| && j <= |simulated|
    requires OrderedMatching(pairs, actual, simulated, window) && InRange(pairs, i, j)
    ensures !Better(ScoreOf(pairs, actual, simulated), Table(actual, simulated, window, i, j).0)
    decreases i + j
  {
    if i == 0 || j == 0 {
      if pairs != [] {
        RangeIsNonempty(pairs, i, j);
      }
    } else {
      var n := |pairs| - 1;
      if pairs == [] || pairs[n].actual < i - 1 {
        TableIsUpperBound(pairs, actual, simulated, window, i - 1, j);
      } else if pairs[n].simulated < j - 1 {
        TableIsUpperBound(pairs, actual, simulated, window, i, j - 1);
      } else {
        DropPair(pairs, actual, simulated, window, i, j);
        TableIsUpperBound(pairs[..n], actual, simulated, window, i - 1, j - 1);
      }
      CellDominates(Table(actual, simulated, window, i - 1, j).0, Table(actual, simulated, window, i, j - 1).0,
                    Table(actual, simulated, window, i - 1, j - 1).0,
                    CloseError(actual[i - 1], simulated[j - 1]), window, ScoreOf(pairs, actual, simulated));
    }
  }

  // Without its last pair, which joins the last closes, a matching fits the previous cell.
  lemma DropPair(pairs: seq<Pair>, actual: seq<int>, simulated: seq<int>, window: real, i: nat, j: nat)
    requires 0 < i <= |actual| && 0 < j <= |simulated|
    requires OrderedMatching(pairs, actual, simulated, window) && InRange(pairs, i, j) && pairs != []
    requires pairs[|pairs| - 1].actual >= i - 1 && pairs[|pairs| - 1].simulated >= j - 1
    ensures var rest, error := pairs[..|pairs| - 1], CloseError(actual[i - 1], simulated[j - 1]);
            && OrderedMatching(rest, actual, simulated, window) && InRange(rest, i - 1, j - 1)
            && error <= window
            && ScoreOf(rest, actual, simulated)
               == Score(|pairs| - 1, TotalError(pairs, actual, simulated) - error)
  {
    var rest, last := pairs[..|pairs| - 1], pairs[|pairs| - 1];
    assert last == Pair(i - 1, j - 1);
    assert pairs == rest + [last];
    TotalErrorAppend(rest, last, actual, simulated);
  }

  // ---------------------------------------------------------------- the algorithm

  function Reversed(pairs: seq<Pair>): seq<Pair> {
    if pairs == [] then [] else Reversed(pairs[1..]) + [pairs[0]]
  }

  lemma ReversedAppend(pairs: seq<Pair>, last: Pair)
    ensures Reversed(pairs + [last]) == [last] + Reversed(pairs)
  {
    if pairs == [] {
      assert [] + [last] == [last];
    } else {
      assert (pairs + [last])[1..] == pairs[1..] + [last];
    }
  }

  // What an action recorded in the table says about its cell.
  lemma ActionsFit(actual: seq<int>, simulated: seq<int>, window: real, i: nat, j: nat)
    requires i <= |actual| && j <= |simulated|
    ensures var (score, action) := Table(actual, simulated, window, i, j);
            match action
            case Match =>
              i > 0 && j > 0
              && var previous, error := Table(actual, simulated, window, i - 1, j - 1).0,
                                        CloseError(actual[i - 1], simulated[j - 1]);
                 error <= window && score == Score(previous.matches + 1, previous.error + error)
            case SkipActual => i > 0 && score == Table(actual, simulated, window, i - 1, j).0
            case SkipSimulated => j > 0 && score == Table(actual, simulated, window, i, j - 1).0
            case Stop => i == 0 && j == 0 && score == Score(0, 0.0)
  {
  }

  lemma AppendPair(pairs: seq<Pair>, actual: seq<int>, simulated: seq<int>, window: real, i: nat, j: nat)
    requires i < |actual| && j < |simulated| && CloseError(actual[i], simulated[j]) <= window
    requires OrderedMatching(pairs, actual, simulated, window) && InRange(pairs, i, j)
    ensures OrderedMatching(pairs + [Pair(i, j)], actual, simulated, window)
            && InRange(pairs + [Pair(i, j)], i + 1, j + 1)
  {
    var longer := pairs + [Pair(i, j)];
    forall k | 0 <= k < |longer| ensures longer[k].actual < i + 1 && longer[k].simulated < j + 1 {
      assert k < |pairs| ==> longer[k] == pairs[k];
    }
    forall k, l | 0 <= k < l < |longer|
      ensures longer[k].actual < longer[l].actual && longer[k].simulated < longer[l].simulated
    {
      assert longer[k] == pairs[k] && (l < |pairs| ==> longer[l] == pairs[l]);
    }
  }

  // The pairs the recorded actions lead through, from cell (i, j) back to the corner.
  ghost function Trace(actual: seq<int>, simulated: seq<int>, window: real, i: nat, j: nat): seq<Pair>
    requires i <= |actual| && j <= |simulated|
    decreases i + j
  {
    ActionsFit(actual, simulated, window, i, j);
    match Table(actual, simulated, window, i, j).1
    case Match => Trace(actual, simulated, window, i - 1, j - 1) + [Pair(i - 1, j - 1)]
    case SkipActual => Trace(actual, simulated, window, i - 1, j)
    case SkipSimulated => Trace(actual, simulated, window, i, j - 1)
    case Stop => []
  }

  // A matching of the first i and j closes that attains the score of the cell (i, j).
  ghost predicate Attains(pairs: seq<Pair>, actual: seq<int>, simulated: seq<int>, window: real, i: nat, j: nat)
    requires i <= |actual| && j <= |simulated|
  {
    && OrderedMatching(pairs, actual, simulated, window) && InRange(pairs, i, j)
    && ScoreOf(pairs, actual, simulated) == Table(actual, simulated, window, i, j).0
  }

  lemma AttainsByMatch(pairs: seq<Pair>, actual: seq<int>, simulated: seq<int>, window: real, i: nat, j: nat)
    requires 0 < i <= |actual| && 0 < j <= |simulated| && Table(actual, simulated, window, i, j).1 == Match
    requires Attains(pairs, actual, simulated, window, i - 1, j - 1)
    ensures Attains(pairs + [Pair(i - 1, j - 1)], actual, simulated, window, i, j)
  {
    ActionsFit(actual, simulated, window, i, j);
    AppendPair(pairs, actual, simulated, window, i - 1, j - 1);
    TotalErrorAppend(pairs, Pair(i - 1, j - 1), actual, simulated);
  }

  lemma AttainsBySkip(pairs: seq<Pair>, actual: seq<int>, simulated: seq<int>, window: real, i: nat, j: nat)
    requires i <= |actual| && j <= |simulated|
    ensures Table(actual, simulated, window, i, j).1 == SkipActual && i > 0
            && Attains(pairs, actual, simulated, window, i - 1, j) ==>
              Attains(pairs, actual, simulated, window, i, j)
    ensures Table(actual, simulated, window, i, j).1 == SkipSimulated && j > 0
            && Attains(pairs, actual, simulated, window, i, j - 1) ==>
              Attains(pairs, actual, simulated, window, i, j)
  {
    ActionsFit(actual, simulated, window, i, j);
  }

  lemma NothingAttains(actual: seq<int>, simulated: seq<int>, window: real)
    ensures Attains([], actual, simulated, window, 0, 0)
  {
  }

  ghost predicate TraceFits(actual: seq<int>, simulated: seq<int>, window: real, i: nat, j: nat)
    requires i <= |actual| && j <= |simulated|
  {
    Attains(Trace(actual, simulated, window, i, j), actual, simulated, window, i, j)
  }

  lemma TraceByMatch(actual: seq<int>, simulated: seq<int>, window: real, i: nat, j: nat)
    requires 0 < i <= |actual| && 0 < j <= |simulated| && Table(actual, simulated, window, i, j).1 == Match
    requires TraceFits(actual, simulated, window, i - 1, j - 1)
    ensures TraceFits(actual, simulated, window, i, j)
  {
    AttainsByMatch(Trace(actual, simulated, window, i - 1, j - 1), actual, simulated, window, i, j);
  }

  lemma TraceBySkip(actual: seq<int>, simulated: seq<int>, window: real, i: nat, j: nat)
    requires i <= |actual| && j <= |simulated|
    ensures Table(actual, simulated, window, i, j).1 == SkipActual && i > 0
            && TraceFits(actual, simulated, window, i - 1, j) ==>
              TraceFits(actual, simulated, window, i, j)
    ensures Table(actual, simulated, window, i, j).1 == SkipSimulated && j > 0
            && TraceFits(actual, simulated, window, i, j - 1) ==>
              TraceFits(actual, simulated, window, i, j)
  {
    AttainsBySkip(Trace(actual, simulated, window, i, j), actual, simulated, window, i, j);
  }

  lemma {:induction false} TraceAttains(actual: seq<int>, simulated: seq<int>, window: real, i: nat, j: nat)
    requires i <= |actual| && j <= |simulated|
    ensures TraceFits(actual, simulated, window, i, j)
    decreases i + j
  {
    ActionsFit(actual, simulated, window, i, j);
    match Table(actual, simulated, window, i, j).1 {
      case Match =>
        TraceAttains(actual, simulated, window, i - 1, j - 1);
        TraceByMatch(actual, simulated, window, i, j);
      case SkipActual =>
        TraceAttains(actual, simulated, window, i - 1, j);
        TraceBySkip(actual, simulated, window, i, j);
      case SkipSimulated =>
        TraceAttains(actual, simulated, window, i, j - 1);
        TraceBySkip(actual, simulated, window, i, j);
      case Stop =>
        NothingAttains(actual, simulated, window);
    }
  }

  ghost predicate Filled(scores: array2<Score>, actions: array2<Action>, actual: seq<int>, simulated: seq<int>,
                         window: real, i: int, j: int)
    requires 0 <= i <= |actual| && 0 <= j <= |simulated|
    requires scores.Length0 == actions.Length0 == |actual| + 1
    requires scores.Length1 == actions.Length1 == |simulated| + 1
    reads scores, actions
  {
    (scores[i, j], actions[i, j]) == Table(actual, simulated, window, i, j)
  }

  // The tables with their first row and column in place.
  method FillEdges(actual: seq<int>, simulated: seq<int>, window: real)
    returns (scores: array2<Score>, actions: array2<Action>)
    ensures fresh(scores) && fresh(actions)
    ensures scores.Length0 == actions.Length0 == |actual| + 1
    ensures scores.Length1 == actions.Length1 == |simulated| + 1
    ensures forall i | 0 <= i <= |actual| :: Filled(scores, actions, actual, simulated, window, i, 0)
    ensures forall j | 0 <= j <= |simulated| :: Filled(scores, actions, actual, simulated, window, 0, j)
  {
    var rows, columns := |actual| + 1, |simulated| + 1;
    scores := new Score[rows, columns]((_, _) => Score(0, 0.0));
    actions := new Action[rows, columns]((_, _) => Stop);
    for i := 1 to rows
      invariant forall r | 1 <= r < i :: actions[r, 0] == SkipActual
      invariant actions[0, 0] == Stop
      invariant forall r, c | 0 <= r < rows && 0 <= c < columns :: scores[r, c] == Score(0, 0.0)
    {
      actions[i, 0] := SkipActual;
    }
    for j := 1 to columns
      invariant forall r | 1 <= r < rows :: actions[r, 0] == SkipActual
      invariant forall c | 1 <= c < j :: actions[0, c] == SkipSimulated
      invariant actions[0, 0] == Stop
      invariant forall r, c | 0 <= r < rows && 0 <= c < columns :: scores[r, c] == Score(0, 0.0)
    {
      actions[0, j] := SkipSimulated;
    }
  }

  method FillTables(actual: seq<int>, simulated: seq<int>, window: real)
    returns (scores: array2<Score>, actions: array2<Action>)
    ensures scores.Length0 == actions.Length0 == |actual| + 1
    ensures scores.Length1 == actions.Length1 == |simulated| + 1
    ensures forall i, j | 0 <= i <= |actual| && 0 <= j <= |simulated| ::
              Filled(scores, actions, actual, simulated, window, i, j)
  {
    scores, actions := FillEdges(actual, simulated, window);
    for i := 1 to |actual| + 1
      invariant forall r, c | 0 <= r <= |actual| && 0 <= c <= |simulated| && (r < i || c == 0) ::
                  Filled(scores, actions, actual, simulated, window, r, c)
    {
      for j := 1 to |simulated| + 1
        invariant forall r, c | 0 <= r <= |actual| && 0 <= c <= |simulated| && (r < i || c == 0 || (r == i && c < j)) ::
                    Filled(scores, actions, actual, simulated, window, r, c)
      {
        FillCell(scores, actions, actual, simulated, window, i, j);
      }
    }
  }

  method FillCell(scores: array2<Score>, actions: array2<Action>, actual: seq<int>, simulated: seq<int>, window: real,
                  i: nat, j: nat)
    requires scores.Length0 == actions.Length0 == |actual| + 1
    requires scores.Length1 == actions.Length1 == |simulated| + 1
    requires 0 < i <= |actual| && 0 < j <= |simulated|
    requires Filled(scores, actions, actual, simulated, window, i - 1, j)
    requires Filled(scores, actions, actual, simulated, window, i, j - 1)
    requires Filled(scores, actions, actual, simulated, window, i - 1, j - 1)
    modifies scores, actions
    ensures Filled(scores, actions, actual, simulated, window, i, j)
    ensures forall r, c | 0 <= r <= |actual| && 0 <= c <= |simulated|
                          && old(Filled(scores, actions, actual, simulated, window, r, c)) ::
              Filled(scores, actions, actual, simulated, window, r, c)
  {
    var best := scores[i - 1, j];
    var action := SkipActual;
    var skipSimulated := scores[i, j - 1];
    if Better(skipSimulated, best) {
      best := skipSimulated;
      action := SkipSimulated;
    }
    var closeError := CloseError(actual[i - 1], simulated[j - 1]);
    if closeError <= window {
      var previous := scores[i - 1, j - 1];
      var matched := Score(previous.matches + 1, previous.error + closeError);
      if Better(matched, best) {
        best := matched;
        action := Match;
      }
    }
    scores[i, j] := best;
    actions[i, j] := action;
  }

  // One step back: what is still to be traced and what has been collected stay the whole.
  lemma TraceStep(actual: seq<int>, simulated: seq<int>, window: real, i: nat, j: nat, pairs: seq<Pair>)
    requires i <= |actual| && j <= |simulated|
    ensures var whole := Trace(actual, simulated, window, i, j) + Reversed(pairs);
            match Table(actual, simulated, window, i, j).1
            case Match =>
              i > 0 && j > 0
              && whole == Trace(actual, simulated, window, i - 1, j - 1) + Reversed(pairs + [Pair(i - 1, j - 1)])
            case SkipActual => i > 0 && whole == Trace(actual, simulated, window, i - 1, j) + Reversed(pairs)
            case SkipSimulated => j > 0 && whole == Trace(actual, simulated, window, i, j - 1) + Reversed(pairs)
            case Stop => i == 0 && j == 0 && whole == Reversed(pairs)
  {
    ActionsFit(actual, simulated, window, i, j);
    if Table(actual, simulated, window, i, j).1.Match? {
      ReversedAppend(pairs, Pair(i - 1, j - 1));
    } else if Table(actual, simulated, window, i, j).1.Stop? {
      assert [] + Reversed(pairs) == Reversed(pairs);
    }
  }

  method Traceback(actions: array2<Action>, actual: seq<int>, simulated: seq<int>, window: real)
    returns (pairs: seq<Pair>)
    requires actions.Length0 == |actual| + 1 && actions.Length1 == |simulated| + 1
    requires forall i, j | 0 <= i <= |actual| && 0 <= j <= |simulated| ::
               actions[i, j] == Table(actual, simulated, window, i, j).1
    ensures pairs == Trace(actual, simulated, window, |actual|, |simulated|)
  {
    pairs := [];
    var i, j := |actual|, |simulated|;
    while i > 0 || j > 0
      invariant 0 <= i <= |actual| && 0 <= j <= |simulated|
      invariant Trace(actual, simulated, window, |actual|, |simulated|)
                == Trace(actual, simulated, window, i, j) + Reversed(pairs)
      decreases i + j
    {
      var action := actions[i, j];
      ActionsFit(actual, simulated, window, i, j);
      TraceStep(actual, simulated, window, i, j, pairs);
      match action {
        case Match =>
          pairs := pairs + [Pair(i - 1, j - 1)];
          i, j := i - 1, j - 1;
        case SkipActual =>
          i := i - 1;
        case SkipSimulated =>
          j := j - 1;
        case Stop =>
          break;
      }
    }
    pairs := Reversed(pairs);
  }

  // The matcher maximises the number of ordered matches, then minimises the total error.
  method OrderedCloseMatches(actual: seq<int>, simulated: seq<int>, window: real) returns (pairs: seq<Pair>)
    ensures Optimal(pairs, actual, simulated, window)
  {
    var scores, actions := FillTables(actual, simulated, window);
    forall i, j | 0 <= i <= |actual| && 0 <= j <= |simulated|
      ensures actions[i, j] == Table(actual, simulated, window, i, j).1
    {
      assert Filled(scores, actions, actual, simulated, window, i, j);
    }
    pairs := Traceback(actions, actual, simulated, window);
    TraceAttains(actual, simulated, window, |actual|, |simulated|);
    forall other | OrderedMatching(other, actual, simulated, window)
      ensures || |other| < |pairs|
              || (|other| == |pairs| && TotalError(other, actual, simulated) >= TotalError(pairs, actual, simulated))
    {
      TableIsUpperBound(other, actual, simulated, window, |actual|, |simulated|);
    }
  }

  // ---------------------------------------------------------------- regimes

  // One trading regime: its observed closes and the closes its replay produced.
  datatype Regime = Regime(actual: seq<int>, simulated: seq<int>)

  function Shifted(pairs: seq<Pair>, actualOffset: nat, simulatedOffset: nat): (shifted: seq<Pair>)
    ensures |shifted| == |pairs|
    ensures forall k | 0 <= k < |pairs| ::
              shifted[k] == Pair(actualOffset + pairs[k].actual, simulatedOffset + pairs[k].simulated)
  {
    seq(|pairs|,
        k requires 0 <= k < |pairs| => Pair(actualOffset + pairs[k].actual, simulatedOffset + pairs[k].simulated))
  }

  // Appending a regime's shifted matching keeps the whole an ordered matching.
  lemma ConcatenationIsOrdered(done: seq<Pair>, doneActual: seq<int>, doneSimulated: seq<int>,
                               next: seq<Pair>, nextActual: seq<int>, nextSimulated: seq<int>, window: real)
    requires OrderedMatching(done, doneActual, doneSimulated, window)
    requires OrderedMatching(next, nextActual, nextSimulated, window)
    ensures OrderedMatching(done + Shifted(next, |doneActual|, |doneSimulated|),
                            doneActual + nextActual, doneSimulated + nextSimulated, window)
  {
    var shifted := Shifted(next, |doneActual|, |doneSimulated|);
    var all, actual, simulated := done + shifted, doneActual + nextActual, doneSimulated + nextSimulated;
    forall k | 0 <= k < |all|
      ensures all[k].actual < |actual| && all[k].simulated < |simulated|
              && CloseError(actual[all[k].actual], simulated[all[k].simulated]) <= window
    {
      if k < |done| {
        assert all[k] == done[k];
      } else {
        assert all[k] == shifted[k - |done|];
        var pair := next[k - |done|];
        assert actual[all[k].actual] == nextActual[pair.actual]
               && simulated[all[k].simulated] == nextSimulated[pair.simulated];
      }
    }
    forall k, l | 0 <= k < l < |all| ensures all[k].actual < all[l].actual && all[k].simulated < all[l].simulated {
      if k < |done| {
        assert all[k] == done[k];
      } else {
        assert all[k] == shifted[k - |done|];
      }
      if l < |done| {
        assert all[l] == done[l];
      } else {
        assert all[l] == shifted[l - |done|];
      }
    }
  }

  function Flatten(lists: seq<seq<int>>): seq<int> {
    if lists == [] then [] else Flatten(lists[..|lists| - 1]) + lists[|lists| - 1]
  }

  function Actuals(regimes: seq<Regime>): seq<seq<int>> {
    seq(|regimes|, k requires 0 <= k < |regimes| => regimes[k].actual)
  }

  function Simulateds(regimes: seq<Regime>): seq<seq<int>> {
    seq(|regimes|, k requires 0 <= k < |regimes| => regimes[k].simulated)
  }

  ghost predicate OptimalForRegime(pairs: seq<Pair>, regime: Regime, window: real) {
    Optimal(pairs, regime.actual, regime.simulated, window)
  }

  // Each regime's pairs, shifted past all earlier closes.
  function Concatenated(regimes: seq<Regime>, matchings: seq<seq<Pair>>): seq<Pair>
    requires |regimes| == |matchings|
  {
    if regimes == [] then []
    else
      var n := |regimes| - 1;
      Concatenated(regimes[..n], matchings[..n])
      + Shifted(matchings[n], |Flatten(Actuals(regimes[..n]))|, |Flatten(Simulateds(regimes[..n]))|)
  }

  // The first regimes, joined.
  ghost predicate Joined(regimes: seq<Regime>, matchings: seq<seq<Pair>>, actual: seq<int>, simulated: seq<int>,
                         pairs: seq<Pair>, window: real) {
    && |matchings| == |regimes|
    && (forall k | 0 <= k < |regimes| :: OptimalForRegime(matchings[k], regimes[k], window))
    && actual == Flatten(Actuals(regimes)) && simulated == Flatten(Simulateds(regimes))
    && pairs == Concatenated(regimes, matchings) && OrderedMatching(pairs, actual, simulated, window)
  }

  lemma JoinRegime(regimes: seq<Regime>, matchings: seq<seq<Pair>>, actual: seq<int>, simulated: seq<int>,
                   pairs: seq<Pair>, window: real, regime: Regime, matches: seq<Pair>)
    requires Joined(regimes, matchings, actual, simulated, pairs, window) && OptimalForRegime(matches, regime, window)
    ensures Joined(regimes + [regime], matchings + [matches], actual + regime.actual, simulated + regime.simulated,
                   pairs + Shifted(matches, |actual|, |simulated|), window)
  {
    ConcatenationIsOrdered(pairs, actual, simulated, matches, regime.actual, regime.simulated, window);
    JoinedCloses(regimes, matchings, regime, matches);
    var all, allMatchings := regimes + [regime], matchings + [matches];
    forall k | 0 <= k < |all| ensures OptimalForRegime(allMatchings[k], all[k], window) {
      if k < |regimes| {
        assert all[k] == regimes[k] && allMatchings[k] == matchings[k];
      }
    }
  }

  lemma JoinedCloses(regimes: seq<Regime>, matchings: seq<seq<Pair>>, regime: Regime, matches: seq<Pair>)
    requires |matchings| == |regimes|
    ensures Flatten(Actuals(regimes + [regime])) == Flatten(Actuals(regimes)) + regime.actual
    ensures Flatten(Simulateds(regimes + [regime])) == Flatten(Simulateds(regimes)) + regime.simulated
    ensures Concatenated(regimes + [regime], matchings + [matches])
         == Concatenated(regimes, matchings)
            + Shifted(matches, |Flatten(Actuals(regimes))|, |Flatten(Simulateds(regimes))|)
  {
    var all := regimes + [regime];
    assert all[..|regimes|] == regimes && (matchings + [matches])[..|regimes|] == matchings;
    assert Actuals(all)[..|regimes|] == Actuals(regimes) && Simulateds(all)[..|regimes|] == Simulateds(regimes);
  }

  // The continuous validation: per-regime optimal matchings, shifted and concatenated,
  // are an ordered one-to-one matching of all closes taken together.
  method ValidateContinuous(regimes: seq<Regime>, window: real)
    returns (allActual: seq<int>, allSimulated: seq<int>, allPairs: seq<Pair>, ghost matchings: seq<seq<Pair>>)
    ensures |matchings| == |regimes|
    ensures forall k | 0 <= k < |regimes| :: OptimalForRegime(matchings[k], regimes[k], window)
    ensures allActual == Flatten(Actuals(regimes)) && allSimulated == Flatten(Simulateds(regimes))
    ensures allPairs == Concatenated(regimes, matchings)
    ensures OrderedMatching(allPairs, allActual, allSimulated, window)
  {
    allActual, allSimulated, allPairs, matchings := [], [], [], [];
    WholePrefix(regimes);
    for k := 0 to |regimes|
      invariant Joined(regimes[..k], matchings, allActual, allSimulated, allPairs, window)
    {
      var regime := regimes[k];
      var matches := OrderedCloseMatches(regime.actual, regime.simulated, window);
      JoinRegime(regimes[..k], matchings, allActual, allSimulated, allPairs, window, regime, matches);
      Prefixes(regimes, k);
      allPairs := allPairs + Shifted(matches, |allActual|, |allSimulated|);
      allActual := allActual + regime.actual;
      allSimulated := allSimulated + regime.simulated;
      matchings := matchings + [matches];
    }
  }

  // ---------------------------------------------------------------- counting

  datatype Metrics = Metrics(matched: nat, unmatchedActual: int, unmatchedSimulated: int)

  // The counts of the comparison report: the index sets are built by iterating the pairs.
  method ComparisonMetrics(actual: seq<int>, simulated: seq<int>, pairs: seq<Pair>) returns (metrics: Metrics)
    requires InRange(pairs, |actual|, |simulated|) && StrictlyOrdered(pairs)
    ensures metrics.matched == |pairs|
    ensures metrics.matched + metrics.unmatchedActual == |actual|
    ensures metrics.matched + metrics.unmatchedSimulated == |simulated|
    ensures 0 <= metrics.unmatchedActual && 0 <= metrics.unmatchedSimulated
  {
    var matchedActual: set<nat>, matchedSimulated: set<nat> := {}, {};
    for k := 0 to |pairs|
      invariant |matchedActual| == |matchedSimulated| == k
      invariant forall x | x in matchedActual :: k > 0 && x <= pairs[k - 1].actual
      invariant forall x | x in matchedSimulated :: k > 0 && x <= pairs[k - 1].simulated
    {
      matchedActual := matchedActual + {pairs[k].actual};
      matchedSimulated := matchedSimulated + {pairs[k].simulated};
    }
    metrics := Metrics(|pairs|, |actual| - |matchedActual|, |simulated| - |matchedSimulated|);
    OrderedIsBounded(pairs, |actual|, |simulated|);
  }

  // An ordered matching has no more pairs than either side has closes.
  lemma {:induction false} OrderedIsBounded(pairs: seq<Pair>, n: nat, m: nat)
    requires InRange(pairs, n, m) && StrictlyOrdered(pairs)
    ensures |pairs| <= n && |pairs| <= m
  {
    if pairs != [] {
      var last := pairs[|pairs| - 1];
      assert last.actual < n && last.simulated < m;
      OrderedIsBounded(pairs[..|pairs| - 1], last.actual, last.simulated);
    }
  }
}
