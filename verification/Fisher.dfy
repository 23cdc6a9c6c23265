// The one-sided Fisher probability of the deep-cooldown report (botdca/entry_identification.py).
module Fisher {
  import opened Common

  // ---------------------------------------------------------------- binomial coefficients

  function Factorial(n: nat): (f: nat)
    ensures f > 0
  {
    if n == 0 then 1 else n * Factorial(n - 1)
  }

  // math.comb, by Pascal's rule; zero when more are chosen than there are.
  function Comb(n: nat, k: nat): nat {
    if k == 0 then 1
    else if n == 0 then 0
    else Comb(n - 1, k - 1) + Comb(n - 1, k)
  }

  lemma CombBeyond(n: nat, k: nat)
    requires k > n
    ensures Comb(n, k) == 0
  {
  }

  // Pascal's rule computes the usual quotient of factorials.
  lemma {:induction false} CombIsFactorialQuotient(n: nat, k: nat)
    requires k <= n
    ensures Comb(n, k) * (Factorial(k) * Factorial(n - k)) == Factorial(n)
    decreases n
  {
    if k == 0 {
    } else if k == n {
      CombIsFactorialQuotient(n - 1, k - 1);
      CombBeyond(n - 1, k);
      assert Factorial(0) == 1;
    } else {
      CombIsFactorialQuotient(n - 1, k - 1);
      CombIsFactorialQuotient(n - 1, k);
      var a, b := Comb(n - 1, k - 1), Comb(n - 1, k);
      var p, q := Factorial(k - 1), Factorial(n - k - 1);
      assert Factorial(k) == k * p && Factorial(n - k) == (n - k) * q;
      PascalStep(a, b, p, q, k, n - k, Factorial(n - 1));
    }
  }

  lemma PascalStep(a: nat, b: nat, p: nat, q: nat, k: nat, m: nat, f: nat)
    requires a * (p * (m * q)) == f && b * ((k * p) * q) == f
    ensures (a + b) * ((k * p) * (m * q)) == (k + m) * f
  {
    calc {
      (a + b) * ((k * p) * (m * q));
    ==
      k * (a * (p * (m * q))) + m * (b * ((k * p) * q));
    ==
      k * f + m * f;
    }
  }

  lemma CombPositive(n: nat, k: nat)
    requires k <= n
    ensures Comb(n, k) > 0
  {
  }

  // ---------------------------------------------------------------- Vandermonde

  // Ways to draw `selected` of the successes and the rest of the draws elsewhere.
  function Ways(population: nat, successes: nat, draws: nat, selected: nat): nat
    requires successes <= population
  {
    if selected <= draws && draws - selected <= population - successes
    then Comb(successes, selected) * Comb(population - successes, draws - selected)
    else 0
  }

  // Sum of Ways over selected in from..end-1.
  function SumWays(population: nat, successes: nat, draws: nat, from: nat, end: nat): nat
    requires successes <= population && from <= end
    decreases end
  {
    if from == end then 0
    else SumWays(population, successes, draws, from, end - 1) + Ways(population, successes, draws, end - 1)
  }

  // The guard in Ways only skips zero terms.
  lemma WaysUnguarded(population: nat, successes: nat, draws: nat, selected: nat)
    requires successes <= population && selected <= draws
    ensures Ways(population, successes, draws, selected)
            == Comb(successes, selected) * Comb(population - successes, draws - selected)
  {
    if draws - selected > population - successes {
      CombBeyond(population - successes, draws - selected);
    }
  }

  lemma DistributeNat(x: nat, y: nat, c: nat)
    ensures (x + y) * c == x * c + y * c
  {
  }

  // Pascal's rule on the successes, term by term.
  lemma WaysStep(population: nat, successes: nat, draws: nat, selected: nat)
    requires 0 < successes <= population
    ensures Ways(population, successes, draws, selected)
            == Ways(population - 1, successes - 1, draws, selected)
               + (if selected > 0 && draws > 0 then Ways(population - 1, successes - 1, draws - 1, selected - 1) else 0)
  {
    var others := population - successes;
    if selected <= draws {
      WaysUnguarded(population, successes, draws, selected);
      WaysUnguarded(population - 1, successes - 1, draws, selected);
      if selected > 0 {
        WaysUnguarded(population - 1, successes - 1, draws - 1, selected - 1);
        var c := Comb(others, draws - selected);
        var x, y := Comb(successes - 1, selected - 1), Comb(successes - 1, selected);
        DistributeNat(x, y, c);
      }
    }
  }

  lemma SumWaysStep(population: nat, successes: nat, draws: nat, end: nat)
    requires 0 < successes <= population && 0 < draws
    ensures SumWays(population, successes, draws, 0, end + 1)
            == SumWays(population - 1, successes - 1, draws, 0, end + 1)
               + SumWays(population - 1, successes - 1, draws - 1, 0, end)
    decreases end
  {
    WaysStep(population, successes, draws, end);
    if end == 0 {
      assert SumWays(population, successes, draws, 0, 0) == 0;
    } else {
      SumWaysStep(population, successes, draws, end - 1);
    }
  }

  // Vandermonde's identity.
  lemma {:induction false} Vandermonde(population: nat, successes: nat, draws: nat)
    requires successes <= population
    ensures SumWays(population, successes, draws, 0, draws + 1) == Comb(population, draws)
    decreases successes
  {
    if successes == 0 {
      NoSuccesses(population, draws, draws + 1);
    } else if draws == 0 {
      assert SumWays(population, successes, 0, 0, 0) == 0;
    } else {
      SumWaysStep(population, successes, draws, draws);
      Vandermonde(population - 1, successes - 1, draws);
      Vandermonde(population - 1, successes - 1, draws - 1);
    }
  }

  lemma NoSuccesses(population: nat, draws: nat, end: nat)
    requires 0 < end <= draws + 1
    ensures SumWays(population, 0, draws, 0, end) == Comb(population, draws)
    decreases end
  {
    WaysUnguarded(population, 0, draws, end - 1);
    if end == 1 {
      assert SumWays(population, 0, draws, 0, 0) == 0;
    } else {
      NoSuccesses(population, draws, end - 1);
      assert Comb(0, end - 1) == 0;
    }
  }

  lemma SumWaysSplit(population: nat, successes: nat, draws: nat, from: nat, middle: nat, end: nat)
    requires successes <= population && from <= middle <= end
    ensures SumWays(population, successes, draws, from, end)
            == SumWays(population, successes, draws, from, middle) + SumWays(population, successes, draws, middle, end)
    decreases end
  {
    if middle < end {
      SumWaysSplit(population, successes, draws, from, middle, end - 1);
    }
  }

  lemma NoWaysBeyond(population: nat, successes: nat, draws: nat, from: nat, end: nat)
    requires successes <= population && MinInt(draws, successes) < from <= end
    ensures SumWays(population, successes, draws, from, end) == 0
    decreases end
  {
    if from < end {
      NoWaysBeyond(population, successes, draws, from, end - 1);
      if end - 1 > successes {
        CombBeyond(successes, end - 1);
      }
    }
  }

  // ---------------------------------------------------------------- the probability

  // Arguments the report always passes: no more successes or draws than the population.
  predicate Legal(population: nat, successes: nat, draws: nat) {
    successes <= population && draws <= population
  }

  // Ways over the observed count or more, out of all draws: the hypergeometric upper tail.
  ghost function Tail(population: nat, successes: nat, draws: nat, observed: nat): real
    requires Legal(population, successes, draws)
  {
    CombPositive(population, draws);
    Share(SumWays(population, successes, draws, observed, MaxInt(observed, MinInt(draws, successes) + 1)),
          Comb(population, draws))
  }

  function Share(part: nat, whole: nat): real
    requires whole > 0
  {
    part as real / whole as real
  }

  // The comprehension of the source: one quotient per feasible selected count.
  method OneSidedFisherProbability(population: nat, successes: nat, draws: nat, observed: nat)
    returns (probability: real)
    requires Legal(population, successes, draws)
    ensures probability == Tail(population, successes, draws, observed)
  {
    CombPositive(population, draws);
    var denominator := Comb(population, draws);
    var end := MaxInt(observed, MinInt(draws, successes) + 1);
    probability := 0.0;
    for selected := observed to end
      invariant probability == Share(SumWays(population, successes, draws, observed, selected), denominator)
    {
      if draws - selected >= 0 && draws - selected <= population - successes {
        var ways := Comb(successes, selected) * Comb(population - successes, draws - selected);
        AddShares(SumWays(population, successes, draws, observed, selected), ways, denominator);
        probability := probability + Share(ways, denominator);
      }
    }
  }

  lemma AddShares(x: nat, y: nat, d: nat)
    requires d > 0
    ensures Share(x, d) + Share(y, d) == Share(x + y, d)
  {
  }

  lemma ShareOrder(x: nat, y: nat, d: nat)
    requires d > 0 && x <= y
    ensures 0.0 <= Share(x, d) <= Share(y, d)
  {
    var q := d as real;
    Quotient(x as real, q, y as real / q);
    Quotient(x as real, q, 0.0);
    Undo(q, y as real);
  }

  // Every draw selects some feasible count of successes.
  lemma AllWays(population: nat, successes: nat, draws: nat)
    requires Legal(population, successes, draws)
    ensures SumWays(population, successes, draws, 0, MinInt(draws, successes) + 1) == Comb(population, draws)
  {
    var top := MinInt(draws, successes) + 1;
    Vandermonde(population, successes, draws);
    SumWaysSplit(population, successes, draws, 0, top, draws + 1);
    NoWaysBeyond(population, successes, draws, top, draws + 1);
  }

  // All feasible counts together are certain.
  lemma {:induction false} TailIsCertainAtZero(population: nat, successes: nat, draws: nat)
    requires Legal(population, successes, draws)
    ensures Tail(population, successes, draws, 0) == 1.0
  {
    AllWays(population, successes, draws);
    CombPositive(population, draws);
    Whole(Comb(population, draws));
  }

  lemma Whole(d: nat)
    requires d > 0
    ensures Share(d, d) == 1.0
  {
  }

  // The tail is a probability and never grows with the observed count.
  lemma {:induction false} TailIsAProbability(population: nat, successes: nat, draws: nat, fewer: nat, more: nat)
    requires Legal(population, successes, draws) && fewer <= more
    ensures 0.0 <= Tail(population, successes, draws, more) <= Tail(population, successes, draws, fewer) <= 1.0
  {
    CombPositive(population, draws);
    TailIsCertainAtZero(population, successes, draws);
    TailOrder(population, successes, draws, fewer, more);
    TailOrder(population, successes, draws, 0, fewer);
  }

  lemma TailOrder(population: nat, successes: nat, draws: nat, fewer: nat, more: nat)
    requires Legal(population, successes, draws) && fewer <= more
    ensures 0.0 <= Tail(population, successes, draws, more) <= Tail(population, successes, draws, fewer)
  {
    var top := MinInt(draws, successes) + 1;
    var x := SumWays(population, successes, draws, more, MaxInt(more, top));
    var y := SumWays(population, successes, draws, fewer, MaxInt(fewer, top));
    if more <= top {
      SumWaysSplit(population, successes, draws, fewer, more, top);
    }
    CombPositive(population, draws);
    ShareOrder(x, y, Comb(population, draws));
  }

  // ---------------------------------------------------------------- the report

  datatype Transition = Transition(previousDepth: nat, skippedMinutes: int)

  function Count(items: seq<Transition>, p: Transition -> bool): nat {
    if items == [] then 0 else Count(items[..|items| - 1], p) + (if p(items[|items| - 1]) then 1 else 0)
  }

  predicate IsDeep(t: Transition, deepThreshold: nat) {
    t.previousDepth >= deepThreshold
  }

  predicate IsLong(t: Transition, longMinutes: int) {
    t.skippedMinutes > longMinutes
  }

  // A count is a number of places.
  lemma {:induction false} CountIs(items: seq<Transition>, p: Transition -> bool)
    ensures Count(items, p) == |set i | 0 <= i < |items| && p(items[i])|
  {
    var places := set i | 0 <= i < |items| && p(items[i]);
    if items == [] {
      assert places == {};
    } else {
      var n := |items| - 1;
      var front := set i | 0 <= i < n && p(items[..n][i]);
      CountIs(items[..n], p);
      assert places == front + if p(items[n]) then {n} else {};
    }
  }

  ghost function Long(transitions: seq<Transition>, longMinutes: int): set<int> {
    set i | 0 <= i < |transitions| && transitions[i].skippedMinutes > longMinutes
  }

  ghost function Deep(transitions: seq<Transition>, deepThreshold: nat): set<int> {
    set i | 0 <= i < |transitions| && transitions[i].previousDepth >= deepThreshold
  }

  // The counts of the report are those of the deep, the long and the deep long transitions.
  lemma CountsAre(transitions: seq<Transition>, deepThreshold: nat, longMinutes: int)
    ensures var deep, long := Deep(transitions, deepThreshold), Long(transitions, longMinutes);
            && Count(transitions, t => IsDeep(t, deepThreshold)) == |deep|
            && Count(transitions, t => IsLong(t, longMinutes)) == |long|
            && Count(transitions, t => IsDeep(t, deepThreshold) && IsLong(t, longMinutes)) == |deep * long|
  {
    var deep, long := Deep(transitions, deepThreshold), Long(transitions, longMinutes);
    var isDeep := (t: Transition) => IsDeep(t, deepThreshold);
    var isLong := (t: Transition) => IsLong(t, longMinutes);
    var isDeepLong := (t: Transition) => IsDeep(t, deepThreshold) && IsLong(t, longMinutes);
    CountIs(transitions, isDeep);
    CountIs(transitions, isLong);
    CountIs(transitions, isDeepLong);
    assert deep == set i | 0 <= i < |transitions| && isDeep(transitions[i]);
    assert long == set i | 0 <= i < |transitions| && isLong(transitions[i]);
    assert deep * long == set i | 0 <= i < |transitions| && isDeepLong(transitions[i]);
  }

  // The deep/shallow split and its two counts of long cooldowns.
  method CountTransitions(transitions: seq<Transition>, deepThreshold: nat, longMinutes: int)
    returns (deep: nat, deepLong: nat, shallowLong: nat)
    ensures deep == Count(transitions, t => IsDeep(t, deepThreshold))
    ensures deepLong == Count(transitions, t => IsDeep(t, deepThreshold) && IsLong(t, longMinutes))
    ensures deepLong + shallowLong == Count(transitions, t => IsLong(t, longMinutes))
    ensures deepLong <= deep <= |transitions| && shallowLong <= |transitions| - deep
  {
    ghost var isDeep := (t: Transition) => IsDeep(t, deepThreshold);
    ghost var isLong := (t: Transition) => IsLong(t, longMinutes);
    ghost var isDeepLong := (t: Transition) => IsDeep(t, deepThreshold) && IsLong(t, longMinutes);
    deep, deepLong, shallowLong := 0, 0, 0;
    for i := 0 to |transitions|
      invariant deep == Count(transitions[..i], isDeep)
      invariant deepLong == Count(transitions[..i], isDeepLong)
      invariant deepLong + shallowLong == Count(transitions[..i], isLong)
      invariant deepLong <= deep <= i && shallowLong <= i - deep
    {
      assert transitions[..i + 1][..i] == transitions[..i];
      var item := transitions[i];
      if item.previousDepth >= deepThreshold {
        deep := deep + 1;
        if item.skippedMinutes > longMinutes {
          deepLong := deepLong + 1;
        }
      } else if item.skippedMinutes > longMinutes {
        shallowLong := shallowLong + 1;
      }
    }
    assert transitions[..|transitions|] == transitions;
  }

  // The split always gives legal arguments, so the reported figure is a probability: the tail
  // at the observed number of long deep cooldowns.
  method DeepCooldownSummary(transitions: seq<Transition>, deepThreshold: nat, longMinutes: int)
    returns (probability: real)
    ensures var deep, long := Deep(transitions, deepThreshold), Long(transitions, longMinutes);
            && |long| <= |transitions| && |deep| <= |transitions|
            && probability == Tail(|transitions|, |long|, |deep|, |deep * long|)
    ensures 0.0 <= probability <= 1.0
  {
    var deep, deepLong, shallowLong := CountTransitions(transitions, deepThreshold, longMinutes);
    probability := OneSidedFisherProbability(|transitions|, deepLong + shallowLong, deep, deepLong);
    TailIsAProbability(|transitions|, deepLong + shallowLong, deep, deepLong, deepLong);
    CountsAre(transitions, deepThreshold, longMinutes);
  }
}
