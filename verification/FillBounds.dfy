// Tightening the fill prices of a deep cycle (botdca/entry_identification.py) and the
// range test of the market-alignment report (botdca/historical_profile.py).
//
// A cycle has one exported weighted average, one quantity per fill and, per fill, the
// price range of its entry minute. The loops narrow each range to the prices that some
// completion of the whole cycle can reach.
module FillBounds {
  import opened Common

  datatype Range = Range(low: real, high: real)

  predicate Positive(quantities: seq<real>) {
    forall i | 0 <= i < |quantities| :: quantities[i] > 0.0
  }

  ghost predicate Below(values: seq<real>, others: seq<real>) {
    |values| == |others| && forall i | 0 <= i < |values| :: values[i] <= others[i]
  }

  // ---------------------------------------------------------------- sums of costs

  function Sum(costs: seq<real>, from: nat, end: nat): real
    requires from <= end <= |costs|
    decreases end
  {
    if from == end then 0.0 else Sum(costs, from, end - 1) + costs[end - 1]
  }

  // The sum over every fill but one.
  function SumExcept(costs: seq<real>, index: nat): real
    requires index < |costs|
  {
    Sum(costs, 0, index) + Sum(costs, index + 1, |costs|)
  }

  lemma SumSplit(costs: seq<real>, from: nat, middle: nat, end: nat)
    requires from <= middle <= end <= |costs|
    ensures Sum(costs, from, end) == Sum(costs, from, middle) + Sum(costs, middle, end)
    decreases end
  {
    if middle < end {
      SumSplit(costs, from, middle, end - 1);
    }
  }

  lemma SumMonotone(costs: seq<real>, others: seq<real>, from: nat, end: nat)
    requires from <= end <= |costs| == |others|
    requires forall i | from <= i < end :: costs[i] <= others[i]
    ensures Sum(costs, from, end) <= Sum(others, from, end)
    decreases end
  {
    if from < end {
      SumMonotone(costs, others, from, end - 1);
    }
  }

  lemma ExceptOne(costs: seq<real>, index: nat)
    requires index < |costs|
    ensures Sum(costs, 0, |costs|) == SumExcept(costs, index) + costs[index]
  {
    SumSplit(costs, 0, index, |costs|);
    SumSplit(costs, index, index + 1, |costs|);
  }

  lemma ExceptMonotone(costs: seq<real>, others: seq<real>, index: nat)
    requires index < |costs| && Below(costs, others)
    ensures SumExcept(costs, index) <= SumExcept(others, index)
  {
    SumMonotone(costs, others, 0, index);
    SumMonotone(costs, others, index + 1, |costs|);
  }

  // A point of the segment from x to y.
  function Blend(x: seq<real>, y: seq<real>, t: real): (z: seq<real>)
    requires |x| == |y|
  {
    seq(|x|, i requires 0 <= i < |x| => x[i] + t * (y[i] - x[i]))
  }

  lemma SumBlend(x: seq<real>, y: seq<real>, t: real, from: nat, end: nat)
    requires from <= end <= |x| == |y|
    ensures Sum(Blend(x, y, t), from, end) == Sum(x, from, end) + t * (Sum(y, from, end) - Sum(x, from, end))
    decreases end
  {
    if from < end {
      SumBlend(x, y, t, from, end - 1);
    }
  }

  lemma Fraction(a: real, b: real, target: real) returns (t: real)
    requires a <= target <= b
    ensures 0.0 <= t <= 1.0 && a + t * (b - a) == target
  {
    t := if a == b then 0.0 else (target - a) / (b - a);
    if a < b {
      Quotient(target - a, b - a, 0.0);
      Quotient(target - a, b - a, 1.0);
      Undo(b - a, target - a);
    }
  }

  // Every partial total between those of two ordered vectors is reached between them.
  lemma Between(x: seq<real>, y: seq<real>, from: nat, end: nat, target: real) returns (z: seq<real>)
    requires from <= end <= |x| && Below(x, y)
    requires Sum(x, from, end) <= target <= Sum(y, from, end)
    ensures Below(x, z) && Below(z, y) && Sum(z, from, end) == target
  {
    var t := Fraction(Sum(x, from, end), Sum(y, from, end), target);
    z := Blend(x, y, t);
    forall i | 0 <= i < |x| ensures x[i] <= z[i] <= y[i] {
      MulMono(y[i] - x[i], 0.0, t);
      MulMono(y[i] - x[i], t, 1.0);
    }
    SumBlend(x, y, t, from, end);
  }

  lemma SumAgree(costs: seq<real>, others: seq<real>, from: nat, end: nat)
    requires from <= end <= |costs| == |others|
    requires forall i | from <= i < end :: costs[i] == others[i]
    ensures Sum(costs, from, end) == Sum(others, from, end)
    decreases end
  {
    if from < end {
      SumAgree(costs, others, from, end - 1);
    }
  }

  // ---------------------------------------------------------------- feasible costs

  ghost predicate FeasibleCosts(costs: seq<real>, lows: seq<real>, highs: seq<real>, target: real) {
    Below(lows, costs) && Below(costs, highs) && Sum(costs, 0, |costs|) == target
  }

  lemma CostIsBounded(costs: seq<real>, index: nat, lows: seq<real>, highs: seq<real>, target: real)
    requires FeasibleCosts(costs, lows, highs, target) && index < |costs|
    ensures target - SumExcept(highs, index) <= costs[index] <= target - SumExcept(lows, index)
  {
    ExceptOne(costs, index);
    ExceptMonotone(costs, highs, index);
    ExceptMonotone(lows, costs, index);
  }

  // Any cost of one fill that leaves a reachable remainder belongs to a feasible vector.
  lemma CostIsReached(cost: real, index: nat, lows: seq<real>, highs: seq<real>, target: real)
    returns (costs: seq<real>)
    requires index < |lows| && Below(lows, highs)
    requires lows[index] <= cost <= highs[index]
    requires target - SumExcept(highs, index) <= cost <= target - SumExcept(lows, index)
    ensures FeasibleCosts(costs, lows, highs, target) && costs[index] == cost
  {
    var x, y := lows[index := cost], highs[index := cost];
    SumAgree(x, lows, 0, index);
    SumAgree(x, lows, index + 1, |lows|);
    SumAgree(y, highs, 0, index);
    SumAgree(y, highs, index + 1, |highs|);
    ExceptOne(x, index);
    ExceptOne(y, index);
    costs := Between(x, y, 0, |x|, target);
  }

  // The same for the total of the first k fills.
  lemma PrefixIsReached(total: real, k: nat, lows: seq<real>, highs: seq<real>, target: real) returns (costs: seq<real>)
    requires k <= |lows| && Below(lows, highs)
    requires Sum(lows, 0, k) <= total <= Sum(highs, 0, k)
    requires Sum(lows, k, |lows|) <= target - total <= Sum(highs, k, |highs|)
    ensures FeasibleCosts(costs, lows, highs, target) && Sum(costs, 0, k) == total
  {
    var front := Between(lows, highs, 0, k, total);
    var back := Between(lows, highs, k, |lows|, target - total);
    costs := front[..k] + back[k..];
    SumAgree(costs, front, 0, k);
    SumAgree(costs, back, k, |costs|);
    SumSplit(costs, 0, k, |costs|);
  }

  // ---------------------------------------------------------------- prices and costs

  function Costs(quantities: seq<real>, prices: seq<real>): (costs: seq<real>)
    requires |quantities| == |prices|
  {
    seq(|prices|, i requires 0 <= i < |prices| => Product(quantities[i], prices[i]))
  }

  function Prices(quantities: seq<real>, costs: seq<real>): (prices: seq<real>)
    requires |quantities| == |costs| && Positive(quantities)
  {
    seq(|costs|, i requires 0 <= i < |costs| => costs[i] / quantities[i])
  }

  lemma PricesOfCosts(quantities: seq<real>, costs: seq<real>)
    requires |quantities| == |costs| && Positive(quantities)
    ensures Costs(quantities, Prices(quantities, costs)) == costs
  {
    forall i | 0 <= i < |costs| ensures Costs(quantities, Prices(quantities, costs))[i] == costs[i] {
      Undo(quantities[i], costs[i]);
    }
  }

  lemma BelowInCosts(quantities: seq<real>, prices: seq<real>, others: seq<real>)
    requires |quantities| == |prices| == |others| && Positive(quantities)
    ensures Below(prices, others) <==> Below(Costs(quantities, prices), Costs(quantities, others))
  {
    forall i | 0 <= i < |prices|
      ensures prices[i] <= others[i] <==> Costs(quantities, prices)[i] <= Costs(quantities, others)[i]
    {
      Scale(quantities[i], prices[i], others[i]);
    }
  }

  // The price vectors the cycle could have filled at: inside every range, with the
  // exported weighted average (target is the average times the total quantity).
  ghost predicate Feasible(prices: seq<real>, quantities: seq<real>, lows: seq<real>, highs: seq<real>, target: real)
    requires |lows| == |highs| == |quantities|
  {
    && |prices| == |quantities|
    && Below(lows, prices) && Below(prices, highs)
    && Sum(Costs(quantities, prices), 0, |prices|) == target
  }

  lemma FeasibleInCosts(prices: seq<real>, quantities: seq<real>, lows: seq<real>, highs: seq<real>, target: real)
    requires |lows| == |highs| == |quantities| == |prices| && Positive(quantities)
    ensures Feasible(prices, quantities, lows, highs, target)
            <==> FeasibleCosts(Costs(quantities, prices), Costs(quantities, lows), Costs(quantities, highs), target)
  {
    BelowInCosts(quantities, lows, prices);
    BelowInCosts(quantities, prices, highs);
  }

  lemma FeasiblePrices(costs: seq<real>, quantities: seq<real>, lows: seq<real>, highs: seq<real>, target: real)
    requires |lows| == |highs| == |quantities| && Positive(quantities)
    requires FeasibleCosts(costs, Costs(quantities, lows), Costs(quantities, highs), target)
    ensures Feasible(Prices(quantities, costs), quantities, lows, highs, target)
  {
    PricesOfCosts(quantities, costs);
    FeasibleInCosts(Prices(quantities, costs), quantities, lows, highs, target);
  }

  // Some price vector is feasible exactly when the target lies between the extreme totals.
  lemma FeasibleExactly(quantities: seq<real>, lows: seq<real>, highs: seq<real>, target: real)
    requires |quantities| == |lows| && Positive(quantities) && Below(lows, highs)
    ensures (exists prices :: Feasible(prices, quantities, lows, highs, target))
            <==> Sum(Costs(quantities, lows), 0, |lows|) <= target <= Sum(Costs(quantities, highs), 0, |highs|)
  {
    var costLows, costHighs := Costs(quantities, lows), Costs(quantities, highs);
    BelowInCosts(quantities, lows, highs);
    if Sum(costLows, 0, |lows|) <= target <= Sum(costHighs, 0, |highs|) {
      var costs := Between(costLows, costHighs, 0, |lows|, target);
      FeasiblePrices(costs, quantities, lows, highs, target);
    }
    forall prices | Feasible(prices, quantities, lows, highs, target)
      ensures Sum(costLows, 0, |lows|) <= target <= Sum(costHighs, 0, |highs|)
    {
      FeasibleInCosts(prices, quantities, lows, highs, target);
      SumMonotone(costLows, Costs(quantities, prices), 0, |lows|);
      SumMonotone(Costs(quantities, prices), costHighs, 0, |lows|);
    }
  }

  // ---------------------------------------------------------------- one fill

  // The range of fill `index`: no feasible vector leaves it, and some feasible vector reaches each end.
  ghost predicate Tight(range: Range, index: nat, quantities: seq<real>, lows: seq<real>, highs: seq<real>,
                        target: real)
    requires |lows| == |highs| == |quantities| && index < |quantities|
  {
    && (forall prices | Feasible(prices, quantities, lows, highs, target) :: range.low <= prices[index] <= range.high)
    && (exists prices :: Feasible(prices, quantities, lows, highs, target) && prices[index] == range.low)
    && (exists prices :: Feasible(prices, quantities, lows, highs, target) && prices[index] == range.high)
  }

  // The narrowed range of one fill, from the totals of the other fills.
  function Narrow(ownLow: real, ownHigh: real, exceptLow: real, exceptHigh: real, target: real, quantity: real): Range
    requires quantity > 0.0
  {
    Range(Max(ownLow, (target - exceptHigh) / quantity), Min(ownHigh, (target - exceptLow) / quantity))
  }

  function Narrowed(index: nat, quantities: seq<real>, lows: seq<real>, highs: seq<real>, target: real): Range
    requires |lows| == |highs| == |quantities| && index < |quantities| && Positive(quantities)
  {
    Narrow(lows[index], highs[index], SumExcept(Costs(quantities, lows), index),
           SumExcept(Costs(quantities, highs), index), target, quantities[index])
  }

  // A price is in the narrowed range exactly when its cost is in its own range and leaves
  // the others a remainder between their extremes.
  lemma InNarrow(ownLow: real, ownHigh: real, exceptLow: real, exceptHigh: real, target: real, quantity: real,
                 price: real, cost: real)
    requires quantity > 0.0 && cost == Product(quantity, price)
    ensures var range := Narrow(ownLow, ownHigh, exceptLow, exceptHigh, target, quantity);
            range.low <= price <= range.high
            <==> ownLow <= price <= ownHigh && target - exceptHigh <= cost <= target - exceptLow
  {
    Quotient(target - exceptHigh, quantity, price);
    Quotient(target - exceptLow, quantity, price);
  }

  // The target misses the span of the two extreme totals by at most `allowance`.
  predicate WithinSlack(lowest: real, highest: real, target: real, allowance: real) {
    lowest - target <= allowance && target - highest <= allowance
  }

  // The narrowed bounds cross by at most `slack` exactly when the target misses the
  // extreme totals by at most `slack` times this quantity.
  lemma NarrowGap(ownLow: real, ownHigh: real, exceptLow: real, exceptHigh: real, target: real, quantity: real,
                  slack: real, costLow: real, costHigh: real)
    requires quantity > 0.0 && ownLow <= ownHigh && exceptLow <= exceptHigh && 0.0 <= slack
    requires costLow == Product(quantity, ownLow) && costHigh == Product(quantity, ownHigh)
    ensures var range := Narrow(ownLow, ownHigh, exceptLow, exceptHigh, target, quantity);
            range.low - range.high <= slack
            <==> WithinSlack(exceptLow + costLow, exceptHigh + costHigh, target, Product(quantity, slack))
  {
    var fromHigh, fromLow := (target - exceptHigh) / quantity, (target - exceptLow) / quantity;
    Quotient(target - exceptHigh, quantity, ownHigh + slack);
    Quotient(target - exceptLow, quantity, ownLow - slack);
    Quotient(target - exceptHigh, quantity, fromLow);
    Undo(quantity, target - exceptLow);
    Distribute(quantity, ownHigh, slack);
    Distribute(quantity, ownLow, slack);
  }

  lemma GapInCosts(index: nat, costLows: seq<real>, costHighs: seq<real>, low: real, high: real, target: real,
                   quantity: real, slack: real)
    requires index < |costLows| && Below(costLows, costHighs)
    requires quantity > 0.0 && low <= high && 0.0 <= slack
    requires costLows[index] == Product(quantity, low) && costHighs[index] == Product(quantity, high)
    ensures var range := Narrow(low, high, SumExcept(costLows, index), SumExcept(costHighs, index), target, quantity);
            range.low - range.high <= slack
            <==> WithinSlack(Sum(costLows, 0, |costLows|), Sum(costHighs, 0, |costHighs|), target,
                             Product(quantity, slack))
  {
    ExceptOne(costLows, index);
    ExceptOne(costHighs, index);
    ExceptMonotone(costLows, costHighs, index);
    NarrowGap(low, high, SumExcept(costLows, index), SumExcept(costHighs, index), target, quantity, slack,
              costLows[index], costHighs[index]);
  }

  // How far the narrowed bounds of one fill cross, in terms of the whole cycle.
  lemma NarrowedGap(index: nat, quantities: seq<real>, lows: seq<real>, highs: seq<real>, target: real, slack: real)
    requires |lows| == |highs| == |quantities| && index < |quantities| && Positive(quantities) && Below(lows, highs)
    requires 0.0 <= slack
    ensures var range := Narrowed(index, quantities, lows, highs, target);
            range.low - range.high <= slack
            <==> WithinSlack(Sum(Costs(quantities, lows), 0, |lows|), Sum(Costs(quantities, highs), 0, |highs|),
                             target, Product(quantities[index], slack))
  {
    BelowInCosts(quantities, lows, highs);
    assert Costs(quantities, lows)[index] == Product(quantities[index], lows[index]);
    assert Costs(quantities, highs)[index] == Product(quantities[index], highs[index]);
    GapInCosts(index, Costs(quantities, lows), Costs(quantities, highs), lows[index], highs[index],
               target, quantities[index], slack);
  }

  lemma NarrowedIsSound(prices: seq<real>, index: nat, quantities: seq<real>, lows: seq<real>, highs: seq<real>,
                        target: real)
    requires |lows| == |highs| == |quantities| && index < |quantities| && Positive(quantities)
    requires Feasible(prices, quantities, lows, highs, target)
    ensures Narrowed(index, quantities, lows, highs, target).low <= prices[index]
            <= Narrowed(index, quantities, lows, highs, target).high
  {
    var costLows, costHighs, costs := Costs(quantities, lows), Costs(quantities, highs), Costs(quantities, prices);
    FeasibleInCosts(prices, quantities, lows, highs, target);
    CostIsBounded(costs, index, costLows, costHighs, target);
    InNarrow(lows[index], highs[index], SumExcept(costLows, index), SumExcept(costHighs, index),
             target, quantities[index], prices[index], costs[index]);
  }

  // A price whose cost is reached by a feasible cost vector is reached by a feasible price vector.
  lemma PriceOfCost(costs: seq<real>, price: real, index: nat, quantities: seq<real>, lows: seq<real>, highs: seq<real>,
                    target: real)
    returns (prices: seq<real>)
    requires |lows| == |highs| == |quantities| && index < |quantities| && Positive(quantities)
    requires FeasibleCosts(costs, Costs(quantities, lows), Costs(quantities, highs), target)
    requires costs[index] == Product(quantities[index], price)
    ensures Feasible(prices, quantities, lows, highs, target) && prices[index] == price
  {
    FeasiblePrices(costs, quantities, lows, highs, target);
    prices := Prices(quantities, costs);
    Undo(quantities[index], price);
  }

  lemma NarrowedIsReached(price: real, index: nat, quantities: seq<real>, lows: seq<real>, highs: seq<real>,
                          target: real)
    returns (prices: seq<real>)
    requires |lows| == |highs| == |quantities| && index < |quantities| && Positive(quantities) && Below(lows, highs)
    requires Narrowed(index, quantities, lows, highs, target).low <= price
             <= Narrowed(index, quantities, lows, highs, target).high
    ensures Feasible(prices, quantities, lows, highs, target) && prices[index] == price
  {
    var costLows, costHighs, cost := Costs(quantities, lows), Costs(quantities, highs),
                                     Product(quantities[index], price);
    BelowInCosts(quantities, lows, highs);
    InNarrow(lows[index], highs[index], SumExcept(costLows, index), SumExcept(costHighs, index),
             target, quantities[index], price, cost);
    assert costLows[index] <= cost <= costHighs[index] by {
      Scale(quantities[index], lows[index], price);
      Scale(quantities[index], price, highs[index]);
    }
    var costs := CostIsReached(cost, index, costLows, costHighs, target);
    prices := PriceOfCost(costs, price, index, quantities, lows, highs, target);
  }

  lemma {:induction false} NarrowedIsTight(index: nat, quantities: seq<real>, lows: seq<real>, highs: seq<real>,
                                           target: real)
    requires |lows| == |highs| == |quantities| && index < |quantities| && Positive(quantities) && Below(lows, highs)
    requires Sum(Costs(quantities, lows), 0, |lows|) <= target <= Sum(Costs(quantities, highs), 0, |highs|)
    ensures Tight(Narrowed(index, quantities, lows, highs, target), index, quantities, lows, highs, target)
    ensures Narrowed(index, quantities, lows, highs, target).low
            <= Narrowed(index, quantities, lows, highs, target).high
  {
    var range := Narrowed(index, quantities, lows, highs, target);
    forall prices | Feasible(prices, quantities, lows, highs, target) ensures range.low <= prices[index] <= range.high {
      NarrowedIsSound(prices, index, quantities, lows, highs, target);
    }
    NarrowedGap(index, quantities, lows, highs, target, 0.0);
    var atLow := NarrowedIsReached(range.low, index, quantities, lows, highs, target);
    var atHigh := NarrowedIsReached(range.high, index, quantities, lows, highs, target);
    assert Feasible(atLow, quantities, lows, highs, target) && Feasible(atHigh, quantities, lows, highs, target);
  }

  // ---------------------------------------------------------------- the whole cycle

  function NarrowedLows(quantities: seq<real>, lows: seq<real>, highs: seq<real>, target: real): seq<real>
    requires |lows| == |highs| == |quantities| && Positive(quantities)
  {
    seq(|lows|, i requires 0 <= i < |lows| => Narrowed(i, quantities, lows, highs, target).low)
  }

  function NarrowedHighs(quantities: seq<real>, lows: seq<real>, highs: seq<real>, target: real): seq<real>
    requires |lows| == |highs| == |quantities| && Positive(quantities)
  {
    seq(|lows|, i requires 0 <= i < |lows| => Narrowed(i, quantities, lows, highs, target).high)
  }

  // The total cost of the first k fills: the smallest the code derives from the narrowed ranges.
  function PriorLow(k: nat, quantities: seq<real>, lows: seq<real>, highs: seq<real>, target: real): real
    requires k <= |lows| == |highs| == |quantities|
  {
    Max(Sum(Costs(quantities, lows), 0, k), target - Sum(Costs(quantities, highs), k, |highs|))
  }

  function PriorHigh(k: nat, quantities: seq<real>, lows: seq<real>, highs: seq<real>, target: real): real
    requires k <= |lows| == |highs| == |quantities|
  {
    Min(Sum(Costs(quantities, highs), 0, k), target - Sum(Costs(quantities, lows), k, |lows|))
  }

  function PriorAverage(prices: seq<real>, quantities: seq<real>, k: nat): real
    requires 0 < k <= |prices| == |quantities| && Positive(quantities)
  {
    SumPositive(quantities, 0, k);
    Sum(Costs(quantities, prices), 0, k) / Sum(quantities, 0, k)
  }

  // The drop of fill k below the average of the fills before it, in percent.
  function Drop(price: real, average: real): real
    requires average != 0.0
  {
    (1.0 - price / average) * 100.0
  }

  lemma SumPositive(quantities: seq<real>, from: nat, end: nat)
    requires from < end <= |quantities| && Positive(quantities)
    ensures Sum(quantities, from, end) > 0.0
    decreases end
  {
    if from < end - 1 {
      SumPositive(quantities, from, end - 1);
    }
  }

  lemma PriorIsSound(prices: seq<real>, k: nat, quantities: seq<real>, lows: seq<real>, highs: seq<real>, target: real)
    requires k <= |lows| == |highs| == |quantities| && Positive(quantities)
    requires Feasible(prices, quantities, lows, highs, target)
    ensures PriorLow(k, quantities, lows, highs, target) <= Sum(Costs(quantities, prices), 0, k)
            <= PriorHigh(k, quantities, lows, highs, target)
  {
    var costs := Costs(quantities, prices);
    FeasibleInCosts(prices, quantities, lows, highs, target);
    SumSplit(costs, 0, k, |costs|);
    SumMonotone(Costs(quantities, lows), costs, 0, k);
    SumMonotone(costs, Costs(quantities, highs), 0, k);
    SumMonotone(Costs(quantities, lows), costs, k, |costs|);
    SumMonotone(costs, Costs(quantities, highs), k, |costs|);
  }

  // Both ends of the prior total are reached by feasible vectors.
  lemma PriorIsReached(total: real, k: nat, quantities: seq<real>, lows: seq<real>, highs: seq<real>, target: real)
    returns (prices: seq<real>)
    requires k <= |lows| == |highs| == |quantities| && Positive(quantities) && Below(lows, highs)
    requires Sum(Costs(quantities, lows), 0, |lows|) <= target <= Sum(Costs(quantities, highs), 0, |highs|)
    requires total == PriorLow(k, quantities, lows, highs, target)
             || total == PriorHigh(k, quantities, lows, highs, target)
    ensures Feasible(prices, quantities, lows, highs, target) && Sum(Costs(quantities, prices), 0, k) == total
  {
    var costLows, costHighs := Costs(quantities, lows), Costs(quantities, highs);
    BelowInCosts(quantities, lows, highs);
    SumSplit(costLows, 0, k, |lows|);
    SumSplit(costHighs, 0, k, |highs|);
    SumMonotone(costLows, costHighs, 0, k);
    SumMonotone(costLows, costHighs, k, |lows|);
    var costs := PrefixIsReached(total, k, costLows, costHighs, target);
    FeasiblePrices(costs, quantities, lows, highs, target);
    prices := Prices(quantities, costs);
    PricesOfCosts(quantities, costs);
  }

  lemma NarrowedBox(quantities: seq<real>, lows: seq<real>, highs: seq<real>, target: real)
    requires |lows| == |highs| == |quantities| && Positive(quantities)
    ensures Below(lows, NarrowedLows(quantities, lows, highs, target))
    ensures Below(NarrowedHighs(quantities, lows, highs, target), highs)
    ensures forall prices | Feasible(prices, quantities, lows, highs, target) ::
              Feasible(prices, quantities, NarrowedLows(quantities, lows, highs, target),
                       NarrowedHighs(quantities, lows, highs, target), target)
  {
    forall prices | Feasible(prices, quantities, lows, highs, target)
      ensures Feasible(prices, quantities, NarrowedLows(quantities, lows, highs, target),
                       NarrowedHighs(quantities, lows, highs, target), target)
    {
      forall i | 0 <= i < |prices|
        ensures NarrowedLows(quantities, lows, highs, target)[i] <= prices[i]
                <= NarrowedHighs(quantities, lows, highs, target)[i]
      {
        NarrowedIsSound(prices, i, quantities, lows, highs, target);
      }
    }
  }

  // Narrowing the single fills first does not widen or shrink what is known of the prior total.
  lemma {:induction false} PriorOfNarrowed(k: nat, quantities: seq<real>, lows: seq<real>, highs: seq<real>,
                                           target: real)
    requires k <= |lows| == |highs| == |quantities| && Positive(quantities) && Below(lows, highs)
    requires Sum(Costs(quantities, lows), 0, |lows|) <= target <= Sum(Costs(quantities, highs), 0, |highs|)
    ensures var nl, nh := NarrowedLows(quantities, lows, highs, target), NarrowedHighs(quantities, lows, highs, target);
            PriorLow(k, quantities, nl, nh, target) == PriorLow(k, quantities, lows, highs, target)
            && PriorHigh(k, quantities, nl, nh, target) == PriorHigh(k, quantities, lows, highs, target)
  {
    var nl, nh := NarrowedLows(quantities, lows, highs, target), NarrowedHighs(quantities, lows, highs, target);
    NarrowedBox(quantities, lows, highs, target);
    BelowInCosts(quantities, lows, nl);
    BelowInCosts(quantities, nh, highs);
    SumMonotone(Costs(quantities, lows), Costs(quantities, nl), 0, k);
    SumMonotone(Costs(quantities, lows), Costs(quantities, nl), k, |lows|);
    SumMonotone(Costs(quantities, nh), Costs(quantities, highs), 0, k);
    SumMonotone(Costs(quantities, nh), Costs(quantities, highs), k, |lows|);
    var atLow := PriorIsReached(PriorLow(k, quantities, lows, highs, target), k, quantities, lows, highs, target);
    var atHigh := PriorIsReached(PriorHigh(k, quantities, lows, highs, target), k, quantities, lows, highs, target);
    PriorIsSound(atLow, k, quantities, nl, nh, target);
    PriorIsSound(atHigh, k, quantities, nl, nh, target);
  }

  // The drop bounds derived from price and average bounds hold for positive prices and averages.
  lemma DropIsBounded(price: real, average: real, fill: Range, averages: Range)
    requires 0.0 < price && fill.low <= price <= fill.high
    requires 0.0 < averages.low <= average <= averages.high
    ensures Drop(fill.high, averages.low) <= Drop(price, average) <= Drop(fill.low, averages.high)
  {
    assert price / average <= fill.high / averages.low by {
      Quotient(price, average, fill.high / averages.low);
      Quotient(fill.high, averages.low, fill.high / averages.low);
      Undo(averages.low, fill.high);
      MulMono(fill.high / averages.low, averages.low, average);
    }
    assert fill.low / averages.high <= price / average by {
      Quotient(fill.low, averages.high, price / average);
      Undo(average, price);
      MulMono(price / average, average, averages.high);
    }
  }

  // With a negative lower average bound the lower drop bound exceeds every true drop.
  lemma DropExceeded(price: real, average: real, fill: Range, averageLow: real)
    requires 0.0 < price <= fill.high && 0.0 < average && averageLow < 0.0
    ensures Drop(price, average) < Drop(fill.high, averageLow)
  {
    assert price / average > 0.0 by {
      Undo(average, price);
      Quotient(price, average, 0.0);
    }
    assert fill.high / averageLow < 0.0 by {
      var r := fill.high / averageLow;
      Undo(averageLow, fill.high);
      if r >= 0.0 {
        MulMono(r, averageLow, 0.0);
      }
    }
  }

  // ---------------------------------------------------------------- the algorithm

  // Crossings of at most this much are taken for float noise.
  const NOISE: real := 0.000000001

  // A range that crosses by no more than the noise collapses to its middle.
  function Snapped(range: Range): Range {
    if range.low > range.high && range.low - range.high <= NOISE
    then Range((range.low + range.high) / 2.0, (range.low + range.high) / 2.0)
    else range
  }

  datatype Evidence = Evidence(
    level: nat, quantityMultiplier: real, fill: Range, averages: Range,
    dropLow: real, dropHigh: real, dropMidpoint: real)

  datatype BoundsError = MissingCandle | Infeasible | DivisionByZero

  function Widened(candles: seq<Range>, tolerance: real): (seq<real>, seq<real>) {
    (seq(|candles|, i requires 0 <= i < |candles| => candles[i].low - tolerance),
     seq(|candles|, i requires 0 <= i < |candles| => candles[i].high + tolerance))
  }

  function LowEnds(ranges: seq<Range>): seq<real> {
    seq(|ranges|, i requires 0 <= i < |ranges| => ranges[i].low)
  }

  function HighEnds(ranges: seq<Range>): seq<real> {
    seq(|ranges|, i requires 0 <= i < |ranges| => ranges[i].high)
  }

  ghost predicate Spans(quantities: seq<real>, lows: seq<real>, highs: seq<real>, target: real)
    requires |lows| == |highs| == |quantities|
  {
    Sum(Costs(quantities, lows), 0, |lows|) <= target <= Sum(Costs(quantities, highs), 0, |highs|)
  }

  ghost predicate DropsHold(e: Evidence, prices: seq<real>, quantities: seq<real>, k: nat)
    requires 0 < k < |prices| == |quantities| && Positive(quantities) && PriorAverage(prices, quantities, k) != 0.0
  {
    e.dropLow <= Drop(prices[k], PriorAverage(prices, quantities, k)) <= e.dropHigh
  }

  // Some feasible vector has a positive price at level k and a positive average before it.
  ghost predicate PositiveVectorExists(quantities: seq<real>, lows: seq<real>, highs: seq<real>, target: real, k: nat)
    requires |lows| == |highs| == |quantities| && 0 < k < |quantities| && Positive(quantities)
  {
    exists prices ::
      Feasible(prices, quantities, lows, highs, target) && prices[k] > 0.0 && PriorAverage(prices, quantities, k) > 0.0
  }

  // What the evidence of level k says of the feasible price vectors: fill and prior-average bounds
  // that hold of all of them and are reached; and drop bounds that hold of all positive ones
  // exactly when the least prior total is positive, or there are none.
  ghost predicate ExactEvidence(e: Evidence, k: nat, quantities: seq<real>, lows: seq<real>, highs: seq<real>,
                                target: real)
    requires |lows| == |highs| == |quantities| && 0 < k < |quantities| && Positive(quantities)
  {
    && e.level == k
    && Tight(e.fill, k, quantities, lows, highs, target)
    && (forall prices | Feasible(prices, quantities, lows, highs, target) ::
          e.averages.low <= PriorAverage(prices, quantities, k) <= e.averages.high)
    && (exists prices ::
          Feasible(prices, quantities, lows, highs, target) && PriorAverage(prices, quantities, k) == e.averages.low)
    && (exists prices ::
          Feasible(prices, quantities, lows, highs, target) && PriorAverage(prices, quantities, k) == e.averages.high)
    && (PositiveVectorExists(quantities, lows, highs, target, k) ==>
          (AllDropsHold(e, k, quantities, lows, highs, target) <==> PriorLow(k, quantities, lows, highs, target) > 0.0))
  }

  // The drops in percent, from the extreme and from the middle prices and averages.
  ghost predicate DropsAreThoseOfTheRanges(e: Evidence) {
    && e.averages.low != 0.0 && e.averages.high != 0.0 && e.averages.low + e.averages.high != 0.0
    && e.dropLow == 100.0 - 100.0 * (e.fill.high / e.averages.low)
    && e.dropHigh == 100.0 - 100.0 * (e.fill.low / e.averages.high)
    && e.dropMidpoint
       == 100.0 - 100.0 * (((e.fill.low + e.fill.high) / 2.0) / ((e.averages.low + e.averages.high) / 2.0))
  }

  ghost predicate AllDropsHold(e: Evidence, k: nat, quantities: seq<real>, lows: seq<real>, highs: seq<real>,
                               target: real)
    requires |lows| == |highs| == |quantities| && 0 < k < |quantities| && Positive(quantities)
  {
    forall prices | Feasible(prices, quantities, lows, highs, target) && prices[k] > 0.0
                    && PriorAverage(prices, quantities, k) > 0.0 ::
      DropsHold(e, prices, quantities, k)
  }

  // The target misses the extreme totals by no more than the noise allowance of every fill.
  ghost predicate NearlySpans(quantities: seq<real>, lows: seq<real>, highs: seq<real>, target: real)
    requires |lows| == |highs| == |quantities|
  {
    forall i | 0 <= i < |quantities| ::
      WithinSlack(Sum(Costs(quantities, lows), 0, |lows|), Sum(Costs(quantities, highs), 0, |highs|), target,
                  Product(quantities[i], NOISE))
  }

  function SnappedRanges(quantities: seq<real>, lows: seq<real>, highs: seq<real>, target: real): seq<Range>
    requires |lows| == |highs| == |quantities| && Positive(quantities)
  {
    seq(|quantities|, i requires 0 <= i < |quantities| => Snapped(Narrowed(i, quantities, lows, highs, target)))
  }

  // The narrowing loop. It refuses exactly when the target misses the extreme totals by
  // more than the noise allowance of some fill.
  method Tighten(quantities: seq<real>, lows: seq<real>, highs: seq<real>, target: real) returns (r: Option<seq<Range>>)
    requires |lows| == |highs| == |quantities| && Positive(quantities) && Below(lows, highs)
    ensures r == None <==> !NearlySpans(quantities, lows, highs, target)
    ensures r.Some? ==> r.value == SnappedRanges(quantities, lows, highs, target)
  {
    ghost var lowest, highest := Sum(Costs(quantities, lows), 0, |lows|), Sum(Costs(quantities, highs), 0, |highs|);
    var tightened: seq<Range> := [];
    for index := 0 to |quantities|
      invariant |tightened| == index
      invariant forall i | 0 <= i < index :: WithinSlack(lowest, highest, target, Product(quantities[i], NOISE))
      invariant forall i | 0 <= i < index :: tightened[i] == Snapped(Narrowed(i, quantities, lows, highs, target))
    {
      var range := Narrowed(index, quantities, lows, highs, target);
      NarrowedGap(index, quantities, lows, highs, target, NOISE);
      if range.low > range.high && range.low - range.high <= NOISE {
        var middle := (range.low + range.high) / 2.0;
        range := Range(middle, middle);
      }
      if range.low > range.high {
        return None;
      }
      tightened := tightened + [range];
    }
    r := Some(tightened);
  }

  // For a target inside the extreme totals the returned ranges are the narrowed ones.
  lemma {:induction false} SpannedRangesAreNarrowed(quantities: seq<real>, lows: seq<real>, highs: seq<real>,
                                                    target: real)
    requires |lows| == |highs| == |quantities| && Positive(quantities) && Below(lows, highs)
    requires Spans(quantities, lows, highs, target)
    ensures NearlySpans(quantities, lows, highs, target)
    ensures LowEnds(SnappedRanges(quantities, lows, highs, target)) == NarrowedLows(quantities, lows, highs, target)
    ensures HighEnds(SnappedRanges(quantities, lows, highs, target)) == NarrowedHighs(quantities, lows, highs, target)
  {
    forall i | 0 <= i < |quantities|
      ensures Snapped(Narrowed(i, quantities, lows, highs, target)) == Narrowed(i, quantities, lows, highs, target)
    {
      NarrowedGap(i, quantities, lows, highs, target, 0.0);
      assert Product(quantities[i], 0.0) == 0.0;
    }
    forall i | 0 <= i < |quantities| ensures Product(quantities[i], NOISE) >= 0.0 {
      MulMonoStrict(quantities[i], 0.0, NOISE);
    }
  }

  // For a target outside them by no more than the noise every range is a single point, half the
  // miss beyond the end of the candle that lies on the target's side.
  lemma {:induction false} NoiseCollapsesRanges(quantities: seq<real>, lows: seq<real>, highs: seq<real>, target: real,
                                                i: nat)
    requires |lows| == |highs| == |quantities| && Positive(quantities) && Below(lows, highs) && i < |quantities|
    requires NearlySpans(quantities, lows, highs, target) && !Spans(quantities, lows, highs, target)
    ensures var range, lowest, highest := SnappedRanges(quantities, lows, highs, target)[i],
                                          Sum(Costs(quantities, lows), 0, |lows|),
                                          Sum(Costs(quantities, highs), 0, |highs|);
            && range.low == range.high
            && (target > highest ==>
                  && range.low == highs[i] + (target - highest) / quantities[i] / 2.0
                  && range.low <= highs[i] + NOISE / 2.0)
            && (target < lowest ==>
                  && range.low == lows[i] - (lowest - target) / quantities[i] / 2.0
                  && lows[i] - NOISE / 2.0 <= range.low)
  {
    var costLows, costHighs := Costs(quantities, lows), Costs(quantities, highs);
    BelowInCosts(quantities, lows, highs);
    ExceptOne(costLows, i);
    ExceptOne(costHighs, i);
    ExceptMonotone(costLows, costHighs, i);
    NarrowedGap(i, quantities, lows, highs, target, NOISE);
    PointBeyond(lows[i], highs[i], SumExcept(costLows, i), SumExcept(costHighs, i), target, quantities[i], costLows[i],
                costHighs[i]);
  }

  lemma PointBeyond(ownLow: real, ownHigh: real, exceptLow: real, exceptHigh: real, target: real, quantity: real,
                    costLow: real, costHigh: real)
    requires quantity > 0.0 && ownLow <= ownHigh && exceptLow <= exceptHigh
    requires costLow == Product(quantity, ownLow) && costHigh == Product(quantity, ownHigh)
    ensures var range := Narrow(ownLow, ownHigh, exceptLow, exceptHigh, target, quantity);
            && (target > exceptHigh + costHigh ==>
                  range == Range(ownHigh + (target - (exceptHigh + costHigh)) / quantity, ownHigh)
                  && range.low > range.high)
            && (target < exceptLow + costLow ==>
                  range == Range(ownLow, ownLow - ((exceptLow + costLow) - target) / quantity)
                  && range.low > range.high)
  {
    var fromHigh, fromLow := (target - exceptHigh) / quantity, (target - exceptLow) / quantity;
    Undo(quantity, ownHigh);
    Undo(quantity, ownLow);
    SumOfQuotients(target - (exceptHigh + costHigh), costHigh, quantity);
    SumOfQuotients(target - (exceptLow + costLow), costLow, quantity);
    assert target - (exceptHigh + costHigh) + costHigh == target - exceptHigh;
    assert target - (exceptLow + costLow) + costLow == target - exceptLow;
    Quotient(target - (exceptHigh + costHigh), quantity, 0.0);
    Quotient(target - (exceptLow + costLow), quantity, 0.0);
    assert Product(quantity, 0.0) == 0.0;
    assert (target - (exceptLow + costLow)) / quantity == -(((exceptLow + costLow) - target) / quantity);
    Quotient(target - exceptHigh, quantity, ownLow);
    Quotient(target - exceptLow, quantity, ownHigh);
    MulMono(quantity, ownLow, ownHigh);
  }

  // Level k cannot be reported: one of the averages the drops divide by is zero.
  predicate DividesByZero(k: nat, quantities: seq<real>, tightened: seq<Range>, target: real)
    requires k < |quantities| == |tightened|
  {
    var low := PriorLow(k, quantities, LowEnds(tightened), HighEnds(tightened), target);
    var high := PriorHigh(k, quantities, LowEnds(tightened), HighEnds(tightened), target);
    low == 0.0 || high == 0.0 || low + high == 0.0
  }

  function LevelEvidence(k: nat, quantities: seq<real>, tightened: seq<Range>,
                         target: real): (r: Result<Evidence, BoundsError>)
    requires 0 < k < |quantities| == |tightened| && Positive(quantities)
  {
    SumPositive(quantities, 0, k);
    var quantity := Sum(quantities, 0, k);
    var averageLow := PriorLow(k, quantities, LowEnds(tightened), HighEnds(tightened), target) / quantity;
    var averageHigh := PriorHigh(k, quantities, LowEnds(tightened), HighEnds(tightened), target) / quantity;
    var fill := tightened[k];
    if averageLow == 0.0 || averageHigh == 0.0 || averageLow + averageHigh == 0.0 then Err(DivisionByZero)
    else Ok(Evidence(k, quantities[k] / quantities[k - 1], fill, Range(averageLow, averageHigh),
                     Drop(fill.high, averageLow), Drop(fill.low, averageHigh),
                     Drop((fill.low + fill.high) / 2.0, (averageLow + averageHigh) / 2.0)))
  }

  // What a level reports, of its ranges and quantities.
  lemma EvidenceFigures(e: Evidence, k: nat, quantities: seq<real>, tightened: seq<Range>, target: real)
    requires 0 < k < |quantities| == |tightened| && Positive(quantities)
    requires LevelEvidence(k, quantities, tightened, target) == Ok(e)
    ensures e.level == k && e.fill == tightened[k] && e.quantityMultiplier == quantities[k] / quantities[k - 1]
    ensures DropsAreThoseOfTheRanges(e)
  {
    SumPositive(quantities, 0, k);
    DropIs(e.fill.high, e.averages.low);
    DropIs(e.fill.low, e.averages.high);
    DropIs((e.fill.low + e.fill.high) / 2.0, (e.averages.low + e.averages.high) / 2.0);
  }

  lemma DropIs(price: real, average: real)
    requires average != 0.0
    ensures Drop(price, average) == 100.0 - 100.0 * (price / average)
  {
  }

  lemma EvidenceUnlessZero(k: nat, quantities: seq<real>, tightened: seq<Range>, target: real)
    requires 0 < k < |quantities| == |tightened| && Positive(quantities)
    ensures LevelEvidence(k, quantities, tightened, target) == Err(DivisionByZero)
            <==> DividesByZero(k, quantities, tightened, target)
    ensures LevelEvidence(k, quantities, tightened, target).Err? ==>
              LevelEvidence(k, quantities, tightened, target) == Err(DivisionByZero)
  {
    SumPositive(quantities, 0, k);
    var quantity := Sum(quantities, 0, k);
    var low := PriorLow(k, quantities, LowEnds(tightened), HighEnds(tightened), target);
    var high := PriorHigh(k, quantities, LowEnds(tightened), HighEnds(tightened), target);
    ZeroQuotient(low, quantity);
    ZeroQuotient(high, quantity);
    ZeroQuotient(low + high, quantity);
    SumOfQuotients(low, high, quantity);
  }

  lemma ZeroQuotient(x: real, q: real)
    requires q > 0.0
    ensures x / q == 0.0 <==> x == 0.0
    ensures x / q > 0.0 <==> x > 0.0
  {
    Undo(q, x);
    Quotient(x, q, 0.0);
    assert Product(q, 0.0) == 0.0;
  }

  // Refused for a missing candle, for an infeasible average, and for a zero average to divide by;
  // otherwise the evidence of every level, exact for a target inside the extreme totals.
  method DeepCycleBounds(quantities: seq<real>, entryCandles: seq<Option<Range>>, averageEntry: real, tolerance: real)
    returns (r: Result<seq<Evidence>, BoundsError>)
    requires |entryCandles| == |quantities| && Positive(quantities) && 0.0 <= tolerance
    requires forall i | 0 <= i < |entryCandles| && entryCandles[i].Some? ::
               entryCandles[i].value.low <= entryCandles[i].value.high
    ensures r == Err(MissingCandle) <==> None in entryCandles
    ensures None !in entryCandles ==>
              var (lows, highs) := Widened(Present(entryCandles), tolerance);
              var target := Product(averageEntry, Sum(quantities, 0, |quantities|));
              var tightened := SnappedRanges(quantities, lows, highs, target);
              && (r == Err(Infeasible) <==> !NearlySpans(quantities, lows, highs, target))
              && (r == Err(DivisionByZero) <==>
                    NearlySpans(quantities, lows, highs, target)
                    && exists k :: 0 < k < |quantities| && DividesByZero(k, quantities, tightened, target))
              && (r.Ok? ==>
                    && |r.value| == MaxInt(|quantities| - 1, 0)
                    && (forall j | 0 <= j < |r.value| ::
                          Ok(r.value[j]) == LevelEvidence(j + 1, quantities, tightened, target))
                    && (Spans(quantities, lows, highs, target) ==>
                          forall j | 0 <= j < |r.value| ::
                            ExactEvidence(r.value[j], j + 1, quantities, lows, highs, target)))
  {
    if None in entryCandles {
      return Err(MissingCandle);
    }
    var (lows, highs) := Widened(Present(entryCandles), tolerance);
    var target := Product(averageEntry, Sum(quantities, 0, |quantities|));
    var narrowed := Tighten(quantities, lows, highs, target);
    if narrowed == None {
      return Err(Infeasible);
    }
    r := LevelsEvidence(quantities, narrowed.value, target);
    if r.Ok? && Spans(quantities, lows, highs, target) {
      forall j | 0 <= j < |r.value| ensures ExactEvidence(r.value[j], j + 1, quantities, lows, highs, target) {
        EvidenceIsExact(r.value[j], j + 1, quantities, lows, highs, target);
      }
    }
  }

  method LevelsEvidence(quantities: seq<real>, tightened: seq<Range>, target: real)
    returns (r: Result<seq<Evidence>, BoundsError>)
    requires |tightened| == |quantities| && Positive(quantities)
    ensures r.Err? <==> exists k :: 0 < k < |quantities| && DividesByZero(k, quantities, tightened, target)
    ensures r.Err? ==> r == Err(DivisionByZero)
    ensures r.Ok? ==> |r.value| == MaxInt(|quantities| - 1, 0)
    ensures r.Ok? ==> forall j | 0 <= j < |r.value| ::
              Ok(r.value[j]) == LevelEvidence(j + 1, quantities, tightened, target)
  {
    var results: seq<Evidence> := [];
    for k := 1 to MaxInt(|quantities|, 1)
      invariant |results| == k - 1
      invariant forall j | 0 <= j < k - 1 :: Ok(results[j]) == LevelEvidence(j + 1, quantities, tightened, target)
      invariant forall j | 0 < j < k :: !DividesByZero(j, quantities, tightened, target)
    {
      var evidence := LevelEvidence(k, quantities, tightened, target);
      EvidenceUnlessZero(k, quantities, tightened, target);
      if evidence.Err? {
        return Err(DivisionByZero);
      }
      results := results + [evidence.value];
    }
    r := Ok(results);
  }

  function Present(candles: seq<Option<Range>>): seq<Range>
    requires None !in candles
  {
    seq(|candles|, i requires 0 <= i < |candles| => candles[i].value)
  }

  // For a target inside the extreme totals the evidence of a level is exact.
  lemma EvidenceIsExact(e: Evidence, k: nat, quantities: seq<real>, lows: seq<real>, highs: seq<real>, target: real)
    requires |lows| == |highs| == |quantities| && 0 < k < |quantities| && Positive(quantities) && Below(lows, highs)
    requires Spans(quantities, lows, highs, target)
    requires LevelEvidence(k, quantities, SnappedRanges(quantities, lows, highs, target), target) == Ok(e)
    ensures ExactEvidence(e, k, quantities, lows, highs, target)
  {
    EvidenceRanges(e, k, quantities, lows, highs, target);
    NarrowedIsTight(k, quantities, lows, highs, target);
    SumPositive(quantities, 0, k);
    AveragesAreExact(e.averages, k, quantities, lows, highs, target);
    if e.averages.low > 0.0 {
      forall prices | Feasible(prices, quantities, lows, highs, target) && prices[k] > 0.0
                      && PriorAverage(prices, quantities, k) > 0.0
        ensures DropsHold(e, prices, quantities, k)
      {
        DropIsBounded(prices[k], PriorAverage(prices, quantities, k), e.fill, e.averages);
      }
    }
    if PositiveVectorExists(quantities, lows, highs, target, k) && e.averages.low <= 0.0 {
      ZeroQuotient(PriorLow(k, quantities, lows, highs, target), Sum(quantities, 0, k));
      var prices :| Feasible(prices, quantities, lows, highs, target) && prices[k] > 0.0
                    && PriorAverage(prices, quantities, k) > 0.0;
      DropExceeded(prices[k], PriorAverage(prices, quantities, k), e.fill, e.averages.low);
      assert !DropsHold(e, prices, quantities, k);
    }
    ZeroQuotient(PriorLow(k, quantities, lows, highs, target), Sum(quantities, 0, k));
  }

  // Where the ranges of a level's evidence come from.
  lemma EvidenceRanges(e: Evidence, k: nat, quantities: seq<real>, lows: seq<real>, highs: seq<real>, target: real)
    requires |lows| == |highs| == |quantities| && 0 < k < |quantities| && Positive(quantities) && Below(lows, highs)
    requires Spans(quantities, lows, highs, target)
    requires LevelEvidence(k, quantities, SnappedRanges(quantities, lows, highs, target), target) == Ok(e)
    ensures e.level == k && e.fill == Narrowed(k, quantities, lows, highs, target)
    ensures Sum(quantities, 0, k) > 0.0
    ensures e.averages == Range(PriorLow(k, quantities, lows, highs, target) / Sum(quantities, 0, k),
                                PriorHigh(k, quantities, lows, highs, target) / Sum(quantities, 0, k))
    ensures e.averages.low != 0.0 && e.averages.high != 0.0
    ensures e.dropLow == Drop(e.fill.high, e.averages.low) && e.dropHigh == Drop(e.fill.low, e.averages.high)
  {
    var tightened := SnappedRanges(quantities, lows, highs, target);
    SpannedRangesAreNarrowed(quantities, lows, highs, target);
    assert tightened[k].low == LowEnds(tightened)[k] && tightened[k].high == HighEnds(tightened)[k];
    PriorOfNarrowed(k, quantities, lows, highs, target);
    SumPositive(quantities, 0, k);
  }

  // A cycle of two equal fills at 0.75, both minutes ranging over [0.5, 1.0], with a tolerance of
  // 1.0: the least prior total is negative, and the reported lower drop bound is 500% although
  // both fills at 0.75 is feasible and drops 0%.
  lemma {:induction false} NegativeAverageBreaksDropBound()
    ensures var quantities, candles := [1.0, 1.0], [Range(0.5, 1.0), Range(0.5, 1.0)];
            var (lows, highs) := Widened(candles, 1.0);
            var target := Product(0.75, Sum(quantities, 0, 2));
            var evidence := LevelEvidence(1, quantities, SnappedRanges(quantities, lows, highs, target), target);
            && Spans(quantities, lows, highs, target)
            && evidence.Ok? && evidence.value.averages.low == -0.5 && evidence.value.dropLow == 500.0
            && PriorLow(1, quantities, lows, highs, target) == -0.5
            && Feasible([0.75, 0.75], quantities, lows, highs, target)
            && PriorAverage([0.75, 0.75], quantities, 1) == 0.75 && Drop(0.75, 0.75) == 0.0
  {
    var quantities, candles := [1.0, 1.0], [Range(0.5, 1.0), Range(0.5, 1.0)];
    var (lows, highs) := Widened(candles, 1.0);
    assert lows == [-0.5, -0.5] && highs == [2.0, 2.0];
    SumOfTwo(quantities);
    var target := Product(0.75, Sum(quantities, 0, 2));
    assert target == 1.5;
    UnitCosts(quantities, lows);
    UnitCosts(quantities, highs);
    UnitCosts(quantities, [0.75, 0.75]);
    UnitNarrowed(quantities, lows, highs, 0);
    UnitNarrowed(quantities, lows, highs, 1);
    var tightened := SnappedRanges(quantities, lows, highs, target);
    assert tightened == [Range(-0.5, 2.0), Range(-0.5, 2.0)];
    assert LowEnds(tightened) == lows && HighEnds(tightened) == highs;
    assert Drop(2.0, -0.5) == 500.0;
  }

  lemma SumOfTwo(values: seq<real>)
    requires |values| == 2
    ensures Sum(values, 0, 1) == values[0] && Sum(values, 1, 2) == values[1]
            && Sum(values, 0, 2) == values[0] + values[1]
  {
    assert Sum(values, 0, 0) == Sum(values, 1, 1) == 0.0;
  }

  lemma UnitCosts(quantities: seq<real>, values: seq<real>)
    requires quantities == [1.0, 1.0] && |values| == 2
    ensures Costs(quantities, values) == values
    ensures Sum(values, 0, 1) == values[0] && Sum(values, 1, 2) == values[1]
            && Sum(values, 0, 2) == values[0] + values[1]
  {
    SumOfTwo(values);
    forall i | 0 <= i < 2 ensures Product(quantities[i], values[i]) == values[i] {
      assert Product(1.0, values[i]) == values[i];
    }
  }

  lemma UnitNarrowed(quantities: seq<real>, lows: seq<real>, highs: seq<real>, i: nat)
    requires quantities == [1.0, 1.0] && lows == [-0.5, -0.5] && highs == [2.0, 2.0] && i < 2
    ensures Narrowed(i, quantities, lows, highs, 1.5) == Range(-0.5, 2.0)
  {
    UnitCosts(quantities, lows);
    UnitCosts(quantities, highs);
    assert Sum(lows, 0, 0) == Sum(lows, 2, 2) == Sum(highs, 0, 0) == Sum(highs, 2, 2) == 0.0;
  }

  lemma AveragesAreExact(averages: Range, k: nat, quantities: seq<real>, lows: seq<real>, highs: seq<real>,
                         target: real)
    requires |lows| == |highs| == |quantities| && 0 < k < |quantities| && Positive(quantities) && Below(lows, highs)
    requires Spans(quantities, lows, highs, target)
    requires Sum(quantities, 0, k) > 0.0
    requires averages == Range(PriorLow(k, quantities, lows, highs, target) / Sum(quantities, 0, k),
                               PriorHigh(k, quantities, lows, highs, target) / Sum(quantities, 0, k))
    ensures forall prices | Feasible(prices, quantities, lows, highs, target) ::
              averages.low <= PriorAverage(prices, quantities, k) <= averages.high
    ensures exists prices ::
              Feasible(prices, quantities, lows, highs, target) && PriorAverage(prices, quantities, k) == averages.low
    ensures exists prices ::
              Feasible(prices, quantities, lows, highs, target) && PriorAverage(prices, quantities, k) == averages.high
  {
    var quantity := Sum(quantities, 0, k);
    forall prices | Feasible(prices, quantities, lows, highs, target)
      ensures averages.low <= PriorAverage(prices, quantities, k) <= averages.high
    {
      PriorIsSound(prices, k, quantities, lows, highs, target);
      DivMono(PriorLow(k, quantities, lows, highs, target), Sum(Costs(quantities, prices), 0, k), quantity);
      DivMono(Sum(Costs(quantities, prices), 0, k), PriorHigh(k, quantities, lows, highs, target), quantity);
    }
    var atLow := PriorIsReached(PriorLow(k, quantities, lows, highs, target), k, quantities, lows, highs, target);
    var atHigh := PriorIsReached(PriorHigh(k, quantities, lows, highs, target), k, quantities, lows, highs, target);
    assert PriorAverage(atLow, quantities, k) == averages.low && PriorAverage(atHigh, quantities, k) == averages.high;
  }

  lemma DivMono(x: real, y: real, q: real)
    requires q > 0.0 && x <= y
    ensures x / q <= y / q
  {
    Quotient(x, q, y / q);
    Undo(q, y);
  }

  // ---------------------------------------------------------------- the alignment report

  // The range test of the market-alignment report: averages of the extremes, then the tolerance.
  predicate WeightedAverageFeasible(quantities: seq<real>, candles: seq<Range>, averageEntry: real, tolerance: real)
    requires |candles| == |quantities| > 0 && Positive(quantities)
  {
    SumPositive(quantities, 0, |quantities|);
    var total := Sum(quantities, 0, |quantities|);
    && Sum(Costs(quantities, LowEnds(candles)), 0, |candles|) / total - tolerance <= averageEntry
    && averageEntry <= Sum(Costs(quantities, HighEnds(candles)), 0, |candles|) / total + tolerance
  }

  lemma SumAdd(sums: seq<real>, left: seq<real>, right: seq<real>, end: nat)
    requires end <= |sums| == |left| == |right|
    requires forall i | 0 <= i < end :: sums[i] == left[i] + right[i]
    ensures Sum(sums, 0, end) == Sum(left, 0, end) + Sum(right, 0, end)
    decreases end
  {
    if end > 0 {
      SumAdd(sums, left, right, end - 1);
    }
  }

  lemma SumScaled(quantities: seq<real>, scaled: seq<real>, factor: real, end: nat)
    requires end <= |quantities| == |scaled|
    requires forall i | 0 <= i < end :: scaled[i] == Product(quantities[i], factor)
    ensures Sum(scaled, 0, end) == Product(Sum(quantities, 0, end), factor)
    decreases end
  {
    if end == 0 {
      assert Product(0.0, factor) == 0.0;
    } else {
      SumScaled(quantities, scaled, factor, end - 1);
      DistributeLeft(Sum(quantities, 0, end - 1), quantities[end - 1], factor);
    }
  }

  lemma SumShifted(quantities: seq<real>, values: seq<real>, others: seq<real>, shift: real)
    requires |quantities| == |values| == |others|
    requires forall i | 0 <= i < |values| :: others[i] == values[i] + shift
    ensures Sum(Costs(quantities, others), 0, |values|)
            == Sum(Costs(quantities, values), 0, |values|) + Product(Sum(quantities, 0, |values|), shift)
  {
    var shifts := seq(|values|, i requires 0 <= i < |values| => Product(quantities[i], shift));
    forall i | 0 <= i < |values|
      ensures Costs(quantities, others)[i] == Costs(quantities, values)[i] + shifts[i]
    {
      Distribute(quantities[i], values[i], shift);
    }
    SumAdd(Costs(quantities, others), Costs(quantities, values), shifts, |values|);
    SumScaled(quantities, shifts, shift, |values|);
  }

  // The report's test says exactly whether some price vector inside the widened candles has
  // the exported average.
  lemma AlignmentTestIsFeasibility(quantities: seq<real>, candles: seq<Range>, averageEntry: real, tolerance: real)
    requires |candles| == |quantities| > 0 && Positive(quantities) && 0.0 <= tolerance
    requires forall i | 0 <= i < |candles| :: candles[i].low <= candles[i].high
    ensures var (lows, highs) := Widened(candles, tolerance);
            WeightedAverageFeasible(quantities, candles, averageEntry, tolerance)
            <==> exists prices ::
                   Feasible(prices, quantities, lows, highs, Product(averageEntry, Sum(quantities, 0, |quantities|)))
  {
    var (lows, highs) := Widened(candles, tolerance);
    var total := Sum(quantities, 0, |quantities|);
    var lowest, highest := Sum(Costs(quantities, LowEnds(candles)), 0, |candles|),
                           Sum(Costs(quantities, HighEnds(candles)), 0, |candles|);
    SumPositive(quantities, 0, |quantities|);
    FeasibleExactly(quantities, lows, highs, Product(averageEntry, total));
    SumShifted(quantities, LowEnds(candles), lows, -tolerance);
    SumShifted(quantities, HighEnds(candles), highs, tolerance);
    Quotient(lowest, total, averageEntry + tolerance);
    Quotient(highest, total, averageEntry - tolerance);
    Distribute(total, averageEntry, tolerance);
    assert Product(total, averageEntry) == Product(averageEntry, total);
    assert Product(total, -tolerance) == -Product(total, tolerance);
  }
}
