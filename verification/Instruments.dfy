// Rounding to the steps an instrument trades in (botdca/instruments.py).
module Instruments {
  import opened Common

  // Ratios this close to a whole number are taken for it.
  const RATIO_NOISE: real := 0.000000001

  datatype Rounding = RoundFloor | RoundCeiling

  // To the nearest whole number, ties away from zero.
  function RoundHalfUp(r: real): int {
    if r >= 0.0 then (r + 0.5).Floor else -((-r + 0.5).Floor)
  }

  function Ceiling(r: real): int {
    -((-r).Floor)
  }

  function Round(ratio: real, rounding: Rounding): int {
    var nearest := RoundHalfUp(ratio);
    if Abs(ratio - nearest as real) <= RATIO_NOISE then nearest
    else if rounding == RoundFloor then ratio.Floor
    else Ceiling(ratio)
  }

  function Increments(value: real, increment: real, rounding: Rounding): int
    requires increment > 0.0
  {
    Round(value / increment, rounding)
  }

  lemma FloorIs(x: real, n: int)
    requires n as real <= x < n as real + 1.0
    ensures x.Floor == n
  {
  }

  lemma NearestWithin(r: real)
    ensures -0.5 <= r - RoundHalfUp(r) as real <= 0.5
  {
  }

  // Absorbing the noise is the same as shifting by it before rounding.
  lemma {:induction false} RoundIsShifted(ratio: real)
    ensures Round(ratio, RoundFloor) == (ratio + RATIO_NOISE).Floor
    ensures Round(ratio, RoundCeiling) == Ceiling(ratio - RATIO_NOISE)
  {
    var nearest := RoundHalfUp(ratio);
    NearestWithin(ratio);
    if Abs(ratio - nearest as real) <= RATIO_NOISE {
      FloorIs(ratio + RATIO_NOISE, nearest);
      FloorIs(-(ratio - RATIO_NOISE), -nearest);
    } else if ratio > nearest as real {
      FloorIs(ratio, nearest);
      FloorIs(ratio + RATIO_NOISE, nearest);
      FloorIs(-ratio, -nearest - 1);
      FloorIs(-(ratio - RATIO_NOISE), -nearest - 1);
    } else {
      FloorIs(ratio, nearest - 1);
      FloorIs(ratio + RATIO_NOISE, nearest - 1);
      FloorIs(-ratio, -nearest);
      FloorIs(-(ratio - RATIO_NOISE), -nearest);
    }
  }

  lemma RoundMonotone(x: real, y: real, rounding: Rounding)
    requires x <= y
    ensures Round(x, rounding) <= Round(y, rounding)
  {
    RoundIsShifted(x);
    RoundIsShifted(y);
  }

  lemma RoundWhole(n: int, drift: real, rounding: Rounding)
    requires Abs(drift) <= RATIO_NOISE
    ensures Round(n as real + drift, rounding) == n
  {
    RoundIsShifted(n as real + drift);
  }

  // ---------------------------------------------------------------- the rules

  datatype Rules = Rules(tickSize: real, qtyStep: real, minOrderQty: real, minNotional: real,
                         maxMarketQty: Option<real>)

  ghost predicate ValidRules(rules: Rules) {
    rules.tickSize > 0.0 && rules.qtyStep > 0.0 && rules.minOrderQty > 0.0
  }

  function Steps(value: real, increment: real, rounding: Rounding): real
    requires increment > 0.0
  {
    Product(increment, Increments(value, increment, rounding) as real)
  }

  // None is the refusal of a quantity outside the instrument's limits.
  function FloorQty(rules: Rules, qty: real): Option<real>
    requires ValidRules(rules)
  {
    var quantized := Steps(qty, rules.qtyStep, RoundFloor);
    if quantized < rules.minOrderQty then None
    else if rules.maxMarketQty.Some? && quantized > rules.maxMarketQty.value then None
    else Some(quantized)
  }

  function FloorPrice(rules: Rules, price: real): real
    requires ValidRules(rules)
  {
    Steps(price, rules.tickSize, RoundFloor)
  }

  function CeilPrice(rules: Rules, price: real): real
    requires ValidRules(rules)
  {
    Steps(price, rules.tickSize, RoundCeiling)
  }

  // Rounding keeps the order of values.
  lemma {:induction false} StepsMonotone(x: real, y: real, increment: real, rounding: Rounding)
    requires increment > 0.0 && x <= y
    ensures Steps(x, increment, rounding) <= Steps(y, increment, rounding)
  {
    Quotient(x, increment, y / increment);
    Undo(increment, y);
    RoundMonotone(x / increment, y / increment, rounding);
    Scale(increment, Increments(x, increment, rounding) as real, Increments(y, increment, rounding) as real);
  }

  // A rounded value is a whole number of steps, so rounding it again changes nothing.
  lemma {:induction false} StepsIdempotent(x: real, increment: real, rounding: Rounding, again: Rounding)
    requires increment > 0.0
    ensures Steps(Steps(x, increment, rounding), increment, again) == Steps(x, increment, rounding)
  {
    var n := Increments(x, increment, rounding);
    Undo(increment, n as real);
    RoundWhole(n, 0.0, again);
  }

  // n whole steps with drift up to the noise round to exactly n steps, either way.
  lemma {:induction false} DriftIsAbsorbed(n: int, drift: real, increment: real, rounding: Rounding)
    requires increment > 0.0 && Abs(drift) <= Product(increment, RATIO_NOISE)
    ensures Steps(Product(increment, n as real) + drift, increment, rounding) == Product(increment, n as real)
  {
    var value := Product(increment, n as real) + drift;
    Undo(increment, drift);
    Distribute(increment, n as real, drift / increment);
    Undo(increment, n as real + drift / increment);
    Quotient(drift, increment, RATIO_NOISE);
    Quotient(drift, increment, -RATIO_NOISE);
    assert Product(increment, -RATIO_NOISE) == -Product(increment, RATIO_NOISE);
    RoundWhole(n, drift / increment, rounding);
  }

  // Rounding down never goes above the value by more than the noise, nor below it by a step or
  // more; rounding up is the mirror image.
  lemma {:induction false} StepsBracket(x: real, increment: real)
    requires increment > 0.0
    ensures var noise := Product(increment, RATIO_NOISE);
            && x + noise - increment < Steps(x, increment, RoundFloor) <= x + noise
            && x - noise <= Steps(x, increment, RoundCeiling) < x - noise + increment
  {
    var ratio := x / increment;
    var floor, ceiling := Increments(x, increment, RoundFloor) as real, Increments(x, increment, RoundCeiling) as real;
    RoundIsShifted(ratio);
    Undo(increment, x);
    Distribute(increment, ratio, RATIO_NOISE);
    Distribute(increment, ratio + RATIO_NOISE, 1.0);
    Distribute(increment, ratio - RATIO_NOISE, 1.0);
    Scale(increment, floor, ratio + RATIO_NOISE);
    Scale(increment, floor, ratio + RATIO_NOISE - 1.0);
    Scale(increment, ratio - RATIO_NOISE, ceiling);
    Scale(increment, ratio - RATIO_NOISE + 1.0, ceiling);
  }

  // ---------------------------------------------------------------- what the rules round to

  // Two multiples less than a step apart are the same.
  lemma OneMultiple(increment: real, n: int, m: int)
    requires increment > 0.0
    requires -increment < Product(increment, n as real) - Product(increment, m as real) < increment
    ensures n == m
  {
    Distribute(increment, n as real, m as real);
    var d := (n - m) as real;
    assert n as real - m as real == d;
    assert Product(increment, 1.0) == increment && Product(increment, -1.0) == -increment;
    if n > m {
      Scale(increment, 1.0, d);
    } else if n < m {
      Scale(increment, d, -1.0);
    }
  }

  // Prices and quantities become the one multiple of the step next to them on the required side, a
  // billionth of a step being taken for noise.
  lemma {:induction false} RoundedExactly(x: real, step: real, n: int)
    requires step > 0.0
    ensures var noise, multiple := Product(step, 0.000000001), Product(step, n as real);
            && (Steps(x, step, RoundFloor) == multiple <==> x + noise - step < multiple <= x + noise)
            && (Steps(x, step, RoundCeiling) == multiple <==> x - noise <= multiple < x - noise + step)
  {
    var noise, multiple := Product(step, 0.000000001), Product(step, n as real);
    StepsBracket(x, step);
    if x + noise - step < multiple <= x + noise {
      OneMultiple(step, n, Increments(x, step, RoundFloor));
    }
    if x - noise <= multiple < x - noise + step {
      OneMultiple(step, n, Increments(x, step, RoundCeiling));
    }
  }

  // A take profit's price is rounded up, a DCA's price and all quantities are rounded down; quantities
  // outside the instrument's limits are refused.
  lemma {:induction false} RulesRound(rules: Rules, price: real, qty: real)
    requires ValidRules(rules)
    ensures CeilPrice(rules, price) == Steps(price, rules.tickSize, RoundCeiling)
    ensures FloorPrice(rules, price) == Steps(price, rules.tickSize, RoundFloor)
    ensures var value := Steps(qty, rules.qtyStep, RoundFloor);
            && (FloorQty(rules, qty).None?
                <==> value < rules.minOrderQty || (rules.maxMarketQty.Some? && rules.maxMarketQty.value < value))
            && (FloorQty(rules, qty).Some? ==> FloorQty(rules, qty).value == value)
  {
  }
}
