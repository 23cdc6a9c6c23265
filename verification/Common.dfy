// Small vocabulary shared by every module: optional values, error results and
// exact real arithmetic standing in for the program's floats and decimals.
module Common {

  datatype Option<+T> = None | Some(value: T)

  datatype Result<+T, +E> = Ok(value: T) | Err(error: E)

  function Abs(x: real): real {
    if x < 0.0 then -x else x
  }

  function Max(x: real, y: real): real {
    if x < y then y else x
  }

  function Min(x: real, y: real): real {
    if y < x then y else x
  }

  function MaxInt(x: int, y: int): int {
    if x < y then y else x
  }

  function MinInt(x: int, y: int): int {
    if y < x then y else x
  }

  // Products of program values, named so that equal factors give equal products without
  // any nonlinear reasoning.
  function Product(x: real, y: real): real {
    x * y
  }

  // x <= y carries over to products with a nonnegative factor.
  lemma MulMono(a: real, x: real, y: real)
    requires 0.0 <= a && x <= y
    ensures a * x <= a * y && x * a <= y * a
  {
  }

  // x < y carries over strictly to products with a positive factor.
  lemma MulMonoStrict(a: real, x: real, y: real)
    requires 0.0 < a && x < y
    ensures a * x < a * y && x * a < y * a
  {
  }

  lemma Scale(q: real, a: real, b: real)
    requires q > 0.0
    ensures a <= b <==> Product(q, a) <= Product(q, b)
  {
    if a <= b {
      MulMono(q, a, b);
    } else {
      MulMonoStrict(q, b, a);
    }
  }

  lemma Distribute(q: real, a: real, b: real)
    ensures Product(q, a + b) == Product(q, a) + Product(q, b)
    ensures Product(q, a - b) == Product(q, a) - Product(q, b)
  {
  }

  lemma DistributeLeft(a: real, b: real, q: real)
    ensures Product(a + b, q) == Product(a, q) + Product(b, q)
  {
  }

  lemma Undo(q: real, x: real)
    requires q != 0.0
    ensures Product(q, x / q) == x && Product(q, x) / q == x
  {
  }

  lemma SumOfQuotients(x: real, y: real, d: real)
    requires d != 0.0
    ensures (x + y) / d == x / d + y / d
  {
  }

  // Comparing a quotient is comparing with a product.
  lemma Quotient(x: real, q: real, y: real)
    requires q > 0.0
    ensures x / q <= y <==> x <= Product(q, y)
    ensures y <= x / q <==> Product(q, y) <= x
  {
    Undo(q, x);
    Scale(q, x / q, y);
    Scale(q, y, x / q);
  }

  // The prefixes a loop over a sequence works through.
  lemma Prefixes<T>(s: seq<T>, k: nat)
    requires k < |s|
    ensures s[..k + 1] == s[..k] + [s[k]]
  {
  }

  lemma WholePrefix<T>(s: seq<T>)
    ensures s[..0] == [] && s[..|s|] == s
  {
  }
}
