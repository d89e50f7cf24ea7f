/**
 Elementary real arithmetic shared by the motion modules. Products and quotients
 go through `Mul` and `Over` there, so that a proof which only needs their laws
 can hide what they compute.
 */
module Numbers {

  function Mul(a: real, b: real): real { a * b }

  function Over(a: real, b: real): real
    requires b > 0.0
  {
    a / b
  }

  function Abs(x: real): real { if x < 0.0 then -x else x }

  function Min(x: real, y: real): real { if y < x then y else x }

  function Max(x: real, y: real): real { if x < y then y else x }

  /** `std::clamp`, whose bounds must be ordered. */
  function Clamp(x: real, low: real, high: real): real
    requires low <= high
  {
    if x < low then low else if high < x then high else x
  }

  /** The point a fraction `q` of the way from `x` to `y`. */
  function Blend(x: real, y: real, q: real): real { x + Mul(q, y - x) }

  lemma MulMono(a: real, b: real, c: real)
    requires a <= b && 0.0 <= c
    ensures Mul(a, c) <= Mul(b, c) && Mul(c, a) <= Mul(c, b)
  {
  }

  lemma MulPositive(a: real, b: real)
    requires 0.0 < a && 0.0 < b
    ensures 0.0 < Mul(a, b)
  {
  }

  lemma MulBoth(a: real, b: real, x: real, y: real)
    requires 0.0 <= a <= b && 0.0 <= x <= y
    ensures 0.0 <= Mul(a, x) <= Mul(b, y)
  {
  }

  lemma MulUnit(a: real)
    ensures Mul(a, 1.0) == a == Mul(1.0, a) && Mul(a, 0.0) == 0.0 == Mul(0.0, a)
  {
  }

  lemma MulSwap(a: real, b: real)
    ensures Mul(a, b) == Mul(b, a)
  {
  }

  lemma MulShift(a: real, b: real, c: real)
    ensures Mul(Mul(a, b), c) == Mul(a, Mul(b, c))
  {
  }

  lemma MulSpread(a: real, x: real, y: real)
    ensures Mul(a, x + y) == Mul(a, x) + Mul(a, y)
    ensures Mul(a, x - y) == Mul(a, x) - Mul(a, y)
    ensures Mul(x + y, a) == Mul(x, a) + Mul(y, a)
    ensures Mul(x - y, a) == Mul(x, a) - Mul(y, a)
  {
  }

  lemma OverZero(d: real)
    requires 0.0 < d
    ensures Over(0.0, d) == 0.0
  {
  }

  lemma OverSum(a: real, b: real, d: real)
    requires 0.0 < d
    ensures Over(a + b, d) == Over(a, d) + Over(b, d)
  {
  }

  lemma MulOver(a: real, b: real, d: real)
    requires 0.0 < d
    ensures Mul(a, Over(b, d)) == Over(Mul(a, b), d)
  {
  }

  lemma OverPositive(a: real, b: real)
    requires 0.0 < a && 0.0 < b
    ensures 0.0 < Over(a, b)
  {
  }

  lemma OverMul(a: real, b: real)
    requires 0.0 < b
    ensures Mul(Over(a, b), b) == a && Mul(b, Over(a, b)) == a && Over(Mul(a, b), b) == a
  {
  }

  /** Multiplying by a positive number neither creates nor destroys an order. */
  lemma MulOrder(x: real, y: real, d: real)
    requires 0.0 < d
    ensures x <= y <==> Mul(x, d) <= Mul(y, d)
  {
  }

  lemma OverOrder(x: real, y: real, d: real)
    requires 0.0 < d
    ensures x <= y <==> Over(x, d) <= Over(y, d)
  {
  }

  /** A quotient compares with `q` as its numerator compares with `q` denominators. */
  lemma OverVersus(n: real, d: real, q: real)
    requires 0.0 < d
    ensures Over(n, d) <= q <==> n <= Mul(q, d)
    ensures q <= Over(n, d) <==> Mul(q, d) <= n
  {
  }

  lemma AbsMul(a: real, b: real)
    ensures Abs(Mul(a, b)) == Mul(Abs(a), Abs(b))
  {
  }

  lemma AbsOver(a: real, b: real)
    requires 0.0 < b
    ensures Abs(Over(a, b)) == Over(Abs(a), b)
  {
  }

  lemma SignsAgree(x: real, y: real)
    ensures Mul(x, y) >= 0.0 <==> (x >= 0.0 && y >= 0.0) || (x <= 0.0 && y <= 0.0)
  {
  }

  /** A blend lies between its ends. */
  lemma BlendBetween(x: real, y: real, q: real)
    requires 0.0 <= q <= 1.0
    ensures Min(x, y) <= Blend(x, y, q) <= Max(x, y)
  {
    hide Mul;
    var d := y - x;
    MulUnit(d);
    if d >= 0.0 {
      MulMono(q, 1.0, d);
      MulMono(0.0, q, d);
    } else {
      MulSpread(q, 0.0, -d);
      MulUnit(q);
      MulUnit(-d);
      MulMono(q, 1.0, -d);
      MulMono(0.0, q, -d);
    }
  }

  lemma BlendDistance(x: real, y: real, q: real)
    requires 0.0 <= q
    ensures Abs(Blend(x, y, q) - x) == Mul(q, Abs(y - x))
  {
  }

  lemma BlendWithin(x: real, y: real, q: real, cap: real)
    requires Abs(x) <= cap && Abs(y) <= cap && 0.0 <= q <= 1.0
    ensures Abs(Blend(x, y, q)) <= cap
  {
    BlendBetween(x, y, q);
    hide Blend;
  }

  /** Moving toward a value of the same sign keeps the sign, and the size stays between the two sizes. */
  lemma BlendSameSign(x: real, y: real, q: real)
    requires Mul(x, y) >= 0.0 && 0.0 <= q <= 1.0
    ensures Mul(x, Blend(x, y, q)) >= 0.0
    ensures Min(Abs(x), Abs(y)) <= Abs(Blend(x, y, q)) <= Max(Abs(x), Abs(y))
  {
    hide Mul;
    SignsAgree(x, y);
    BlendBetween(x, y, q);
    SignsAgree(x, Blend(x, y, q));
    hide Blend;
  }
}
