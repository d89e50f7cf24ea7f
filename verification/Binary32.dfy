/**
 The binary32 format of section 3.4 of IEEE 754-2008: bit patterns, the reals they
 stand for, and rounding to the nearest of them with ties to even.

 All finite magnitudes are whole multiples of the smallest one, 2^-149. `Scaled` counts
 those multiples for the magnitude bits `m`, read as one number: from 2^24 on, adding
 2^23 to the bits (one to the exponent field) doubles the value.
 */
module Binary32 {
  import opened Numbers

  /** A double: a finite value, or an infinity or NaN. */
  datatype Double = Finite(value: real) | NonFinite

  type Bits = b: nat | b < 0x1_0000_0000

  const SignBit := 0x8000_0000
  const Infinity := 0x7F80_0000

  function Power(n: nat): (p: nat)
    ensures 0 < p
  {
    if n == 0 then 1 else 2 * Power(n - 1)
  }

  /** How many quanta make one. */
  function Quantum(): (q: real)
    ensures 0.0 < q
  {
    Power(149) as real
  }

  function Scaled(m: nat): nat {
    if m < 0x100_0000 then m else 2 * Scaled(m - 0x80_0000)
  }

  function Magnitude(b: Bits): nat { b % SignBit }

  predicate IsFinite(b: Bits) { Magnitude(b) < Infinity }

  function Size(m: nat): real { Over(Scaled(m) as real, Quantum()) }

  function Value(b: Bits): real {
    if b < SignBit then Size(b) else -Size(b - SignBit)
  }

  /** The largest magnitude bits that count no more than `n` quanta. */
  function Index(n: nat): nat {
    if n < 0x100_0000 then n else 0x80_0000 + Index(n / 2)
  }

  /** Magnitude bits nearest to `y` quanta; a tie goes to the even pattern. */
  function Nearest(y: real): nat
    requires 0.0 <= y
  {
    var m := Index(y.Floor);
    var below, above := y - Scaled(m) as real, Scaled(m + 1) as real - y;
    if below < above || (below == above && m % 2 == 0) then m else m + 1
  }

  function ToQuanta(x: real): (y: real)
    ensures 0.0 <= y
  {
    MulMono(0.0, Abs(x), Quantum());
    Mul(Abs(x), Quantum())
  }

  /** `static_cast<float>`, as the bit pattern it yields; too large a magnitude becomes an infinity. */
  function ToBits(x: real): Bits {
    var n := Nearest(ToQuanta(x));
    var m := if n < Infinity then n else Infinity;
    if x < 0.0 then SignBit + m else m
  }

  function Rounded(x: real): real { Value(ToBits(x)) }

  /** `std::numeric_limits<float>::max()`. */
  function Largest(): real { Size(Infinity - 1) }

  predicate Representable(x: real) { exists b: Bits :: IsFinite(b) && Value(b) == x }

  // ----- The exponent and fraction fields -----

  /** The recursive count is the one of the standard's fields: subnormal, or implied leading bit and exponent. */
  lemma {:induction false} ScaledByFields(m: nat)
    ensures var exponent, fraction := m / 0x80_0000, m % 0x80_0000;
      Scaled(m) == if exponent == 0 then fraction else (0x80_0000 + fraction) * Power(exponent - 1)
  {
    if m >= 0x100_0000 {
      ScaledByFields(m - 0x80_0000);
      var exponent, fraction := m / 0x80_0000, m % 0x80_0000;
      assert Power(exponent - 1) == 2 * Power(exponent - 2);
      Doubling(0x80_0000 + fraction, Power(exponent - 2));
    }
  }

  lemma Doubling(a: nat, p: nat)
    ensures a * (2 * p) == 2 * (a * p)
  {
  }

  // ----- Order -----

  lemma {:induction false} ScaledGrows(m: nat)
    ensures m <= Scaled(m) < Scaled(m + 1)
  {
    if m >= 0xFF_FFFF {
      if m >= 0x100_0000 { ScaledGrows(m - 0x80_0000); }
      assert Scaled(m + 1) == 2 * Scaled(m + 1 - 0x80_0000);
    }
  }

  lemma {:induction false} ScaledOrder(m: nat, n: nat)
    ensures m < n <==> Scaled(m) < Scaled(n)
    ensures m <= n <==> Scaled(m) <= Scaled(n)
    decreases m + n
  {
    if m < n {
      ScaledGrows(n - 1);
      ScaledOrder(m, n - 1);
    } else if n < m {
      ScaledGrows(m - 1);
      ScaledOrder(n, m - 1);
    }
  }

  lemma {:induction false} IndexBrackets(n: nat)
    ensures Index(n) <= n && (0x80_0000 <= n ==> 0x80_0000 <= Index(n))
    ensures Scaled(Index(n)) <= n < Scaled(Index(n) + 1)
  {
    if n >= 0x100_0000 {
      IndexBrackets(n / 2);
    }
  }

  /** Only one pair of neighbours brackets a number. */
  lemma BracketIsUnique(n: nat, m: nat)
    requires Scaled(m) <= n < Scaled(m + 1)
    ensures Index(n) == m
  {
    IndexBrackets(n);
    ScaledOrder(m, Index(n) + 1);
    ScaledOrder(Index(n), m + 1);
  }

  // ----- Rounding -----

  lemma NearestBrackets(y: real)
    requires 0.0 <= y
    ensures var m := Index(y.Floor); Scaled(m) as real <= y < Scaled(m + 1) as real && m <= Nearest(y) <= m + 1
  {
    hide Index;
    hide Scaled;
    IndexBrackets(y.Floor);
  }

  /** No magnitude is closer than the nearest one. */
  lemma NearestIsNearest(y: real, k: nat)
    requires 0.0 <= y
    ensures Abs(Scaled(Nearest(y)) as real - y) <= Abs(Scaled(k) as real - y)
  {
    hide Index;
    hide Scaled;
    NearestBrackets(y);
    var m := Index(y.Floor);
    if k <= m { ScaledOrder(k, m); } else { ScaledOrder(m + 1, k); }
  }

  lemma NearestOfScaled(m: nat)
    ensures Nearest(Scaled(m) as real) == m
  {
    hide Index;
    hide Scaled;
    assert (Scaled(m) as real).Floor == Scaled(m);
    ScaledGrows(m);
    BracketIsUnique(Scaled(m), m);
  }

  lemma NearestIsMonotone(x: real, y: real)
    requires 0.0 <= x <= y
    ensures Nearest(x) <= Nearest(y)
  {
    hide Index;
    hide Scaled;
    NearestBrackets(x);
    NearestBrackets(y);
    var m, n := Index(x.Floor), Index(y.Floor);
    ScaledOrder(n + 1, m);
  }

  // ----- Values and bit patterns -----

  lemma SizeInQuanta(m: nat)
    ensures ToQuanta(Size(m)) == Scaled(m) as real && 0.0 <= Size(m) && (Size(m) == 0.0 <==> m == 0)
  {
    hide Mul;
    hide Over;
    hide Quantum;
    var q := Quantum();
    OverMul(Scaled(m) as real, q);
    OverOrder(0.0, Scaled(m) as real, q);
    OverMul(0.0, q);
    MulUnit(q);
    ScaledGrows(m);
    hide Scaled;
    if Size(m) == 0.0 { assert Scaled(m) == 0; }
    if m == 0 {
      assert Size(m) == 0.0 by {
        ZeroOver(q);
        assert Scaled(0) == 0 by { ScaledOrder(0, 0); ScaledOfZero(); }
      }
    }
  }

  lemma ScaledOfZero() ensures Scaled(0) == 0 {}

  lemma ZeroOver(q: real)
    requires 0.0 < q
    ensures Over(0.0, q) == 0.0
  {
  }

  /** Every finite pattern but negative zero is what its own value rounds to. */
  lemma ValueKeepsBits(b: Bits)
    requires IsFinite(b) && b != SignBit
    ensures ToBits(Value(b)) == b
  {
    hide Mul;
    hide Over;
    hide Scaled;
    hide Nearest;
    hide Size;
    hide ToQuanta;
    var m := Magnitude(b);
    SizeInQuanta(m);
    NearestOfScaled(m);
    assert ToQuanta(Value(b)) == ToQuanta(Size(m)) by { QuantaOfNegative(Size(m)); }
  }

  lemma QuantaOfNegative(x: real)
    ensures ToQuanta(-x) == ToQuanta(x)
  {
  }

  /** A value passes through the conversion unchanged exactly when binary32 has it. */
  lemma RoundedIffRepresentable(x: real)
    ensures Rounded(x) == x && IsFinite(ToBits(x)) <==> Representable(x)
  {
    hide ToBits;
    hide Value;
    if Representable(x) {
      var b: Bits :| IsFinite(b) && Value(b) == x;
      if b == SignBit {
        NegativeZero();
        ValueKeepsBits(0);
      } else {
        ValueKeepsBits(b);
      }
    }
  }

  lemma NegativeZero()
    ensures Value(SignBit) == Value(0) == 0.0 && IsFinite(0)
  {
  }

  /** Two finite patterns stand for the same number exactly when they are equal or both zeros. */
  lemma SameNumberIff(a: Bits, b: Bits)
    requires IsFinite(a) && IsFinite(b)
    ensures Value(a) == Value(b) <==> a == b || (Magnitude(a) == 0 && Magnitude(b) == 0)
  {
    hide Value;
    hide ToBits;
    NegativeZero();
    ValueKeepsBits(0);
    if a != SignBit { ValueKeepsBits(a); }
    if b != SignBit { ValueKeepsBits(b); }
  }

  /** Within range, rounding stays finite. */
  lemma InRangeStaysFinite(x: real)
    ensures Abs(x) <= Largest() ==> IsFinite(ToBits(x))
  {
    hide Mul;
    hide Over;
    hide Scaled;
    hide Nearest;
    hide Size;
    if Abs(x) <= Largest() {
      SizeInQuanta(Infinity - 1);
      MulMono(Abs(x), Largest(), Quantum());
      NearestIsMonotone(ToQuanta(x), ToQuanta(Largest()));
      NearestOfScaled(Infinity - 1);
    }
  }

  /** The distance between two reals, counted in quanta. */
  lemma DistanceInQuanta(x: real, m: nat)
    ensures Mul(Abs(Abs(x) - Size(m)), Quantum()) == Abs(Scaled(m) as real - ToQuanta(x))
  {
    hide Mul;
    hide Over;
    hide Scaled;
    hide Quantum;
    SizeInQuanta(m);
    MulSpread(Quantum(), Abs(x), Size(m));
    AbsMul(Abs(x) - Size(m), Quantum());
  }

  /** Rounding within range yields a finite pattern that no other finite pattern beats. */
  lemma RoundedIsNearest(x: real, b: Bits)
    requires Abs(x) <= Largest() && IsFinite(b)
    ensures Abs(Rounded(x) - x) <= Abs(Value(b) - x)
  {
    hide Mul;
    hide Over;
    hide Scaled;
    hide Nearest;
    hide Size;
    hide ToQuanta;
    InRangeStaysFinite(x);
    var m, k := Magnitude(ToBits(x)), Magnitude(b);
    NearestIsNearest(ToQuanta(x), k);
    DistanceInQuanta(x, m);
    DistanceInQuanta(x, k);
    SizeInQuanta(m);
    SizeInQuanta(k);
    MulOrder(Abs(Abs(x) - Size(m)), Abs(Abs(x) - Size(k)), Quantum());
    assert Abs(Rounded(x) - x) == Abs(Abs(x) - Size(m));
    assert Abs(Abs(x) - Size(k)) <= Abs(Value(b) - x);
  }

  lemma SizeKeepsOrder(x: real, y: real)
    requires Abs(x) <= Abs(y)
    ensures Size(Magnitude(ToBits(x))) <= Size(Magnitude(ToBits(y)))
  {
    hide Mul;
    hide Nearest;
    hide Size;
    hide Quantum;
    MulMono(Abs(x), Abs(y), Quantum());
    NearestIsMonotone(ToQuanta(x), ToQuanta(y));
    hide ToQuanta;
    SizeOrder(Magnitude(ToBits(x)), Magnitude(ToBits(y)));
  }

  lemma RoundedHasSign(x: real)
    ensures Rounded(x) == if x < 0.0 then -Size(Magnitude(ToBits(x))) else Size(Magnitude(ToBits(x)))
    ensures 0.0 <= Size(Magnitude(ToBits(x)))
  {
    hide Nearest;
    hide ToQuanta;
    hide Size;
    SizeInQuanta(Magnitude(ToBits(x)));
  }

  /** Rounding keeps order. */
  lemma RoundedIsMonotone(x: real, y: real)
    requires x <= y
    ensures Rounded(x) <= Rounded(y)
  {
    hide ToBits;
    hide Value;
    hide Size;
    hide Magnitude;
    hide Rounded;
    RoundedHasSign(x);
    RoundedHasSign(y);
    if Abs(x) <= Abs(y) { SizeKeepsOrder(x, y); } else { SizeKeepsOrder(y, x); }
  }

  lemma SizeOrder(m: nat, n: nat)
    ensures m <= n ==> Size(m) <= Size(n)
  {
    hide Over;
    hide Scaled;
    if m <= n {
      ScaledOrder(m, n);
      OverOrder(Scaled(m) as real, Scaled(n) as real, Quantum());
    }
  }

  // ----- The protocol's guard for commands -----

  /** `float_representable`: in range, and not lost to zero. */
  predicate Transmittable(x: Double) {
    x.Finite? && Abs(x.value) <= Largest() && (x.value == 0.0 || Magnitude(ToBits(x.value)) != 0)
  }

  /** The guard fails exactly for what is not finite, too large, or nonzero and at most half the smallest magnitude. */
  lemma TransmittableIff(x: Double)
    ensures Transmittable(x) <==>
      x.Finite? && Abs(x.value) <= Largest() && (x.value == 0.0 || 1.0 < 2.0 * ToQuanta(x.value))
  {
    hide Mul;
    hide Over;
    hide Nearest;
    hide ToQuanta;
    hide Largest;
    if x.Finite? && Abs(x.value) <= Largest() {
      InRangeStaysFinite(x.value);
      RoundsToNothing(ToQuanta(x.value));
    }
  }

  lemma RoundsToNothing(y: real)
    requires 0.0 <= y
    ensures Nearest(y) == 0 <==> 2.0 * y <= 1.0
  {
  }

  /** Ten times a whole number of quanta is never one whole unit: five does not divide a power of two. */
  lemma TenQuanta(m: nat)
    ensures Size(m) != 0.1 && -Size(m) != 0.1
  {
    hide Mul;
    hide Over;
    hide Scaled;
    hide Power;
    SizeInQuanta(m);
    if Size(m) == 0.1 {
      TenthInQuanta(Scaled(m));
    }
  }

  lemma TenthInQuanta(n: nat)
    ensures Mul(0.1, Quantum()) != n as real
  {
    hide Power;
    PowerNotFive(149);
    if Mul(0.1, Quantum()) == n as real { TenthOfPower(Power(149), n); }
  }

  lemma TenthOfPower(p: nat, n: nat)
    requires Mul(0.1, p as real) == n as real
    ensures p % 5 == 0
  {
  }

  lemma {:induction false} PowerNotFive(n: nat)
    ensures Power(n) % 5 != 0
  {
    if n > 0 {
      PowerNotFive(n - 1);
    }
  }

  /** No finite pattern is larger than the largest. */
  lemma FiniteIsInRange(b: Bits)
    requires IsFinite(b)
    ensures Abs(Value(b)) <= Largest()
  {
    hide Size;
    SizeInQuanta(Magnitude(b));
    SizeOrder(Magnitude(b), Infinity - 1);
  }
}
