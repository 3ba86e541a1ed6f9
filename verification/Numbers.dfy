/** Query numbers: 64-bit integers and IEEE 754 binary floats, compared exactly although the
    engine converts between them with rounding. A finite float is measured in units of its
    format's smallest positive number, so every value is an integer count of units. */
module Numbers {

  function Pow2(k: nat): (p: nat)
    ensures p > 0
  {
    if k == 0 then 1 else 2 * Pow2(k - 1)
  }

  lemma {:induction false} Pow2Add(j: nat, k: nat)
    ensures Pow2(j + k) == Pow2(j) * Pow2(k)
    decreases j
  {
    if j > 0 {
      Pow2Add(j - 1, k);
      assert Pow2(j + k) == 2 * Pow2(j - 1 + k);
      Regroup(Pow2(j - 1), Pow2(k));
    }
  }

  lemma Regroup(a: int, b: int)
    ensures 2 * (a * b) == (2 * a) * b
  {
  }

  lemma Pow2Monotone(j: nat, k: nat)
    requires j <= k
    ensures Pow2(j) <= Pow2(k) && Pow2(k) == Pow2(j) * Pow2(k - j)
  {
    Pow2Add(j, k - j);
    Grow(Pow2(j), Pow2(k - j));
  }

  lemma Grow(a: nat, b: nat)
    requires b > 0
    ensures a <= a * b
  {
    assert a * b == a + a * (b - 1);
    assert a * (b - 1) >= 0;
  }

  /** Significand bits and the exponents of the smallest and largest finite numbers. */
  datatype Format = Format(precision: nat, least: int, greatest: int)

  predicate IsFormat(fmt: Format) { fmt.precision >= 1 && fmt.least < 0 <= fmt.greatest }

  datatype Float = NaN(negative: bool, payload: nat) | Infinity(negative: bool) | Finite(negative: bool, significand: nat, exponent: int)

  /** A finite float is (-1)^negative * significand * 2^exponent, normalised unless it has the
      least exponent; a NaN carries a payload in place of the fraction. */
  predicate Canonical(fmt: Format, f: Float) {
    fmt.precision >= 1 && fmt.least <= fmt.greatest
    && (f.NaN? ==> 0 < f.payload < Pow2(fmt.precision - 1))
    && (f.Finite? ==>
          && fmt.least <= f.exponent <= fmt.greatest
          && f.significand < Pow2(fmt.precision)
          && (f.exponent == fmt.least || Pow2(fmt.precision - 1) <= f.significand))
  }

  function Sign(n: int): int { if n < 0 then -1 else if n > 0 then 1 else 0 }

  function Abs(n: int): nat { if n < 0 then -n else n }

  function Quotient(n: nat, d: nat): nat
    requires d > 0
  {
    n / d
  }

  function Magnitude(fmt: Format, f: Float): nat
    requires f.Finite? && fmt.least <= f.exponent
  {
    f.significand * Pow2(f.exponent - fmt.least)
  }

  /** The value of a finite float, in units of 2^least. */
  function Units(fmt: Format, f: Float): int
    requires f.Finite? && fmt.least <= f.exponent
  {
    var m: int := Magnitude(fmt, f);
    if f.negative then -m else m
  }

  /** How many units make one. */
  function One(fmt: Format): nat
    requires fmt.least < 0
    ensures One(fmt) > 0
  {
    Pow2(-fmt.least)
  }

  /** Where a number stands: NaN first, then the extended real line. */
  datatype Position = Position(group: int, units: int)

  function ComparePositions(x: Position, y: Position): int {
    if x.group != y.group then Sign(x.group - y.group) else Sign(x.units - y.units)
  }

  function FloatPosition(fmt: Format, f: Float): Position
    requires Canonical(fmt, f)
  {
    match f
    case NaN(_, _) => Position(0, 0)
    case Infinity(negative) => Position(if negative then 1 else 3, 0)
    case Finite(_, _, _) => Position(2, Units(fmt, f))
  }

  function IntegerPosition(fmt: Format, n: int): Position
    requires fmt.least < 0
  {
    Position(2, n * One(fmt))
  }

  const LIMIT: int := 0x8000_0000_0000_0000

  type Int64 = n: int | -LIMIT <= n < LIMIT

  predicate LessFloat(fmt: Format, x: Float, y: Float)
    requires Canonical(fmt, x) && Canonical(fmt, y)
  {
    match (x, y)
    case (NaN(_, _), _) => false
    case (_, NaN(_, _)) => false
    case (Infinity(negative), _) => negative && y != x
    case (_, Infinity(negative)) => !negative
    case (Finite(_, _, _), Finite(_, _, _)) => Units(fmt, x) < Units(fmt, y)
  }

  /** Three-way comparison of two floats, NaN below everything and equal to itself. */
  function CompareFloats(fmt: Format, x: Float, y: Float): int
    requires Canonical(fmt, x) && Canonical(fmt, y)
  {
    if x.NaN? then (if y.NaN? then 0 else -1)
    else if y.NaN? then 1
    else if LessFloat(fmt, x, y) then -1
    else if LessFloat(fmt, y, x) then 1
    else 0
  }

  lemma FloatsCompareByPosition(fmt: Format, x: Float, y: Float)
    requires Canonical(fmt, x) && Canonical(fmt, y)
    ensures CompareFloats(fmt, x, y) == ComparePositions(FloatPosition(fmt, x), FloatPosition(fmt, y))
  {
  }

  /** The smallest k >= least such that n < 2^(precision + k). */
  function Excess(n: nat, precision: nat, least: nat): (k: nat)
    ensures least <= k && n < Pow2(precision + k)
    ensures k > least ==> Pow2(precision + k - 1) <= n
    decreases if n < Pow2(precision + least) then 0 else n - Pow2(precision + least) + 1
  {
    if n < Pow2(precision + least) then least else Excess(n, precision, least + 1)
  }

  function RoundNat(n: nat, precision: nat): int {
    var step := Pow2(Excess(n, precision, 0));
    var quotient, remainder := n / step, n % step;
    if 2 * remainder < step || (2 * remainder == step && quotient % 2 == 0) then quotient * step
    else (quotient + 1) * step
  }

  /** Conversion of an integer to a float: nearest, ties to even. */
  function Round(n: int, precision: nat): int {
    var m := RoundNat(Abs(n), precision);
    if n < 0 then -m else m
  }

  /** Conversion of units to an integer: towards zero. */
  function Truncate(fmt: Format, units: int): int
    requires fmt.least < 0
  {
    var q: int := Quotient(Abs(units), One(fmt));
    if units < 0 then -q else q
  }

  /** Comparison of an integer with a float, as the engine does it: range checks, truncation,
      and only then the rounding conversion. NaN does not compare. */
  function CompareIntegerFloat(fmt: Format, n: Int64, f: Float): int
    requires IsFormat(fmt) && Canonical(fmt, f) && !f.NaN?
  {
    if f.Infinity? then (if f.negative then 1 else -1)
    else
      var units, one := Units(fmt, f), One(fmt);
      if units >= LIMIT * one then -1
      else if units < -LIMIT * one then 1
      else if n != Truncate(fmt, units) then Sign(n - Truncate(fmt, units))
      else Sign(Round(n, fmt.precision) * one - units)
  }

  /** Rounding leaves the multiples of 2^e with a significand that fits. */
  lemma RoundIsExact(n: nat, precision: nat, significand: nat, e: nat)
    requires n == significand * Pow2(e) && significand < Pow2(precision)
    ensures RoundNat(n, precision) == n
  {
    var k := Excess(n, precision, 0);
    Pow2Add(precision, e);
    Product(significand, Pow2(precision), Pow2(e));
    if k > e { Pow2Monotone(precision + e, precision + k - 1); }
    Pow2Monotone(k, e);
    Multiple(n, Pow2(k), significand, Pow2(e - k));
  }

  lemma Product(a: nat, b: nat, c: nat)
    requires a < b && c > 0
    ensures a * c < b * c
  {
  }

  lemma Multiple(n: nat, step: nat, a: nat, b: nat)
    requires step > 0 && n == a * (step * b)
    ensures n % step == 0 && (n / step) * step == n
  {
    assert n == (a * b) * step by { Commute(a, step, b); }
    DivideProduct(a * b, step);
  }

  lemma Commute(a: int, b: int, c: int)
    ensures a * (b * c) == (a * c) * b
  {
  }

  lemma DivideProduct(q: nat, d: nat)
    requires d > 0
    ensures (q * d) % d == 0 && (q * d) / d == q
  {
    var n := q * d;
    Division(n, d);
    QuotientIsUnique(q, d, n / d, n % d);
  }

  lemma Division(n: nat, d: nat)
    requires d > 0
    ensures n == (n / d) * d + n % d && 0 <= n % d < d
  {
  }

  lemma QuotientIsUnique(q: nat, d: nat, x: nat, y: nat)
    requires q * d == x * d + y && y < d
    ensures x == q && y == 0
  {
    if q < x {
      Scale(q, x, d);
    } else if x < q {
      Scale(x, q, d);
    }
  }

  /** A canonical float whose integer part needs more bits than the format has is an integer. */
  lemma TruncatedIsExact(fmt: Format, f: Float)
    requires IsFormat(fmt) && Canonical(fmt, f) && f.Finite?
    ensures var n := Quotient(Magnitude(fmt, f), One(fmt)); RoundNat(n, fmt.precision) == n
  {
    var n := Quotient(Magnitude(fmt, f), One(fmt));
    if f.exponent <= 0 {
      FractionIsSmall(f.significand, f.exponent - fmt.least, -fmt.least, fmt.precision, n);
    } else {
      IntegralMagnitude(f.significand, f.exponent, -fmt.least);
      RoundIsExact(f.significand * Pow2(f.exponent), fmt.precision, f.significand, f.exponent);
    }
  }

  lemma FractionIsSmall(m: nat, j: nat, k: nat, precision: nat, n: nat)
    requires j <= k && m < Pow2(precision) && n == Quotient(m * Pow2(j), Pow2(k))
    ensures RoundNat(n, precision) == n
  {
    Pow2Monotone(j, k);
    Shrink(m, Pow2(j), Pow2(k));
    SmallIsExact(n, precision);
  }

  lemma SmallIsExact(n: nat, precision: nat)
    requires n < Pow2(precision)
    ensures RoundNat(n, precision) == n
  {
    assert n * Pow2(0) == n;
    RoundIsExact(n, precision, n, 0);
  }

  lemma IntegralMagnitude(m: nat, e: nat, k: nat)
    ensures Quotient(m * Pow2(e + k), Pow2(k)) == m * Pow2(e)
  {
    Pow2Add(k, e);
    Commute(m, Pow2(k), Pow2(e));
    DivideProduct(m * Pow2(e), Pow2(k));
  }

  lemma Shrink(m: nat, a: nat, one: nat)
    requires 0 < a <= one
    ensures Quotient(m * a, one) <= m
  {
    var n := m * a;
    Division(n, one);
    assert n <= m * one by { assert m * one == m * a + m * (one - a); }
    if n / one > m { Scale(m, n / one, one); }
  }

  /** Truncation towards zero decides the comparison whenever the integers differ. */
  lemma TruncationDecides(n: int, units: int, one: nat, t: int)
    requires one > 0 && n != t && t == Quotient(Abs(units), one) * (if units < 0 then -1 else 1)
    ensures Sign(n - t) == Sign(n * one - units)
  {
    var a := Abs(units);
    Division(a, one);
    Apart(n, t, units, one, a / one, a % one);
  }

  lemma Apart(n: int, t: int, units: int, one: nat, q: nat, r: nat)
    requires one > 0 && n != t && r < one && Abs(units) == q * one + r && t == q * (if units < 0 then -1 else 1)
    ensures Sign(n - t) == Sign(n * one - units)
  {
    assert t * one == if units < 0 then -(q * one) else q * one;
    if n < t {
      Scale(n, t, one);
      assert (n + 1) * one == n * one + one;
    } else {
      Scale(t, n, one);
      assert (t + 1) * one == t * one + one;
    }
  }

  /** The comparison is exact for every integer and every float of the format. */
  lemma ComparisonIsExact(fmt: Format, n: Int64, f: Float)
    requires IsFormat(fmt) && Canonical(fmt, f) && !f.NaN?
    ensures CompareIntegerFloat(fmt, n, f) == ComparePositions(IntegerPosition(fmt, n), FloatPosition(fmt, f))
  {
    if f.Finite? {
      var units, one := Units(fmt, f), One(fmt);
      var t := Truncate(fmt, units);
      if units >= LIMIT * one {
        assert n * one < LIMIT * one by { Scale(n, LIMIT, one); }
      } else if units < -LIMIT * one {
        assert -LIMIT * one <= n * one by { Scale(-LIMIT - 1, n, one); }
      } else if n != t {
        TruncationDecides(n, units, one, t);
      } else {
        TruncatedIsExact(fmt, f);
        assert Abs(n) == Quotient(Magnitude(fmt, f), one);
      }
    }
  }

  lemma Scale(a: int, b: int, one: nat)
    requires one > 0 && a < b
    ensures a * one < b * one && (a + 1) * one <= b * one
  {
    var d := b - a - 1;
    assert d * one >= 0;
    assert b * one == (a + 1) * one + d * one;
    assert (a + 1) * one == a * one + one;
  }

  /** The bit pattern without its sign: exponents count in steps of half the significand range. */
  function Code(fmt: Format, f: Float): int
    requires Canonical(fmt, f) && !f.NaN?
  {
    var half := Pow2(fmt.precision - 1);
    if f.Infinity? then (fmt.greatest - fmt.least + 2) * half
    else (f.exponent - fmt.least) * half + f.significand
  }

  /** Zero loses its sign before its bits are taken. */
  function Unsigned(f: Float): Float {
    if f.Finite? && f.significand == 0 then Finite(false, 0, f.exponent) else f
  }

  /** The bit pattern: sign, biased exponent and fraction. */
  function Bits(fmt: Format, width: nat, f: Float): int
    requires Canonical(fmt, f) && !f.NaN?
  {
    Code(fmt, f) + if f.negative then Pow2(width) else 0
  }

  /** The bit pattern of a NaN: the exponent of infinity and a fraction other than zero. */
  function NaNBits(fmt: Format, width: nat, f: Float): int
    requires fmt.precision >= 1 && f.NaN?
  {
    (fmt.greatest - fmt.least + 2) * Pow2(fmt.precision - 1) + f.payload + if f.negative then Pow2(width) else 0
  }

  /** The sign bit lies above every code. */
  ghost predicate Fits(fmt: Format, width: nat) {
    fmt.precision >= 1 && (fmt.greatest - fmt.least + 2) * Pow2(fmt.precision - 1) < Pow2(width)
  }

  lemma HigherExponent(fmt: Format, x: Float, y: Float)
    requires Canonical(fmt, x) && Canonical(fmt, y) && x.Finite? && y.Finite? && x.exponent < y.exponent
    ensures Code(fmt, x) < Code(fmt, y) && Magnitude(fmt, x) < Magnitude(fmt, y)
  {
    var half, i, j := Pow2(fmt.precision - 1), x.exponent - fmt.least, y.exponent - fmt.least;
    assert Pow2(fmt.precision) == 2 * half;
    Scale(i, j, half);
    assert (i + 1) * half == i * half + half;
    Pow2Monotone(i + 1, j);
    assert Pow2(i + 1) == 2 * Pow2(i);
    Climb(x.significand, y.significand, half, Pow2(i), Pow2(j));
  }

  lemma Climb(m: nat, n: nat, half: nat, a: nat, b: nat)
    requires m < 2 * half && half <= n && 0 < a && 2 * a <= b
    ensures m * a < n * b
  {
    Scale(m, 2 * half, a);
    assert (2 * half) * a == half * (2 * a);
    assert half * (2 * a) <= half * b by { assert half * b == half * (2 * a) + half * (b - 2 * a); }
    assert half * b <= n * b by { assert n * b == half * b + (n - half) * b; }
  }

  lemma SameExponent(fmt: Format, x: Float, y: Float)
    requires Canonical(fmt, x) && Canonical(fmt, y) && x.Finite? && y.Finite? && x.exponent == y.exponent
    ensures Magnitude(fmt, x) == Magnitude(fmt, y) <==> x.significand == y.significand
  {
    var a := Pow2(x.exponent - fmt.least);
    if x.significand < y.significand {
      Scale(x.significand, y.significand, a);
    } else if y.significand < x.significand {
      Scale(y.significand, x.significand, a);
    }
  }

  /** Two finite floats have the same code exactly when they have the same size. */
  lemma CodeDecidesMagnitude(fmt: Format, x: Float, y: Float)
    requires Canonical(fmt, x) && Canonical(fmt, y) && x.Finite? && y.Finite?
    ensures Code(fmt, x) == Code(fmt, y) <==> Magnitude(fmt, x) == Magnitude(fmt, y)
    ensures Magnitude(fmt, x) == 0 <==> x.significand == 0
  {
    assert x.significand > 0 ==> Magnitude(fmt, x) > 0 by { Grow(Pow2(x.exponent - fmt.least), if x.significand > 0 then x.significand else 1); }
    if x.exponent < y.exponent {
      HigherExponent(fmt, x, y);
    } else if y.exponent < x.exponent {
      HigherExponent(fmt, y, x);
    } else {
      SameExponent(fmt, x, y);
    }
  }

  lemma CodeRange(fmt: Format, f: Float)
    requires Canonical(fmt, f) && !f.NaN?
    ensures 0 <= Code(fmt, f) <= (fmt.greatest - fmt.least + 2) * Pow2(fmt.precision - 1)
    ensures f.Finite? ==> Code(fmt, f) < (fmt.greatest - fmt.least + 2) * Pow2(fmt.precision - 1)
  {
    if f.Finite? {
      var half, i, n := Pow2(fmt.precision - 1), f.exponent - fmt.least, fmt.greatest - fmt.least + 2;
      Scale(i + 1, n, half);
      assert (i + 2) * half == i * half + 2 * half;
    } else {
      Scale(0, fmt.greatest - fmt.least + 2, Pow2(fmt.precision - 1));
    }
  }

  /** Two floats other than NaN have the same bits, up to the sign of zero, exactly when they
      compare equal; and the bits fit the width of the format. */
  lemma BitsDecideEquality(fmt: Format, width: nat, x: Float, y: Float)
    requires Canonical(fmt, x) && Canonical(fmt, y) && !x.NaN? && !y.NaN? && Fits(fmt, width)
    ensures Bits(fmt, width, Unsigned(x)) == Bits(fmt, width, Unsigned(y)) <==> CompareFloats(fmt, x, y) == 0
    ensures 0 <= Bits(fmt, width, Unsigned(x)) < 2 * Pow2(width)
  {
    CodeRange(fmt, x);
    CodeRange(fmt, y);
    assert Code(fmt, Unsigned(x)) == Code(fmt, x) && Code(fmt, Unsigned(y)) == Code(fmt, y);
    if x.Finite? && y.Finite? {
      CodeDecidesMagnitude(fmt, x, y);
      CodeDecidesMagnitude(fmt, y, x);
    }
  }

  /** IEEE equality: NaN differs from everything, the two zeros are equal. */
  predicate EqualFloats(fmt: Format, x: Float, y: Float)
    requires Canonical(fmt, x) && Canonical(fmt, y)
  {
    match (x, y)
    case (NaN(_, _), _) => false
    case (_, NaN(_, _)) => false
    case (Finite(_, _, _), Finite(_, _, _)) => Units(fmt, x) == Units(fmt, y)
    case (_, _) => x == y
  }

  /** An integer in 64-bit range, written as a float. */
  predicate Integral(fmt: Format, f: Float)
    requires IsFormat(fmt) && Canonical(fmt, f)
  {
    f.Finite? && -LIMIT * One(fmt) <= Units(fmt, f) < LIMIT * One(fmt) && Whole(fmt, f) * One(fmt) == Units(fmt, f)
  }

  function Whole(fmt: Format, f: Float): int
    requires fmt.least < 0 && Canonical(fmt, f) && f.Finite?
  {
    Truncate(fmt, Units(fmt, f))
  }

  predicate IntegerEqualsFloat(fmt: Format, n: Int64, f: Float)
    requires IsFormat(fmt) && Canonical(fmt, f)
  {
    Integral(fmt, f) && Whole(fmt, f) == n
  }

  lemma WholeInRange(fmt: Format, f: Float)
    requires IsFormat(fmt) && Canonical(fmt, f) && Integral(fmt, f)
    ensures -LIMIT <= Whole(fmt, f) < LIMIT
  {
    var n, one := Whole(fmt, f), One(fmt);
    if n >= LIMIT {
      Scale(LIMIT - 1, n, one);
    } else if n < -LIMIT {
      Scale(n, -LIMIT, one);
    }
  }

  /** An integer equals a float exactly when the float is finite and stands for that integer. */
  lemma IntegerEqualsExactly(fmt: Format, n: Int64, f: Float)
    requires IsFormat(fmt) && Canonical(fmt, f)
    ensures IntegerEqualsFloat(fmt, n, f) <==> f.Finite? && Units(fmt, f) == n * One(fmt)
  {
    if f.Finite? && Units(fmt, f) == n * One(fmt) {
      WholeOfProduct(fmt, n);
      InRange(n, One(fmt));
    }
  }

  lemma InRange(n: Int64, one: nat)
    requires one > 0
    ensures -LIMIT * one <= n * one < LIMIT * one
  {
    Scale(n, LIMIT, one);
    Scale(-LIMIT - 1, n, one);
  }

  lemma WholeOfProduct(fmt: Format, n: int)
    requires fmt.least < 0
    ensures Truncate(fmt, n * One(fmt)) == n
  {
    var one := One(fmt);
    DivideProduct(Abs(n), one);
    if n < 0 {
      Scale(n, 0, one);
      assert n * one == -(Abs(n) * one);
    } else {
      assert n * one == Abs(n) * one;
      if n > 0 { Scale(0, n, one); }
    }
  }

  /** Equal floats are integral together, with the same integer. */
  lemma EqualFloatsAreWholeTogether(fmt: Format, x: Float, y: Float)
    requires IsFormat(fmt) && Canonical(fmt, x) && Canonical(fmt, y)
    ensures EqualFloats(fmt, x, y) ==> Integral(fmt, x) == Integral(fmt, y)
    ensures Integral(fmt, x) && Integral(fmt, y) ==> (EqualFloats(fmt, x, y) <==> Whole(fmt, x) == Whole(fmt, y))
  {
  }

  lemma BitsDecideEqualFloats(fmt: Format, width: nat, x: Float, y: Float)
    requires Canonical(fmt, x) && Canonical(fmt, y) && !x.NaN? && !y.NaN? && Fits(fmt, width)
    ensures Bits(fmt, width, Unsigned(x)) == Bits(fmt, width, Unsigned(y)) <==> EqualFloats(fmt, x, y)
    ensures 0 <= Bits(fmt, width, Unsigned(x)) < 2 * Pow2(width)
  {
    BitsDecideEquality(fmt, width, x, y);
  }
}
