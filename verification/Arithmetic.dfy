/** Checked multiplication and exponentiation on wrapping 64-bit integers. */
module Arithmetic {

  const MIN: int := -0x8000_0000_0000_0000
  const MAX: int := 0x7fff_ffff_ffff_ffff
  const TWO64: int := 0x1_0000_0000_0000_0000

  predicate Fits(x: int) {
    MIN <= x <= MAX
  }

  /** The value a 64-bit register holds after computing x. */
  function Wrap(x: int): int {
    (x - MIN) % TWO64 + MIN
  }

  /** Division as the source language defines it: truncation toward zero. */
  function Quotient(a: int, b: int): int
    requires b != 0
  {
    if a >= 0 then a / b else -((-a) / b)
  }

  function Abs(x: int): nat {
    if x < 0 then -x else x
  }

  datatype Checked = Value(value: int) | Overflow

  function CheckedProduct(left: int, right: int): Checked {
    if (left == MIN && right == -1) || (right == MIN && left == -1) then Overflow
    else
      var value := Wrap(left * right);
      if left != 0 && Quotient(value, left) != right then Overflow else Value(value)
  }

  lemma WrapIsCongruent(x: int) returns (k: int)
    ensures Fits(Wrap(x)) && Wrap(x) == x - k * TWO64
    ensures Fits(x) ==> k == 0
  {
    k := (x - MIN) / TWO64;
  }

  lemma QuotientIsNear(a: int, b: int)
    requires b != 0
    ensures Abs(a - b * Quotient(a, b)) < Abs(b)
  {
    var n := if a >= 0 then a else -a;
    assert n == b * (n / b) + n % b;
    assert a - b * Quotient(a, b) == if a >= 0 then n % b else -(n % b);
  }

  lemma QuotientIsExact(b: int, q: int)
    requires b != 0
    ensures Quotient(b * q, b) == q
  {
    QuotientIsNear(b * q, b);
    NearMultiple(b, q - Quotient(b * q, b));
    assert b * q - b * Quotient(b * q, b) == b * (q - Quotient(b * q, b));
  }

  /** A multiple of b closer to zero than b is zero. */
  lemma NearMultiple(b: int, d: int)
    requires b != 0
    ensures Abs(b * d) < Abs(b) ==> d == 0
  {
    if d > 0 {
      assert b > 0 ==> b * d >= b;
      assert b < 0 ==> b * d <= b;
    } else if d < 0 {
      assert b > 0 ==> b * d <= -b;
      assert b < 0 ==> b * d >= -b;
    }
  }

  /** The division test catches every wrap-around and nothing else. */
  lemma CheckedProductIsExact(left: int, right: int)
    requires Fits(left) && Fits(right)
    ensures CheckedProduct(left, right) == if Fits(left * right) then Value(left * right) else Overflow
  {
    var k := WrapIsCongruent(left * right);
    if left == 0 {
      assert left * right == 0;
    } else {
      var value := Wrap(left * right);
      QuotientIsExact(left, right);
      QuotientIsNear(value, left);
      if Quotient(value, left) == right {
        assert value - left * right == -k * TWO64;
        assert k == 0;
      }
    }
  }

  function Pow(b: int, e: nat): int {
    if e == 0 then 1 else b * Pow(b, e - 1)
  }

  lemma {:induction false} PowOfSquare(b: int, e: nat)
    ensures Pow(b, 2 * e) == Pow(b * b, e)
    ensures Pow(b, 2 * e + 1) == b * Pow(b * b, e)
  {
    if e > 0 {
      PowOfSquare(b, e - 1);
      assert Pow(b, 2 * e) == b * Pow(b, 2 * e - 1) == b * (b * Pow(b, 2 * e - 2));
      assert Pow(b * b, e) == (b * b) * Pow(b * b, e - 1);
      Reassociate(b, Pow(b * b, e - 1));
    }
  }

  lemma Reassociate(b: int, x: int)
    ensures b * (b * x) == (b * b) * x
  {
  }

  lemma {:induction false} PowGrows(b: int, e: nat)
    requires b >= 1
    ensures Pow(b, e) >= 1 && (e >= 1 ==> Pow(b, e) >= b)
  {
    if e > 0 {
      PowGrows(b, e - 1);
      AtLeast(b, Pow(b, e - 1));
    }
  }

  lemma AtLeast(a: int, x: int)
    requires a >= 1 && x >= 1
    ensures a * x >= a && a * x >= x
  {
  }

  /** Multiplying an overflowing value by a positive factor cannot bring it back. */
  lemma StaysOut(x: int, factor: int)
    requires !Fits(x) && factor >= 1
    ensures !Fits(x * factor)
  {
    if x > 0 {
      AtLeast(x, factor);
    } else {
      AtLeast(-x, factor);
      assert (-x) * factor == -(x * factor);
    }
  }

  /** 2^63 is not a square, so a square that overflows lies beyond both ends of the range. */
  lemma SquareOut(b: int)
    requires !Fits(b * b)
    ensures b * b > -MIN
  {
    var n := Abs(b);
    assert b * b == n * n;
    if n <= 3037000499 {
      SquareMonotone(n, 3037000499);
      assert 3037000499 * 3037000499 <= MAX;
    } else {
      SquareMonotone(3037000500, n);
      assert 3037000500 * 3037000500 > -MIN;
    }
  }

  lemma SquareMonotone(x: nat, y: nat)
    requires x <= y
    ensures x * x <= y * y
  {
    assert x * x <= x * y <= y * y;
  }

  lemma ScaledOut(value: int, x: int)
    requires value != 0 && x > -MIN
    ensures !Fits(value * x)
  {
    if value > 0 {
      AtLeast(value, x);
    } else {
      AtLeast(-value, x);
      assert (-value) * x == -(value * x);
    }
  }

  datatype Power = Exact(value: int) | OutOfRange | Fractional

  /** Square-and-multiply with a checked product at every step returns the true power exactly
      when that power fits; a negative exponent is left to floating point. */
  method IntegerPower(base: int, exponent: int) returns (r: Power)
    requires Fits(base) && Fits(exponent)
    ensures exponent < 0 ==> r == Fractional
    ensures exponent >= 0 ==> r == if Fits(Pow(base, exponent)) then Exact(Pow(base, exponent)) else OutOfRange
  {
    if exponent < 0 {
      return Fractional;
    }
    var value, b, e := 1, base, exponent;
    while e != 0
      invariant e >= 0 && Fits(value) && Fits(b)
      invariant value * Pow(b, e) == Pow(base, exponent)
      invariant value == 0 ==> b == 0
      decreases e
    {
      PowOfSquare(b, e / 2);
      ghost var rest := Pow(b * b, e / 2);
      if e % 2 == 1 {
        CheckedProductIsExact(value, b);
        OddStep(value, b, rest, Pow(base, exponent));
        var product := CheckedProduct(value, b);
        if product.Overflow? {
          OddOverflow(value, b, e / 2);
          return OutOfRange;
        }
        value := product.value;
      }
      e := e / 2;
      if e != 0 {
        CheckedProductIsExact(b, b);
        var square := CheckedProduct(b, b);
        if square.Overflow? {
          SquareOut(b);
          PowGrows(b * b, e);
          ScaledOut(value, Pow(b * b, e));
          return OutOfRange;
        }
        b := square.value;
      }
    }
    r := Exact(value);
  }

  lemma OddStep(value: int, b: int, rest: int, goal: int)
    requires value * (b * rest) == goal
    ensures (value * b) * rest == goal
    ensures value * b == 0 ==> value == 0 || b == 0
  {
  }

  lemma OddOverflow(value: int, b: int, e: nat)
    requires !Fits(value * b)
    ensures !Fits((value * b) * Pow(b * b, e))
  {
    assert b != 0;
    assert b * b >= 1;
    PowGrows(b * b, e);
    StaysOut(value * b, Pow(b * b, e));
  }
}
