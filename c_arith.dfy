/**
 * The C++ integer operations the toolkit relies on, written out because
 * Dafny's own `/` and `%` on `int` are Euclidean while C++ truncates.
 */
module CArith {

  function Abs(x: int): int
  {
    if x < 0 then -x else x
  }

  /** `static_cast<int>(x)` of a double: the integer part, truncated toward zero. */
  function Trunc(x: real): (r: int)
    ensures 0.0 <= x ==> 0 <= r && r as real <= x < r as real + 1.0
    ensures x < 0.0 ==> r <= 0 && r as real - 1.0 < x <= r as real
  {
    if 0.0 <= x then x.Floor else -((-x).Floor)
  }

  /** C++ `a / b` on int: the quotient truncated toward zero. */
  function Div(a: int, b: int): (q: int)
    requires b != 0
    ensures 0 <= a ==> 0 <= a - q * b < Abs(b)
    ensures a < 0 ==> -Abs(b) < a - q * b <= 0
  {
    if 0 <= a && 0 < b then a / b
    else if 0 <= a then -(a / -b)
    else if 0 < b then -((-a) / b)
    else (-a) / (-b)
  }

  /** C++ `a % b` on int: the remainder takes the sign of the dividend. */
  function Rem(a: int, b: int): (r: int)
    requires b != 0
    ensures 0 <= a ==> 0 <= r < Abs(b)
    ensures a < 0 ==> -Abs(b) < r <= 0
  {
    a - Div(a, b) * b
  }

  /** A positive multiple of `b` lies on the same side of zero as `b`, and no nearer to it. */
  lemma {:induction false} PositiveMultiple(k: int, b: int)
    requires k >= 1
    ensures 0 <= b ==> k * b >= b
    ensures b < 0 ==> k * b <= b
    decreases k
  {
    if k > 1 {
      PositiveMultiple(k - 1, b);
      assert k * b == (k - 1) * b + b;
    }
  }

  /** A non-zero multiple of `b` is at least as large as `b` in magnitude. */
  lemma MultipleGrows(k: int, b: int)
    requires k != 0
    ensures Abs(k * b) >= Abs(b)
  {
    if k > 0 {
      PositiveMultiple(k, b);
    } else {
      PositiveMultiple(-k, b);
      assert k * b == -((-k) * b);
    }
  }

  /** On non-negative dividends the C++ remainder has period `|b|`. */
  lemma {:induction false} RemShift(a: int, b: int)
    requires b != 0 && 0 <= a && 0 <= a + b
    ensures Rem(a + b, b) == Rem(a, b)
  {
    var q1, q2 := Div(a + b, b), Div(a, b);
    var k := 1 - q1 + q2;
    assert k * b == b - q1 * b + q2 * b;
    SameRemainder(Rem(a + b, b), Rem(a, b), b, k);
  }

  /** Two remainders in `[0, |b|)` that differ by a multiple of `b` are equal. */
  lemma SameRemainder(r1: int, r2: int, b: int, k: int)
    requires 0 <= r1 < Abs(b) && 0 <= r2 < Abs(b)
    requires r1 - r2 == k * b
    ensures r1 == r2
  {
    if k != 0 {
      MultipleGrows(k, b);
    }
  }

  /** Truncation toward zero is monotone. */
  lemma TruncMonotone(x: real, y: real)
    requires x <= y
    ensures Trunc(x) <= Trunc(y)
  {
  }

  /** A value truncates to a non-negative integer exactly when it exceeds -1. */
  lemma TruncNonNegative(x: real)
    ensures 0 <= Trunc(x) <==> -1.0 < x
  {
  }

  /** `Trunc` is pinned down by the unit interval on the side of zero where `x` lies. */
  lemma TruncBetween(x: real, q: int)
    requires (0.0 <= x && q as real <= x < q as real + 1.0) || (x <= 0.0 && q as real - 1.0 < x <= q as real)
    ensures Trunc(x) == q
  {
  }

  lemma NonNegativeProduct(x: real, y: real)
    requires 0.0 <= x && 0.0 <= y
    ensures 0.0 <= x * y
  {
  }

  /** A remainder smaller than a positive divisor gives a fraction in (-1, 1) of the remainder's sign. */
  lemma PositiveFraction(r: real, d: real)
    requires 0.0 < d && -d < r < d
    ensures 0.0 <= r ==> 0.0 <= r / d < 1.0
    ensures r <= 0.0 ==> -1.0 < r / d <= 0.0
  {
    var t := r / d;
    assert t * d == r;
    if t >= 1.0 {
      NonNegativeProduct(t - 1.0, d);
    }
    if t <= -1.0 {
      NonNegativeProduct(-1.0 - t, d);
    }
    if 0.0 <= r && t < 0.0 {
      NonNegativeProduct(-t, d);
    }
    if r <= 0.0 && t > 0.0 {
      NonNegativeProduct(t, d);
    }
  }

  lemma PositiveProduct(x: real, y: real)
    requires 0.0 < x && 0.0 < y
    ensures 0.0 < x * y
  {
  }

  /** Dividing by a positive number keeps the sign. */
  lemma QuotientSign(x: real, y: real)
    requires 0.0 < y
    ensures 0.0 <= x ==> 0.0 <= x / y
    ensures x <= 0.0 ==> x / y <= 0.0
  {
    var t := x / y;
    assert t * y == x;
    if t < 0.0 {
      PositiveProduct(-t, y);
    }
    if t > 0.0 {
      PositiveProduct(t, y);
    }
  }

  lemma DivideSum(q: real, r: real, y: real)
    requires y != 0.0
    ensures (q * y + r) / y == q + r / y
  {
    assert (q + r / y) * y == q * y + r;
  }

  /** `a / b` on reals, written as the C++ quotient plus a fraction. */
  lemma QuotientSplit(a: int, b: int, q: int, r: int)
    requires b != 0 && a == q * b + r
    ensures a as real / b as real == q as real + r as real / b as real
  {
    assert (q * b) as real == q as real * b as real;
    DivideSum(q as real, r as real, b as real);
  }

  lemma TruncOfQuotientPositive(a: int, b: int)
    requires 0 < b
    ensures Trunc(a as real / b as real) == Div(a, b)
  {
    var q := Div(a, b);
    var r := a - q * b;
    QuotientSplit(a, b, q, r);
    PositiveFraction(r as real, b as real);
    QuotientSign(a as real, b as real);
    TruncBetween(a as real / b as real, q);
  }

  lemma TruncOfQuotientNegative(a: int, b: int)
    requires b < 0
    ensures Trunc(a as real / b as real) == Div(a, b)
  {
    var q := Div(a, b);
    var r := a - q * b;
    QuotientSplit(a, b, q, r);
    assert (r as real) / (b as real) == (-r) as real / (-b) as real;
    assert (a as real) / (b as real) == (-a) as real / (-b) as real;
    PositiveFraction((-r) as real, (-b) as real);
    QuotientSign((-a) as real, (-b) as real);
    TruncBetween(a as real / b as real, q);
  }

  /** Converting a double quotient of two ints to int agrees with C++ integer division. */
  lemma TruncOfQuotient(a: int, b: int)
    requires b != 0
    ensures Trunc(a as real / b as real) == Div(a, b)
  {
    if 0 < b {
      TruncOfQuotientPositive(a, b);
    } else {
      TruncOfQuotientNegative(a, b);
    }
  }
}
