/** Checked 64-bit money arithmetic of the checkout
    (modules/commerce/checkout_session.go:243-260). */
module Money {
  import opened Base

  const MIN_INT64: int := -0x8000_0000_0000_0000
  const MAX_INT64: int := 0x7fff_ffff_ffff_ffff
  const TWO_64: int := 0x1_0000_0000_0000_0000

  predicate InRange(x: int) { MIN_INT64 <= x <= MAX_INT64 }

  type Int64 = x: int | MIN_INT64 <= x <= MAX_INT64

  /** Two's-complement wrap-around. */
  function Wrap(x: int): (r: Int64) {
    (x - MIN_INT64) % TWO_64 + MIN_INT64
  }

  /** Go integer division: truncated toward zero, and wrapping for MIN / -1. */
  function GoDiv(a: Int64, b: Int64): Int64
    requires b != 0
  {
    Wrap(Truncated(a, b))
  }

  function Truncated(a: int, b: int): int
    requires b != 0
  {
    if a >= 0 then (if b > 0 then a / b else -(a / -b))
    else (if b > 0 then -(-a / b) else -a / -b)
  }

  function CheckedMultiply(a: Int64, b: Int64): Result<Int64> {
    if a == 0 || b == 0 then Ok(0)
    else
      var res := Wrap(a * b);
      if GoDiv(res, b) != a then Err(InvalidInput) else Ok(res)
  }

  function CheckedAdd(a: Int64, b: Int64): Result<Int64> {
    var res := Wrap(a + b);
    if (b > 0 && res < a) || (b < 0 && res > a) then Err(InvalidInput) else Ok(res)
  }

  /** What an overflow-checked operation should answer for the true value x. */
  function Exact(x: int): Result<Int64> {
    if InRange(x) then Ok(x) else Err(InvalidInput)
  }

  lemma WrapIdentity(x: int)
    ensures Wrap(x) == x <==> InRange(x)
  {
    if InRange(x) {
      assert 0 <= x - MIN_INT64 < TWO_64;
    }
  }

  lemma WrapCongruent(x: int) returns (k: int)
    ensures Wrap(x) == x + k * TWO_64
    ensures k == 0 <==> InRange(x)
  {
    k := -((x - MIN_INT64) / TWO_64);
    assert (x - MIN_INT64) == TWO_64 * ((x - MIN_INT64) / TWO_64) + (x - MIN_INT64) % TWO_64;
    WrapIdentity(x);
  }

  /** Addition detects overflow exactly, on every input. */
  lemma CheckedAddExact(a: Int64, b: Int64)
    ensures CheckedAdd(a, b) == Exact(a + b)
  {
    var k := WrapCongruent(a + b);
    assert -1 <= k <= 1 by {
      assert -TWO_64 <= a + b < TWO_64;
    }
  }

  /** A quotient truncates to q only when the dividend lies within one divisor of q * b. */
  lemma TruncatedNear(a: int, b: int)
    requires b != 0
    ensures var q := Truncated(a, b); var d := a - q * b; -Abs(b) < d < Abs(b)
  {
    var m := if a >= 0 then a else -a;
    var n := Abs(b);
    assert m == n * (m / n) + m % n;
    var q := Truncated(a, b);
    if a >= 0 {
      if b > 0 { assert q * b == n * (m / n); } else { assert q * b == n * (m / n) by { assert q == -(m / n) && b == -n; } }
    } else {
      if b > 0 { assert q * b == -(n * (m / n)) by { assert q == -(m / n) && b == n; } } else { assert q * b == -(n * (m / n)) by { assert q == m / n && b == -n; } }
    }
  }

  function Abs(x: int): int { if x < 0 then -x else x }

  lemma TruncatedExact(q: int, b: int)
    requires b != 0
    ensures Truncated(q * b, b) == q
  {
    var a := q * b;
    TruncatedNear(a, b);
    var p := Truncated(a, b);
    assert (q - p) * b == a - p * b;
    if p != q {
      MulFar(q - p, b);
    }
  }

  lemma MulAtLeast(m: int, n: int)
    requires m >= 1 && n >= 0
    ensures m * n >= n
  {
    assert m * n == n + (m - 1) * n;
  }

  lemma MulFar(x: int, b: int)
    requires x != 0 && b != 0
    ensures x * b <= -Abs(b) || Abs(b) <= x * b
  {
    var m, n := Abs(x), Abs(b);
    MulAtLeast(m, n);
    if (x > 0) == (b > 0) {
      assert x * b == m * n by { if x < 0 { assert (-m) * (-n) == m * n; } }
    } else {
      assert x * b == -(m * n) by { if x < 0 { assert (-m) * n == -(m * n); } else { assert m * (-n) == -(m * n); } }
    }
  }

  lemma TruncatedBound(a: Int64, b: Int64)
    requires b != 0
    ensures InRange(Truncated(a, b)) <==> !(a == MIN_INT64 && b == -1)
  {
    if b == -1 {
      assert Truncated(a, b) == -(a as int);
    } else {
      QuotientShrinks(Abs(a), Abs(b));
    }
  }

  lemma QuotientShrinks(m: int, n: int)
    requires m >= 0 && n >= 1
    ensures 0 <= m / n <= m
    ensures n >= 2 ==> m / n <= m / 2
  {
    var q := m / n;
    assert m == n * q + m % n;
    assert q >= 0;
    if n >= 2 {
      DivMonotone(m, n);
    }
  }

  lemma DivMonotone(m: int, n: int)
    requires m >= 0 && n >= 2
    ensures 0 <= m / n <= m / 2
  {
    var q := m / n;
    assert m == n * q + m % n;
    assert q >= 0;
    assert n * q >= 2 * q;
  }

  /** Multiplication detects overflow exactly, except for MIN * -1, which Go's
      wrapping division lets through as the wrong value MIN. */
  lemma CheckedMultiplyExact(a: Int64, b: Int64)
    ensures CheckedMultiply(a, b) == Exact(a * b) <==> !(a == MIN_INT64 && b == -1)
  {
    if a == 0 || b == 0 {
      assert a * b == 0;
    } else {
      var p := a * b;
      var res := Wrap(p);
      var k := WrapCongruent(p);
      TruncatedBound(res, b);
      WrapIdentity(Truncated(res, b));
      assert res - p == k * TWO_64;
      assert k != 0 ==> k * TWO_64 >= TWO_64 || k * TWO_64 <= -TWO_64;
      if InRange(p) {
        assert res == p;
        TruncatedExact(a, b);
      } else if Truncated(res, b) == a {
        TruncatedNear(res, b);
        assert false;
      } else if res == MIN_INT64 && b == -1 {
        assert p == -(a as int);
        assert a == MIN_INT64;
      }
    }
  }

  /** The one wrong answer, as a concrete input. */
  lemma CheckedMultiplyMissesMinTimesMinusOne()
    ensures CheckedMultiply(MIN_INT64, -1) == Ok(MIN_INT64)
    ensures Exact(MIN_INT64 * -1) == Err(InvalidInput)
  {
    assert MIN_INT64 * -1 == MAX_INT64 + 1;
    assert Wrap(MAX_INT64 + 1) == MIN_INT64;
    assert Truncated(MIN_INT64, -1) == MAX_INT64 + 1;
  }
}
