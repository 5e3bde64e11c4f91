/**
 * JavaScript number operators that differ from Dafny's.
 * Dafny's `%` is Euclidean; JavaScript's `%` takes the sign of the dividend
 * (the quotient is truncated toward zero).
 */
module JsMath {
  /** `Math.trunc(r)`. */
  function Trunc(r: real): (t: int)
    ensures r >= 0.0 ==> 0.0 <= t as real <= r
    ensures r < 0.0 ==> r <= t as real <= 0.0
    ensures -1.0 < r - t as real < 1.0
  {
    if r >= 0.0 then r.Floor else -((-r).Floor)
  }

  /** `a % b` on JavaScript numbers, for a non-zero divisor. */
  function RealRem(a: real, b: real): (r: real)
    requires b != 0.0
    ensures a >= 0.0 ==> r >= 0.0
    ensures a <= 0.0 ==> r <= 0.0
    ensures b > 0.0 ==> -b < r < b
    ensures b < 0.0 ==> b < r < -b
  {
    var q := a / b;
    var t := Trunc(q);
    assert a - b * (t as real) == b * (q - t as real);
    ScaledFraction(a - b * (t as real), b, q - t as real);
    a - b * (t as real)
  }

  /** `r`, the divisor `b` times a fraction `f`, is smaller in magnitude than `b`. */
  lemma ScaledFraction(r: real, b: real, f: real)
    requires b != 0.0 && -1.0 < f < 1.0 && r == b * f
    ensures b > 0.0 ==> -b < r < b
    ensures b < 0.0 ==> b < r < -b
    ensures (b > 0.0 && f >= 0.0) || (b < 0.0 && f <= 0.0) ==> r >= 0.0
    ensures (b > 0.0 && f <= 0.0) || (b < 0.0 && f >= 0.0) ==> r <= 0.0
  {
    if b > 0.0 {
      assert b * (1.0 - f) > 0.0 && b * (1.0 + f) > 0.0;
    } else {
      assert (-b) * (1.0 - f) > 0.0 && (-b) * (1.0 + f) > 0.0;
    }
  }

  /** `a % b` on JavaScript integers, for a non-zero divisor. */
  function IntRem(a: int, b: int): (r: int)
    requires b != 0
    ensures a >= 0 ==> 0 <= r
    ensures a <= 0 ==> r <= 0
    ensures if b > 0 then -b < r < b else b < r < -b
    ensures (a - r) % b == 0
  {
    IntRemFacts(a, if b > 0 then b else -b);
    if a >= 0 then a % (if b > 0 then b else -b) else -((-a) % (if b > 0 then b else -b))
  }

  /** Removing a multiple of `m` leaves a number divisible by `m` and by `-m`. */
  lemma IntRemFacts(a: int, m: int)
    requires m > 0
    ensures (a - a % m) % m == 0 && (a - a % m) % (-m) == 0
    ensures a < 0 ==> (a + (-a) % m) % m == 0 && (a + (-a) % m) % (-m) == 0
  {
    var k := a / m;
    assert a - a % m == k * m;
    MultipleRem(k, m);
    if a < 0 {
      var j := (-a) / m;
      assert a + (-a) % m == (-j) * m;
      MultipleRem(-j, m);
    }
  }

  lemma MultipleRem(k: int, m: int)
    requires m > 0
    ensures (k * m) % m == 0 && (k * m) % (-m) == 0
  {
    var q, r := (k * m) / m, (k * m) % m;
    assert k * m == m * q + r && 0 <= r < m;
    assert r == m * (k - q);
    if k - q >= 1 {
      assert false;
    } else if k - q <= -1 {
      assert false;
    }
    var q2, r2 := (k * m) / (-m), (k * m) % (-m);
    assert k * m == (-m) * q2 + r2 && 0 <= r2 < m;
    assert r2 == m * (k + q2);
    if k + q2 >= 1 {
      assert false;
    } else if k + q2 <= -1 {
      assert false;
    }
  }

  lemma RealRemByOne(a: real)
    requires a >= 0.0
    ensures 0.0 <= RealRem(a, 1.0) < 1.0
    ensures RealRem(a, 1.0) == a - a.Floor as real
  {
  }

  lemma IntRemAgrees(a: int, b: int)
    requires a >= 0 && b > 0
    ensures IntRem(a, b) == a % b && 0 <= IntRem(a, b) < b
  {
  }
}
