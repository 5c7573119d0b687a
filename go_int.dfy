/** The parts of Go's signed 64-bit integer arithmetic that the scheduler
    plugin relies on: the int64 range and Go's truncating division. Dafny's
    own `/` on `int` is Euclidean, so the two are related by a lemma here. */
module GoInt {

  const INT64_MIN: int := -0x8000_0000_0000_0000
  const INT64_MAX: int := 0x7FFF_FFFF_FFFF_FFFF

  /** True when `x` is representable as a Go `int64`. */
  predicate InInt64(x: int) {
    INT64_MIN <= x <= INT64_MAX
  }

  function Abs(x: int): nat {
    if x < 0 then -x else x
  }

  /** Go's integer quotient `a / b`: truncated toward zero. It is the unique
      `q` whose remainder `a - q * b` is smaller than `b` in magnitude and is
      zero or has the sign of the dividend `a`. */
  function Quo(a: int, b: int): (q: int)
    requires b != 0
    ensures Abs(a - q * b) < Abs(b)
    ensures a - q * b == 0 || (a - q * b < 0 <==> a < 0)
  {
    if a >= 0 then
      if b > 0 then a / b else -(a / -b)
    else
      if b > 0 then -((-a) / b) else (-a) / (-b)
  }

  /** On a non-negative dividend and a positive divisor, truncating division
      and Dafny's Euclidean division agree. */
  lemma QuoIsFloor(a: int, b: int)
    requires a >= 0 && b > 0
    ensures Quo(a, b) == a / b
  {
  }

  lemma MulMonotone(x: int, y: int, m: int)
    requires x <= y && m >= 0
    ensures x * m <= y * m
  {
  }

  /** A positive factor can be cancelled from a strict inequality. */
  lemma MulCancelStrict(x: int, y: int, m: int)
    requires x * m < y * m && m > 0
    ensures x < y
  {
    if y <= x {
      MulMonotone(y, x, m);
    }
  }

  /** Euclidean division by a positive divisor is monotone in the dividend. */
  lemma DivMonotone(x: int, y: int, d: int)
    requires x <= y && d > 0
    ensures x / d <= y / d
  {
    var qx, qy := x / d, y / d;
    assert qx * d <= x;
    assert y < (qy + 1) * d;
    MulCancelStrict(qx, qy + 1, d);
  }

  /** Multiplying by `m` and dividing by `d` maps every `x` in `[0, d]` into
      `[0, m]`, with `0` going to `0` and `d` going to `m`. */
  lemma ScaledQuotientBounds(x: int, d: int, m: nat)
    requires 0 <= x <= d && d > 0
    ensures 0 <= (x * m) / d <= m
    ensures x == 0 ==> (x * m) / d == 0
    ensures x == d ==> (x * m) / d == m
  {
    MulMonotone(0, x, m);
    MulMonotone(x, d, m);
    DivMonotone(0, x * m, d);
    DivMonotone(x * m, d * m, d);
    assert (d * m) / d == m by {
      assert d * m == m * d + 0;
    }
  }
}
