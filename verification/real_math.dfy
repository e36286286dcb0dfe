/** Real-number helpers that stand in for the JavaScript `Math` calls and
    counting loops of the simulations. */
module RealMath {

  function Abs(x: real): (r: real)
    ensures r >= 0.0
    ensures r == x || r == -x
  {
    if x < 0.0 then -x else x
  }

  function Min(a: real, b: real): (r: real)
    ensures r <= a && r <= b
    ensures r == a || r == b
  {
    if a <= b then a else b
  }

  function Max(a: real, b: real): (r: real)
    ensures r >= a && r >= b
    ensures r == a || r == b
  {
    if a >= b then a else b
  }

  /** `Math.floor` on a finite number. */
  function Floor(x: real): (n: int)
    ensures n as real <= x < n as real + 1.0
  {
    x.Floor
  }

  /** Number of iterations of `for (let i = 0; i < x; i++)`: the least natural
      number that is not below `x`. */
  function LoopCount(x: real): (n: nat)
    ensures x <= n as real
    ensures n == 0 || (n - 1) as real < x
    ensures n > 0 <==> x > 0.0
  {
    if x <= 0.0 then 0 else -((-x).Floor)
  }

  /** Every natural below the loop count passes the loop test `i < x`, and the
      loop count itself fails it. */
  lemma LoopCountIterations(x: real, i: nat)
    ensures i < LoopCount(x) <==> (i as real) < x
  {
  }

  /** Limit a move to at most `limit` in either direction, as
      `if (Math.abs(d) > limit) d = d > 0 ? limit : -limit`. */
  function Clamp(d: real, limit: real): (r: real)
    requires limit > 0.0
    ensures -limit <= r <= limit
    ensures Abs(d) <= limit ==> r == d
    ensures Abs(d) > limit ==> (d > 0.0 <==> r > 0.0) && Abs(r) == limit
  {
    if Abs(d) > limit then (if d > 0.0 then limit else -limit) else d
  }

  /** A value scaled by a factor in [lo, hi) with lo >= 0 stays within
      `bound * hi` of zero when the value is within `bound` of zero. */
  lemma ScaledBound(d: real, bound: real, f: real, lo: real, hi: real)
    requires 0.0 <= lo <= f < hi
    requires -bound <= d <= bound
    ensures -bound * hi <= d * f <= bound * hi
  {
    if d >= 0.0 {
      assert d * f <= bound * f;
      assert bound * f <= bound * hi;
    } else {
      assert d * f >= -bound * f;
      assert -bound * f >= -bound * hi;
    }
  }

  lemma MulDivSwap(x: real, d: real, r: real)
    requires r != 0.0
    ensures x * (d / r) == (x / r) * d
  {
    assert x * (d / r) == (x * d) / r;
    assert (x / r) * d == (x * d) / r;
  }

  lemma DivCancel(x: real, d: real, r: real)
    requires r != 0.0 && x == r
    ensures x * (d / r) == d
  {
  }

  lemma MulNonNegative(x: real, y: real)
    requires 0.0 <= x && 0.0 <= y
    ensures 0.0 <= x * y
  {
  }

  /** `a + f * (b - a)` with `f` in [0, 1] lies between `a` and `b`. */
  lemma Between(a: real, b: real, f: real)
    requires 0.0 <= f <= 1.0
    ensures Min(a, b) <= a + f * (b - a) <= Max(a, b)
  {
    var d := b - a;
    var x := a + f * d;
    assert b - x == (1.0 - f) * d;
    if a <= b {
      MulNonNegative(f, d);
      MulNonNegative(1.0 - f, d);
    } else {
      MulNonNegative(f, -d);
      MulNonNegative(1.0 - f, -d);
      assert f * d == -(f * -d);
      assert (1.0 - f) * d == -((1.0 - f) * -d);
    }
  }
}
