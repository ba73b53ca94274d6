/** Geometry and timing shared by the arcade loops: the axis-aligned
    bounding-box overlap test, the hard clamp of the player to the
    playfield, and fixed-interval spawn timers. */
module Arcade {

  /** An axis-aligned rectangle with top-left corner (x, y), width w and
      height h, in canvas coordinates (y grows downwards). */
  datatype Box = Box(x: real, y: real, w: real, h: real)

  /** The strict overlap test every game writes out inline:
      `a.x < b.x+b.w && a.x+a.w > b.x && a.y < b.y+b.h && a.y+a.h > b.y`. */
  predicate Overlaps(a: Box, b: Box) {
    a.x < b.x + b.w && a.x + a.w > b.x && a.y < b.y + b.h && a.y + a.h > b.y
  }

  /** The test does not depend on which rectangle is named first, so the
      player-versus-enemy and bullet-versus-enemy tests agree whichever way
      round they are written. */
  lemma OverlapsSymmetric(a: Box, b: Box)
    ensures Overlaps(a, b) <==> Overlaps(b, a)
  {
  }

  /** Rectangles that only touch along an edge do not overlap. */
  lemma TouchingEdgesDoNotOverlap(a: Box, b: Box)
    requires a.x + a.w == b.x
    ensures !Overlaps(a, b) && !Overlaps(b, a)
  {
  }

  /** The hard clamp applied after the intent moves the player:
      `if (v < 0) v = 0; if (v + size > bound) v = bound - size;`.
      The two tests run in that order, so on a field narrower than the
      player the second one wins and the result is negative. */
  function ClampSpan(v: real, size: real, bound: real): (r: real)
    ensures size <= bound ==> 0.0 <= r <= bound - size
    ensures 0.0 <= v && v + size <= bound ==> r == v
    ensures bound < size ==> r == bound - size
    ensures 0.0 <= v ==> r <= v
  {
    var lo := if v < 0.0 then 0.0 else v;
    if lo + size > bound then bound - size else lo
  }

  /** `Math.max(lo, Math.min(hi, v))`. */
  function MaxMin(lo: real, hi: real, v: real): (r: real)
    ensures lo <= hi ==> lo <= r <= hi
    ensures lo <= v <= hi ==> r == v
  {
    var m := if hi < v then hi else v;
    if lo < m then m else lo
  }

  /** Does a counter that has just been incremented to `t` fire on a timer
      with the given period (`spawnTimer % period === 0`)? */
  predicate Fires(t: int, period: nat)
    requires period > 0
  {
    t % period == 0
  }

  /** How many of the ticks that take the counter from t to t + n fire. */
  function Firings(t: nat, n: nat, period: nat): nat
    requires period > 0
  {
    if n == 0 then 0
    else Firings(t, n - 1, period) + (if Fires(t + n, period) then 1 else 0)
  }

  lemma DivUnique(a: int, p: int, q: int, r: int)
    requires p > 0 && 0 <= r < p && a == q * p + r
    ensures a / p == q && a % p == r
  {
    var q', r' := a / p, a % p;
    assert a == q' * p + r';
    if q' < q {
      MulAtLeast(q - q', p);
    } else if q' > q {
      MulAtLeast(q' - q, p);
    }
  }

  lemma MulAtLeast(k: int, p: int)
    requires k >= 1 && p > 0
    ensures k * p >= p
  {
  }

  /** One more tick raises the number of finished periods by one exactly
      when the counter lands on a multiple of the period. */
  lemma DivStep(m: nat, p: nat)
    requires p > 0
    ensures (m + 1) / p == m / p + (if (m + 1) % p == 0 then 1 else 0)
  {
    var q, r := m / p, m % p;
    assert m == q * p + r;
    if r + 1 < p {
      DivUnique(m + 1, p, q, r + 1);
    } else {
      assert m + 1 == (q + 1) * p + 0;
      DivUnique(m + 1, p, q + 1, 0);
    }
  }

  /** A timer with period p fires once per p ticks: over the n ticks after
      the counter stood at t it fires (t + n) / p - t / p times. */
  lemma {:induction false} FiringsCount(t: nat, n: nat, period: nat)
    requires period > 0
    ensures Firings(t, n, period) == (t + n) / period - t / period
  {
    if n > 0 {
      FiringsCount(t, n - 1, period);
      DivStep(t + n - 1, period);
    }
  }
}
