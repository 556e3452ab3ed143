/** Values shared by every part of the engine: optional and fallible results,
    the `Math.min`/`Math.max`/`Math.abs` helpers, and `Math.round` with the
    decimal `round(value, digits)` built on it. Numbers are reals: IEEE-754
    rounding is not modelled. */
module Base {

  /** `T | undefined` in the source. */
  datatype Option<+T> = None | Some(value: T)

  /** A value, or the error the source throws. */
  datatype Result<+T, +E> = Ok(value: T) | Err(error: E)

  function Min(a: real, b: real): real { if a <= b then a else b }

  function Max(a: real, b: real): real { if a >= b then a else b }

  function Abs(x: real): real { if x < 0.0 then -x else x }

  /** `Math.round`: the nearest integer, halves rounded towards +infinity. */
  function RoundInt(x: real): int { (x + 0.5).Floor }

  function Pow10(digits: nat): (p: real)
    ensures p >= 1.0
  {
    if digits == 0 then 1.0 else 10.0 * Pow10(digits - 1)
  }

  /** `Math.round(value * scale) / scale`. */
  function RoundScaled(x: real, scale: real): real
    requires scale > 0.0
  {
    (RoundInt(x * scale) as real) / scale
  }

  /** `round(value, digits)` of prescribe.ts and weekly.ts:
      `Math.round(value * 10^digits) / 10^digits`. */
  function Round(x: real, digits: nat): real
  {
    RoundScaled(x, Pow10(digits))
  }

  /** A value that already has at most `digits` decimals. */
  predicate IsRounded(x: real, digits: nat)
  {
    Round(x, digits) == x
  }

  lemma RoundIntBounds(x: real)
    ensures x - 0.5 < RoundInt(x) as real <= x + 0.5
  {
  }

  lemma MulMonotone(a: real, b: real, p: real)
    requires a <= b && p >= 0.0
    ensures a * p <= b * p
  {
  }

  /** Multiplying by a positive factor can be undone by dividing by it. */
  lemma ScaleBack(u: real, c: real, p: real)
    requires p > 0.0
    ensures u * p <= c <==> u <= c / p
    ensures u * p < c <==> u < c / p
    ensures c <= u * p <==> c / p <= u
  {
    var q := c / p;
    assert q * p == c;
    assert u * p - q * p == (u - q) * p;
  }

  lemma DivMonotone(a: real, b: real, p: real)
    requires a <= b && p > 0.0
    ensures a / p <= b / p
  {
    ScaleBack(a / p, b, p);
  }

  lemma FloorMonotone(a: real, b: real)
    requires a <= b
    ensures a.Floor <= b.Floor
  {
  }

  lemma ScaledError(x: real, p: real)
    requires p > 0.0
    ensures -0.5 / p < RoundScaled(x, p) - x <= 0.5 / p
  {
    var n := RoundInt(x * p) as real;
    RoundIntBounds(x * p);
    var r := RoundScaled(x, p);
    assert r * p == n;
    var e := r - x;
    assert e * p == n - x * p;
    ScaleBack(e, 0.5, p);
    ScaleBack(e, -0.5, p);
  }

  /** `Math.round` is within half a unit of its argument. */
  lemma RoundError(x: real, digits: nat)
    ensures -0.5 / Pow10(digits) < Round(x, digits) - x <= 0.5 / Pow10(digits)
  {
    ScaledError(x, Pow10(digits));
  }

  lemma ScaledMonotone(x: real, y: real, p: real)
    requires x <= y && p > 0.0
    ensures RoundScaled(x, p) <= RoundScaled(y, p)
  {
    MulMonotone(x, y, p);
    FloorMonotone(x * p + 0.5, y * p + 0.5);
    DivMonotone(RoundInt(x * p) as real, RoundInt(y * p) as real, p);
  }

  /** Rounding a non-negative value gives a non-negative value. */
  lemma RoundNonNegative(x: real, digits: nat)
    requires x >= 0.0
    ensures Round(x, digits) >= 0.0
  {
    ScaledMonotone(0.0, x, Pow10(digits));
    assert RoundScaled(0.0, Pow10(digits)) == 0.0;
  }

  /** Rounding is monotone. */
  lemma RoundMonotone(x: real, y: real, digits: nat)
    requires x <= y
    ensures Round(x, digits) <= Round(y, digits)
  {
    ScaledMonotone(x, y, Pow10(digits));
  }

  lemma ScaledUnfold(x: real, p: real)
    requires p > 0.0
    ensures RoundScaled(x, p) == RoundInt(x * p) as real / p
  {
  }

  lemma ScaledOfMultiple(n: int, p: real)
    requires p > 0.0
    ensures RoundScaled(n as real / p, p) == n as real / p
  {
    var r := n as real / p;
    assert r * p == n as real;
    assert RoundInt(r * p) == n;
    ScaledUnfold(r, p);
  }

  lemma ScaledIdempotent(x: real, p: real)
    requires p > 0.0
    ensures RoundScaled(RoundScaled(x, p), p) == RoundScaled(x, p)
  {
    ScaledOfMultiple(RoundInt(x * p), p);
  }

  /** Rounding twice is rounding once: every result of `Round` is rounded. */
  lemma RoundIdempotent(x: real, digits: nat)
    ensures IsRounded(Round(x, digits), digits)
  {
    ScaledIdempotent(x, Pow10(digits));
  }
}
