/**
 * Frame timing of a sprite-sheet animation: how the elapsed playback time is
 * mapped to a frame index (src/Engine/Animation.cpp, `update`).
 *
 * Time is an exact real. The C library's `fmod` and the C++ conversion
 * `static_cast<int>` both truncate toward zero, for negative operands too;
 * `Trunc` and `FMod` model them for every sign.
 */
module AnimationTiming {

  function AbsInt(n: int): int {
    if n < 0 then -n else n
  }

  /** `static_cast<int>` of a real: the integer part, rounded toward zero. */
  function Trunc(x: real): (i: int)
    ensures 0.0 <= x ==> 0 <= i && i as real <= x < i as real + 1.0
    ensures x <= 0.0 ==> i <= 0 && i as real - 1.0 < x <= i as real
  {
    if x >= 0.0 then x.Floor else -((-x).Floor)
  }

  /** The part of q that truncation drops: in [0, 1) for q >= 0, in (-1, 0] for q <= 0. */
  function Frac(q: real): (f: real)
    ensures 0.0 <= q ==> 0.0 <= f < 1.0
    ensures q <= 0.0 ==> -1.0 < f <= 0.0
  {
    q - Trunc(q) as real
  }

  /**
   * C `fmod(t, d)`: t minus the whole multiple of d whose quotient is t / d
   * truncated toward zero. Divided by d it is the part of t / d that
   * truncation drops; for a positive d it has the sign of t and lies
   * strictly within (-d, d).
   */
  function FMod(t: real, d: real): (r: real)
    requires d != 0.0
    ensures r / d == Frac(t / d)
    ensures 0.0 < d && 0.0 <= t ==> 0.0 <= r < d
    ensures 0.0 < d && t <= 0.0 ==> -d < r <= 0.0
  {
    var r := t - d * Trunc(t / d) as real;
    RemainderOverDivisor(t, d, Trunc(t / d) as real);
    RemainderRange(t, d, r);
    r
  }

  lemma RemainderOverDivisor(t: real, d: real, i: real)
    requires d != 0.0
    ensures (t - d * i) / d == t / d - i
  {
  }

  /**
   * A value r whose quotient by d is the part of t / d that truncation
   * drops has, for d > 0, the sign of t and lies strictly within (-d, d).
   */
  lemma RemainderRange(t: real, d: real, r: real)
    requires d != 0.0 && r / d == Frac(t / d)
    ensures 0.0 < d && 0.0 <= t ==> 0.0 <= r < d
    ensures 0.0 < d && t <= 0.0 ==> -d < r <= 0.0
  {
    if 0.0 < d {
      QuotientTimesDivisor(r, d, Frac(t / d));
      QuotientSign(t, d);
      if 0.0 <= t {
        FractionOfPositive(Frac(t / d), d, r);
      }
      if t <= 0.0 {
        NegativeFractionOfPositive(Frac(t / d), d, r);
      }
    }
  }

  lemma QuotientTimesDivisor(r: real, d: real, f: real)
    requires d != 0.0 && r / d == f
    ensures r == f * d
  {
    assert r == (r / d) * d;
  }

  /** With a positive divisor the quotient has the sign of the dividend. */
  lemma QuotientSign(t: real, d: real)
    requires 0.0 < d
    ensures 0.0 <= t ==> 0.0 <= t / d
    ensures t <= 0.0 ==> t / d <= 0.0
  {
  }

  /** A fraction p in [0, 1) of a positive m: r == p * m is in [0, m). */
  lemma FractionOfPositive(p: real, m: real, r: real)
    requires 0.0 <= p < 1.0 && 0.0 < m && r == p * m
    ensures 0.0 <= r < m
  {
    assert p * m < 1.0 * m;
  }

  /** A fraction p in (-1, 0] of a positive m: r == p * m is in (-m, 0]. */
  lemma NegativeFractionOfPositive(p: real, m: real, r: real)
    requires -1.0 < p <= 0.0 && 0.0 < m && r == p * m
    ensures -m < r <= 0.0
  {
    assert p * m > -1.0 * m;
  }

  /** A fraction p in [0, 1) of a negative m: r == p * m is in (m, 0]. */
  lemma FractionOfNegative(p: real, m: real, r: real)
    requires 0.0 <= p < 1.0 && m < 0.0 && r == p * m
    ensures m < r <= 0.0
  {
    assert p * m > 1.0 * m;
  }

  /** A fraction p in (-1, 0] of a negative m: r == p * m is in [0, -m). */
  lemma NegativeFractionOfNegative(p: real, m: real, r: real)
    requires -1.0 < p <= 0.0 && m < 0.0 && r == p * m
    ensures 0.0 <= r < -m
  {
    assert p * m < -1.0 * m;
  }

  /**
   * The unmirrored frame index of `update`,
   * `static_cast<int>(fmod(t, d) / d * n)`: 0 when there are no frames,
   * below |n| in magnitude otherwise, and a valid index of [0, n) whenever
   * time and duration have the same sign.
   */
  function FrameIndex(t: real, d: real, n: int): (k: int)
    requires d != 0.0
    ensures n == 0 ==> k == 0
    ensures n != 0 ==> -AbsInt(n) < k < AbsInt(n)
    ensures 0.0 <= t / d && 0 < n ==> 0 <= k < n
  {
    var phase := FMod(t, d) / d;
    ScaledPhaseRange(phase, n);
    TruncWithin(phase * n as real, n);
    Trunc(phase * n as real)
  }

  /** A phase in (-1, 1) times n lies strictly within (-|n|, |n|), and is non-negative when phase and n are. */
  lemma ScaledPhaseRange(phase: real, n: int)
    requires -1.0 < phase < 1.0
    ensures n == 0 ==> phase * n as real == 0.0
    ensures n != 0 ==> -AbsInt(n) as real < phase * n as real < AbsInt(n) as real
    ensures 0.0 <= phase && 0 < n ==> 0.0 <= phase * n as real
  {
    var m, r := n as real, phase * n as real;
    if 0 < n {
      if 0.0 <= phase {
        FractionOfPositive(phase, m, r);
      } else {
        NegativeFractionOfPositive(phase, m, r);
      }
    } else if n < 0 {
      if 0.0 <= phase {
        FractionOfNegative(phase, m, r);
      } else {
        NegativeFractionOfNegative(phase, m, r);
      }
    } else {
      assert r == phase * 0.0 == 0.0;
    }
  }

  /** Truncating a value strictly within (-|n|, |n|) gives an integer strictly within it too. */
  lemma TruncWithin(x: real, n: int)
    requires n == 0 ==> x == 0.0
    requires n != 0 ==> -AbsInt(n) as real < x < AbsInt(n) as real
    ensures n == 0 ==> Trunc(x) == 0
    ensures n != 0 ==> -AbsInt(n) < Trunc(x) < AbsInt(n)
    ensures 0.0 <= x ==> 0 <= Trunc(x)
  {
  }

  /**
   * The frame `update` stores: the frame index multiplied by the X-mirror sign
   * (the frame index itself is negated when mirrored, as in the source).
   */
  function FrameFor(t: real, d: real, n: int, mirrorX: int): (f: int)
    requires d != 0.0
    requires mirrorX == 1 || mirrorX == -1
    ensures n == 0 ==> f == 0
    ensures n != 0 ==> -AbsInt(n) < f < AbsInt(n)
    ensures 0.0 <= t / d && 0 < n && mirrorX == 1 ==> 0 <= f < n
    ensures 0.0 <= t / d && 0 < n && mirrorX == -1 ==> -n < f <= 0
  {
    FrameIndex(t, d, n) * mirrorX
  }

  /** Mirroring negates the stored frame; unmirrored, it is the frame index itself. */
  lemma MirrorNegatesFrame(t: real, d: real, n: int)
    requires d != 0.0
    ensures FrameFor(t, d, n, -1) == -FrameFor(t, d, n, 1)
    ensures FrameFor(t, d, n, 1) == FrameIndex(t, d, n)
  {
  }

  /** Truncation commutes with adding a whole number to a non-negative value. */
  lemma TruncShift(q: real, k: nat)
    requires 0.0 <= q
    ensures Trunc(q + k as real) == Trunc(q) + k
    ensures Frac(q + k as real) == Frac(q)
  {
  }

  /** Adding k durations to t adds exactly k to the quotient t / d. */
  lemma QuotientShift(t: real, d: real, k: real)
    requires d != 0.0
    ensures (t + k * d) / d == t / d + k
  {
  }

  /** Looping: fmod(t + k * d, d) == fmod(t, d) for any whole number k of durations. */
  lemma FModLoops(t: real, d: real, k: nat)
    requires 0.0 <= t && 0.0 < d
    ensures FMod(t + k as real * d, d) == FMod(t, d)
  {
    var t' := t + k as real * d;
    QuotientShift(t, d, k as real);
    QuotientSign(t, d);
    TruncShift(t / d, k);
    SameQuotient(FMod(t', d), FMod(t, d), d);
  }

  lemma SameQuotient(a: real, b: real, d: real)
    requires d != 0.0 && a / d == b / d
    ensures a == b
  {
    assert a == (a / d) * d;
  }

  /** Looping: the stored frame repeats after every whole number of durations. */
  lemma FrameLoops(t: real, d: real, n: int, mirrorX: int, k: nat)
    requires 0.0 <= t && 0.0 < d
    requires mirrorX == 1 || mirrorX == -1
    ensures FrameFor(t + k as real * d, d, n, mirrorX) == FrameFor(t, d, n, mirrorX)
  {
    FModLoops(t, d, k);
  }

  /** After exactly one duration of playback the animation is back at its first frame. */
  lemma FullLoopRestarts(d: real, n: int, mirrorX: int)
    requires 0.0 < d
    requires mirrorX == 1 || mirrorX == -1
    ensures FrameFor(d, d, n, mirrorX) == FrameFor(0.0, d, n, mirrorX) == 0
  {
    FrameLoops(0.0, d, n, mirrorX, 1);
    assert FMod(0.0, d) == 0.0;
  }
}
