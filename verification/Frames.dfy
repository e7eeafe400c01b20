/** Even frame sampling (gateway/media_preprocessing.py), in exact arithmetic with half-even rounding. */
module Frames {
  /** `round(n / d)`: to the nearest integer, to the even one from halfway. */
  function Rounded(n: nat, d: nat): (r: nat)
    requires d > 0
  {
    var q, rest := n / d, n % d;
    if 2 * rest < d || (2 * rest == d && q % 2 == 0) then q else q + 1
  }

  function Least(a: int, b: int): int { if a < b then a else b }

  function Most(a: int, b: int): int { if a < b then b else a }

  /** Frame `i` of `count`, whose ideal position is `i * (total - 1) / (count - 1)`. */
  function Frame(total: nat, count: nat, i: nat): (r: nat)
    requires total >= 1 && count >= 2
  {
    Least(Rounded(i * (total - 1), count - 1), total - 1)
  }

  // ---------------------------------------------------------------- rounding

  lemma Divides(n: nat, d: nat)
    requires d > 0
    ensures n == n / d * d + n % d && n % d < d
  {}

  lemma MulAtLeast(a: int, b: int, d: nat)
    requires a >= b
    ensures a * d >= b * d
  {
    var k: nat := a - b;
    assert k * d >= 0;
    assert a * d == b * d + k * d;
  }

  lemma OneMore(q: nat, d: nat)
    ensures (q + 1) * d == q * d + d
  {}

  /** A rounded quotient is at most half a step off. */
  lemma RoundedNear(n: nat, d: nat)
    requires d > 0
    ensures 2 * n - d <= 2 * (Rounded(n, d) * d) <= 2 * n + d
  {
    Divides(n, d);
    assert (n / d + 1) * d == n / d * d + d;
  }

  /** `r` is nearest to `n / d`; from halfway it is even. */
  predicate Nearest(n: nat, d: nat, r: int) {
    && 2 * n - d <= 2 * (r * d) <= 2 * n + d
    && (2 * n - d == 2 * (r * d) || 2 * (r * d) == 2 * n + d ==> r % 2 == 0)
  }

  lemma RoundedIsNearest(n: nat, d: nat)
    requires d > 0
    ensures Nearest(n, d, Rounded(n, d))
  {
    Divides(n, d);
    OneMore(n / d, d);
  }

  /** Quotients more than one apart round to different integers; from halves exactly one apart they may not. */
  lemma RoundedGrows(n: nat, m: nat, d: nat)
    requires d > 0 && m > n + d
    ensures Rounded(n, d) < Rounded(m, d)
  {
    Divides(n, d);
    Divides(m, d);
    var q, p := n / d, m / d;
    if p <= q {
      MulAtLeast(q, p, d);
    } else if p == q + 1 {
      assert p * d == q * d + d;
    }
  }

  lemma RoundedExact(i: nat, d: nat)
    requires d > 0
    ensures Rounded(i * d, d) == i
  {
    Divides(i * d, d);
    var q := i * d / d;
    if q < i {
      MulAtLeast(i, q + 1, d);
      OneMore(q, d);
    } else if q > i {
      MulAtLeast(q, i + 1, d);
      OneMore(i, d);
    }
  }

  lemma RoundedAtMost(n: nat, d: nat, most: nat)
    requires d > 0 && n <= most * d
    ensures Rounded(n, d) <= most
  {
    RoundedExact(most, d);
    if n < most * d {
      Divides(n, d);
      if n / d >= most { MulAtLeast(n / d, most, d); }
    }
  }

  // ---------------------------------------------------------------- frames

  /** The cap on the last index never takes effect. */
  lemma FrameIsRounded(total: nat, count: nat, i: nat)
    requires 2 <= count <= total && i < count
    ensures Frame(total, count, i) == Rounded(i * (total - 1), count - 1) <= total - 1
  {
    MulAtLeast(count - 1, i, total - 1);
    assert (total - 1) * (count - 1) == (count - 1) * (total - 1);
    RoundedAtMost(i * (total - 1), count - 1, total - 1);
  }

  lemma FrameGrows(total: nat, count: nat, i: nat)
    requires 2 <= count <= total && i + 1 < count
    ensures Frame(total, count, i) < Frame(total, count, i + 1)
  {
    hide Rounded, Frame;
    OneMore(i, total - 1);
    FrameIsRounded(total, count, i);
    FrameIsRounded(total, count, i + 1);
    if total == count {
      RoundedExact(i, count - 1);
      RoundedExact(i + 1, count - 1);
    } else {
      RoundedGrows(i * (total - 1), (i + 1) * (total - 1), count - 1);
    }
  }

  lemma RoundedGap(n: nat, m: nat, d: nat, step: nat)
    requires d > 0 && m == n + step
    ensures (Rounded(m, d) - Rounded(n, d)) * d <= step + d
  {
    hide Rounded;
    RoundedNear(n, d);
    RoundedNear(m, d);
    Distribute(Rounded(m, d), Rounded(n, d), d);
  }

  lemma Distribute(a: int, b: int, d: int)
    ensures (a - b) * d == a * d - b * d
  {}

  lemma FrameGap(total: nat, count: nat, i: nat)
    requires 2 <= count <= total && i + 1 < count
    ensures (Frame(total, count, i + 1) - Frame(total, count, i)) * (count - 1) <= (total - 1) + (count - 1)
  {
    hide Rounded, Frame;
    FrameIsRounded(total, count, i);
    FrameIsRounded(total, count, i + 1);
    OneMore(i, total - 1);
    RoundedGap(i * (total - 1), (i + 1) * (total - 1), count - 1, total - 1);
  }

  /** The first frame is the first of all, and the last one the last. */
  lemma FrameEnds(total: nat, count: nat)
    requires 2 <= count <= total
    ensures Frame(total, count, 0) == 0 && Frame(total, count, count - 1) == total - 1
  {
    hide Rounded, Frame;
    FrameIsRounded(total, count, 0);
    RoundedExact(0, count - 1);
    FrameIsRounded(total, count, count - 1);
    RoundedExact(total - 1, count - 1);
    Commute(count - 1, total - 1);
  }

  lemma Commute(a: int, b: int)
    ensures a * b == b * a
  {}

  lemma {:induction false} FramesIncrease(total: nat, count: nat, i: nat, j: nat)
    requires 2 <= count <= total && i < j < count
    ensures Frame(total, count, i) < Frame(total, count, j)
    decreases j
  {
    hide Frame;
    FrameGrows(total, count, j - 1);
    if i < j - 1 { FramesIncrease(total, count, i, j - 1); }
  }

  /** `math.ceil`. */
  function Ceil(x: real): int {
    -((-x).Floor)
  }

  /** How many frames are taken. */
  function TargetCount(totalFrames: int, sourceFps: real, sampleFps: real, maxFrames: int): (r: nat)
    ensures 1 <= r <= Most(totalFrames, 1) && r <= Most(maxFrames, 1)
  {
    var total := Most(totalFrames, 1);
    var source := if sourceFps < 0.001 then 0.001 else sourceFps;
    var sample := if sampleFps < 0.001 then 0.001 else sampleFps;
    Least(total, Least(Most(maxFrames, 1), Most(Ceil(total as real / source * sample), 1)))
  }

  /** A rate that is no less than a thousandth. */
  function Rate(fps: real): real {
    if fps < 0.001 then 0.001 else fps
  }

  /** How many frames the clip has at the sampling rate. */
  function Sampled(totalFrames: int, sourceFps: real, sampleFps: real): real {
    Most(totalFrames, 1) as real / Rate(sourceFps) * Rate(sampleFps)
  }

  lemma CeilIs(x: real)
    ensures Ceil(x) as real >= x && (Ceil(x) - 1) as real < x
  {}

  lemma TargetIs(totalFrames: int, sourceFps: real, sampleFps: real, maxFrames: int)
    ensures TargetCount(totalFrames, sourceFps, sampleFps, maxFrames)
         == Least(Most(totalFrames, 1), Least(Most(maxFrames, 1), Most(Ceil(Sampled(totalFrames, sourceFps, sampleFps)), 1)))
  {
    hide Ceil;
  }

  lemma BelowCeil(n: int, x: real)
    requires n < Ceil(x)
    ensures n as real < x
  {
    CeilIs(x);
    hide Ceil;
    assert n as real <= (Ceil(x) - 1) as real;
  }

  /** The least number of frames that reach the sampled length, unless the clip or the limit has fewer: then all of these. */
  lemma TargetIsLeast(totalFrames: int, sourceFps: real, sampleFps: real, maxFrames: int)
    ensures var r := TargetCount(totalFrames, sourceFps, sampleFps, maxFrames); var x := Sampled(totalFrames, sourceFps, sampleFps);
      && (r as real >= x || r == Most(totalFrames, 1) || r == Most(maxFrames, 1))
      && (r > 1 ==> (r - 1) as real < x)
  {
    TargetIs(totalFrames, sourceFps, sampleFps, maxFrames);
    hide Ceil, Sampled, TargetCount, Rate;
    var x, r := Sampled(totalFrames, sourceFps, sampleFps), TargetCount(totalFrames, sourceFps, sampleFps, maxFrames);
    CeilIs(x);
    if r > 1 { BelowCeil(r - 1, x); }
  }

  /** The distinct positions, as `sorted` lists them. */
  function Indices(total: nat, count: nat): (r: seq<nat>)
    requires 1 <= count <= total
    ensures |r| == count
  {
    if count == 1 then [0] else seq(count, i requires 0 <= i < count => Frame(total, count, i))
  }

  lemma IndexIs(total: nat, count: nat, i: nat)
    requires 2 <= count <= total && i < count
    ensures Indices(total, count)[i] == Frame(total, count, i)
  {
    hide Frame;
  }

  /** Each position is the integer nearest to its ideal place between the first frame and the last. */
  lemma FramesAreNearest(total: nat, count: nat, i: nat)
    requires 2 <= count <= total && i < count
    ensures Nearest(i * (total - 1), count - 1, Indices(total, count)[i])
  {
    IndexIs(total, count, i);
    FrameIsRounded(total, count, i);
    hide *;
    RoundedIsNearest(i * (total - 1), count - 1);
  }

  /** Strictly increasing from the first position to the last, with no gap beyond the ideal step plus one. */
  predicate Even(r: seq<nat>, total: nat, count: nat) {
    && |r| == count >= 1
    && (forall i, j | 0 <= i < j < |r| :: r[i] < r[j])
    && (forall i | 0 <= i < |r| :: r[i] < total)
    && r[0] == 0
    && (count >= 2 ==> r[count - 1] == total - 1)
    && forall i | 0 <= i < |r| - 1 :: GapAt(r, total, count, i)
  }

  predicate GapAt(r: seq<nat>, total: nat, count: nat, i: nat)
    requires i + 1 < |r|
  {
    (r[i + 1] - r[i]) * (count - 1) <= (total - 1) + (count - 1)
  }

  lemma IndicesEven(total: nat, count: nat)
    requires 2 <= count <= total
    ensures Even(Indices(total, count), total, count)
  {
    var r := Indices(total, count);
    hide Frame;
    forall i, j | 0 <= i < j < |r| ensures r[i] < r[j] { FramesIncrease(total, count, i, j); }
    forall i | 0 <= i < |r| ensures r[i] < total { FrameWithin(total, count, i); }
    forall i | 0 <= i < |r| - 1 ensures GapAt(r, total, count, i) { FrameGap(total, count, i); }
    FrameEnds(total, count);
  }

  lemma FrameWithin(total: nat, count: nat, i: nat)
    requires total >= 1 && count >= 2
    ensures Frame(total, count, i) < total
  {}

  /**
   Exactly the target number of frames, strictly increasing, so that sorting the set of positions
   neither drops nor moves one; from two frames on they reach from the first frame to the last,
   and no gap exceeds the ideal step by more than one.
   */
  lemma FramesAreEven(totalFrames: int, sourceFps: real, sampleFps: real, maxFrames: int)
    ensures var total, count := Most(totalFrames, 1), TargetCount(totalFrames, sourceFps, sampleFps, maxFrames);
      Even(Indices(total, count), total, count)
  {
    var total, count := Most(totalFrames, 1), TargetCount(totalFrames, sourceFps, sampleFps, maxFrames);
    hide TargetCount;
    if count >= 2 {
      hide Even, Indices;
      IndicesEven(total, count);
    }
  }
}
