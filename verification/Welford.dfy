/** Streaming count, mean and sum of squared deviations, against their batch definitions. */
module Welford {

  datatype Stats = Stats(count: nat, mean: real, m2: real)

  const EMPTY := Stats(0, 0.0, 0.0)

  function Push(s: Stats, value: real): Stats {
    var count := s.count + 1;
    var delta := value - s.mean;
    var mean := s.mean + delta / count as real;
    Stats(count, mean, s.m2 + delta * (value - mean))
  }

  function Merge(left: Stats, right: Stats): Stats {
    if left.count == 0 then right
    else if right.count == 0 then left
    else Stats(left.count + right.count,
               MergedMean(left.mean, right.mean, left.count, right.count),
               left.m2 + right.m2 + MergedSpread(left.mean, right.mean, left.count, right.count))
  }

  function MergedMean(x: real, y: real, m: nat, n: nat): real
    requires m + n > 0
  {
    x + (y - x) * n as real / (m + n) as real
  }

  function MergedSpread(x: real, y: real, m: nat, n: nat): real
    requires m + n > 0
  {
    (y - x) * (y - x) * m as real * n as real / (m + n) as real
  }

  // ---- batch definitions ----

  function Sum(xs: seq<real>): real {
    if xs == [] then 0.0 else Sum(xs[..|xs| - 1]) + xs[|xs| - 1]
  }

  function Square(x: real): real {
    x * x
  }

  /** Sum of squared deviations from `c`. */
  function Deviation(xs: seq<real>, c: real): real {
    if xs == [] then 0.0 else Deviation(xs[..|xs| - 1], c) + Square(xs[|xs| - 1] - c)
  }

  function Mean(xs: seq<real>): real
    requires xs != []
  {
    Sum(xs) / |xs| as real
  }

  /** The plain statistics of a list. */
  function Batch(xs: seq<real>): Stats {
    if xs == [] then EMPTY else Stats(|xs|, Mean(xs), Deviation(xs, Mean(xs)))
  }

  // ---- deviations about an arbitrary point ----

  /** What statistics say about the sum of squared deviations from any point `c`. */
  function About(s: Stats, c: real): real {
    s.m2 + s.count as real * Square(s.mean - c)
  }

  /** One Welford update adds one sample, whatever the point of reference. */
  lemma PushAbout(s: Stats, x: real, c: real)
    ensures About(Push(s, x), c) == About(s, c) + Square(x - c)
  {
    var n := s.count as real;
    var d := (x - s.mean) / (n + 1.0);
    assert d * (n + 1.0) == x - s.mean;
    assert (s.count + 1) as real == n + 1.0;
    PushAlgebra(n, d, s.mean - c);
  }

  lemma PushAlgebra(n: real, d: real, a: real)
    ensures d * (n + 1.0) * (d * n) + (n + 1.0) * Square(a + d) == n * Square(a) + Square(a + d * (n + 1.0))
  {
    var e := d * (n + 1.0);
    assert e == d * n + d;
    assert Square(a + d) == Square(a) + 2.0 * (a * d) + d * d;
    assert Square(a + e) == Square(a) + 2.0 * (a * e) + e * e;
  }

  predicate EmptyIfNone(s: Stats) {
    s.count == 0 ==> s.mean == 0.0 && s.m2 == 0.0
  }

  /** One pairwise merge adds the samples of both sides, whatever the point of reference. */
  lemma MergeAbout(s: Stats, t: Stats, c: real)
    requires EmptyIfNone(s) && EmptyIfNone(t)
    ensures About(Merge(s, t), c) == About(s, c) + About(t, c)
  {
    if s.count > 0 && t.count > 0 {
      MergeSpread(s.mean, t.mean, s.count, t.count, c);
      MergeParts(s, t, c);
    }
  }

  lemma MergeParts(s: Stats, t: Stats, c: real)
    requires s.count > 0 && t.count > 0
    requires MergedSpread(s.mean, t.mean, s.count, t.count)
      + (s.count + t.count) as real * Square(MergedMean(s.mean, t.mean, s.count, t.count) - c)
      == s.count as real * Square(s.mean - c) + t.count as real * Square(t.mean - c)
    ensures About(Merge(s, t), c) == About(s, c) + About(t, c)
  {
  }

  lemma MergeSpread(x: real, y: real, m: nat, n: nat, c: real)
    requires m > 0 && n > 0
    ensures MergedSpread(x, y, m, n) + (m + n) as real * Square(MergedMean(x, y, m, n) - c)
            == m as real * Square(x - c) + n as real * Square(y - c)
  {
    var p, q, w := m as real, n as real, (m + n) as real;
    assert w == p + q;
    var d := (y - x) * q / w;
    assert d * w == (y - x) * q;
    var e := MergedSpread(x, y, m, n);
    assert e * w == (y - x) * (y - x) * p * q;
    SpreadAlgebra(p, q, w, x - c, y - c, d, e);
  }

  lemma SpreadAlgebra(p: real, q: real, w: real, a: real, b: real, d: real, e: real)
    requires w == p + q && w > 0.0
    requires d * w == (b - a) * q && e * w == (b - a) * (b - a) * p * q
    ensures e + w * Square(a + d) == p * Square(a) + q * Square(b)
  {
    var g := b - a;
    assert e == g * p * d by {
      assert (g * p * d) * w == g * p * (d * w);
      Cancel(e, g * p * d, w);
    }
    assert w * Square(a + d) == w * Square(a) + 2.0 * (a * (d * w)) + d * (d * w);
    assert g * p * d + d * (g * q) == g * (d * w);
    assert q * Square(b) == q * Square(a) + 2.0 * (a * (g * q)) + g * (g * q);
  }

  lemma Cancel(a: real, b: real, w: real)
    requires w > 0.0 && a * w == b * w
    ensures a == b
  {
    assert (a - b) * w == 0.0;
  }

  // ---- back to the batch definition ----

  lemma {:induction false} DeviationShift(xs: seq<real>)
    ensures Deviation(xs, 0.0) - Deviation(xs, 1.0) == 2.0 * Sum(xs) - |xs| as real
  {
    if xs != [] {
      DeviationShift(xs[..|xs| - 1]);
    }
  }

  lemma MeanIsDetermined(s: Stats, n: real, sum: real)
    requires n == s.count as real && n > 0.0
    requires About(s, 0.0) - About(s, 1.0) == 2.0 * sum - n
    ensures s.mean == sum / n
  {
    assert About(s, 0.0) - About(s, 1.0) == 2.0 * (s.mean * n) - n;
    assert sum / n * n == sum;
    Cancel(s.mean, sum / n, n);
  }

  lemma AboutItsMean(s: Stats)
    ensures About(s, s.mean) == s.m2
  {
  }

  /** Statistics that agree with a list about every point are the plain statistics of that list. */
  lemma AboutDeterminesStats(s: Stats, xs: seq<real>)
    requires EmptyIfNone(s) && s.count == |xs|
    requires forall c :: About(s, c) == Deviation(xs, c)
    ensures s == Batch(xs)
  {
    if xs != [] {
      DeviationShift(xs);
      assert About(s, 0.0) == Deviation(xs, 0.0) && About(s, 1.0) == Deviation(xs, 1.0);
      MeanIsDetermined(s, |xs| as real, Sum(xs));
      AboutItsMean(s);
      assert Deviation(xs, s.mean) == s.m2;
    }
  }
}
