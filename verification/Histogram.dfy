/** The benchmark's histogram (sqlite3/src/histogram.c), over the reals.  The bucket limits
    are any strictly increasing sequence of K positive numbers; the table of the source,
    from 1 to 1e200, is one. */
module Histogram {

  const K: nat := 154

  predicate LimitsOk(limits: seq<real>)
  {
    && |limits| == K && limits[0] > 0.0
    && forall a, b {:trigger limits[a], limits[b]} :: 0 <= a < b < K ==> limits[a] < limits[b]
  }

  // ---------- the samples ----------

  function Sum(s: seq<real>): real { if s == [] then 0.0 else Sum(s[..|s| - 1]) + s[|s| - 1] }

  function SumSquares(s: seq<real>): real
  {
    if s == [] then 0.0 else SumSquares(s[..|s| - 1]) + s[|s| - 1] * s[|s| - 1]
  }

  /** The least of `top` and the samples, and the greatest of `bottom` and the samples. */
  function Least(s: seq<real>, top: real): real
  {
    if s == [] then top else var m := Least(s[..|s| - 1], top); if m > s[|s| - 1] then s[|s| - 1] else m
  }

  function Greatest(s: seq<real>, bottom: real): real
  {
    if s == [] then bottom else var m := Greatest(s[..|s| - 1], bottom); if m < s[|s| - 1] then s[|s| - 1] else m
  }

  /** The bucket of a value, from `b` on: the last bucket has no upper end. */
  function BucketFrom(limits: seq<real>, v: real, b: nat): nat
    decreases |limits| - b
  {
    if b + 1 >= |limits| || v < limits[b] then b else BucketFrom(limits, v, b + 1)
  }

  function BucketOf(limits: seq<real>, v: real): nat { BucketFrom(limits, v, 0) }

  lemma {:induction false} BucketFromBounds(limits: seq<real>, v: real, b: nat)
    requires LimitsOk(limits) && b < K && (b > 0 ==> limits[b - 1] <= v)
    ensures var c := BucketFrom(limits, v, b);
            b <= c < K && (c > 0 ==> limits[c - 1] <= v) && (c < K - 1 ==> v < limits[c])
    decreases K - b
  {
    if b + 1 < K && !(v < limits[b]) { BucketFromBounds(limits, v, b + 1); }
  }

  lemma BucketBounds(limits: seq<real>, v: real)
    requires LimitsOk(limits)
    ensures var c := BucketOf(limits, v); c < K && (c > 0 ==> limits[c - 1] <= v) && (c < K - 1 ==> v < limits[c])
  {
    BucketFromBounds(limits, v, 0);
  }

  lemma BucketIsMonotone(limits: seq<real>, v: real, w: real)
    requires LimitsOk(limits) && v <= w
    ensures BucketOf(limits, v) <= BucketOf(limits, w)
  {
    BucketBounds(limits, v);
    BucketBounds(limits, w);
  }

  /** The number of samples in the buckets from `lo` up to but not including `hi`. */
  function Tally(limits: seq<real>, s: seq<real>, lo: nat, hi: nat): nat
  {
    if s == [] then 0 else Tally(limits, s[..|s| - 1], lo, hi) + if lo <= BucketOf(limits, s[|s| - 1]) < hi then 1
      else 0
  }

  lemma {:induction false} TallySplits(limits: seq<real>, s: seq<real>, lo: nat, mid: nat, hi: nat)
    requires lo <= mid <= hi
    ensures Tally(limits, s, lo, hi) == Tally(limits, s, lo, mid) + Tally(limits, s, mid, hi)
  {
    if s != [] { TallySplits(limits, s[..|s| - 1], lo, mid, hi); }
  }

  /** Every sample is in some bucket: the counts add up to the number of samples. */
  lemma {:induction false} TallyIsAll(limits: seq<real>, s: seq<real>)
    requires LimitsOk(limits)
    ensures Tally(limits, s, 0, K) == |s|
  {
    if s != [] {
      TallyIsAll(limits, s[..|s| - 1]);
      BucketBounds(limits, s[|s| - 1]);
    }
  }

  // ---------- concatenation ----------

  lemma {:induction false} Concatenated(limits: seq<real>, s: seq<real>, t: seq<real>)
    ensures Sum(s + t) == Sum(s) + Sum(t) && SumSquares(s + t) == SumSquares(s) + SumSquares(t)
    ensures forall lo: nat, hi: nat ::
      Tally(limits, s + t, lo, hi) == Tally(limits, s, lo, hi) + Tally(limits, t, lo, hi)
  {
    if t == [] {
      assert s + t == s;
    } else {
      assert (s + t)[..|s + t| - 1] == s + t[..|t| - 1];
      Concatenated(limits, s, t[..|t| - 1]);
    }
  }

  lemma {:induction false} ConcatenatedEnds(s: seq<real>, t: seq<real>, top: real, bottom: real)
    ensures Least(s + t, top) == (if Least(t, top) < Least(s, top) then Least(t, top) else Least(s, top))
    ensures Greatest(s + t, bottom) ==
      (if Greatest(t, bottom) > Greatest(s, bottom) then Greatest(t, bottom) else Greatest(s, bottom))
  {
    EndsBound(s, top, bottom);
    if t == [] {
      assert s + t == s;
    } else {
      assert (s + t)[..|s + t| - 1] == s + t[..|t| - 1];
      ConcatenatedEnds(s, t[..|t| - 1], top, bottom);
    }
  }

  lemma {:induction false} EndsBound(s: seq<real>, top: real, bottom: real)
    ensures Least(s, top) <= top && Greatest(s, bottom) >= bottom
    ensures forall x :: x in s ==> Least(s, top) <= x <= Greatest(s, bottom)
  {
    if s != [] {
      EndsBound(s[..|s| - 1], top, bottom);
      forall x | x in s ensures Least(s, top) <= x <= Greatest(s, bottom) {
        assert x in s[..|s| - 1] || x == s[|s| - 1];
      }
    }
  }

  /** For samples up to `top` and from `bottom` up, the ends are samples. */
  lemma {:induction false} EndsAreSamples(s: seq<real>, top: real, bottom: real)
    requires s != [] && forall x :: x in s ==> bottom <= x <= top
    ensures Least(s, top) in s && Greatest(s, bottom) in s
  {
    var t := s[..|s| - 1];
    assert s[|s| - 1] in s;
    if t != [] {
      assert forall x :: x in t ==> x in s;
      EndsAreSamples(t, top, bottom);
    }
  }

  // ---------- the variance ----------

  /** The sum of the squared distances from `x`. */
  lemma {:induction false} DistancesFrom(s: seq<real>, x: real)
    ensures SumSquares(s) - 2.0 * x * Sum(s) + x * x * |s| as real >= 0.0
  {
    if s != [] {
      var (t, y) := (s[..|s| - 1], s[|s| - 1]);
      DistancesFrom(t, x);
      assert (y - x) * (y - x) == y * y - 2.0 * x * y + x * x;
      assert (y - x) * (y - x) >= 0.0;
      assert 2.0 * x * Sum(s) == 2.0 * x * Sum(t) + 2.0 * x * y;
      assert x * x * |s| as real == x * x * |t| as real + x * x;
    }
  }

  /** The variance is never negative. */
  lemma {:induction false} VarianceNotNegative(s: seq<real>)
    ensures SumSquares(s) * |s| as real - Sum(s) * Sum(s) >= 0.0
  {
    if s != [] {
      var (t, y) := (s[..|s| - 1], s[|s| - 1]);
      VarianceNotNegative(t);
      DistancesFrom(t, y);
      var (q, u, n) := (SumSquares(t), Sum(t), |t| as real);
      assert |s| as real == n + 1.0;
      assert (q + y * y) * (n + 1.0) == q * n + q + y * y * n + y * y;
      assert (u + y) * (u + y) == u * u + 2.0 * y * u + y * y;
    }
  }

  /** The sum of the squared distances of the samples from `a`. */
  function Spread(s: seq<real>, a: real): real
  {
    if s == [] then 0.0 else Spread(s[..|s| - 1], a) + (s[|s| - 1] - a) * (s[|s| - 1] - a)
  }

  lemma {:induction false} SpreadIs(s: seq<real>, a: real)
    ensures Spread(s, a) == SumSquares(s) - 2.0 * a * Sum(s) + a * a * |s| as real
  {
    hide Spread, Sum, SumSquares;
    if s == [] {
      NoSpread(a);
    } else {
      var (t, y) := (s[..|s| - 1], s[|s| - 1]);
      SpreadIs(t, a);
      LastOfSum(s);
      LastOfSquares(s);
      LastOfSpread(s, a);
      NextSpread(a, y, Spread(t, a), SumSquares(t), Sum(t), |t| as real,
                 Spread(s, a), SumSquares(s), Sum(s), |s| as real);
    }
  }

  lemma NoSpread(a: real)
    ensures Spread([], a) == SumSquares([]) - 2.0 * a * Sum([]) + a * a * 0.0
  {
  }

  lemma NextSpread(a: real, y: real, p: real, q: real, u: real, n: real, p': real, q': real, u': real, n': real)
    requires p' == p + (y - a) * (y - a) && q' == q + y * y && u' == u + y && n' == n + 1.0
    requires p == q - 2.0 * a * u + a * a * n
    ensures p' == q' - 2.0 * a * u' + a * a * n'
  {
    OneTermMore(a, q, u, y, n);
  }

  lemma LastOfSum(s: seq<real>)
    requires s != []
    ensures Sum(s) == Sum(s[..|s| - 1]) + s[|s| - 1]
  {
  }

  lemma LastOfSquares(s: seq<real>)
    requires s != []
    ensures SumSquares(s) == SumSquares(s[..|s| - 1]) + s[|s| - 1] * s[|s| - 1]
  {
  }

  lemma LastOfSpread(s: seq<real>, a: real)
    requires s != []
    ensures Spread(s, a) == Spread(s[..|s| - 1], a) + (s[|s| - 1] - a) * (s[|s| - 1] - a)
  {
  }

  lemma SquareOf(y: real, a: real)
    ensures (y - a) * (y - a) == y * y - 2.0 * a * y + a * a
  {
  }

  lemma OneTermMore(a: real, q: real, u: real, y: real, n: real)
    ensures q - 2.0 * a * u + a * a * n + (y - a) * (y - a) ==
      q + y * y - 2.0 * a * (u + y) + a * a * (n + 1.0)
  {
    SquareOf(y, a);
    assert 2.0 * a * (u + y) == 2.0 * a * u + 2.0 * a * y;
    assert a * a * (n + 1.0) == a * a * n + a * a;
  }

  /** The variance is the mean of the squared distances from the mean. */
  lemma VarianceIsMeanSpread(s: seq<real>, a: real, v: real)
    requires s != [] && a * |s| as real == Sum(s)
    requires v * (|s| as real * |s| as real) == SumSquares(s) * |s| as real - Sum(s) * Sum(s)
    ensures v * |s| as real == Spread(s, a)
  {
    SpreadIs(s, a);
    hide Sum, SumSquares, Spread;
    var (n, q, u) := (|s| as real, SumSquares(s), Sum(s));
    assert u * u == a * n * (a * n) == a * a * n * n;
    assert 2.0 * a * u == 2.0 * (a * a * n);
    assert (v * n - (q - a * a * n)) * n == v * (n * n) - (q * n - a * a * n * n);
  }

  // ---------- percentiles ----------

  function Threshold(s: seq<real>, p: real): real { |s| as real * (p / 100.0) }

  /** The first bucket, from `b` on, up to whose end there are `th` samples; K if none. */
  function ReachFrom(limits: seq<real>, s: seq<real>, th: real, b: nat): nat
    decreases K - b
  {
    if b >= K || Tally(limits, s, 0, b + 1) as real >= th then b else ReachFrom(limits, s, th, b + 1)
  }

  lemma ReachStep(limits: seq<real>, s: seq<real>, th: real, b: nat)
    ensures ReachFrom(limits, s, th, b)
      == if b >= K || Tally(limits, s, 0, b + 1) as real >= th then b else ReachFrom(limits, s, th, b + 1)
  {
  }

  function Reach(limits: seq<real>, s: seq<real>, th: real): nat { ReachFrom(limits, s, th, 0) }

  function Left(limits: seq<real>, b: nat): real { if 0 < b <= |limits| then limits[b - 1] else 0.0 }

  /** The point `x` / `n` of the way from `left` to `right`. */
  function Along(left: real, right: real, x: real, n: real): real
  {
    if n == 0.0 then left else left + (right - left) * (x / n)
  }

  /** The value at `th` samples, on a straight line through bucket `b`. */
  function ValueIn(limits: seq<real>, s: seq<real>, th: real, b: nat): real
  {
    var count := Tally(limits, s, b, b + 1);
    if count == 0 || b >= |limits| then 0.0
    else Along(Left(limits, b), limits[b], th - Tally(limits, s, 0, b) as real, count as real)
  }

  function Clamp(r: real, lo: real, hi: real): real
  {
    var r1 := if r < lo then lo else r;
    if r1 > hi then hi else r1
  }

  function ValueAt(limits: seq<real>, s: seq<real>, th: real): real
  {
    var (b, top) := (Reach(limits, s, th), if |limits| == K then limits[K - 1] else 0.0);
    if b >= K then Greatest(s, 0.0) else Clamp(ValueIn(limits, s, th, b), Least(s, top), Greatest(s, 0.0))
  }

  function PercentileOf(limits: seq<real>, s: seq<real>, p: real): real { ValueAt(limits, s, Threshold(s, p)) }

  /** percentile interpolates in a bucket without samples. */
  predicate DividesByZero(limits: seq<real>, s: seq<real>, p: real)
  {
    var b := Reach(limits, s, Threshold(s, p));
    b < K && Tally(limits, s, b, b + 1) == 0
  }

  /** `p` percent of the samples. */
  lemma ThresholdIs(s: seq<real>, p: real)
    ensures Threshold(s, p) == |s| as real * p / 100.0 && Threshold(s, p) * 100.0 == |s| as real * p
  {
    var n := |s| as real;
    assert n * (p / 100.0) == n * p / 100.0;
  }

  /** ... just when nothing is asked for and the first bucket, in which the search then ends,
      is empty. */
  lemma DividesByZeroIff(limits: seq<real>, s: seq<real>, p: real)
    requires LimitsOk(limits)
    ensures DividesByZero(limits, s, p) <==> |s| as real * p <= 0.0 && Tally(limits, s, 0, 1) == 0
  {
    ThresholdIs(s, p);
    hide Reach, Tally, Threshold;
    var th := Threshold(s, p);
    if th > 0.0 || Tally(limits, s, 0, 1) > 0 {
      ReachBounds(limits, s, th);
    } else {
      ReachAtOnce(limits, s, th);
    }
  }

  lemma ReachAtOnce(limits: seq<real>, s: seq<real>, th: real)
    requires th <= 0.0
    ensures Reach(limits, s, th) == 0
  {
    hide Tally;
  }

  /** The point percentile computes in bucket `b`. */
  lemma PointInBucket(limits: seq<real>, s: seq<real>, th: real, b: nat, left: real, below: real, upTo: real, pos: real,
                      r: real)
    requires b < |limits| && left == Left(limits, b) && Tally(limits, s, b, b + 1) > 0
    requires below == Tally(limits, s, 0, b) as real && upTo - below == Tally(limits, s, b, b + 1) as real
    requires pos == (th - below) / (upTo - below) && r == left + (limits[b] - left) * pos
    ensures r == ValueIn(limits, s, th, b)
  {
    hide Tally;
    var count := Tally(limits, s, b, b + 1) as real;
    assert upTo - below == count;
    assert pos == (th - below) / count;
  }

  lemma {:induction false} NoBuckets(limits: seq<real>, s: seq<real>, b: nat)
    ensures Tally(limits, s, b, b) == 0
  {
    if s != [] { NoBuckets(limits, s[..|s| - 1], b); }
  }

  lemma {:induction false} ReachFromBounds(limits: seq<real>, s: seq<real>, th: real, b: nat)
    requires b <= K && (Tally(limits, s, 0, b) as real) < th
    ensures var c := ReachFrom(limits, s, th, b);
      b <= c <= K && (Tally(limits, s, 0, c) as real) < th && (c < K ==> th <= Tally(limits, s, 0, c + 1) as real)
    decreases K - b
  {
    if b < K && !(Tally(limits, s, 0, b + 1) as real >= th) { ReachFromBounds(limits, s, th, b + 1); }
  }

  /** The bucket reached holds samples on both sides of the threshold; there is none just
      when more samples are asked for than there are. */
  lemma ReachBounds(limits: seq<real>, s: seq<real>, th: real)
    requires LimitsOk(limits) && (th > 0.0 || Tally(limits, s, 0, 1) > 0)
    ensures var b := Reach(limits, s, th);
      && b <= K && (b == K <==> th > |s| as real) && (th > 0.0 ==> (Tally(limits, s, 0, b) as real) < th)
      && (b < K ==> th <= Tally(limits, s, 0, b + 1) as real && Tally(limits, s, b, b + 1) > 0)
  {
    NoBuckets(limits, s, 0);
    if th > 0.0 { ReachFromBounds(limits, s, th, 0); } else { ReachAtOnce(limits, s, th); }
    TallyIsAll(limits, s);
    var b := Reach(limits, s, th);
    if b < K {
      TallySplits(limits, s, 0, b, b + 1);
      TallySplits(limits, s, 0, b + 1, K);
    }
  }

  lemma {:induction false} ReachFromIsMonotone(limits: seq<real>, s: seq<real>, th: real, th': real, b: nat)
    requires th <= th'
    ensures ReachFrom(limits, s, th, b) <= ReachFrom(limits, s, th', b)
    decreases K - b
  {
    if b < K && !(Tally(limits, s, 0, b + 1) as real >= th') {
      ReachFromIsMonotone(limits, s, th, th', b + 1);
      if Tally(limits, s, 0, b + 1) as real >= th { ReachFromGrows(limits, s, th', b + 1); }
    }
  }

  lemma {:induction false} ReachFromGrows(limits: seq<real>, s: seq<real>, th: real, b: nat)
    ensures ReachFrom(limits, s, th, b) >= b
    decreases K - b
  {
    if b < K && !(Tally(limits, s, 0, b + 1) as real >= th) { ReachFromGrows(limits, s, th, b + 1); }
  }

  lemma Positive(a: real, b: real)
    requires a > 0.0 && b > 0.0
    ensures a * b > 0.0
  {
  }

  lemma Distribute(a: real, b: real, n: real)
    ensures (a - b) * n == a * n - b * n
  {
  }

  lemma TimesDivided(x: real, n: real)
    requires n != 0.0
    ensures x / n * n == x
  {
  }

  lemma QuotientGrows(x: real, y: real, n: real)
    requires x <= y && n > 0.0
    ensures x / n <= y / n
  {
    TimesDivided(x, n);
    TimesDivided(y, n);
    Distribute(x / n, y / n, n);
    var d := x / n - y / n;
    if d > 0.0 { Positive(d, n); }
  }

  lemma TimesGrows(a: real, b: real, w: real)
    requires a <= b && w >= 0.0
    ensures w * a <= w * b
  {
    if a < b && w > 0.0 { Positive(b - a, w); }
    Distribute(b, a, w);
  }

  /** A point between two others. */
  lemma Between(left: real, right: real, x: real, n: real)
    requires left <= right && 0.0 < x <= n
    ensures left <= Along(left, right, x, n) <= right
  {
    QuotientGrows(0.0, x, n);
    QuotientGrows(x, n, n);
    var q := x / n;
    assert 0.0 / n == 0.0 && n / n == 1.0;
    TimesGrows(0.0, q, right - left);
    TimesGrows(q, 1.0, right - left);
  }

  lemma LeftBelow(limits: seq<real>, b: nat)
    requires LimitsOk(limits) && b < K
    ensures Left(limits, b) < limits[b]
  {
  }

  lemma ValueInBucket(limits: seq<real>, s: seq<real>, th: real)
    requires LimitsOk(limits) && 0.0 < th <= |s| as real
    ensures var b := Reach(limits, s, th); b < K && Left(limits, b) <= ValueIn(limits, s, th, b) <= limits[b]
  {
    hide Along, Reach, Tally, Left;
    ReachBounds(limits, s, th);
    var b := Reach(limits, s, th);
    TallySplits(limits, s, 0, b, b + 1);
    LeftBelow(limits, b);
    Between(Left(limits, b), limits[b], th - Tally(limits, s, 0, b) as real, Tally(limits, s, b, b + 1) as real);
  }

  lemma PercentOf(s: seq<real>, p: real, q: real)
    requires s != [] && 0.0 < p <= q
    ensures 0.0 < Threshold(s, p) <= Threshold(s, q) && (q <= 100.0 ==> Threshold(s, q) <= |s| as real)
  {
    var n := |s| as real;
    assert n * (q / 100.0) == n * q / 100.0 && n * (p / 100.0) == n * p / 100.0;
    assert n * p <= n * q;
    assert n * p > 0.0;
    if q <= 100.0 { assert n * q <= n * 100.0; }
  }

  /** Bucket `b` is the first up to whose end there are `p` percent of the samples, and `v` lies
      in it as far from its left end as the samples that are missing there from `p` percent are
      of those it holds. */
  ghost predicate PointOf(limits: seq<real>, s: seq<real>, p: real, b: nat, v: real)
  {
    && b < |limits|
    && (if |s| as real * p > 0.0 then 100.0 * Tally(limits, s, 0, b) as real < |s| as real * p else b == 0)
    && |s| as real * p <= 100.0 * Tally(limits, s, 0, b + 1) as real && Tally(limits, s, b, b + 1) > 0
    && var left := if b == 0 then 0.0 else limits[b - 1];
       (v - left) * (100.0 * Tally(limits, s, b, b + 1) as real) ==
       (limits[b] - left) * (|s| as real * p - 100.0 * Tally(limits, s, 0, b) as real)
  }

  /** What percentile gives: the greatest sample when more than all samples are asked for, else the
      point where `p` percent of the samples are reached, cut to what samples there are. */
  lemma PercentileIsPoint(limits: seq<real>, s: seq<real>, p: real) returns (b: nat, v: real)
    requires LimitsOk(limits) && !(|s| as real * p <= 0.0 && Tally(limits, s, 0, 1) == 0)
    ensures |s| as real * p > 100.0 * |s| as real ==> PercentileOf(limits, s, p) == Greatest(s, 0.0)
    ensures |s| as real * p <= 100.0 * |s| as real ==>
      && PointOf(limits, s, p, b, v)
      && var v1 := if v < Least(s, limits[153]) then Least(s, limits[153]) else v;
         PercentileOf(limits, s, p) == if v1 > Greatest(s, 0.0) then Greatest(s, 0.0) else v1
  {
    hide Tally, Threshold, Least, Greatest, LimitsOk, PercentileOf, PointOf;
    LimitsCount(limits);
    ThresholdIs(s, p);
    b, v := PointAt(limits, s, p, |s| as real * p);
  }

  /** ... with `np` for a hundred times the threshold. */
  lemma PointAt(limits: seq<real>, s: seq<real>, p: real, np: real) returns (b: nat, v: real)
    requires LimitsOk(limits) && |limits| == 154 && Threshold(s, p) * 100.0 == np
    requires !(np <= 0.0 && Tally(limits, s, 0, 1) == 0)
    ensures np > 100.0 * |s| as real ==> PercentileOf(limits, s, p) == Greatest(s, 0.0)
    ensures np <= 100.0 * |s| as real ==>
      && PointOf(limits, s, p, b, v)
      && var v1 := if v < Least(s, limits[153]) then Least(s, limits[153]) else v;
         PercentileOf(limits, s, p) == if v1 > Greatest(s, 0.0) then Greatest(s, 0.0) else v1
  {
    hide Tally, Threshold, Reach, Least, Greatest, LimitsOk, ValueIn, PercentileOf, PointOf;
    var th := Threshold(s, p);
    ReachBounds(limits, s, th);
    b, v := Reach(limits, s, th), ValueIn(limits, s, th, Reach(limits, s, th));
    ValueReached(limits, s, p, b, v);
    if b < K { PointReached(limits, s, p, b, v); }
  }

  lemma ValueReached(limits: seq<real>, s: seq<real>, p: real, b: nat, v: real)
    requires |limits| == 154 && b == Reach(limits, s, Threshold(s, p)) && v == ValueIn(limits, s, Threshold(s, p), b)
    ensures b >= 154 ==> PercentileOf(limits, s, p) == Greatest(s, 0.0)
    ensures b < 154 ==>
      var v1 := if v < Least(s, limits[153]) then Least(s, limits[153]) else v;
      PercentileOf(limits, s, p) == if v1 > Greatest(s, 0.0) then Greatest(s, 0.0) else v1
  {
    hide Tally, Threshold, Reach, Least, Greatest, ValueIn;
  }

  lemma PointReached(limits: seq<real>, s: seq<real>, p: real, b: nat, v: real)
    requires LimitsOk(limits) && (Threshold(s, p) > 0.0 || Tally(limits, s, 0, 1) > 0) && b < 154
    requires b == Reach(limits, s, Threshold(s, p)) && v == ValueIn(limits, s, Threshold(s, p), b)
    ensures PointOf(limits, s, p, b, v)
  {
    hide Tally, Threshold, Reach, LimitsOk, ValueIn;
    LimitsCount(limits);
    ThresholdIs(s, p);
    var th := Threshold(s, p);
    ReachBounds(limits, s, th);
    if th <= 0.0 { ReachAtOnce(limits, s, th); }
    PointOnLine(limits, s, p, b);
  }

  lemma PointOnLine(limits: seq<real>, s: seq<real>, p: real, b: nat)
    requires b < |limits| && Tally(limits, s, b, b + 1) > 0
    ensures var (left, v) := (if b == 0 then 0.0 else limits[b - 1], ValueIn(limits, s, Threshold(s, p), b));
      (v - left) * (100.0 * Tally(limits, s, b, b + 1) as real) ==
      (limits[b] - left) * (|s| as real * p - 100.0 * Tally(limits, s, 0, b) as real)
  {
    ThresholdIs(s, p);
    hide Tally, Threshold;
    var (left, th, n) := (Left(limits, b), Threshold(s, p), Tally(limits, s, b, b + 1) as real);
    var x := th - Tally(limits, s, 0, b) as real;
    TimesDivided(x, n);
    var (w, q) := (limits[b] - left, x / n);
    assert w * q * (100.0 * n) == w * (100.0 * (q * n));
  }

  /** A percentile lies between the least and the greatest sample. */
  lemma PercentileInRange(limits: seq<real>, s: seq<real>, p: real)
    requires LimitsOk(limits) && s != [] && forall x :: x in s ==> 0.0 <= x <= limits[K - 1]
    ensures Least(s, limits[K - 1]) <= PercentileOf(limits, s, p) <= Greatest(s, 0.0)
  {
    EndsBound(s, limits[K - 1], 0.0);
    EndsAreSamples(s, limits[K - 1], 0.0);
  }

  lemma ReachIsMonotone(limits: seq<real>, s: seq<real>, th: real, th': real)
    requires th <= th'
    ensures Reach(limits, s, th) <= Reach(limits, s, th')
  {
    ReachFromIsMonotone(limits, s, th, th', 0);
  }

  lemma LimitsGrow(limits: seq<real>, b: nat, b': nat)
    requires LimitsOk(limits) && b < b' < K
    ensures limits[b] <= Left(limits, b')
  {
  }

  /** Further along in one bucket. */
  lemma SameBucketFurther(limits: seq<real>, s: seq<real>, th: real, th': real, b: nat)
    requires LimitsOk(limits) && b < K && th <= th' && Tally(limits, s, b, b + 1) > 0
    ensures ValueIn(limits, s, th, b) <= ValueIn(limits, s, th', b)
  {
    hide Along, Tally;
    LeftBelow(limits, b);
    var (below, count) := (Tally(limits, s, 0, b) as real, Tally(limits, s, b, b + 1) as real);
    FurtherAlong(Left(limits, b), limits[b], th - below, th' - below, count);
  }

  lemma ValuesAreMonotone(limits: seq<real>, s: seq<real>, th: real, th': real)
    requires LimitsOk(limits) && 0.0 < th <= th' <= |s| as real
    ensures ValueIn(limits, s, th, Reach(limits, s, th)) <= ValueIn(limits, s, th', Reach(limits, s, th'))
  {
    hide Along, Tally, Reach, ValueIn, LimitsOk, Left;
    var (b, b') := (Reach(limits, s, th), Reach(limits, s, th'));
    ReachIsMonotone(limits, s, th, th');
    ValueInBucket(limits, s, th);
    ValueInBucket(limits, s, th');
    if b < b' {
      LimitsGrow(limits, b, b');
    } else {
      ReachBounds(limits, s, th);
      SameBucketFurther(limits, s, th, th', b);
    }
  }

  lemma FurtherAlong(left: real, right: real, x: real, y: real, n: real)
    requires x <= y && n > 0.0 && left <= right
    ensures Along(left, right, x, n) <= Along(left, right, y, n)
  {
    QuotientGrows(x, y, n);
    TimesGrows(x / n, y / n, right - left);
  }

  /** Percentiles grow with the percentage. */
  lemma PercentileIsMonotone(limits: seq<real>, s: seq<real>, p: real, q: real)
    requires LimitsOk(limits) && s != [] && 0.0 < p <= q && forall x :: x in s ==> 0.0 <= x <= limits[K - 1]
    ensures PercentileOf(limits, s, p) <= PercentileOf(limits, s, q)
  {
    PercentOf(s, p, q);
    PercentileInRange(limits, s, p);
    PercentileInRange(limits, s, q);
    ReachBounds(limits, s, Threshold(s, p));
    ReachBounds(limits, s, Threshold(s, q));
    if Threshold(s, q) <= |s| as real { ValuesAreMonotone(limits, s, Threshold(s, p), Threshold(s, q)); }
  }

  // ---------- order statistics ----------

  ghost predicate Sorted(t: seq<real>) { forall i, j {:trigger t[i], t[j]} :: 0 <= i < j < |t| ==> t[i] <= t[j] }

  lemma TallyWithout(limits: seq<real>, t: seq<real>, i: nat, lo: nat, hi: nat)
    requires i < |t|
    ensures Tally(limits, t, lo, hi) ==
      Tally(limits, t[..i] + t[i + 1..], lo, hi) + if lo <= BucketOf(limits, t[i]) < hi then 1 else 0
  {
    var (u, x, v) := (t[..i], t[i], t[i + 1..]);
    assert t == u + [x] + v;
    Concatenated(limits, u + [x], v);
    Concatenated(limits, u, v);
    assert (u + [x])[..i] == u;
    hide BucketOf;
  }

  lemma MultisetWithout(t: seq<real>, i: nat)
    requires i < |t|
    ensures multiset(t[..i] + t[i + 1..]) == multiset(t) - multiset{t[i]}
  {
    assert t == t[..i] + [t[i]] + t[i + 1..];
  }

  /** The tally does not depend on the order of the samples. */
  lemma {:induction false} TallyOfPermutation(limits: seq<real>, s: seq<real>, t: seq<real>, lo: nat, hi: nat)
    requires multiset(s) == multiset(t)
    ensures Tally(limits, s, lo, hi) == Tally(limits, t, lo, hi) && |s| == |t|
    decreases |s|
  {
    hide BucketOf;
    if s == [] {
      assert |multiset(t)| == 0;
    } else {
      var n := |s| - 1;
      var i := PlaceOf(t, s[n], s);
      MultisetWithout(s, n);
      MultisetWithout(t, i);
      assert s[..n] + s[n + 1..] == s[..n];
      TallyOfPermutation(limits, s[..n], t[..i] + t[i + 1..], lo, hi);
      TallyWithout(limits, t, i, lo, hi);
    }
  }

  lemma PlaceOf(t: seq<real>, x: real, s: seq<real>) returns (i: nat)
    requires x in s && multiset(s) == multiset(t)
    ensures i < |t| && t[i] == x
  {
    assert x in multiset(t);
    i :| i < |t| && t[i] == x;
  }

  /** In a sorted sequence, the values in the buckets below `b` come first. */
  lemma {:induction false} TallyOfSorted(limits: seq<real>, t: seq<real>, b: nat, i: nat)
    requires LimitsOk(limits) && Sorted(t) && i < |t|
    ensures i < Tally(limits, t, 0, b) <==> BucketOf(limits, t[i]) < b
    ensures Tally(limits, t, 0, b) <= |t|
  {
    var (u, x) := (t[..|t| - 1], t[|t| - 1]);
    if BucketOf(limits, x) < b {
      AllBelow(limits, t, b);
      BucketIsMonotone(limits, t[i], x);
    } else if i < |u| {
      TallyOfSorted(limits, u, b, i);
    } else if u != [] {
      TallyOfSorted(limits, u, b, 0);
    }
  }

  lemma {:induction false} AllBelow(limits: seq<real>, t: seq<real>, b: nat)
    requires LimitsOk(limits) && Sorted(t) && (t != [] ==> BucketOf(limits, t[|t| - 1]) < b)
    ensures Tally(limits, t, 0, b) == |t|
  {
    if t != [] {
      var u := t[..|t| - 1];
      if u != [] { BucketIsMonotone(limits, u[|u| - 1], t[|t| - 1]); }
      AllBelow(limits, u, b);
    }
  }

  /** The percentile is taken in the bucket of the k-th smallest sample, k being `p` percent of
      their number rounded up. */
  lemma PercentileInBucketOfOrderStatistic(limits: seq<real>, s: seq<real>, p: real, t: seq<real>, k: nat)
    requires LimitsOk(limits) && s != [] && 0.0 < p <= 100.0 && forall x :: x in s ==> 0.0 <= x <= limits[K - 1]
    requires multiset(t) == multiset(s) && Sorted(t) && k as real - 1.0 < |s| as real * p / 100.0 <= k as real
    ensures 1 <= k <= |t|
    ensures var b := BucketOf(limits, t[k - 1]); b < K && Left(limits, b) <= PercentileOf(limits, s, p) <= limits[b]
  {
    var th := Threshold(s, p);
    ThresholdIs(s, p);
    PercentOf(s, p, p);
    ReachBounds(limits, s, th);
    var b := Reach(limits, s, th);
    TallyOfPermutation(limits, s, t, 0, b);
    TallyOfPermutation(limits, s, t, 0, b + 1);
    assert 1 <= k <= |t|;
    TallyOfSorted(limits, t, b, k - 1);
    TallyOfSorted(limits, t, b + 1, k - 1);
    ValueInBucket(limits, s, th);
    ClampedInBucket(limits, s, ValueIn(limits, s, th, b), b, t[k - 1]) by {
      assert t[k - 1] in multiset(t);
      assert t[k - 1] in multiset(s);
    }
  }

  /** Clamping does not leave the bucket of a sample. */
  lemma ClampedInBucket(limits: seq<real>, s: seq<real>, r: real, b: nat, x: real)
    requires LimitsOk(limits) && x in s && b < K && BucketOf(limits, x) == b && 0.0 <= x <= limits[K - 1]
    requires Left(limits, b) <= r <= limits[b]
    ensures Left(limits, b) <= Clamp(r, Least(s, limits[K - 1]), Greatest(s, 0.0)) <= limits[b]
  {
    EndsBound(s, limits[K - 1], 0.0);
    BucketBounds(limits, x);
  }

  // ---------- the histogram ----------

  class Histogram {
    const limits: seq<real>
    var min: real
    var max: real
    var num: real
    var sum: real
    var sumSquares: real
    const buckets: array<real>
    /** The samples added since the histogram was cleared, merged ones included. */
    ghost var samples: seq<real>

    ghost predicate Valid()
      reads this, buckets
    {
      && LimitsOk(limits) && buckets.Length == K
      && min == Least(samples, limits[K - 1]) && max == Greatest(samples, 0.0)
      && num == |samples| as real && sum == Sum(samples) && sumSquares == SumSquares(samples)
      && forall b: nat :: b < K ==> buckets[b] == Tally(limits, samples, b, b + 1) as real
    }

    /** An uninitialised histogram, as far as its limits go. */
    constructor (l: seq<real>)
      requires LimitsOk(l)
      ensures Valid() && limits == l && samples == [] && fresh(buckets)
    {
      limits, buckets := l, new real[K](_ => 0.0);
      min, max, num, sum, sumSquares, samples := l[K - 1], 0.0, 0.0, 0.0, 0.0, [];
    }

    /** histogram_clear; whatever the fields held. */
    method Clear()
      requires LimitsOk(limits) && buckets.Length == K
      modifies this, buckets
      ensures Valid() && samples == []
    {
      min := limits[K - 1];
      max, num, sum, sumSquares := 0.0, 0.0, 0.0, 0.0;
      samples := [];
      for i := 0 to K
        invariant forall b: nat :: b < i ==> buckets[b] == 0.0
        modifies buckets
      {
        buckets[i] := 0.0;
      }
    }

    /** histogram_add. */
    method Add(value: real)
      requires Valid()
      modifies this, buckets
      ensures Valid() && samples == old(samples) + [value]
    {
      hide Tally, Sum, SumSquares, Least, Greatest, BucketOf;
      var b := FindBucket(value);
      OneMore(limits, samples, value);
      buckets[b] := buckets[b] + 1.0;
      if min > value { min := value; }
      if max < value { max := value; }
      num := num + 1.0;
      sum := sum + value;
      sumSquares := sumSquares + value * value;
      samples := samples + [value];
    }

    /** The search of histogram_add. */
    method FindBucket(value: real) returns (b: nat)
      requires LimitsOk(limits)
      ensures b < K && b == BucketOf(limits, value)
    {
      b := 0;
      while b < K - 1 && limits[b] <= value
        invariant b <= K - 1 && BucketOf(limits, value) == BucketFrom(limits, value, b)
      {
        b := b + 1;
      }
    }

    /** histogram_merge; also with itself. */
    method Merge(other: Histogram)
      requires Valid() && other.Valid() && other.limits == limits
      requires other == this || other.buckets != buckets
      modifies this, buckets
      ensures Valid() && samples == old(samples) + old(other.samples)
    {
      hide Tally, Sum, SumSquares, Least, Greatest, LimitsOk;
      ghost var (s, t) := (samples, other.samples);
      LimitsCount(limits);
      ConcatenatedEnds(s, t, limits[K - 1], 0.0);
      Concatenated(limits, s, t);
      if other.min < min { min := other.min; }
      if other.max > max { max := other.max; }
      num := num + other.num;
      sum := sum + other.sum;
      sumSquares := sumSquares + other.sumSquares;
      samples := s + t;
      MergeBuckets(other.buckets, s, t);
    }

    /** Its loop. */
    method MergeBuckets(theirs: array<real>, ghost s: seq<real>, ghost t: seq<real>)
      requires buckets.Length == theirs.Length == K
      requires forall b: nat :: b < K ==> buckets[b] == Tally(limits, s, b, b + 1) as real
      requires forall b: nat :: b < K ==> theirs[b] == Tally(limits, t, b, b + 1) as real
      modifies buckets
      ensures forall b: nat :: b < K ==> buckets[b] == Tally(limits, s + t, b, b + 1) as real
    {
      hide Tally;
      Concatenated(limits, s, t);
      for b := 0 to K
        invariant forall c: nat :: c < b ==> buckets[c] == Tally(limits, s + t, c, c + 1) as real
        invariant forall c: nat :: b <= c < K ==> buckets[c] == Tally(limits, s, c, c + 1) as real
        invariant forall c: nat :: b <= c < K ==> theirs[c] == Tally(limits, t, c, c + 1) as real
        modifies buckets
      {
        buckets[b] := buckets[b] + theirs[b];
      }
    }

    /** The inside of percentile's loop: a straight line within bucket `b`. */
    method Interpolate(threshold: real, s: real, b: nat) returns (r: real)
      requires Valid() && b < K && Tally(limits, samples, b, b + 1) > 0
      requires s == (Tally(limits, samples, 0, b) + Tally(limits, samples, b, b + 1)) as real
      ensures r == Clamp(ValueIn(limits, samples, threshold, b), min, max)
    {
      hide Tally, Least, Greatest, Sum, SumSquares, ValueIn, Along;
      var leftPoint := if b == 0 then 0.0 else limits[b - 1];
      var rightPoint := limits[b];
      var leftSum := s - buckets[b];
      var rightSum := s;
      assert leftSum == Tally(limits, samples, 0, b) as real
        && rightSum - leftSum == Tally(limits, samples, b, b + 1) as real;
      var pos := (threshold - leftSum) / (rightSum - leftSum);
      r := leftPoint + (rightPoint - leftPoint) * pos;
      PointInBucket(limits, samples, threshold, b, leftPoint, leftSum, rightSum, pos, r);
      if r < min { r := min; }
      if r > max { r := max; }
    }

    /** percentile's loop. */
    method AtThreshold(threshold: real) returns (r: real)
      requires Valid() && !(threshold <= 0.0 && buckets[0] == 0.0)
      ensures r == ValueAt(limits, samples, threshold)
    {
      hide Tally, Least, Greatest, ValueIn, Clamp, Sum, SumSquares, ReachFrom;
      NoBuckets(limits, samples, 0);
      var s := 0.0;
      var b := 0;
      ReachBounds(limits, samples, threshold);
      while b < K
        invariant b <= K && s == Tally(limits, samples, 0, b) as real && (b == 0 || s < threshold)
        invariant Reach(limits, samples, threshold) == ReachFrom(limits, samples, threshold, b)
      {
        TallySplits(limits, samples, 0, b, b + 1);
        ReachStep(limits, samples, threshold, b);
        s := s + buckets[b];
        if s >= threshold {
          r := Interpolate(threshold, s, b);
          return;
        }
        b := b + 1;
      }
      ReachStep(limits, samples, threshold, b);
      r := max;
    }

    /** percentile; what its precondition excludes is exactly a division by zero. */
    method Percentile(p: real) returns (r: real)
      requires Valid() && !(num * (p / 100.0) <= 0.0 && buckets[0] == 0.0)
      ensures r == PercentileOf(limits, samples, p)
      ensures !DividesByZero(limits, samples, p)
      ensures num * p > 100.0 * num ==> r == max
      ensures num * p <= 100.0 * num ==> exists b: nat, v: real ::
        && PointOf(limits, samples, p, b, v)
        && var v1 := if v < min then min else v; r == if v1 > max then max else v1
    {
      hide Reach, ValueIn, Clamp, Tally, Least, Greatest, Sum, SumSquares, ValueAt, DividesByZero;
      var threshold := num * (p / 100.0);
      assert threshold == Threshold(samples, p);
      ThresholdIs(samples, p);
      DividesByZeroIff(limits, samples, p);
      ghost var b, v := PercentileIsPoint(limits, samples, p);
      r := AtThreshold(threshold);
    }

    method Average() returns (a: real)
      requires Valid()
      ensures a * |samples| as real == Sum(samples)
    {
      if num == 0.0 { return 0.0; }
      a := sum / num;
    }

    /** The variance whose root standard_deviation takes. */
    method Variance() returns (v: real)
      requires Valid()
      ensures v >= 0.0
      ensures v * (|samples| as real * |samples| as real) ==
        SumSquares(samples) * |samples| as real - Sum(samples) * Sum(samples)
    {
      hide Sum, SumSquares, Least, Greatest, Tally, LimitsOk;
      VarianceNotNegative(samples);
      if num == 0.0 { return 0.0; }
      v := (sumSquares * num - sum * sum) / (num * num);
      Quotient(sumSquares * num - sum * sum, num * num);
    }
  }

  lemma LimitsCount(limits: seq<real>)
    requires LimitsOk(limits)
    ensures |limits| == K
  {
  }

  lemma OneMore(limits: seq<real>, s: seq<real>, v: real)
    ensures Sum(s + [v]) == Sum(s) + v && SumSquares(s + [v]) == SumSquares(s) + v * v
    ensures forall top: real :: Least(s + [v], top) == if Least(s, top) > v then v else Least(s, top)
    ensures forall bottom: real ::
      Greatest(s + [v], bottom) == if Greatest(s, bottom) < v then v else Greatest(s, bottom)
    ensures forall lo: nat, hi: nat ::
      Tally(limits, s + [v], lo, hi) == Tally(limits, s, lo, hi) + if lo <= BucketOf(limits, v) < hi then 1 else 0
  {
    assert (s + [v])[..|s + [v]| - 1] == s;
  }

  lemma Quotient(x: real, y: real)
    requires x >= 0.0 && y > 0.0
    ensures x / y >= 0.0 && x / y * y == x
  {
  }

  /** One sample above the first limit, and percentile(0): the division is by zero, while that
      of any positive percentage is not. */
  method NothingAskedFor(l: seq<real>) returns (h: Histogram)
    requires LimitsOk(l)
    ensures fresh(h) && h.Valid() && h.limits == l && h.samples == [l[0]]
    ensures DividesByZero(l, h.samples, 0.0) && !DividesByZero(l, h.samples, 50.0)
  {
    hide Reach, Tally, Threshold, Sum, SumSquares, Least, Greatest, DividesByZero;
    h := new Histogram(l);
    h.Add(l[0]);
    assert h.samples == [l[0]];
    OneSampleAbove(l);
    DividesByZeroIff(l, h.samples, 0.0);
    DividesByZeroIff(l, h.samples, 50.0);
  }

  /** The median of 0.5, 3.5 and 3.5 is a quarter of the way from 3 to 4. */
  method MedianOfThree(l: seq<real>) returns (r: real)
    requires LimitsOk(l) && l[0] == 1.0 && l[1] == 2.0 && l[2] == 3.0 && l[3] == 4.0
    ensures r == 3.25
  {
    hide Reach, Tally, Threshold, Sum, SumSquares, Least, Greatest, DividesByZero, ValueAt, BucketOf;
    var h := new Histogram(l);
    h.Add(0.5);
    h.Add(3.5);
    h.Add(3.5);
    assert h.samples == [0.5, 3.5, 3.5];
    ThreeSamples(l);
    r := h.Percentile(50.0);
    ghost var b: nat, v: real :| PointOf(l, h.samples, 50.0, b, v)
      && r == var v1 := if v < h.min then h.min else v; if v1 > h.max then h.max else v1;
    if b < 3 { TallyGrows(l, h.samples, b + 1, 3); } else if b > 3 { TallyGrows(l, h.samples, 4, b); }
  }

  lemma TallyGrows(limits: seq<real>, s: seq<real>, a: nat, b: nat)
    requires a <= b
    ensures Tally(limits, s, 0, a) <= Tally(limits, s, 0, b)
  {
    hide Tally;
    TallySplits(limits, s, 0, a, b);
  }

  lemma ThreeSamples(l: seq<real>)
    requires LimitsOk(l) && l[0] == 1.0 && l[1] == 2.0 && l[2] == 3.0 && l[3] == 4.0
    ensures var s := [0.5, 3.5, 3.5];
      && Tally(l, s, 0, 1) == 1 && Tally(l, s, 0, 3) == 1 && Tally(l, s, 3, 4) == 2 && Tally(l, s, 0, 4) == 3
      && Least(s, l[153]) == 0.5 && Greatest(s, 0.0) == 3.5
  {
    BucketBounds(l, 0.5);
    BucketBounds(l, 3.5);
    assert BucketOf(l, 0.5) == 0 && BucketOf(l, 3.5) == 3;
    hide BucketOf;
    var s0: seq<real>, s1, s2 := [], [0.5], [0.5, 3.5];
    OneMore(l, s0, 0.5);
    OneMore(l, s1, 3.5);
    OneMore(l, s2, 3.5);
    assert s0 + [0.5] == s1 && s1 + [3.5] == s2 && s2 + [3.5] == [0.5, 3.5, 3.5];
  }

  lemma OneSampleAbove(l: seq<real>)
    requires LimitsOk(l)
    ensures Tally(l, [l[0]], 0, 1) == 0
  {
    BucketBounds(l, l[0]);
    assert [l[0]][..0] == [];
  }
}
