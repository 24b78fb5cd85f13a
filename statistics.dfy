/**
 * Batch statistics (`MV_cal`) and running statistics (`MV_cal_running`) over
 * a sample sequence, with the C++ doubles taken as exact reals. The standard
 * deviation (a square root of the variance) is not modelled; every figure the
 * routines print besides it is returned instead of printed.
 */
module Statistics {
  import opened Results

  /** Sum of a sequence, accumulated from the front as `std::accumulate` does. */
  function Sum(s: seq<real>): real
  {
    if |s| == 0 then 0.0 else Sum(s[..|s| - 1]) + s[|s| - 1]
  }

  /** Sum of squares of a sequence. */
  function SumSquares(s: seq<real>): real
  {
    if |s| == 0 then 0.0 else SumSquares(s[..|s| - 1]) + Sq(s[|s| - 1])
  }

  function Sq(x: real): real
  {
    x * x
  }

  /** Sum of squared deviations of a sequence from `m`. */
  function SquaredDeviations(s: seq<real>, m: real): (r: real)
    ensures 0.0 <= r
  {
    if |s| == 0 then 0.0
    else SquaredDeviations(s[..|s| - 1], m) + Sq(s[|s| - 1] - m)
  }

  /**
   * What the routines report about a sequence of `n` samples: the sum, the
   * mean and the sample variance (denominator `n - 1`), the latter `None`
   * where that denominator is zero.
   */
  datatype Snapshot = Snapshot(sum: real, mean: real, variance: Option<real>)

  /**
   * The snapshot of `count` samples with the given sum whose squared
   * deviations from their mean add up to `spread`.
   */
  function Summary(sum: real, count: nat, spread: real): Snapshot
    requires count > 0
  {
    Snapshot(sum, sum / count as real, if count == 1 then None else Some(spread / (count - 1) as real))
  }

  /** The statistics `MV_cal` reports for a non-empty sequence: squared deviations taken about the mean. */
  function BatchSnapshot(s: seq<real>): Snapshot
    requires |s| > 0
  {
    Summary(Sum(s), |s|, SquaredDeviations(s, Mean(s)))
  }

  /** The mean of a non-empty sequence. */
  function Mean(s: seq<real>): real
    requires |s| > 0
  {
    Sum(s) / |s| as real
  }

  /** `std::accumulate` from `0.0`: adds the elements front to back. */
  method Accumulate(arr: seq<real>) returns (sum: real)
    ensures sum == Sum(arr)
  {
    sum := 0.0;
    for k := 0 to |arr|
      invariant sum == Sum(arr[..k])
    {
      assert arr[..k + 1][..k] == arr[..k];
      sum := sum + arr[k];
    }
    assert arr[..|arr|] == arr;
  }

  /**
   * `MV_cal`: accumulates the sum, derives the mean, accumulates squared
   * deviations from it and divides by `n - 1`. An empty sequence (where the
   * source divides by zero for the mean) gives `None`; a single sample
   * (where it divides zero by zero for the variance) gives no variance.
   */
  method BatchStats(arr: seq<real>) returns (stats: Option<Snapshot>)
    ensures stats == if |arr| == 0 then None else Some(BatchSnapshot(arr))
  {
    if |arr| == 0 {
      return None;
    }
    var sum := Accumulate(arr);
    var n := |arr| as real;
    var mean := sum / n;
    assert mean == Mean(arr);
    var accum := 0.0;
    for k := 0 to |arr|
      invariant accum == SquaredDeviations(arr[..k], mean)
    {
      assert arr[..k + 1][..k] == arr[..k];
      accum := accum + (arr[k] - mean) * (arr[k] - mean);
    }
    assert arr[..|arr|] == arr;
    var variance := if |arr| == 1 then None else Some(accum / (|arr| - 1) as real);
    stats := Some(Snapshot(sum, mean, variance));
  }

  /**
   * The statistics `MV_cal_running` prints once the samples `p` have been
   * taken in, from its running sum and sum of squares: the variance is
   * `(sum_sqrt - sum * sum / n) / (n - 1)`, absent when `n == 1`.
   */
  function RunningSnapshot(p: seq<real>): Snapshot
    requires |p| > 0
  {
    Summary(Sum(p), |p|, CentredSquares(SumSquares(p), Sum(p), |p|))
  }

  /** `sum_sqrt - sum * sum / count`: the sum of squares taken about the mean. */
  function CentredSquares(sumSqrt: real, sum: real, count: nat): real
    requires count > 0
  {
    sumSqrt - sum * sum / count as real
  }

  /**
   * `MV_cal_running`: one snapshot per sample, the `i`-th computed from
   * accumulators holding the sum and the sum of squares of `arr[..i+1]`;
   * each equals the batch statistics of that prefix.
   */
  method RunningStats(arr: seq<real>) returns (snapshots: seq<Snapshot>)
    ensures |snapshots| == |arr|
    ensures forall i :: 0 <= i < |arr| ==> snapshots[i] == RunningSnapshot(arr[..i + 1])
    ensures forall i :: 0 <= i < |arr| ==> snapshots[i] == BatchSnapshot(arr[..i + 1])
  {
    var sum, sumSqrt := 0.0, 0.0;
    snapshots := [];
    for i := 0 to |arr|
      invariant |snapshots| == i
      invariant sum == Sum(arr[..i]) && sumSqrt == SumSquares(arr[..i])
      invariant forall k :: 0 <= k < i ==> snapshots[k] == RunningSnapshot(arr[..k + 1])
    {
      assert arr[..i + 1][..i] == arr[..i];
      sum := arr[i] + sum;
      var mean := sum / (i + 1) as real;
      sumSqrt := sumSqrt + arr[i] * arr[i];
      var centred := sumSqrt - sum * sum / (i + 1) as real;
      assert centred == CentredSquares(sumSqrt, sum, i + 1);
      var variance := if i == 0 then None else Some(centred / i as real);
      snapshots := snapshots + [Snapshot(sum, mean, variance)];
    }
    forall i | 0 <= i < |arr|
      ensures snapshots[i] == BatchSnapshot(arr[..i + 1])
    {
      RunningMatchesBatch(arr[..i + 1]);
    }
  }

  /** The number of samples, counted as a real so that the algebra below stays within real arithmetic. */
  function Count(s: seq<real>): real
  {
    if |s| == 0 then 0.0 else Count(s[..|s| - 1]) + 1.0
  }

  lemma {:induction false} CountIsLength(s: seq<real>)
    ensures Count(s) == |s| as real
  {
    if |s| > 0 {
      CountIsLength(s[..|s| - 1]);
    }
  }

  /** Expanding the squares: `sum (x - m)^2 == sum x^2 - 2 m sum x + n m^2`. */
  lemma {:induction false} SquaredDeviationsExpand(s: seq<real>, m: real)
    ensures SquaredDeviations(s, m) == Expanded(SumSquares(s), Sum(s), Count(s), m)
  {
    if |s| > 0 {
      var p, x := s[..|s| - 1], s[|s| - 1];
      SquaredDeviationsExpand(p, m);
      ExpandStep(SumSquares(p), Sum(p), Count(p), x, m, SquaredDeviations(p, m),
                 SquaredDeviations(s, m), SumSquares(s), Sum(s), Count(s));
    }
  }

  lemma ExpandStep(ss: real, sum: real, n: real, x: real, m: real,
                   sd: real, sdNext: real, ssNext: real, sumNext: real, nNext: real)
    requires sd == Expanded(ss, sum, n, m)
    requires sdNext == sd + Sq(x - m)
    requires ssNext == ss + Sq(x) && sumNext == sum + x && nNext == n + 1.0
    ensures sdNext == Expanded(ssNext, sumNext, nNext, m)
  {
  }

  /** `ss - 2 m sum + n m^2`: the squared deviations from `m` of `n` values with sum `sum` and sum of squares `ss`. */
  function Expanded(ss: real, sum: real, n: real, m: real): real
  {
    ss - 2.0 * m * sum + n * m * m
  }

  /** Centring at the mean: with `m * n == sum`, `ss - 2 m sum + n m^2 == ss - m sum`. */
  lemma CentreAtMean(sd: real, ss: real, sum: real, n: real, m: real)
    requires m * n == sum
    requires sd == Expanded(ss, sum, n, m)
    ensures sd == ss - m * sum
  {
    assert n * m * m == sum * m;
  }

  /** With `m == sum / n`: `ss - m * sum == ss - sum * sum / n`. */
  lemma OverCount(sd: real, ss: real, sum: real, count: nat, m: real)
    requires count > 0 && m == sum / count as real
    requires sd == ss - m * sum
    ensures sd == CentredSquares(ss, sum, count)
  {
  }

  /**
   * The running routine's `sum_sqrt - sum * sum / n` is the batch routine's
   * sum of squared deviations from the mean.
   */
  lemma SpreadsAgree(s: seq<real>)
    requires |s| > 0
    ensures CentredSquares(SumSquares(s), Sum(s), |s|) == SquaredDeviations(s, Mean(s))
  {
    var m := Mean(s);
    SquaredDeviationsExpand(s, m);
    CountIsLength(s);
    SpreadAlgebra(SquaredDeviations(s, m), SumSquares(s), Sum(s), |s|, m);
  }

  /** The centring algebra on plain reals: expanded about `m == sum / count`, the spread is `ss - sum * sum / count`. */
  lemma SpreadAlgebra(sd: real, ss: real, sum: real, count: nat, m: real)
    requires count > 0 && m == sum / count as real
    requires sd == Expanded(ss, sum, count as real, m)
    ensures sd == CentredSquares(ss, sum, count)
  {
    assert m * (count as real) == sum;
    CentreAtMean(sd, ss, sum, count as real, m);
    OverCount(sd, ss, sum, count, m);
  }

  /**
   * The sum-of-squares formula of the running routine and the squared
   * deviations of the batch routine give the same statistics.
   */
  lemma RunningMatchesBatch(s: seq<real>)
    requires |s| > 0
    ensures RunningSnapshot(s) == BatchSnapshot(s)
  {
    SpreadsAgree(s);
  }

  /** The batch variance exists from two samples on and is never negative; the mean times the count is the sum. */
  lemma BatchSnapshotFacts(s: seq<real>)
    requires |s| > 0
    ensures BatchSnapshot(s).mean * |s| as real == Sum(s)
    ensures BatchSnapshot(s).variance.Some? <==> |s| >= 2
    ensures BatchSnapshot(s).variance.Some? ==> 0.0 <= BatchSnapshot(s).variance.value
  {
    if |s| >= 2 {
      var sd := SquaredDeviations(s, Mean(s));
      QuotientNonNegative(sd, (|s| - 1) as real);
    }
  }

  lemma QuotientNonNegative(x: real, y: real)
    requires 0.0 <= x && 0.0 < y
    ensures 0.0 <= x / y
  {
    assert (x / y) * y == x;
  }
}
