/**
 * `binned_hist_cal`: a histogram of a sample sequence whose values are scaled
 * by a precision factor `acc` and truncated to integer bin numbers. The
 * histogram has one bin per integer from 0 to the truncated scaled maximum.
 *
 * The source's undefined behaviour becomes explicit error results: an empty
 * input (dereferencing the end iterator), a non-positive scaled maximum (the
 * rescaling loop never ends) and a bin number outside the histogram (an
 * out-of-bounds write).
 */
module Histogram {
  import opened CArith
  import opened Results

  datatype HistError =
    | EmptyInput
    | ScaleNeverPositive
    | BinOutOfRange(position: nat)

  /** The largest element, as `std::max_element` finds it. */
  function Max(s: seq<real>): (m: real)
    requires |s| > 0
    ensures m in s
    ensures forall i :: 0 <= i < |s| ==> s[i] <= m
  {
    if |s| == 1 then s[0]
    else
      var m' := Max(s[..|s| - 1]);
      if s[|s| - 1] > m' then s[|s| - 1] else m'
  }

  /** `maxValue * acc`: the scaled maximum, which sizes the histogram. */
  function ScaledMax(s: seq<real>, acc: real): real
    requires |s| > 0
  {
    Max(s) * acc
  }

  /** `static_cast<int>(size) + 1`: the number of bins. */
  function Width(s: seq<real>, acc: real): int
    requires |s| > 0
  {
    Trunc(ScaledMax(s, acc)) + 1
  }

  /** `static_cast<int>(d * acc)`: the bin a sample falls into. */
  function Bin(d: real, acc: real): int
  {
    Trunc(d * acc)
  }

  /** How many samples fall into bin `b`. */
  function BinCount(s: seq<real>, acc: real, b: int): nat
  {
    if |s| == 0 then 0
    else BinCount(s[..|s| - 1], acc, b) + (if Bin(s[|s| - 1], acc) == b then 1 else 0)
  }

  /** Every sample falls into one of the bins `0 .. width - 1`. */
  predicate BinsInRange(s: seq<real>, acc: real, width: int)
  {
    forall i :: 0 <= i < |s| ==> 0 <= Bin(s[i], acc) < width
  }

  /** Sum of the bin counts of a histogram. */
  function Total(h: seq<nat>): nat
  {
    if |h| == 0 then 0 else Total(h[..|h| - 1]) + h[|h| - 1]
  }

  /** How many samples fall into the bins `0 .. k - 1`. */
  function CountsBelow(s: seq<real>, acc: real, k: nat): nat
  {
    if k == 0 then 0 else CountsBelow(s, acc, k - 1) + BinCount(s, acc, k - 1)
  }

  /** `size` after `k` passes of the rescaling loop `size = size * 10`. */
  function ScaleAfter(size: real, k: nat): real
  {
    if k == 0 then size else ScaleAfter(size, k - 1) * 10.0
  }

  /**
   * The rescaling loop `while (size <= 0)` only multiplies `size` by ten,
   * so once entered it never ends: a non-positive size stays non-positive.
   */
  lemma {:induction false} ScaleLoopNeverExits(size: real, k: nat)
    requires size <= 0.0
    ensures ScaleAfter(size, k) <= 0.0
  {
    if k > 0 {
      ScaleLoopNeverExits(size, k - 1);
    }
  }

  /** `std::max_element`: a scan keeping the largest element seen so far. */
  method MaxElement(arr: seq<real>) returns (m: real)
    requires |arr| > 0
    ensures m == Max(arr)
  {
    m := arr[0];
    for i := 1 to |arr|
      invariant m == Max(arr[..i])
    {
      assert arr[..i + 1][..i] == arr[..i];
      if arr[i] > m {
        m := arr[i];
      }
    }
    assert arr[..|arr|] == arr;
  }

  /**
   * `binned_hist_cal`: finds the maximum, sizes the histogram from the
   * truncated scaled maximum and counts every sample into its bin.
   */
  method BinnedHist(arr: seq<real>, acc: real) returns (r: Result<seq<nat>, HistError>)
    ensures |arr| == 0 ==> r == Failure(EmptyInput)
    ensures |arr| > 0 && ScaledMax(arr, acc) <= 0.0 ==> r == Failure(ScaleNeverPositive)
    ensures |arr| > 0 && ScaledMax(arr, acc) > 0.0 && r.Success? ==>
              && BinsInRange(arr, acc, Width(arr, acc))
              && |r.value| == Width(arr, acc)
              && (forall b :: 0 <= b < |r.value| ==> r.value[b] == BinCount(arr, acc, b))
              && Total(r.value) == |arr|
    ensures |arr| > 0 && ScaledMax(arr, acc) > 0.0 && r.Failure? ==>
              && r.error.BinOutOfRange?
              && r.error.position < |arr|
              && BinsInRange(arr[..r.error.position], acc, Width(arr, acc))
              && !(0 <= Bin(arr[r.error.position], acc) < Width(arr, acc))
  {
    if |arr| == 0 {
      return Failure(EmptyInput);
    }
    var maxValue := MaxElement(arr);
    var size := maxValue * acc;
    assert size == ScaledMax(arr, acc);
    if size <= 0.0 {
      return Failure(ScaleNeverPositive);
    }
    var width := Trunc(size) + 1;
    assert width == Width(arr, acc);
    var hist := new nat[width](_ => 0);
    for k := 0 to |arr|
      invariant BinsInRange(arr[..k], acc, width)
      invariant forall b :: 0 <= b < width ==> hist[b] == BinCount(arr[..k], acc, b)
    {
      assert arr[..k + 1][..k] == arr[..k];
      var binNum := Bin(arr[k], acc);
      if binNum < 0 || binNum >= width {
        return Failure(BinOutOfRange(k));
      }
      hist[binNum] := hist[binNum] + 1;
    }
    assert arr[..|arr|] == arr;
    var h := hist[..];
    TotalOfCounts(h, arr, acc);
    CountsBelowAll(arr, acc, width);
    r := Success(h);
  }

  /** Adding a sample adds one to the bins below `k` exactly when it falls into one of them. */
  lemma {:induction false} CountsBelowAppend(s: seq<real>, x: real, acc: real, k: nat)
    ensures CountsBelow(s + [x], acc, k) == CountsBelow(s, acc, k) + (if 0 <= Bin(x, acc) < k then 1 else 0)
  {
    if k > 0 {
      CountsBelowAppend(s, x, acc, k - 1);
      assert (s + [x])[..|s|] == s;
    }
  }

  /** When every sample falls into the bins `0 .. width - 1`, those bins hold all of them. */
  lemma {:induction false} CountsBelowAll(s: seq<real>, acc: real, width: nat)
    requires BinsInRange(s, acc, width)
    ensures CountsBelow(s, acc, width) == |s|
  {
    if |s| == 0 {
      CountsBelowEmpty(s, acc, width);
    } else {
      var p, x := s[..|s| - 1], s[|s| - 1];
      assert s == p + [x];
      CountsBelowAll(p, acc, width);
      CountsBelowAppend(p, x, acc, width);
    }
  }

  lemma {:induction false} CountsBelowEmpty(s: seq<real>, acc: real, k: nat)
    requires |s| == 0
    ensures CountsBelow(s, acc, k) == 0
  {
    if k > 0 {
      CountsBelowEmpty(s, acc, k - 1);
    }
  }

  /** A histogram holding the bin counts adds up to the number of samples in its bins. */
  lemma {:induction false} TotalOfCounts(h: seq<nat>, s: seq<real>, acc: real)
    requires forall b :: 0 <= b < |h| ==> h[b] == BinCount(s, acc, b)
    ensures Total(h) == CountsBelow(s, acc, |h|)
  {
    if |h| > 0 {
      TotalOfCounts(h[..|h| - 1], s, acc);
    }
  }

  /**
   * With a positive precision factor and a positive scaled maximum, every
   * bin number stays below the histogram's width, so the samples fit in
   * exactly when none of them scales to `-1` or below.
   */
  lemma BinsInRangeIff(s: seq<real>, acc: real)
    requires |s| > 0 && 0.0 < acc && 0.0 < ScaledMax(s, acc)
    ensures BinsInRange(s, acc, Width(s, acc)) <==> forall i :: 0 <= i < |s| ==> -1.0 < s[i] * acc
  {
    var size := ScaledMax(s, acc);
    forall i | 0 <= i < |s|
      ensures Bin(s[i], acc) < Trunc(size) + 1
      ensures 0 <= Bin(s[i], acc) <==> -1.0 < s[i] * acc
    {
      ScaleBelowMax(s[i], Max(s), acc);
      TruncMonotone(s[i] * acc, size);
      TruncNonNegative(s[i] * acc);
    }
  }

  lemma ScaleBelowMax(d: real, m: real, acc: real)
    requires d <= m && 0.0 < acc
    ensures d * acc <= m * acc
  {
    assert m * acc - d * acc == (m - d) * acc;
    NonNegativeProduct(m - d, acc);
  }

  /** Non-negative samples with a positive precision factor always fit the histogram. */
  lemma NonNegativeSamplesFit(s: seq<real>, acc: real)
    requires |s| > 0 && 0.0 < acc && 0.0 < ScaledMax(s, acc)
    requires forall i :: 0 <= i < |s| ==> 0.0 <= s[i]
    ensures BinsInRange(s, acc, Width(s, acc))
  {
    forall i | 0 <= i < |s|
      ensures -1.0 < s[i] * acc
    {
      NonNegativeProduct(s[i], acc);
    }
    BinsInRangeIff(s, acc);
  }
}
