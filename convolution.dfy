/**
 * Discrete linear convolution `Y = X * H` computed in the two loop orders of
 * the source: `convolution_input_side` scatters each input sample over the
 * outputs it touches, `convolution_output_side` gathers each output from the
 * inputs that reach it. Both allocate `|X| + |H|` outputs, one more than the
 * convolution has, so the last output stays zero.
 */
module Convolution {

  /** What input sample `X[i]` contributes to output `n`: `X[i] * H[n - i]` when that kernel index exists. */
  function InputTerm(X: seq<real>, H: seq<real>, n: int, i: int): real
    requires 0 <= i < |X|
  {
    if 0 <= n - i < |H| then X[i] * H[n - i] else 0.0
  }

  /** The contributions of the first `a` input samples to output `n`. */
  function InputSum(X: seq<real>, H: seq<real>, n: int, a: nat): real
    requires a <= |X|
  {
    if a == 0 then 0.0 else InputSum(X, H, n, a - 1) + InputTerm(X, H, n, a - 1)
  }

  /** Output `n` as a sum over the input samples. */
  function InputSide(X: seq<real>, H: seq<real>, n: int): real
  {
    InputSum(X, H, n, |X|)
  }

  /** What kernel tap `H[j]` contributes to output `n`: `X[n - j] * H[j]` when that input index exists. */
  function OutputTerm(X: seq<real>, H: seq<real>, n: int, j: int): real
    requires 0 <= j < |H|
  {
    if 0 <= n - j < |X| then X[n - j] * H[j] else 0.0
  }

  /** The contributions of the first `b` kernel taps to output `n`. */
  function OutputSum(X: seq<real>, H: seq<real>, n: int, b: nat): real
    requires b <= |H|
  {
    if b == 0 then 0.0 else OutputSum(X, H, n, b - 1) + OutputTerm(X, H, n, b - 1)
  }

  /** Output `n` as a sum over the kernel taps. */
  function OutputSide(X: seq<real>, H: seq<real>, n: int): real
  {
    OutputSum(X, H, n, |H|)
  }

  /**
   * `convolution_input_side`: for every input sample `X[i]` and kernel tap
   * `H[j]`, adds `X[i] * H[j]` to `Y[i + j]`.
   */
  method ConvolutionInputSide(X: seq<real>, H: seq<real>) returns (Y: seq<real>)
    ensures |Y| == |X| + |H|
    ensures forall n :: 0 <= n < |Y| ==> Y[n] == InputSide(X, H, n)
    ensures forall n :: 0 <= n < |Y| ==> Y[n] == OutputSide(X, H, n)
  {
    var y := new real[|X| + |H|](_ => 0.0);
    for i := 0 to |X|
      invariant forall n :: 0 <= n < y.Length ==> y[n] == InputSum(X, H, n, i)
    {
      for j := 0 to |H|
        invariant forall n :: 0 <= n < y.Length ==>
          y[n] == InputSum(X, H, n, i) + (if i <= n < i + j then InputTerm(X, H, n, i) else 0.0)
      {
        y[i + j] := y[i + j] + X[i] * H[j];
      }
    }
    Y := y[..];
    forall n | 0 <= n < |Y|
      ensures Y[n] == OutputSide(X, H, n)
    {
      SidesAgree(X, H, n);
    }
  }

  /**
   * `convolution_output_side`: for every output `Y[i]` and kernel tap
   * `H[j]`, skips the tap when `i - j` is not an input index and otherwise
   * adds `X[i - j] * H[j]` to `Y[i]`.
   */
  method ConvolutionOutputSide(X: seq<real>, H: seq<real>) returns (Y: seq<real>)
    ensures |Y| == |X| + |H|
    ensures forall n :: 0 <= n < |Y| ==> Y[n] == OutputSide(X, H, n)
    ensures forall n :: 0 <= n < |Y| ==> Y[n] == InputSide(X, H, n)
  {
    var y := new real[|X| + |H|](_ => 0.0);
    for i := 0 to y.Length
      invariant forall n :: 0 <= n < i ==> y[n] == OutputSide(X, H, n)
      invariant forall n :: i <= n < y.Length ==> y[n] == 0.0
    {
      for j := 0 to |H|
        invariant y[i] == OutputSum(X, H, i, j)
        invariant forall n :: 0 <= n < i ==> y[n] == OutputSide(X, H, n)
        invariant forall n :: i < n < y.Length ==> y[n] == 0.0
      {
        if i - j < 0 {
          continue;
        }
        if i - j >= |X| {
          continue;
        }
        y[i] := y[i] + X[i - j] * H[j];
      }
    }
    Y := y[..];
    forall n | 0 <= n < |Y|
      ensures Y[n] == InputSide(X, H, n)
    {
      SidesAgree(X, H, n);
    }
  }

  /** The two loop orders compute the same output sequence. */
  method ConvolutionOrdersAgree(X: seq<real>, H: seq<real>) returns (yIn: seq<real>, yOut: seq<real>)
    ensures yIn == yOut
  {
    yIn := ConvolutionInputSide(X, H);
    yOut := ConvolutionOutputSide(X, H);
  }

  /** Summing over input samples and summing over kernel taps give the same output. */
  lemma {:induction false} SidesAgree(X: seq<real>, H: seq<real>, n: int)
    ensures InputSide(X, H, n) == OutputSide(X, H, n)
    decreases |X|
  {
    if |X| == 0 {
      OutputSumNoInput(X, H, n, |H|);
    } else {
      var P, x := X[..|X| - 1], X[|X| - 1];
      assert X == P + [x];
      SidesAgree(P, H, n);
      InputSumPrefix(P, x, H, n, |P|);
      OutputSumAddInput(P, x, H, n, |H|);
    }
  }

  /** Appending an input sample leaves the contributions of the earlier samples unchanged. */
  lemma {:induction false} InputSumPrefix(P: seq<real>, x: real, H: seq<real>, n: int, a: nat)
    requires a <= |P|
    ensures InputSum(P + [x], H, n, a) == InputSum(P, H, n, a)
  {
    if a > 0 {
      InputSumPrefix(P, x, H, n, a - 1);
      assert (P + [x])[a - 1] == P[a - 1];
    }
  }

  /**
   * Appending an input sample `x` at index `|P|` adds, among the first `b`
   * kernel taps, exactly the product with the tap `n - |P|`.
   */
  lemma {:induction false} OutputSumAddInput(P: seq<real>, x: real, H: seq<real>, n: int, b: nat)
    requires b <= |H|
    ensures OutputSum(P + [x], H, n, b)
      == OutputSum(P, H, n, b) + (if 0 <= n - |P| < b then x * H[n - |P|] else 0.0)
  {
    if b > 0 {
      OutputSumAddInput(P, x, H, n, b - 1);
      var j := b - 1;
      if n - j == |P| {
        assert (P + [x])[n - j] == x;
      } else if 0 <= n - j < |P| {
        assert (P + [x])[n - j] == P[n - j];
      }
    }
  }

  /** With no input samples every output is zero. */
  lemma {:induction false} OutputSumNoInput(X: seq<real>, H: seq<real>, n: int, b: nat)
    requires |X| == 0 && b <= |H|
    ensures OutputSum(X, H, n, b) == 0.0
  {
    if b > 0 {
      OutputSumNoInput(X, H, n, b - 1);
    }
  }

  /** Outputs from index `|X| + b - 1` on receive nothing from the first `b` kernel taps. */
  lemma {:induction false} OutputSumBeyondEnd(X: seq<real>, H: seq<real>, n: int, b: nat)
    requires b <= |H| && n >= |X| + b - 1
    ensures OutputSum(X, H, n, b) == 0.0
  {
    if b > 0 {
      OutputSumBeyondEnd(X, H, n, b - 1);
    }
  }

  /** The last of the `|X| + |H|` outputs is always zero. */
  lemma LastOutputIsZero(X: seq<real>, H: seq<real>)
    ensures OutputSide(X, H, |X| + |H| - 1) == 0.0
    ensures InputSide(X, H, |X| + |H| - 1) == 0.0
  {
    OutputSumBeyondEnd(X, H, |X| + |H| - 1, |H|);
    SidesAgree(X, H, |X| + |H| - 1);
  }
}
