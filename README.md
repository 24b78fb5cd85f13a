# DSP toolkit core in Dafny

This project models the sequence routines of a small C++ signal-processing
toolkit (`main.cpp`) and proves properties about them:

- **Sine synthesis.** `create_sin_arr` and `create_sin_arr2` work out a sample count in C++ integer arithmetic. They return early when there are too few samples, or for `create_sin_arr2` when the cycle is zero. Both print a non-fatal warning when the sampling theorem is violated, and both fill a buffer sample by sample.
- **Statistics.** `MV_cal` computes the sum, the mean and the sample variance of a sequence in two passes. `MV_cal_running` recomputes the same figures after every new sample from a running sum and a running sum of squares.
- **Histogram binning.** `binned_hist_cal` sizes a histogram from the scaled maximum. It then counts every sample into the bin `static_cast<int>(d * acc)`.
- **Convolution.** `convolution_input_side` and `convolution_output_side` compute a linear convolution in two loop orders. Each uses a buffer of `len(X) + len(H)` outputs.

C++ `double` is modelled as Dafny `real`, so all arithmetic is exact. `sin` is a parameter of the sine generators, and nothing is assumed about it except where a lemma says so. C++ `int` division and remainder truncate toward zero. So does the `static_cast<int>` of a double. All three are written out in module `CArith`, because Dafny's `/` and `%` on `int` are Euclidean.

Each counting loop of the C++ code is a Dafny `method` with a `for` loop and its invariants. The sine generators, the histogram and both convolutions fill a freshly allocated `array`. `Accumulate`, `BatchStats`, `RunningStats` and `MaxElement` thread their accumulators over the input sequence and allocate nothing. Each method is proved against specification functions:

- the closed-form samples `SineSample` and `PeriodicSample`;
- the recursive sums `Sum`, `SumSquares` and `SquaredDeviations`;
- the recursive bin count `BinCount`;
- the recursive convolution sums `InputSide` and `OutputSide`.

Lemmas then prove what the source promises about those functions.

The rescaling `while (size <= 0)` loop of `binned_hist_cal` is not a Dafny loop. The function `ScaleAfter` describes it, and the lemma `ScaleLoopNeverExits` proves that it never ends once entered. `BinnedHist` returns `ScaleNeverPositive` instead of entering it.

The source prints its diagnostics and results. The model returns them instead:

- the sine generators return a sequence of `Diagnostic`s;
- the statistics routines return `Snapshot`s;
- the histogram returns a `Result`.

Inputs for which the C++ code has undefined behaviour or never terminates become explicit results:

- an empty input to `MV_cal` gives `None`;
- a single sample gives no variance;
- the first running snapshot has no variance;
- an empty histogram input gives `EmptyInput`;
- a non-positive scaled maximum gives `ScaleNeverPositive`;
- a bin number outside the histogram gives `BinOutOfRange`.

Bin numbers and the cycle length are truncated toward zero, as
`static_cast<int>` does. For negative values this differs from flooring.

Files: `results.dfy` (Option/Result), `c_arith.dfy` (C++ integer semantics), `sine.dfy`, `statistics.dfy`, `histogram.dfy`, `convolution.dfy`.

## Model

| member | source | states |
|---|---|---|
| CArith.Trunc | main.cpp:80 | `static_cast<int>` of a double is the integer part toward zero: `r <= x < r + 1` for non-negative `x`, and `r - 1 < x <= r` for negative `x` |
| CArith.Div | main.cpp:37 | C++ `a / b` on int truncates toward zero: the remainder `a - q*b` is smaller than `abs(b)` and has the sign of `a` |
| CArith.Rem | main.cpp:101 | C++ `a % b` lies in `[0, abs(b))` for a non-negative dividend and in `(-abs(b), 0]` for a negative one |
| CArith.RemShift | main.cpp:101 | for non-negative dividends `(a + b) % b == a % b`, for either sign of `b` |
| CArith.TruncOfQuotient | main.cpp:80 | converting the double quotient of two ints to int gives C++ integer division |
| SineSynthesis.SampleCount | main.cpp:37 | a count above one is the number of whole thousandths in `sample_rate * time_ms`: `1000 n <= sample_rate * time_ms < 1000 (n + 1)` |
| SineSynthesis.CreateSinArr | main.cpp:29-60 | count <= 1 gives an empty sequence and the too-few-samples message. Otherwise the output has exactly the count of samples, sample `i` is `amp * sin(2 pi freq i/sample_rate + phase pi/180)`, and the sampling-theorem message appears exactly when `freq*2 >= sample_rate` without shortening the output |
| SineSynthesis.SineSampleBounded | main.cpp:54-57 | when `sin` stays in [-1, 1], every sample lies in `[-abs(amp), abs(amp)]` |
| SineSynthesis.CreateSinArr2 | main.cpp:71-105 | too few samples gives an empty output and that message. Otherwise a zero `sin_cycle` gives an empty output and the zero-cycle message. Otherwise the output has the full count, sample `i` is `amp * sin(2 pi (i % cycle) / cycle)`, and `x[i + cycle] == x[i]` for every in-range pair |
| SineSynthesis.PeriodicSampleRepeats | main.cpp:100-102 | the periodic sample at `i + cycle` equals the one at `i`, whatever `sin` is, for either sign of the cycle |
| SineSynthesis.SinCycleOfIntegerFrequency | main.cpp:80 | with an integer frequency, `sin_cycle` computed through a double equals C++ integer division `sample_rate / freq` |
| Statistics.Accumulate | main.cpp:115 | `std::accumulate` from 0.0 yields the sum of the sequence |
| Statistics.BatchStats | main.cpp:113-131 | a non-empty input yields its sum, its mean `sum / n` and, from two samples on, the squared deviations about the mean divided by `n - 1`; an empty input yields `None` |
| Statistics.BatchSnapshotFacts | main.cpp:116-129 | mean times count is the sum; the variance exists exactly when `n >= 2` and is never negative |
| Statistics.RunningStats | main.cpp:138-158 | one snapshot per sample; snapshot `i` holds the sum and mean of `arr[0..i]` and `(sum_sqrt - sum*sum/(i+1)) / i` from its running sums (none at `i == 0`), and equals the batch statistics of that prefix |
| Statistics.SquaredDeviationsExpand | main.cpp:121-123 | `sum (x - m)^2 == sum x^2 - 2 m sum x + n m^2` for every centre `m` |
| Statistics.SpreadsAgree | main.cpp:150 | the running `sum_sqrt - sum*sum/n` equals the batch sum of squared deviations about the mean |
| Statistics.RunningMatchesBatch | main.cpp:146-150 | the running snapshot of any non-empty sequence equals its batch snapshot (sum, mean and variance) |
| Histogram.Max | main.cpp:169 | the maximum is an element and no element exceeds it |
| Histogram.MaxElement | main.cpp:169 | `std::max_element`'s scan yields the maximum |
| Histogram.ScaleLoopNeverExits | main.cpp:172-175 | a non-positive `size` stays non-positive after any number of `size *= 10` passes, so the loop never ends once entered |
| Histogram.BinnedHist | main.cpp:167-184 | empty input, non-positive scaled maximum and an out-of-range bin are errors (the last reports the first offending position, all earlier samples being in range). On success the histogram has `trunc(max*acc) + 1` bins, bin `b` holds the number of samples with `trunc(d*acc) == b`, and the counts add up to the input length |
| Histogram.CountsBelowAppend | main.cpp:178-181 | adding one sample raises the count of bins `0..k-1` by one exactly when its bin is among them |
| Histogram.CountsBelowAll | main.cpp:178-181 | when every sample's bin is in range, the bins together hold all samples |
| Histogram.TotalOfCounts | main.cpp:177-181 | the sum of a histogram holding the bin counts is the number of samples in its bins |
| Histogram.BinsInRangeIff | main.cpp:177-180 | with `acc > 0` no bin exceeds the last one, so the samples fit exactly when none scales to `-1` or below |
| Histogram.NonNegativeSamplesFit | main.cpp:177-180 | non-negative samples with `acc > 0` always fit the histogram |
| Convolution.ConvolutionInputSide | main.cpp:186-195 | the output has `len(X) + len(H)` entries; entry `n` is the sum over input samples `i` of `X[i] * H[n - i]`, which equals the sum over kernel taps |
| Convolution.ConvolutionOutputSide | main.cpp:197-210 | the output has `len(X) + len(H)` entries; entry `n` is the sum over kernel taps `j` with `0 <= n - j < len(X)` of `X[n - j] * H[j]`, which equals the sum over input samples |
| Convolution.ConvolutionOrdersAgree | main.cpp:186-210 | the two loop orders return the same sequence |
| Convolution.SidesAgree | main.cpp:191 | summing `X[i] * H[j]` over `i + j == n` by input index or by kernel index gives the same value |
| Convolution.OutputSumAddInput | main.cpp:204-206 | appending an input sample adds to output `n` exactly its product with tap `n - len(X)` |
| Convolution.OutputSumBeyondEnd | main.cpp:202-206 | outputs at index `len(X) + b - 1` and beyond receive nothing from the first `b` taps |
| Convolution.LastOutputIsZero | main.cpp:188 | the last of the `len(X) + len(H)` outputs is always zero, by either loop order |

## Left out

- `DFT` and `IDFT` (main.cpp:219-251) are not part of this model. They need complex arithmetic and trigonometric identities. Both read `arr[i]` for every `i < N` without a bounds check, so they implicitly require `N <= arr.size()`.
- `vector_show`, every `cout` message and `main` are not modelled; they are console I/O and program orchestration. Diagnostics and statistics are returned instead.
- The standard deviation (`sqrt` of the variance) is not modelled: there is no square root on `real`. The variance it is taken from is modelled.
- The actual values of `sin` are not modelled. `sin` is a parameter, and only `SineSampleBounded` assumes it stays in [-1, 1].
- IEEE double rounding, NaN and infinity are not modelled: `double` is an exact `real`.
- The `static_assert` on the template argument types is a compile-time check and is not modelled. The template types of amplitudes, frequencies, samples and kernels become `real`.
- CArith.Trunc: converting a double outside the range of `int` is undefined in C++. Examples are `static_cast<int>(size)` and `static_cast<int>(d * acc)` in `binned_hist_cal`, and `sin_cycle = sample_rate / freq` in `create_sin_arr2`. The model returns the mathematical integer part instead, so a huge scaled maximum gives a correspondingly huge histogram and a tiny frequency gives a huge cycle.
- SineSynthesis.SampleCount: does not model 32-bit overflow of `sample_rate * time_ms`, because Dafny integers are unbounded.
- SineSynthesis.CreateSinArr2: requires `freq != 0`. In C++ a zero frequency divides by zero: it is undefined for an integer frequency. For a double frequency the quotient is infinite, or NaN when `sample_rate` is also zero, and converting either to `int` is undefined too.
- Statistics.BatchStats: an empty input returns `None` where the C++ code divides zero by zero for the mean. A single sample returns no variance where it divides zero by zero.
- Statistics.RunningStats: the first snapshot has no variance where the C++ code divides zero by zero.
- Histogram.BinnedHist: an empty input, a non-terminating rescaling loop and an out-of-bounds write are all undefined or non-terminating in C++. The model returns an error for each instead. After an out-of-range bin the model stops, where the C++ code carries on writing.
