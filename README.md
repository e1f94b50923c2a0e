# BasicFiltering core in Dafny: convolution, FIR tap synthesis, filtering

This project models the signal-processing core of the BasicFiltering repository:

- the circular-buffer convolution routine `convolution(input1, input2, tr)`;
- the five FIR tap generators `allpass_taps`, `lowpass_taps`, `highpass_taps`, `bandpass_taps` and `bandstop_taps`;
- `filter(data_in, firfiltertaps, tr)`, which forwards to the convolution.

Files:

- `results.dfy`: the `Result` datatype. It stands for a returned list or a raised exception.
- `convolution.dfy` (module `CircularConvolution`):
  - The method `Convolution` runs the source's loop on an `array<real>` circular buffer.
  - It is proved equal to the function `ConvolutionOf`.
  - Lemmas relate `ConvolutionOf` to linear convolution.
  - The buffer invariant `Window` says that slot `Back(cirindex, j, M)` holds the sample of lag `j`.
  - `Back` is the two index expressions of the inner loop, one per branch.
- `filtertaps.dfy` (module `FilterTaps`):
  - `ResolveIndices` is the index-resolution block shared by the five functions. `AppendTaps` is the `for i in N: taps.append(...)` loop.
  - One method per function is proved equal to a tap-list function (`LowpassTapList`, …).
  - Lemmas about those functions cover tap counts, errors, centre taps, spectral inversion and linear phase.
  - NumPy's `sin` and `pi` are a `Trig` value: an arbitrary function and an arbitrary positive real. The theorems therefore hold for any choice; linear phase additionally needs an odd sine.
- `filter.dfy` (module `FirFilter`): `Filter` as a function forwarding to the convolution, with a lemma giving its result in terms of linear convolution.

Behaviour of the code worth knowing:

- **Static operand.** The static operand is chosen by Python's lexicographic list comparison (`input1 > input2`, `input1 < input2`). The docstring says the smaller list is chosen, but the comparison does not test length. On equal lists `input1` is static. `LongerListCanBeStatic` shows the longer list becoming static; with `tr=False` the output then has the length of the shorter list.
- **Empty inputs.** Two empty inputs return `[]`. Exactly one empty input makes the buffer empty, and writing into it raises `IndexError`. This is modelled as `Failure(IndexOutOfRange)`.
- **Output without the flush.** With `tr=False` the output is the first |data_in| values of the linear convolution.
- **Even tap counts.** The module docstring of filtertaps.py says N must be odd, but lowpass and bandpass accept an even N and place the taps on the half-integer grid `-(N-1)/2 + i`.
- **Allpass range test.** The allpass range test is inverted (`not int(min_tap) and not int(max_tap)`). With N = 0 it therefore returns `[1]` for `min_tap = max_tap = 0` and raises for every other pair of bounds.

## Model

| member | source | states |
|---|---|---|
| CircularConvolution.LexLess | Functions/Convolution/Convolution.py:16-20 | Python's `<` on two lists of numbers, element by element; it is irreflexive: no list is less than itself |
| CircularConvolution.ChooseOperands | Functions/Convolution/Convolution.py:16-27 | the (static, data_in) pair of the three-way branch; it is always the two inputs, in one order or the other |
| CircularConvolution.Mac | Functions/Convolution/Convolution.py:39-48 | the accumulator after j turns of the inner loop: sum of static[k]·(sample k steps back) for k < j, samples before the start reading as 0 |
| CircularConvolution.ConvolutionOf | Functions/Convolution/Convolution.py:16-58 | the result of convolution(input1, input2, tr): operand choice, flush zeros appended to data_in when tr holds, then the buffer sweep |
| CircularConvolution.Sweep | Functions/Convolution/Convolution.py:34-58 | the loop over data_in: IndexError on an empty buffer with data, otherwise one MAC sum per sample |
| CircularConvolution.Back | Functions/Convolution/Convolution.py:44-48 | the two index expressions `cirindex - j` and `len(cirbuffer) + (cirindex - j)`, chosen by `j <= cirindex`; for a cursor and lag inside the buffer the slot is inside the buffer |
| CircularConvolution.Advance | Functions/Convolution/Convolution.py:52-56 | the cursor update: +1, wrapping to 0 after the last slot; a cursor inside the buffer stays inside it |
| CircularConvolution.Cursor | Functions/Convolution/Convolution.py:35-56 | the cursor after i samples, starting at 0 (line 35) and advanced once per sample; it is always inside a non-empty buffer |
| CircularConvolution.Window | Functions/Convolution/Convolution.py:42-56 | the buffer invariant of the loop: for every lag j the slot `Back(cirindex, j, M)` holds the sample j steps before the current one, 0 before the first |
| CircularConvolution.Convolution | Functions/Convolution/Convolution.py:4-58 | the routine returns exactly `ConvolutionOf(input1, input2, tr)`: the operand choice, the flush zeros, the buffer loop and the IndexError on an empty buffer |
| CircularConvolution.RunBuffer | Functions/Convolution/Convolution.py:34-58 | starting from an all-zero buffer of length \|static\|, the loop yields output i = sum over j of static[j]·data_in[i-j] (samples before the start read as 0), or fails on an empty buffer with non-empty data |
| CircularConvolution.MacSweep | Functions/Convolution/Convolution.py:39-48 | the inner MAC loop sums static[j]·(the sample of lag j) over all j, given that the buffer holds the last M samples around the cursor |
| CircularConvolution.LexLessIsFirstDifference | Functions/Convolution/Convolution.py:16-20 | Python's `<` on lists holds iff the left list is a proper prefix of the right, or is smaller at the first position where they differ |
| CircularConvolution.LexLessAsymmetric | Functions/Convolution/Convolution.py:16-20 | `a < b` and `b < a` never both hold, so the branches at 16 and 20 exclude each other |
| CircularConvolution.LexLessTrichotomy | Functions/Convolution/Convolution.py:16-27 | for any two lists at least one of `>`, `<` and equality holds, so one of the three branches is always taken |
| CircularConvolution.StaticIsLexMinimum | Functions/Convolution/Convolution.py:16-27 | the static operand is the lexicographically smaller input and data_in the other; equal inputs make input1 static; swapping the arguments picks the same pair |
| CircularConvolution.LongerListCanBeStatic | Functions/Convolution/Convolution.py:16-27 | with [2] and [1, 1, 1] the three-element list is static, and without the flush the output is the single value [2] |
| CircularConvolution.MacIsClosedSum | Functions/Convolution/Convolution.py:38-50 | the accumulated sum is the finite sum over j = 0..min(n, i+1)-1 of static[j]·data_in[i-j], with no out-of-range terms |
| CircularConvolution.MacCommutes | Functions/Convolution/Convolution.py:44-48 | the MAC sum at any output index is unchanged when static and data are swapped |
| CircularConvolution.LinearConvolutionCommutes | Functions/Convolution/Convolution.py:44-48 | linear convolution of two non-empty lists is commutative |
| CircularConvolution.MacPaddedData | Functions/Convolution/Convolution.py:30-31 | appending flush zeros to data_in does not change any MAC sum |
| CircularConvolution.ConvolutionFailsIffOneEmpty | Functions/Convolution/Convolution.py:16-42 | the routine raises exactly when one input is empty and the other is not; two empty inputs give [] |
| CircularConvolution.ConvolutionLength | Functions/Convolution/Convolution.py:29-50 | one output per data_in sample, plus \|static\| with the flush, so \|input1\| + \|input2\| values when tr holds |
| CircularConvolution.OutputIsClosedForm | Functions/Convolution/Convolution.py:38-50 | every output value is the closed-form sum of static[j]·data_in[i-j] over the lags that exist |
| CircularConvolution.SingleStaticValueScales | Functions/Convolution/Convolution.py:38-50 | a one-element static operand just scales data_in, flush zero included |
| CircularConvolution.FlushedIsLinearConvolution | Functions/Convolution/Convolution.py:29-58 | with the flush and both inputs non-empty, the result is the linear convolution of input1 and input2 followed by one 0 |
| CircularConvolution.UnflushedIsTruncatedLinearConvolution | Functions/Convolution/Convolution.py:34-58 | without the flush, the result is the first \|data_in\| values of the linear convolution |
| CircularConvolution.ConvolutionIsSymmetric | Functions/Convolution/Convolution.py:16-58 | convolution(a, b, tr) equals convolution(b, a, tr) for every pair of inputs |
| CircularConvolution.ImpulseResponse | Functions/Convolution/Convolution.py:4-58 | a unit impulse followed by k zeros convolved with non-empty taps returns the taps then k+1 zeros |
| CircularConvolution.CursorIsStepModulo | Functions/Convolution/Convolution.py:52-56 | after i steps the wrap-around cursor update leaves cirindex at i mod M |
| CircularConvolution.BackIsLagSlot | Functions/Convolution/Convolution.py:44-48 | both index expressions (`cirindex - j`, `len(cirbuffer) + (cirindex - j)`) are in range and address slot (i - j) mod M |
| CircularConvolution.WriteSample | Functions/Convolution/Convolution.py:42 | writing data_in[i] at the cursor extends the buffer invariant to lag 0 |
| CircularConvolution.AdvanceShiftsLags | Functions/Convolution/Convolution.py:52-56 | advancing the cursor turns the lag-j slots into the lag-(j+1) slots of the next sample |
| FilterTaps.AcceptsEvenCount | Functions/FIR/Filter/filtertaps.py:56-61 | lowpass and bandpass build the half-shifted grid for an even N; the other three raise (lines 28-29, 89-90, 152-153) |
| FilterTaps.RangeAdmitted | Functions/FIR/Filter/filtertaps.py:32 | the explicit-range guard: both bounds 0 for allpass (line 32), both non-zero for the other four (lines 64, 93, 126, 156) |
| FilterTaps.PyRange | Functions/FIR/Filter/filtertaps.py:33 | Python's range(lo, hi) as reals: lo, lo+1, …, hi-1, empty when hi <= lo |
| FilterTaps.CentredRange | Functions/FIR/Filter/filtertaps.py:31 | the odd-N indices range(int(-(N-1)/2), int((N-1)/2 + 1)) |
| FilterTaps.HalfShiftedGrid | Functions/FIR/Filter/filtertaps.py:57-61 | the even-N indices -(N-1)/2 + i for i in range(N) |
| FilterTaps.Indices | Functions/FIR/Filter/filtertaps.py:56-67 | the shared resolution block: even N gives the grid or the odd-N exception, odd N the centred range, N = 0 the explicit range or the missing-values exception |
| FilterTaps.AllpassTap | Functions/FIR/Filter/filtertaps.py:38-42 | 0 off index 0, 1 at index 0 |
| FilterTaps.LowpassTap | Functions/FIR/Filter/filtertaps.py:70-74 | sin(wc·i)/(π·i) off index 0, wc/π at index 0 |
| FilterTaps.HighpassTap | Functions/FIR/Filter/filtertaps.py:99-103 | -sin(wc·i)/(π·i) off index 0, 1 - wc/π at index 0 |
| FilterTaps.BandpassTap | Functions/FIR/Filter/filtertaps.py:132-136 | (sin(wb·i) - sin(wa·i))/(π·i) off index 0, wb/π - wa/π at index 0 |
| FilterTaps.BandstopTap | Functions/FIR/Filter/filtertaps.py:162-166 | -1·(sin(wb·i) - sin(wa·i))/(π·i) off index 0, 1 - (wb/π - wa/π) at index 0 |
| FilterTaps.Synthesize | Functions/FIR/Filter/filtertaps.py:69-76 | one tap per resolved index in order, or the resolution exception unchanged |
| FilterTaps.AllpassTapList | Functions/FIR/Filter/filtertaps.py:17-44 | the value of allpass_taps: allpass resolution, then the allpass formula per index |
| FilterTaps.LowpassTapList | Functions/FIR/Filter/filtertaps.py:47-76 | the value of lowpass_taps: lowpass resolution, then the lowpass formula per index |
| FilterTaps.HighpassTapList | Functions/FIR/Filter/filtertaps.py:79-105 | the value of highpass_taps: highpass resolution, then the highpass formula per index |
| FilterTaps.BandpassTapList | Functions/FIR/Filter/filtertaps.py:108-138 | the value of bandpass_taps: bandpass resolution, then the bandpass formula per index |
| FilterTaps.BandstopTapList | Functions/FIR/Filter/filtertaps.py:141-168 | the value of bandstop_taps: bandstop resolution, then the bandstop formula per index |
| FilterTaps.AllpassTaps | Functions/FIR/Filter/filtertaps.py:17-44 | allpass_taps returns exactly `AllpassTapList(N, min_tap, max_tap)`, errors included |
| FilterTaps.LowpassTaps | Functions/FIR/Filter/filtertaps.py:47-76 | lowpass_taps returns exactly `LowpassTapList`, errors included |
| FilterTaps.HighpassTaps | Functions/FIR/Filter/filtertaps.py:79-105 | highpass_taps returns exactly `HighpassTapList`, errors included |
| FilterTaps.BandpassTaps | Functions/FIR/Filter/filtertaps.py:108-138 | bandpass_taps returns exactly `BandpassTapList`, errors included |
| FilterTaps.BandstopTaps | Functions/FIR/Filter/filtertaps.py:141-168 | bandstop_taps returns exactly `BandstopTapList`, errors included |
| FilterTaps.ResolveIndices | Functions/FIR/Filter/filtertaps.py:56-67 | the index-resolution block returns the resolved indices or the exception it raises |
| FilterTaps.HalfShiftedIndices | Functions/FIR/Filter/filtertaps.py:57-61 | the even-N loop builds -(N-1)/2 + i for i in range(N) |
| FilterTaps.AppendTaps | Functions/FIR/Filter/filtertaps.py:69-76 | the append loop yields one tap per index, in index order, with the tap formula applied to that index |
| FilterTaps.SynthesizeTaps | Functions/FIR/Filter/filtertaps.py:56-76 | resolution followed by the append loop gives the taps, or passes the resolution error through |
| FilterTaps.PyRangeSymmetric | Functions/FIR/Filter/filtertaps.py:31 | range(lo, hi) with lo + hi = 1 reads as its own negation backwards |
| FilterTaps.CentredRangeShape | Functions/FIR/Filter/filtertaps.py:31 | a positive odd N gives the N integers -(N-1)/2 .. (N-1)/2 in order with 0 at position (N-1)/2; a negative odd N gives none |
| FilterTaps.HalfShiftedGridShape | Functions/FIR/Filter/filtertaps.py:57-61 | a positive even N gives N points spaced by 1, none of them 0, symmetric about 0 |
| FilterTaps.HalfShiftedGridNonzero | Functions/FIR/Filter/filtertaps.py:57-61 | no point of the even-N grid is 0 |
| FilterTaps.IndicesSymmetric | Functions/FIR/Filter/filtertaps.py:27-35 | for N ≠ 0, or a range with min_tap = -max_tap, the resolved indices are symmetric about 0 |
| FilterTaps.HighpassTapInverts | Functions/FIR/Filter/filtertaps.py:100-103 | each highpass tap equals the allpass tap minus the lowpass tap at the same index |
| FilterTaps.BandstopTapInverts | Functions/FIR/Filter/filtertaps.py:163-166 | each bandstop tap equals the allpass tap minus the bandpass tap at the same index |
| FilterTaps.BandpassTapDifference | Functions/FIR/Filter/filtertaps.py:133-136 | each bandpass tap equals the lowpass tap at wb minus the lowpass tap at wa |
| FilterTaps.LowpassTapEven | Functions/FIR/Filter/filtertaps.py:71-74 | with an odd sine, the lowpass tap at -i equals the tap at i |
| FilterTaps.OddCountTaps | Functions/FIR/Filter/filtertaps.py:27-168 | for a positive odd N all five return N taps; allpass is the unit impulse at the centre; the centre taps are wc/π, 1 - wc/π, wb/π - wa/π and 1 - (wb/π - wa/π) |
| FilterTaps.EvenCountRejected | Functions/FIR/Filter/filtertaps.py:27-168 | an even N ≠ 0 raises the odd-N exception in allpass, highpass and bandstop |
| FilterTaps.EvenCountHalfShifted | Functions/FIR/Filter/filtertaps.py:56-138 | an even N is accepted by lowpass and bandpass: max(N, 0) taps on the half-integer grid, none of them at index 0 |
| FilterTaps.AllpassExplicitRange | Functions/FIR/Filter/filtertaps.py:27-44 | with N = 0 allpass returns [1] when both bounds are 0 and raises the missing-values exception otherwise |
| FilterTaps.RangeSynthesis | Functions/FIR/Filter/filtertaps.py:64-76 | with N = 0 a non-allpass variant gives one tap per integer of [min_tap, max_tap] when both bounds are non-zero, and raises otherwise |
| FilterTaps.ExplicitRangeTaps | Functions/FIR/Filter/filtertaps.py:47-168 | the explicit-range outcome for lowpass, highpass, bandpass and bandstop: taps at min_tap, min_tap+1, …, max_tap, or the missing-values exception |
| FilterTaps.HighpassInvertsLowpass | Functions/FIR/Filter/filtertaps.py:79-105 | whenever highpass returns, lowpass with the same arguments returns as many taps; each highpass tap is the negated lowpass tap, plus 1 at index 0 |
| FilterTaps.BandstopInvertsBandpass | Functions/FIR/Filter/filtertaps.py:141-168 | whenever bandstop returns, bandpass returns as many taps; each bandstop tap is the negated bandpass tap, plus 1 at index 0 |
| FilterTaps.BandpassIsLowpassDifference | Functions/FIR/Filter/filtertaps.py:108-138 | bandpass(wa, wb) succeeds exactly when the two lowpass calls do, and is lowpass(wb) minus lowpass(wa) tap by tap |
| FilterTaps.EvenFormulaPalindrome | Functions/FIR/Filter/filtertaps.py:27-76 | an even tap formula over symmetric indices gives a list that reads the same backwards |
| FilterTaps.LinearPhase | Functions/FIR/Filter/filtertaps.py:5-12 | with an odd sine, every filter's taps are symmetric about the centre, for odd and even N and for any symmetric explicit range |
| FirFilter.Filter | Functions/FIR/Filter/filter.py:4-18 | filter forwards to the convolution routine with data_in as input1 and tr defaulting to true |
| FirFilter.FilterIsLinearConvolution | Functions/FIR/Filter/filter.py:4-18 | filtering fails iff exactly one list is empty; with the flush it is the linear convolution of data and taps plus one 0 (\|data\| + \|taps\| values); without it, the linear convolution cut to the streamed operand's length |
| FirFilter.FilterImpulseResponse | Functions/FIR/Filter/filter.py:4-18 | filtering a unit impulse plus k zeros returns the taps followed by k+1 zeros |
| FirFilter.FilterIsSymmetric | Functions/FIR/Filter/filter.py:4-18 | exchanging data and taps does not change the filter output |

## Left out

- Floating point: every value is a Dafny `real`, so rounding, overflow and NaN (which would also change the list comparison at Convolution.py:16-20) are not modelled.
- `np.sin` and `np.pi` are not computed. They are an arbitrary function and an arbitrary positive constant, carried by `Trig`.
- Argument types: N, min_tap and max_tap are integers.
  - The `TypeError` of `int(None)` when the arguments are left at their `None` defaults is not modelled.
  - The truncation of a float N by `int(N)` is not modelled.
  - A mix of Python ints and floats in the input lists is not modelled.
- The `__main__` demos and the matplotlib import and plotting are left out: Convolution.py:1 and 61-68, and filter.py:21-29. They are plotting I/O.
- CircularConvolution.RunBuffer: the circular buffer is a fresh local array, so the contract describes only the returned list. The buffer's final contents are not stated, because no caller can observe them.
- Every other part of the repository besides these three routines is not part of this model.
