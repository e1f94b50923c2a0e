/**
 * FIR filtering (Functions/FIR/Filter/filter.py): the filter is the
 * convolution of the input data with the filter taps, computed by the
 * circular-buffer MAC routine of the CircularConvolution module.
 */
module FirFilter {
  import opened Results
  import opened CircularConvolution

  /** filter(data_in, firfiltertaps, tr): a forward to the convolution
      routine, data as its first operand and the flush on by default. */
  function Filter(dataIn: seq<real>, firFilterTaps: seq<real>, tr: bool := true): Result<seq<real>, ConvError> {
    ConvolutionOf(dataIn, firFilterTaps, tr)
  }

  /** Filtering fails exactly when one of the two lists is empty; with the
      transient response flushed and both lists non-empty it is the full
      linear convolution of data and taps (one trailing zero after it),
      |data| + |taps| values; without the flush it is the linear convolution
      cut to the length of the operand that streams through the buffer. */
  lemma FilterIsLinearConvolution(dataIn: seq<real>, firFilterTaps: seq<real>, tr: bool)
    ensures var r := Filter(dataIn, firFilterTaps, tr);
      r.Failure? <==> ((|dataIn| == 0) != (|firFilterTaps| == 0))
    ensures |dataIn| == 0 && |firFilterTaps| == 0 ==> Filter(dataIn, firFilterTaps, tr) == Success([])
    ensures var r := Filter(dataIn, firFilterTaps, tr);
      tr && |dataIn| > 0 && |firFilterTaps| > 0 ==>
        r == Success(LinearConvolution(dataIn, firFilterTaps) + [0.0]) &&
        |r.value| == |dataIn| + |firFilterTaps|
    ensures !tr && |dataIn| > 0 && |firFilterTaps| > 0 ==>
      Filter(dataIn, firFilterTaps, tr) ==
        Success(LinearConvolution(dataIn, firFilterTaps)[..|ChooseOperands(dataIn, firFilterTaps).1|])
  {
    ConvolutionFailsIffOneEmpty(dataIn, firFilterTaps, tr);
    if |dataIn| > 0 && |firFilterTaps| > 0 {
      if tr {
        FlushedIsLinearConvolution(dataIn, firFilterTaps);
      } else {
        UnflushedIsTruncatedLinearConvolution(dataIn, firFilterTaps);
      }
    }
  }

  /** Filtering a unit impulse followed by zeros returns the taps themselves,
      then zeros: the taps are the filter's impulse response. */
  lemma FilterImpulseResponse(impulseZeros: nat, firFilterTaps: seq<real>)
    requires |firFilterTaps| > 0
    ensures Filter([1.0] + Zeros(impulseZeros), firFilterTaps) == Success(firFilterTaps + Zeros(impulseZeros + 1))
  {
    ImpulseResponse(impulseZeros, firFilterTaps);
  }

  /** Swapping the data and the taps does not change the filter output. */
  lemma FilterIsSymmetric(dataIn: seq<real>, firFilterTaps: seq<real>, tr: bool)
    ensures Filter(dataIn, firFilterTaps, tr) == Filter(firFilterTaps, dataIn, tr)
  {
    ConvolutionIsSymmetric(dataIn, firFilterTaps, tr);
  }
}
