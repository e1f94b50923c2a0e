/**
 * FIR tap synthesis (Functions/FIR/Filter/filtertaps.py): the windowed-sinc
 * coefficients of the allpass, lowpass, highpass, bandpass and bandstop
 * filters.
 *
 * Each of the five functions first resolves the list of tap indices (from a
 * tap count N, or from an explicit range when N is 0) and then appends one
 * tap per index.  The resolution step is the same text in all five except
 * for two switches: whether an even N is accepted (lowpass and bandpass put
 * the taps on a half-integer grid instead) and the test that admits the
 * explicit range (inverted in the allpass function).  Both switches are
 * expressed here through the `Variant` of the filter.
 *
 * `np.sin` and `np.pi` are not computed: they are carried by a `Trig` value
 * whose sine is an arbitrary function and whose pi is an arbitrary positive
 * real, so every property proved holds for any such choice.
 */
module FilterTaps {
  import opened Results

  type PositiveReal = x: real | x > 0.0 witness 1.0

  /** Stand-ins for np.sin and np.pi. */
  datatype Trig = Trig(sin: real -> real, pi: PositiveReal)

  /** The one fact about the sine that the symmetry of the taps rests on. */
  ghost predicate OddSine(trig: Trig) {
    forall x: real :: trig.sin(-x) == -trig.sin(x)
  }

  datatype Variant = Allpass | Lowpass | Highpass | Bandpass | Bandstop

  /** The two exceptions the functions raise. */
  datatype TapError =
    | EvenTapCount(variant: Variant)  // "N is required to be an odd number for ... filters"
    | MissingTapRange                 // "'N' or 'min_tap' and 'max_tap' must have values"

  // ---------------------------------------------------------------------------
  // Index resolution
  // ---------------------------------------------------------------------------

  /** Lowpass and bandpass accept an even N; the other three raise. */
  predicate AcceptsEvenCount(v: Variant) {
    v == Lowpass || v == Bandpass
  }

  /** The guard of the explicit range (taken when N is 0): `int(min_tap) and
      int(max_tap)`, that is both bounds non-zero, except in allpass_taps
      where it reads `not int(min_tap) and not int(max_tap)`. */
  predicate RangeAdmitted(v: Variant, minTap: int, maxTap: int) {
    if v == Allpass then minTap == 0 && maxTap == 0 else minTap != 0 && maxTap != 0
  }

  /** Python's range(lo, hi), its integers taken as real indices. */
  function PyRange(lo: int, hi: int): seq<real> {
    seq(if lo < hi then hi - lo else 0, k => (lo + k) as real)
  }

  /** The index list of an odd N: range(int(-(N-1)/2), int((N-1)/2 + 1)). */
  function CentredRange(n: int): seq<real> {
    PyRange(-((n - 1) / 2), (n - 1) / 2 + 1)
  }

  /** The index list of an even N in lowpass and bandpass: -(N-1)/2 + i for
      i in range(N). */
  function HalfShiftedGrid(n: int): seq<real> {
    seq(if n > 0 then n else 0, i => -((n - 1) as real) / 2.0 + i as real)
  }

  /** The indices a variant resolves from N, min_tap and max_tap. */
  function Indices(v: Variant, n: int, minTap: int, maxTap: int): Result<seq<real>, TapError> {
    if n != 0 then
      if n % 2 == 0 then
        if AcceptsEvenCount(v) then Success(HalfShiftedGrid(n)) else Failure(EvenTapCount(v))
      else
        Success(CentredRange(n))
    else if RangeAdmitted(v, minTap, maxTap) then
      Success(PyRange(minTap, maxTap + 1))
    else
      Failure(MissingTapRange)
  }

  // ---------------------------------------------------------------------------
  // Per-index tap formulas
  // ---------------------------------------------------------------------------

  function AllpassTap(i: real): real {
    if i != 0.0 then 0.0 else 1.0
  }

  function LowpassTap(trig: Trig, wc: real, i: real): real {
    if i != 0.0 then trig.sin(wc * i) / (trig.pi * i) else wc / trig.pi
  }

  function HighpassTap(trig: Trig, wc: real, i: real): real {
    if i != 0.0 then -trig.sin(wc * i) / (trig.pi * i) else 1.0 - wc / trig.pi
  }

  function BandpassTap(trig: Trig, wa: real, wb: real, i: real): real {
    if i != 0.0 then (trig.sin(wb * i) - trig.sin(wa * i)) / (trig.pi * i) else wb / trig.pi - wa / trig.pi
  }

  function BandstopTap(trig: Trig, wa: real, wb: real, i: real): real {
    if i != 0.0 then -1.0 * (trig.sin(wb * i) - trig.sin(wa * i)) / (trig.pi * i)
    else 1.0 - (wb / trig.pi - wa / trig.pi)
  }

  // ---------------------------------------------------------------------------
  // The tap lists the five functions return
  // ---------------------------------------------------------------------------

  /** One tap per resolved index, in index order; a resolution error is raised as is. */
  function Synthesize(indices: Result<seq<real>, TapError>, tap: real -> real): Result<seq<real>, TapError> {
    match indices
    case Failure(e) => Failure(e)
    case Success(idx) => Success(seq(|idx|, k requires 0 <= k < |idx| => tap(idx[k])))
  }

  function AllpassTapList(n: int, minTap: int, maxTap: int): Result<seq<real>, TapError> {
    Synthesize(Indices(Allpass, n, minTap, maxTap), AllpassTap)
  }

  function LowpassTapList(trig: Trig, wc: real, n: int, minTap: int, maxTap: int): Result<seq<real>, TapError> {
    Synthesize(Indices(Lowpass, n, minTap, maxTap), i => LowpassTap(trig, wc, i))
  }

  function HighpassTapList(trig: Trig, wc: real, n: int, minTap: int, maxTap: int): Result<seq<real>, TapError> {
    Synthesize(Indices(Highpass, n, minTap, maxTap), i => HighpassTap(trig, wc, i))
  }

  function BandpassTapList(trig: Trig, wa: real, wb: real, n: int, minTap: int, maxTap: int): Result<seq<real>, TapError> {
    Synthesize(Indices(Bandpass, n, minTap, maxTap), i => BandpassTap(trig, wa, wb, i))
  }

  function BandstopTapList(trig: Trig, wa: real, wb: real, n: int, minTap: int, maxTap: int): Result<seq<real>, TapError> {
    Synthesize(Indices(Bandstop, n, minTap, maxTap), i => BandstopTap(trig, wa, wb, i))
  }

  // ---------------------------------------------------------------------------
  // Properties of the resolved indices
  // ---------------------------------------------------------------------------

  /** range(lo, hi) with lo + hi == 1 is symmetric about 0. */
  lemma PyRangeSymmetric(lo: int, hi: int)
    requires lo + hi == 1
    ensures var r := PyRange(lo, hi);
      forall k :: 0 <= k < |r| ==> r[|r| - 1 - k] == -r[k]
  {
  }

  /** A positive odd N gives the N integers -(N-1)/2 .. (N-1)/2 in ascending
      order, with index 0 at position (N-1)/2; a negative odd N gives none. */
  lemma CentredRangeShape(n: int)
    requires n % 2 == 1
    ensures var r := CentredRange(n);
      (n > 0 ==> |r| == n && r[(n - 1) / 2] == 0.0 &&
                 forall k :: 0 <= k < n ==> r[k] == (k - (n - 1) / 2) as real) &&
      (n < 0 ==> r == [])
  {
  }

  /** A positive even N gives N indices -(N-1)/2 + i, spaced by 1, none of
      them 0, symmetric about 0. */
  lemma HalfShiftedGridShape(n: int)
    requires n > 0 && n % 2 == 0
    ensures var g := HalfShiftedGrid(n);
      |g| == n &&
      (forall k :: 0 <= k < n ==> g[k] != 0.0) &&
      (forall k :: 0 <= k < n - 1 ==> g[k + 1] == g[k] + 1.0) &&
      (forall k :: 0 <= k < n ==> g[n - 1 - k] == -g[k])
  {
  }

  /** Whenever the explicit range is absent (N != 0) or symmetric
      (min_tap == -max_tap), the resolved indices are symmetric about 0. */
  lemma IndicesSymmetric(v: Variant, n: int, minTap: int, maxTap: int)
    requires n != 0 || minTap + maxTap == 0
    ensures var r := Indices(v, n, minTap, maxTap);
      r.Success? ==> forall k :: 0 <= k < |r.value| ==> r.value[|r.value| - 1 - k] == -r.value[k]
  {
    if n != 0 && n % 2 == 1 {
      PyRangeSymmetric(-((n - 1) / 2), (n - 1) / 2 + 1);
    } else if n == 0 {
      PyRangeSymmetric(minTap, maxTap + 1);
    }
  }

  // ---------------------------------------------------------------------------
  // Per-index relations between the formulas
  // ---------------------------------------------------------------------------

  lemma NegDiv(a: real, b: real)
    requires b != 0.0
    ensures -a / b == -(a / b) && -1.0 * a / b == -(a / b)
  {
  }

  lemma SubDiv(a: real, c: real, b: real)
    requires b != 0.0
    ensures (a - c) / b == a / b - c / b
  {
  }

  /** Highpass is allpass minus lowpass: the negated lowpass tap, plus 1 at index 0. */
  lemma HighpassTapInverts(trig: Trig, wc: real, i: real)
    ensures HighpassTap(trig, wc, i) == AllpassTap(i) - LowpassTap(trig, wc, i)
  {
    if i != 0.0 {
      NegDiv(trig.sin(wc * i), trig.pi * i);
    }
  }

  /** Bandstop is allpass minus bandpass. */
  lemma BandstopTapInverts(trig: Trig, wa: real, wb: real, i: real)
    ensures BandstopTap(trig, wa, wb, i) == AllpassTap(i) - BandpassTap(trig, wa, wb, i)
  {
    if i != 0.0 {
      NegDiv(trig.sin(wb * i) - trig.sin(wa * i), trig.pi * i);
    }
  }

  /** Bandpass is the lowpass at wb minus the lowpass at wa. */
  lemma BandpassTapDifference(trig: Trig, wa: real, wb: real, i: real)
    ensures BandpassTap(trig, wa, wb, i) == LowpassTap(trig, wb, i) - LowpassTap(trig, wa, i)
  {
    if i != 0.0 {
      SubDiv(trig.sin(wb * i), trig.sin(wa * i), trig.pi * i);
    }
  }

  /** With an odd sine, sin(wc*i)/(pi*i) is an even function of i. */
  lemma LowpassTapEven(trig: Trig, wc: real, i: real)
    requires OddSine(trig)
    ensures LowpassTap(trig, wc, -i) == LowpassTap(trig, wc, i)
  {
    if i != 0.0 {
      assert wc * -i == -(wc * i) && trig.pi * -i == -(trig.pi * i);
      assert trig.sin(-(wc * i)) == -trig.sin(wc * i);
      NegDiv(trig.sin(wc * i), trig.pi * i);
    }
  }

  // ---------------------------------------------------------------------------
  // Properties of the tap lists
  // ---------------------------------------------------------------------------

  predicate HasTaps(r: Result<seq<real>, TapError>, count: nat) {
    r.Success? && |r.value| == count
  }

  /** With a positive odd N every variant returns N taps; allpass is the unit
      impulse at the centre and the centre taps of the others are wc/pi,
      1 - wc/pi, wb/pi - wa/pi and 1 - (wb/pi - wa/pi). */
  lemma OddCountTaps(trig: Trig, wc: real, wa: real, wb: real, n: int, minTap: int, maxTap: int)
    requires n > 0 && n % 2 == 1
    ensures AllpassTapList(n, minTap, maxTap) == Success(seq(n, k => if k == (n - 1) / 2 then 1.0 else 0.0))
    ensures var r := LowpassTapList(trig, wc, n, minTap, maxTap);
      HasTaps(r, n) && r.value[(n - 1) / 2] == wc / trig.pi
    ensures var r := HighpassTapList(trig, wc, n, minTap, maxTap);
      HasTaps(r, n) && r.value[(n - 1) / 2] == 1.0 - wc / trig.pi
    ensures var r := BandpassTapList(trig, wa, wb, n, minTap, maxTap);
      HasTaps(r, n) && r.value[(n - 1) / 2] == wb / trig.pi - wa / trig.pi
    ensures var r := BandstopTapList(trig, wa, wb, n, minTap, maxTap);
      HasTaps(r, n) && r.value[(n - 1) / 2] == 1.0 - (wb / trig.pi - wa / trig.pi)
  {
    CentredRangeShape(n);
    var r := CentredRange(n);
    forall k | 0 <= k < n ensures AllpassTap(r[k]) == if k == (n - 1) / 2 then 1.0 else 0.0 {
    }
    assert AllpassTapList(n, minTap, maxTap).value == seq(n, k => if k == (n - 1) / 2 then 1.0 else 0.0);
  }

  /** An even N other than 0 is rejected by allpass, highpass and bandstop. */
  lemma EvenCountRejected(trig: Trig, wc: real, wa: real, wb: real, n: int, minTap: int, maxTap: int)
    requires n != 0 && n % 2 == 0
    ensures AllpassTapList(n, minTap, maxTap) == Failure(EvenTapCount(Allpass))
    ensures HighpassTapList(trig, wc, n, minTap, maxTap) == Failure(EvenTapCount(Highpass))
    ensures BandstopTapList(trig, wa, wb, n, minTap, maxTap) == Failure(EvenTapCount(Bandstop))
  {
  }

  lemma HalfShiftedGridNonzero(n: int, k: int)
    requires n > 0 && n % 2 == 0 && 0 <= k < n
    ensures HalfShiftedGrid(n)[k] != 0.0
  {
  }

  /** With an even N lowpass and bandpass return max(N, 0) taps, one per
      point of the half-shifted grid in order; no grid point is 0, so every
      tap is the sinc formula and none the centre value. */
  lemma EvenCountHalfShifted(trig: Trig, wc: real, wa: real, wb: real, n: int, minTap: int, maxTap: int)
    requires n != 0 && n % 2 == 0
    ensures var g := HalfShiftedGrid(n);
      var r := LowpassTapList(trig, wc, n, minTap, maxTap);
      HasTaps(r, |g|) && |g| == (if n > 0 then n else 0) &&
      forall k :: 0 <= k < |g| ==> g[k] != 0.0 && r.value[k] == LowpassTap(trig, wc, g[k])
    ensures var g := HalfShiftedGrid(n);
      var r := BandpassTapList(trig, wa, wb, n, minTap, maxTap);
      HasTaps(r, |g|) &&
      forall k :: 0 <= k < |g| ==> g[k] != 0.0 && r.value[k] == BandpassTap(trig, wa, wb, g[k])
  {
    if n > 0 {
      forall k | 0 <= k < n ensures HalfShiftedGrid(n)[k] != 0.0 {
        HalfShiftedGridNonzero(n, k);
      }
    }
  }

  /** With N == 0 allpass takes its range branch only when both bounds are 0,
      and the range range(0, 1) then gives the single tap [1]. */
  lemma AllpassExplicitRange(minTap: int, maxTap: int)
    ensures AllpassTapList(0, minTap, maxTap) ==
      if minTap == 0 && maxTap == 0 then Success([1.0]) else Failure(MissingTapRange)
  {
    if minTap == 0 && maxTap == 0 {
      assert PyRange(0, 1) == [0.0];
      assert AllpassTapList(0, minTap, maxTap).value == [AllpassTap(0.0)];
    }
  }

  /** The outcome of the explicit range [min_tap, max_tap] for the four
      non-allpass variants: when both bounds are non-zero, one tap per integer
      of the range in ascending order, max(0, max_tap - min_tap + 1) of them;
      otherwise the missing-range error. */
  predicate RangeTaps(r: Result<seq<real>, TapError>, minTap: int, maxTap: int, tap: real -> real) {
    var count := if maxTap >= minTap then maxTap - minTap + 1 else 0;
    if minTap != 0 && maxTap != 0 then
      HasTaps(r, count) && forall k :: 0 <= k < count ==> r.value[k] == tap((minTap + k) as real)
    else
      r == Failure(MissingTapRange)
  }

  lemma RangeSynthesis(v: Variant, minTap: int, maxTap: int, tap: real -> real)
    requires v != Allpass
    ensures RangeTaps(Synthesize(Indices(v, 0, minTap, maxTap), tap), minTap, maxTap, tap)
  {
  }

  lemma ExplicitRangeTaps(trig: Trig, wc: real, wa: real, wb: real, minTap: int, maxTap: int)
    ensures RangeTaps(LowpassTapList(trig, wc, 0, minTap, maxTap), minTap, maxTap, i => LowpassTap(trig, wc, i))
    ensures RangeTaps(HighpassTapList(trig, wc, 0, minTap, maxTap), minTap, maxTap, i => HighpassTap(trig, wc, i))
    ensures RangeTaps(BandpassTapList(trig, wa, wb, 0, minTap, maxTap), minTap, maxTap, i => BandpassTap(trig, wa, wb, i))
    ensures RangeTaps(BandstopTapList(trig, wa, wb, 0, minTap, maxTap), minTap, maxTap, i => BandstopTap(trig, wa, wb, i))
  {
    RangeSynthesis(Lowpass, minTap, maxTap, i => LowpassTap(trig, wc, i));
    RangeSynthesis(Highpass, minTap, maxTap, i => HighpassTap(trig, wc, i));
    RangeSynthesis(Bandpass, minTap, maxTap, i => BandpassTap(trig, wa, wb, i));
    RangeSynthesis(Bandstop, minTap, maxTap, i => BandstopTap(trig, wa, wb, i));
  }

  /** Spectral inversion: wherever highpass_taps returns, lowpass_taps with
      the same arguments returns taps at the same indices, and each highpass
      tap is the negated lowpass tap, plus 1 at index 0. */
  lemma HighpassInvertsLowpass(trig: Trig, wc: real, n: int, minTap: int, maxTap: int)
    requires HighpassTapList(trig, wc, n, minTap, maxTap).Success?
    ensures var idx := Indices(Highpass, n, minTap, maxTap).value;
      var h := HighpassTapList(trig, wc, n, minTap, maxTap).value;
      var l := LowpassTapList(trig, wc, n, minTap, maxTap);
      HasTaps(l, |h|) && |idx| == |h| &&
      forall k :: 0 <= k < |h| ==>
        (idx[k] != 0.0 ==> h[k] == -l.value[k]) && (idx[k] == 0.0 ==> h[k] == 1.0 - l.value[k])
  {
    var idx := Indices(Highpass, n, minTap, maxTap).value;
    assert Indices(Lowpass, n, minTap, maxTap) == Indices(Highpass, n, minTap, maxTap);
    forall k | 0 <= k < |idx| {
      HighpassTapInverts(trig, wc, idx[k]);
    }
  }

  /** Spectral inversion of the band filters: bandstop is 1 at index 0 minus
      bandpass, and the negated bandpass tap everywhere else. */
  lemma BandstopInvertsBandpass(trig: Trig, wa: real, wb: real, n: int, minTap: int, maxTap: int)
    requires BandstopTapList(trig, wa, wb, n, minTap, maxTap).Success?
    ensures var idx := Indices(Bandstop, n, minTap, maxTap).value;
      var s := BandstopTapList(trig, wa, wb, n, minTap, maxTap).value;
      var p := BandpassTapList(trig, wa, wb, n, minTap, maxTap);
      HasTaps(p, |s|) && |idx| == |s| &&
      forall k :: 0 <= k < |s| ==>
        (idx[k] != 0.0 ==> s[k] == -p.value[k]) && (idx[k] == 0.0 ==> s[k] == 1.0 - p.value[k])
  {
    var idx := Indices(Bandstop, n, minTap, maxTap).value;
    assert Indices(Bandpass, n, minTap, maxTap) == Indices(Bandstop, n, minTap, maxTap);
    forall k | 0 <= k < |idx| {
      BandstopTapInverts(trig, wa, wb, idx[k]);
    }
  }

  /** The bandpass taps are the lowpass taps at wb minus those at wa. */
  lemma BandpassIsLowpassDifference(trig: Trig, wa: real, wb: real, n: int, minTap: int, maxTap: int)
    ensures var p := BandpassTapList(trig, wa, wb, n, minTap, maxTap);
      var la := LowpassTapList(trig, wa, n, minTap, maxTap);
      var lb := LowpassTapList(trig, wb, n, minTap, maxTap);
      p.Success? == la.Success? == lb.Success? &&
      (p.Success? ==> (|p.value| == |la.value| == |lb.value| &&
        forall k :: 0 <= k < |p.value| ==> p.value[k] == lb.value[k] - la.value[k]))
  {
    var ix := Indices(Bandpass, n, minTap, maxTap);
    assert ix == Indices(Lowpass, n, minTap, maxTap);
    if ix.Success? {
      forall k | 0 <= k < |ix.value| {
        BandpassTapDifference(trig, wa, wb, ix.value[k]);
      }
    }
  }

  predicate Palindromic(r: Result<seq<real>, TapError>) {
    r.Success? ==> forall k :: 0 <= k < |r.value| ==> r.value[k] == r.value[|r.value| - 1 - k]
  }

  /** An even formula over indices symmetric about 0 gives a palindrome. */
  lemma EvenFormulaPalindrome(v: Variant, n: int, minTap: int, maxTap: int, tap: real -> real)
    requires n != 0 || minTap + maxTap == 0
    requires forall i: real :: tap(-i) == tap(i)
    ensures Palindromic(Synthesize(Indices(v, n, minTap, maxTap), tap))
  {
    IndicesSymmetric(v, n, minTap, maxTap);
    var r := Indices(v, n, minTap, maxTap);
    if r.Success? {
      var idx := r.value;
      forall k | 0 <= k < |idx| ensures tap(idx[k]) == tap(idx[|idx| - 1 - k]) {
        assert tap(-idx[k]) == tap(idx[k]);
      }
    }
  }

  /** Linear phase: given an odd sine, every variant's taps read the same
      forwards and backwards (tap[c + k] == tap[c - k] about the centre c),
      for every N, odd or even, and for a symmetric explicit range. */
  lemma LinearPhase(trig: Trig, wc: real, wa: real, wb: real, n: int, minTap: int, maxTap: int)
    requires OddSine(trig)
    requires n != 0 || minTap + maxTap == 0
    ensures Palindromic(AllpassTapList(n, minTap, maxTap))
    ensures Palindromic(LowpassTapList(trig, wc, n, minTap, maxTap))
    ensures Palindromic(HighpassTapList(trig, wc, n, minTap, maxTap))
    ensures Palindromic(BandpassTapList(trig, wa, wb, n, minTap, maxTap))
    ensures Palindromic(BandstopTapList(trig, wa, wb, n, minTap, maxTap))
  {
    forall i: real
      ensures LowpassTap(trig, wc, -i) == LowpassTap(trig, wc, i)
      ensures HighpassTap(trig, wc, -i) == HighpassTap(trig, wc, i)
      ensures BandpassTap(trig, wa, wb, -i) == BandpassTap(trig, wa, wb, i)
      ensures BandstopTap(trig, wa, wb, -i) == BandstopTap(trig, wa, wb, i)
    {
      LowpassTapEven(trig, wc, i);
      LowpassTapEven(trig, wa, i);
      LowpassTapEven(trig, wb, i);
      HighpassTapInverts(trig, wc, i);
      HighpassTapInverts(trig, wc, -i);
      BandpassTapDifference(trig, wa, wb, i);
      BandpassTapDifference(trig, wa, wb, -i);
      BandstopTapInverts(trig, wa, wb, i);
      BandstopTapInverts(trig, wa, wb, -i);
    }
    EvenFormulaPalindrome(Allpass, n, minTap, maxTap, AllpassTap);
    EvenFormulaPalindrome(Lowpass, n, minTap, maxTap, i => LowpassTap(trig, wc, i));
    EvenFormulaPalindrome(Highpass, n, minTap, maxTap, i => HighpassTap(trig, wc, i));
    EvenFormulaPalindrome(Bandpass, n, minTap, maxTap, i => BandpassTap(trig, wa, wb, i));
    EvenFormulaPalindrome(Bandstop, n, minTap, maxTap, i => BandstopTap(trig, wa, wb, i));
  }

  // ---------------------------------------------------------------------------
  // The loops that build the lists
  // ---------------------------------------------------------------------------

  /** The loop that appends -(N-1)/2 + i for every i in range(N). */
  method HalfShiftedIndices(n: int) returns (idx: seq<real>)
    ensures idx == HalfShiftedGrid(n)
  {
    idx := [];
    for i := 0 to (if n > 0 then n else 0)
      invariant |idx| == i
      invariant forall k :: 0 <= k < i ==> idx[k] == -((n - 1) as real) / 2.0 + k as real
    {
      idx := idx + [-((n - 1) as real) / 2.0 + i as real];
    }
  }

  /** The shared index-resolution block at the head of each function. */
  method ResolveIndices(v: Variant, n: int, minTap: int, maxTap: int) returns (r: Result<seq<real>, TapError>)
    ensures r == Indices(v, n, minTap, maxTap)
  {
    if n != 0 {
      if n % 2 == 0 {
        if AcceptsEvenCount(v) {
          var idx := HalfShiftedIndices(n);
          r := Success(idx);
        } else {
          r := Failure(EvenTapCount(v));
        }
      } else {
        r := Success(CentredRange(n));
      }
    } else if RangeAdmitted(v, minTap, maxTap) {
      r := Success(PyRange(minTap, maxTap + 1));
    } else {
      r := Failure(MissingTapRange);
    }
  }

  /** The loop `for i in N: taps.append(...)`. */
  method AppendTaps(idx: seq<real>, tap: real -> real) returns (taps: seq<real>)
    ensures |taps| == |idx|
    ensures forall k :: 0 <= k < |idx| ==> taps[k] == tap(idx[k])
  {
    taps := [];
    for k := 0 to |idx|
      invariant |taps| == k
      invariant forall j :: 0 <= j < k ==> taps[j] == tap(idx[j])
    {
      taps := taps + [tap(idx[k])];
    }
  }

  method SynthesizeTaps(v: Variant, n: int, minTap: int, maxTap: int, tap: real -> real)
    returns (r: Result<seq<real>, TapError>)
    ensures r == Synthesize(Indices(v, n, minTap, maxTap), tap)
  {
    var indices := ResolveIndices(v, n, minTap, maxTap);
    match indices
    case Failure(e) =>
      r := Failure(e);
    case Success(idx) =>
      var taps := AppendTaps(idx, tap);
      assert taps == seq(|idx|, k requires 0 <= k < |idx| => tap(idx[k]));
      r := Success(taps);
  }

  /** allpass_taps(N, min_tap, max_tap) */
  method AllpassTaps(n: int, minTap: int, maxTap: int) returns (r: Result<seq<real>, TapError>)
    ensures r == AllpassTapList(n, minTap, maxTap)
  {
    r := SynthesizeTaps(Allpass, n, minTap, maxTap, AllpassTap);
  }

  /** lowpass_taps(wc, N, min_tap, max_tap) */
  method LowpassTaps(trig: Trig, wc: real, n: int, minTap: int, maxTap: int) returns (r: Result<seq<real>, TapError>)
    ensures r == LowpassTapList(trig, wc, n, minTap, maxTap)
  {
    r := SynthesizeTaps(Lowpass, n, minTap, maxTap, i => LowpassTap(trig, wc, i));
  }

  /** highpass_taps(wc, N, min_tap, max_tap) */
  method HighpassTaps(trig: Trig, wc: real, n: int, minTap: int, maxTap: int) returns (r: Result<seq<real>, TapError>)
    ensures r == HighpassTapList(trig, wc, n, minTap, maxTap)
  {
    r := SynthesizeTaps(Highpass, n, minTap, maxTap, i => HighpassTap(trig, wc, i));
  }

  /** bandpass_taps(wa, wb, N, min_tap, max_tap) */
  method BandpassTaps(trig: Trig, wa: real, wb: real, n: int, minTap: int, maxTap: int) returns (r: Result<seq<real>, TapError>)
    ensures r == BandpassTapList(trig, wa, wb, n, minTap, maxTap)
  {
    r := SynthesizeTaps(Bandpass, n, minTap, maxTap, i => BandpassTap(trig, wa, wb, i));
  }

  /** bandstop_taps(wa, wb, N, min_tap, max_tap) */
  method BandstopTaps(trig: Trig, wa: real, wb: real, n: int, minTap: int, maxTap: int) returns (r: Result<seq<real>, TapError>)
    ensures r == BandstopTapList(trig, wa, wb, n, minTap, maxTap)
  {
    r := SynthesizeTaps(Bandstop, n, minTap, maxTap, i => BandstopTap(trig, wa, wb, i));
  }
}
