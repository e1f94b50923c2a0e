/**
 * The circular-buffer convolution engine (`convolution` in
 * Functions/Convolution/Convolution.py).
 *
 * One operand is held as the "static" values, the other is fed sample by
 * sample into a wrap-around buffer of length M = |static|; each step writes
 * one sample at the cursor, sweeps a multiply-accumulate over the buffer and
 * appends the sum.  The method `Convolution` does exactly that on an array;
 * `ConvolutionOf` is the closed form it is proved to compute, and the lemmas
 * below relate that closed form to linear convolution.
 */
module CircularConvolution {
  import opened Results

  /** Python raises IndexError when a sample is written into an empty buffer. */
  datatype ConvError = IndexOutOfRange

  // ---------------------------------------------------------------------------
  // Operand selection: Python's `<` on lists is lexicographic comparison
  // ---------------------------------------------------------------------------

  /** Python's `a < b` on two lists of numbers. */
  predicate LexLess(a: seq<real>, b: seq<real>)
    ensures LexLess(a, b) ==> a != b
    decreases |a|
  {
    if |a| == 0 then |b| > 0
    else if |b| == 0 then false
    else if a[0] != b[0] then a[0] < b[0]
    else LexLess(a[1..], b[1..])
  }

  /** Independent reading of lexicographic order: `a` is a proper prefix of
      `b`, or the first position where they differ holds a smaller element in `a`. */
  ghost predicate FirstDifferenceLess(a: seq<real>, b: seq<real>) {
    (|a| < |b| && a == b[..|a|]) ||
    exists k :: 0 <= k < |a| && k < |b| && a[..k] == b[..k] && a[k] < b[k]
  }

  lemma {:induction false} LexLessIsFirstDifference(a: seq<real>, b: seq<real>)
    ensures LexLess(a, b) <==> FirstDifferenceLess(a, b)
    decreases |a|
  {
    if |a| == 0 {
      if |b| > 0 { assert a == b[..0]; }
      else { assert !FirstDifferenceLess(a, b); }
    } else if |b| == 0 {
      assert !FirstDifferenceLess(a, b);
    } else if a[0] != b[0] {
      if a[0] < b[0] {
        assert a[..0] == b[..0];
      }
    } else {
      LexLessIsFirstDifference(a[1..], b[1..]);
      if FirstDifferenceLess(a[1..], b[1..]) {
        if |a[1..]| < |b[1..]| && a[1..] == b[1..][..|a[1..]|] {
          assert a == [a[0]] + a[1..] && b[..|a|] == [b[0]] + b[1..][..|a[1..]|];
        } else {
          var k :| 0 <= k < |a[1..]| && k < |b[1..]| && a[1..][..k] == b[1..][..k] && a[1..][k] < b[1..][k];
          assert a[..k + 1] == [a[0]] + a[1..][..k] && b[..k + 1] == [b[0]] + b[1..][..k];
        }
      }
      if FirstDifferenceLess(a, b) {
        if |a| < |b| && a == b[..|a|] {
          assert a[1..] == b[1..][..|a[1..]|];
        } else {
          var k :| 0 <= k < |a| && k < |b| && a[..k] == b[..k] && a[k] < b[k];
          assert k > 0;
          assert a[1..][..k - 1] == a[..k][1..] && b[1..][..k - 1] == b[..k][1..];
        }
      }
    }
  }

  lemma {:induction false} LexLessAsymmetric(a: seq<real>, b: seq<real>)
    ensures !(LexLess(a, b) && LexLess(b, a))
    decreases |a|
  {
    if |a| > 0 && |b| > 0 && a[0] == b[0] {
      LexLessAsymmetric(a[1..], b[1..]);
    }
  }

  lemma {:induction false} LexLessTrichotomy(a: seq<real>, b: seq<real>)
    ensures a == b || LexLess(a, b) || LexLess(b, a)
    decreases |a|
  {
    if |a| > 0 && |b| > 0 && a[0] == b[0] {
      LexLessTrichotomy(a[1..], b[1..]);
      if a[1..] == b[1..] {
        assert a == [a[0]] + a[1..] && b == [b[0]] + b[1..];
      }
    }
  }

  /** The pair (static, data_in) chosen at lines 16-27: the right operand is
      static only when the left one compares greater. */
  function ChooseOperands(input1: seq<real>, input2: seq<real>): (r: (seq<real>, seq<real>))
    ensures r == (input1, input2) || r == (input2, input1)
  {
    if LexLess(input2, input1) then (input2, input1) else (input1, input2)
  }

  /** The static operand is the lexicographic minimum of the two inputs, the
      other is data_in, and the choice does not depend on argument order. */
  lemma StaticIsLexMinimum(input1: seq<real>, input2: seq<real>)
    ensures var (st, d) := ChooseOperands(input1, input2);
      ((st, d) == (input1, input2) || (st, d) == (input2, input1)) &&
      !LexLess(d, st) &&
      (input1 == input2 ==> st == input1)
    ensures ChooseOperands(input1, input2) == ChooseOperands(input2, input1)
  {
    LexLessAsymmetric(input1, input2);
    LexLessTrichotomy(input1, input2);
  }

  /** Python's lexicographic test, unlike a length test, can make the longer
      list the static operand; with the flush turned off the output then has
      the length of the shorter list. */
  lemma LongerListCanBeStatic()
    ensures ChooseOperands([2.0], [1.0, 1.0, 1.0]) == ([1.0, 1.0, 1.0], [2.0])
    ensures ConvolutionOf([2.0], [1.0, 1.0, 1.0], false) == Success([2.0])
  {
    assert LexLess([1.0, 1.0, 1.0], [2.0]);
    var r := ConvolutionOf([2.0], [1.0, 1.0, 1.0], false);
    assert Mac([1.0, 1.0, 1.0], [2.0], 0, 3) == 2.0;
    assert r.value == [2.0];
  }

  // ---------------------------------------------------------------------------
  // The multiply-accumulate sum and the closed form of the result
  // ---------------------------------------------------------------------------

  /** Sample `t` of `x`; before the first and after the last sample it is 0,
      which is what an unwritten slot of the zero-initialised buffer holds. */
  function DataAt(x: seq<real>, t: int): real {
    if 0 <= t < |x| then x[t] else 0.0
  }

  /** The MAC sweep over the first `n` static values at step `i`:
      sum over j < n of st[j] * x[i - j]. */
  function Mac(st: seq<real>, x: seq<real>, i: int, n: nat): real
    requires n <= |st|
  {
    if n == 0 then 0.0 else Mac(st, x, i, n - 1) + st[n - 1] * DataAt(x, i - (n - 1))
  }

  lemma MacStep(st: seq<real>, x: seq<real>, i: int, n: nat)
    requires n < |st|
    ensures Mac(st, x, i, n + 1) == Mac(st, x, i, n) + st[n] * DataAt(x, i - n)
  {
  }

  /** sum over j < n of st[j] * x[i - j], reading only real samples of x. */
  function ClosedSum(st: seq<real>, x: seq<real>, i: nat, n: nat): real
    requires n <= |st| && n <= i + 1 && i < |x|
  {
    if n == 0 then 0.0 else ClosedSum(st, x, i, n - 1) + st[n - 1] * x[i - (n - 1)]
  }

  function Zeros(m: nat): (z: seq<real>)
    ensures |z| == m && forall k :: 0 <= k < m ==> z[k] == 0.0
  {
    seq(m, _ => 0.0)
  }

  /** The first `n` outputs of the sweep over `x`. */
  function Outputs(st: seq<real>, x: seq<real>, n: nat): seq<real> {
    seq(n, i => Mac(st, x, i, |st|))
  }

  lemma OutputsStep(st: seq<real>, x: seq<real>, n: nat)
    ensures Outputs(st, x, n + 1) == Outputs(st, x, n) + [Mac(st, x, n, |st|)]
  {
  }

  /** The list `convolution(input1, input2, tr)` returns, in closed form:
      entry i is the MAC sum over the whole static operand at step i. */
  function ConvolutionOf(input1: seq<real>, input2: seq<real>, tr: bool): Result<seq<real>, ConvError> {
    var (st, d) := ChooseOperands(input1, input2);
    Sweep(st, if tr then d + Zeros(|st|) else d)
  }

  /** What feeding `x` through a buffer of length |st| produces: an
      IndexError when a sample meets an empty buffer, else one MAC sum per sample. */
  function Sweep(st: seq<real>, x: seq<real>): Result<seq<real>, ConvError> {
    if |st| == 0 && |x| > 0 then Failure(IndexOutOfRange)
    else Success(Outputs(st, x, |x|))
  }

  /** The full linear convolution of two non-empty sequences: entry n is
      the sum of a[j] * b[n - j] over all j, samples outside b being 0. */
  function LinearConvolution(a: seq<real>, b: seq<real>): seq<real>
    requires |a| > 0 && |b| > 0
  {
    seq(|a| + |b| - 1, n => Mac(a, b, n, |a|))
  }

  function Min(a: int, b: int): int { if a <= b then a else b }

  // ---------------------------------------------------------------------------
  // Properties of the MAC sum
  // ---------------------------------------------------------------------------

  /** Terms with j > i read a sample before the first and vanish, so the MAC
      over the whole static operand is the sum for j = 0 .. min(i, M - 1). */
  lemma {:induction false} MacIsClosedSum(st: seq<real>, x: seq<real>, i: nat, n: nat)
    requires n <= |st| && i < |x|
    ensures Mac(st, x, i, n) == ClosedSum(st, x, i, Min(n, i + 1))
  {
    if n > 0 {
      MacIsClosedSum(st, x, i, n - 1);
    }
  }

  lemma {:induction false} MacPrefix(s: seq<real>, t: seq<real>, x: seq<real>, i: int, k: nat)
    requires k <= |s| && k <= |t| && s[..k] == t[..k]
    ensures Mac(s, x, i, k) == Mac(t, x, i, k)
  {
    if k > 0 {
      assert s[k - 1] == s[..k][k - 1] == t[..k][k - 1] == t[k - 1];
      assert s[..k - 1] == s[..k][..k - 1] && t[..k - 1] == t[..k][..k - 1];
      MacPrefix(s, t, x, i, k - 1);
    }
  }

  lemma {:induction false} MacEmptyData(st: seq<real>, i: int, k: nat)
    requires k <= |st|
    ensures Mac(st, [], i, k) == 0.0
  {
    if k > 0 {
      MacEmptyData(st, i, k - 1);
    }
  }

  /** Appending a sample v to the data adds v times the static value that
      pairs with it, when that value is among the first k. */
  lemma {:induction false} MacSnocData(st: seq<real>, x: seq<real>, v: real, i: int, k: nat)
    requires k <= |st|
    ensures Mac(st, x + [v], i, k) == Mac(st, x, i, k) + (if 0 <= i - |x| < k then st[i - |x|] * v else 0.0)
  {
    if k > 0 {
      MacSnocData(st, x, v, i, k - 1);
      assert DataAt(x + [v], i - (k - 1)) == DataAt(x, i - (k - 1)) + (if i - (k - 1) == |x| then v else 0.0);
    }
  }

  /** Convolution is commutative: sum_j a[j] * b[n - j] == sum_k b[k] * a[n - k]. */
  lemma {:induction false} MacCommutes(a: seq<real>, b: seq<real>, n: int)
    ensures Mac(a, b, n, |a|) == Mac(b, a, n, |b|)
    decreases |a|
  {
    if |a| == 0 {
      MacEmptyData(b, n, |b|);
    } else {
      var a', v := a[..|a| - 1], a[|a| - 1];
      assert a == a' + [v];
      MacCommutes(a', b, n);
      assert a[..|a'|] == a'[..|a'|];
      MacPrefix(a, a', b, n, |a'|);
      MacSnocData(b, a', v, n, |b|);
    }
  }

  lemma LinearConvolutionCommutes(a: seq<real>, b: seq<real>)
    requires |a| > 0 && |b| > 0
    ensures LinearConvolution(a, b) == LinearConvolution(b, a)
  {
    forall n | 0 <= n < |a| + |b| - 1
      ensures LinearConvolution(a, b)[n] == LinearConvolution(b, a)[n]
    {
      MacCommutes(a, b, n);
    }
  }

  /** Trailing zeros added to the data change no MAC sum. */
  lemma {:induction false} MacPaddedData(st: seq<real>, x: seq<real>, m: nat, i: int, k: nat)
    requires k <= |st|
    ensures Mac(st, x + Zeros(m), i, k) == Mac(st, x, i, k)
  {
    if k > 0 {
      MacPaddedData(st, x, m, i, k - 1);
      assert DataAt(x + Zeros(m), i - (k - 1)) == DataAt(x, i - (k - 1));
    }
  }

  /** Once every pairing reads past the last sample, the sum is 0. */
  lemma {:induction false} MacPastData(st: seq<real>, x: seq<real>, i: int, k: nat)
    requires k <= |st| && i - k >= |x| - 1
    ensures Mac(st, x, i, k) == 0.0
  {
    if k > 0 {
      MacPastData(st, x, i, k - 1);
    }
  }

  /** A unit impulse as the left operand reproduces the right one. */
  lemma {:induction false} MacImpulse(imp: seq<real>, x: seq<real>, n: int, k: nat)
    requires 1 <= k <= |imp| && imp[0] == 1.0
    requires forall j :: 1 <= j < |imp| ==> imp[j] == 0.0
    ensures Mac(imp, x, n, k) == DataAt(x, n)
  {
    if k > 1 {
      MacImpulse(imp, x, n, k - 1);
    }
  }

  // ---------------------------------------------------------------------------
  // Properties of the convolution result
  // ---------------------------------------------------------------------------

  /** The routine faults (line 42) exactly when one input is empty and the
      other is not; two empty inputs give an empty result. */
  lemma ConvolutionFailsIffOneEmpty(input1: seq<real>, input2: seq<real>, tr: bool)
    ensures ConvolutionOf(input1, input2, tr).Failure? <==> ((|input1| == 0) != (|input2| == 0))
    ensures |input1| == 0 && |input2| == 0 ==> ConvolutionOf(input1, input2, tr) == Success([])
  {
    if |input1| > 0 && |input2| == 0 {
      assert LexLess(input2, input1);
    } else if |input1| == 0 && |input2| == 0 {
      assert Zeros(0) == [] && Outputs([], [], 0) == [];
    }
  }

  /** One output per sample of data_in, plus |static| more when flushing;
      with the flush the length is |input1| + |input2|. */
  lemma ConvolutionLength(input1: seq<real>, input2: seq<real>, tr: bool)
    ensures var (st, d) := ChooseOperands(input1, input2);
      var r := ConvolutionOf(input1, input2, tr);
      r.Success? ==> |r.value| == |d| + (if tr then |st| else 0)
    ensures var r := ConvolutionOf(input1, input2, tr);
      r.Success? && tr ==> |r.value| == |input1| + |input2|
  {
  }

  /** Output i is sum_{j=0}^{min(i, M-1)} static[j] * data_in[i - j], data_in
      including the flush zeros. */
  lemma OutputIsClosedForm(input1: seq<real>, input2: seq<real>, tr: bool, i: nat)
    requires ConvolutionOf(input1, input2, tr).Success?
    requires i < |ConvolutionOf(input1, input2, tr).value|
    ensures var (st, d) := ChooseOperands(input1, input2);
      var x := if tr then d + Zeros(|st|) else d;
      i < |x| && ConvolutionOf(input1, input2, tr).value[i] == ClosedSum(st, x, i, Min(|st|, i + 1))
  {
    var (st, d) := ChooseOperands(input1, input2);
    var x := if tr then d + Zeros(|st|) else d;
    MacIsClosedSum(st, x, i, |st|);
  }

  /** With a single static value the routine only scales data_in. */
  lemma SingleStaticValueScales(input1: seq<real>, input2: seq<real>, tr: bool)
    requires |ChooseOperands(input1, input2).0| == 1
    ensures var (st, d) := ChooseOperands(input1, input2);
      var x := if tr then d + [0.0] else d;
      var r := ConvolutionOf(input1, input2, tr);
      r.Success? && |r.value| == |x| && forall i :: 0 <= i < |x| ==> r.value[i] == st[0] * x[i]
  {
    var (st, d) := ChooseOperands(input1, input2);
    assert Zeros(1) == [0.0];
    var x := if tr then d + [0.0] else d;
    forall i | 0 <= i < |x| ensures Outputs(st, x, |x|)[i] == st[0] * x[i] {
      assert Mac(st, x, i, 1) == st[0] * x[i];
    }
  }

  /** With the flush, the result is the full linear convolution of the two
      inputs followed by one trailing 0, whichever operand was static. */
  lemma FlushedIsLinearConvolution(input1: seq<real>, input2: seq<real>)
    requires |input1| > 0 && |input2| > 0
    ensures ConvolutionOf(input1, input2, true) == Success(LinearConvolution(input1, input2) + [0.0])
  {
    var (st, d) := ChooseOperands(input1, input2);
    StaticIsLexMinimum(input1, input2);
    var x := d + Zeros(|st|);
    var full := LinearConvolution(input1, input2);
    forall n | 0 <= n < |x|
      ensures Mac(st, x, n, |st|) == (full + [0.0])[n]
    {
      MacPaddedData(st, d, |st|, n, |st|);
      if n < |full| {
        if st == input1 {
          assert Mac(st, d, n, |st|) == full[n];
        } else {
          MacCommutes(st, d, n);
        }
      } else {
        MacPastData(st, d, n, |st|);
      }
    }
    assert Outputs(st, x, |x|) == full + [0.0];
  }

  /** Without the flush the result is the first |data_in| entries of the
      linear convolution. */
  lemma UnflushedIsTruncatedLinearConvolution(input1: seq<real>, input2: seq<real>)
    requires |input1| > 0 && |input2| > 0
    ensures var d := ChooseOperands(input1, input2).1;
      |d| <= |input1| + |input2| - 1 &&
      ConvolutionOf(input1, input2, false) == Success(LinearConvolution(input1, input2)[..|d|])
  {
    var (st, d) := ChooseOperands(input1, input2);
    StaticIsLexMinimum(input1, input2);
    var full := LinearConvolution(input1, input2);
    forall n | 0 <= n < |d|
      ensures Mac(st, d, n, |st|) == full[n]
    {
      if st != input1 {
        MacCommutes(st, d, n);
      }
    }
    assert Outputs(st, d, |d|) == full[..|d|];
  }

  /** The result does not depend on the order of the two inputs. */
  lemma ConvolutionIsSymmetric(input1: seq<real>, input2: seq<real>, tr: bool)
    ensures ConvolutionOf(input1, input2, tr) == ConvolutionOf(input2, input1, tr)
  {
    StaticIsLexMinimum(input1, input2);
  }

  /** Convolving any non-empty list with a unit impulse [1, 0, ..., 0] and
      flushing gives the list back followed by zeros. */
  lemma ImpulseResponse(impulseZeros: nat, taps: seq<real>)
    requires |taps| > 0
    ensures ConvolutionOf([1.0] + Zeros(impulseZeros), taps, true) == Success(taps + Zeros(impulseZeros + 1))
  {
    var imp := [1.0] + Zeros(impulseZeros);
    FlushedIsLinearConvolution(imp, taps);
    var full := LinearConvolution(imp, taps);
    forall n | 0 <= n < |full| ensures full[n] == (taps + Zeros(impulseZeros + 1))[n] {
      MacImpulse(imp, taps, n, |imp|);
    }
    assert full + [0.0] == taps + Zeros(impulseZeros + 1);
  }

  // ---------------------------------------------------------------------------
  // The circular buffer routine
  // ---------------------------------------------------------------------------

  /** Slot of the sample that arrived `j` steps before the one at cursor `c`:
      the two index expressions of lines 45-48. */
  function Back(c: int, j: int, m: int): (r: int)
    ensures 0 <= c < m && 0 <= j < m ==> 0 <= r < m
  {
    if j <= c then c - j else m + (c - j)
  }

  lemma MulAtLeast(d: int, m: int)
    requires d >= 1 && m > 0
    ensures d * m >= m
  {
  }

  /** The Euclidean remainder is the unique r in [0, m) with a == q * m + r. */
  lemma ModOf(a: int, m: int, q: int, r: int)
    requires m > 0 && 0 <= r < m && a == q * m + r
    ensures a % m == r
  {
    var d := a / m - q;
    assert a == m * (a / m) + a % m;
    assert d * m == r - a % m;
    if d > 0 {
      MulAtLeast(d, m);
    } else if d < 0 {
      MulAtLeast(-d, m);
    }
  }

  /** The cursor wraps to 0 exactly after M - 1, so it follows i mod M. */
  lemma CursorStep(i: nat, m: nat)
    requires m > 0
    ensures (i + 1) % m == if i % m < m - 1 then i % m + 1 else 0
  {
    var q := i / m;
    assert i == q * m + i % m;
    if i % m < m - 1 {
      ModOf(i + 1, m, q, i % m + 1);
    } else {
      ModOf(i + 1, m, q + 1, 0);
    }
  }

  /** The cursor update of lines 53-56. */
  function Advance(c: nat, m: nat): (r: nat)
    ensures c < m ==> r < m
  {
    if c < m - 1 then c + 1 else 0
  }

  /** The cursor after `i` samples have been consumed. */
  function Cursor(i: nat, m: nat): (r: nat)
    ensures m > 0 ==> r < m
  {
    if i == 0 then 0 else Advance(Cursor(i - 1, m), m)
  }

  /** The cursor starts at 0, stays inside the buffer and equals i mod M. */
  lemma {:induction false} CursorIsStepModulo(i: nat, m: nat)
    requires m > 0
    ensures Cursor(i, m) == i % m < m
  {
    if i > 0 {
      CursorIsStepModulo(i - 1, m);
      CursorStep(i - 1, m);
    }
  }

  /** Both MAC index expressions stay inside the buffer and name the slot
      (cursor - j) mod M, which holds sample i - j when the cursor is i mod M. */
  lemma BackIsLagSlot(i: nat, c: nat, j: nat, m: nat)
    requires m > 0 && c == i % m && j < m
    ensures 0 <= Back(c, j, m) < m
    ensures Back(c, j, m) == (c - j) % m == (i - j) % m
  {
    var q := i / m;
    assert i == q * m + c;
    if j <= c {
      ModOf(c - j, m, 0, c - j);
      ModOf(i - j, m, q, c - j);
    } else {
      ModOf(c - j, m, -1, m + c - j);
      ModOf(i - j, m, q - 1, m + c - j);
    }
  }

  /** Buffer `buf` with cursor `c` holds, for every lag j in [lo, M), sample
      i - j of `x` in slot (c - j) mod M, and 0 for a lag before the first sample. */
  ghost predicate Window(buf: seq<real>, c: int, lo: nat, x: seq<real>, i: int) {
    forall j :: lo <= j < |buf| ==> 0 <= Back(c, j, |buf|) < |buf| && buf[Back(c, j, |buf|)] == DataAt(x, i - j)
  }

  /** Writing sample i at the cursor (line 42) completes the window at lag 0. */
  lemma WriteSample(buf: seq<real>, c: nat, x: seq<real>, i: nat)
    requires c < |buf| && i < |x| && Window(buf, c, 1, x, i)
    ensures Window(buf[c := x[i]], c, 0, x, i)
  {
  }

  /** Advancing the cursor (lines 53-56) turns lag j into lag j + 1. */
  lemma AdvanceShiftsLags(buf: seq<real>, c: nat, x: seq<real>, i: int)
    requires c < |buf| && Window(buf, c, 0, x, i)
    ensures Window(buf, Advance(c, |buf|), 1, x, i + 1)
  {
    var m := |buf|;
    forall j | 1 <= j < m
      ensures 0 <= Back(Advance(c, m), j, m) < m && buf[Back(Advance(c, m), j, m)] == DataAt(x, i + 1 - j)
    {
      assert Back(Advance(c, m), j, m) == Back(c, j - 1, m);
    }
  }

  /** The multiply-accumulate sweep of lines 39-48 over the buffer just
      written at `cirindex`: it pairs static value j with the sample that
      arrived j steps earlier. */
  method MacSweep(cirbuffer: array<real>, staticValues: seq<real>, cirindex: nat, ghost x: seq<real>, ghost i: int)
    returns (accum: real)
    requires cirindex < cirbuffer.Length == |staticValues|
    requires Window(cirbuffer[..], cirindex, 0, x, i)
    ensures accum == Mac(staticValues, x, i, |staticValues|)
  {
    ghost var m := cirbuffer.Length;
    accum := 0.0;
    for j := 0 to cirbuffer.Length
      invariant accum == Mac(staticValues, x, i, j)
    {
      assert cirbuffer[..][Back(cirindex, j, m)] == DataAt(x, i - j);
      if j <= cirindex {
        accum := accum + staticValues[j] * cirbuffer[cirindex - j];
      } else {
        accum := accum + staticValues[j] * cirbuffer[cirbuffer.Length + (cirindex - j)];
      }
      MacStep(staticValues, x, i, j);
    }
  }

  /** The circular buffer routine of lines 34-58: feed every sample of
      `dataIn` through the zero-initialised buffer and collect the MAC sums. */
  method RunBuffer(cirbuffer: array<real>, staticValues: seq<real>, dataIn: seq<real>)
    returns (r: Result<seq<real>, ConvError>)
    requires cirbuffer.Length == |staticValues|
    requires forall k :: 0 <= k < cirbuffer.Length ==> cirbuffer[k] == 0.0
    modifies cirbuffer
    ensures r == Sweep(staticValues, dataIn)
  {
    ghost var m := cirbuffer.Length;
    var dataOut: seq<real> := [];
    var cirindex := 0;

    for i := 0 to |dataIn|
      invariant dataOut == Outputs(staticValues, dataIn, i)
      invariant m == 0 ==> i == 0 && cirindex == 0
      invariant m > 0 ==> cirindex == Cursor(i, m) < m
      invariant Window(cirbuffer[..], cirindex, 1, dataIn, i)
    {
      if cirindex >= cirbuffer.Length {
        return Failure(IndexOutOfRange);
      }
      WriteSample(cirbuffer[..], cirindex, dataIn, i);
      cirbuffer[cirindex] := dataIn[i];
      var accum := MacSweep(cirbuffer, staticValues, cirindex, dataIn, i);

      OutputsStep(staticValues, dataIn, i);
      dataOut := dataOut + [accum];

      AdvanceShiftsLags(cirbuffer[..], cirindex, dataIn, i);
      if cirindex < cirbuffer.Length - 1 {
        cirindex := cirindex + 1;
      } else {
        cirindex := 0;
      }
    }
    r := Success(dataOut);
  }

  /** `convolution(input1, input2, tr)` of Convolution.py:4-58. */
  method Convolution(input1: seq<real>, input2: seq<real>, tr: bool := true)
    returns (r: Result<seq<real>, ConvError>)
    ensures r == ConvolutionOf(input1, input2, tr)
  {
    var cirbuffer: array<real>;
    var staticValues: seq<real>;
    var dataIn: seq<real>;
    if LexLess(input2, input1) {
      cirbuffer := new real[|input2|](_ => 0.0);
      staticValues, dataIn := input2, input1;
    } else if LexLess(input1, input2) {
      cirbuffer := new real[|input1|](_ => 0.0);
      staticValues, dataIn := input1, input2;
    } else {
      cirbuffer := new real[|input1|](_ => 0.0);
      staticValues, dataIn := input1, input2;
    }

    if tr {
      dataIn := dataIn + Zeros(cirbuffer.Length);
    }
    r := RunBuffer(cirbuffer, staticValues, dataIn);
  }
}
