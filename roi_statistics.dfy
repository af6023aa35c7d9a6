/**
 * Reduction of one spectrum over one ROI window: the window of axis positions,
 * the raw count, the background-subtracted ("net") count and the axis
 * coordinates of the extremal samples.  Counts are modelled as `real`, so the
 * floating-point rounding of the original is not part of this model.
 */
module RoiStatistics {

  /** Raw count of an empty window. */
  const RAW_EMPTY: real := 0.0
  /** Net count of an empty window. */
  const NET_EMPTY: real := 0.0
  /** Net count of a window whose first and last axis values coincide. */
  const NET_ZERO_WIDTH: real := 0.0
  /** Channel-at-min/max value reported for an empty window. */
  const LOCATION_EMPTY: real := 0.0

  /** The mask of the reference computation: fromData <= v <= toData. */
  predicate InRange(v: real, fromData: real, toData: real) {
    fromData <= v && v <= toData
  }

  /** Indices j >= start of the axis with x[j] in range, in increasing order. */
  function WindowFrom(x: seq<real>, fromData: real, toData: real, start: nat): (w: seq<nat>)
    requires start <= |x|
    ensures forall i :: 0 <= i < |w| ==> start <= w[i] < |x| && InRange(x[w[i]], fromData, toData)
    ensures forall a, b :: 0 <= a < b < |w| ==> w[a] < w[b]
    decreases |x| - start
  {
    if start == |x| then []
    else if InRange(x[start], fromData, toData) then [start] + WindowFrom(x, fromData, toData, start + 1)
    else WindowFrom(x, fromData, toData, start + 1)
  }

  /** The indices selected by the ROI: `numpy.nonzero((fromData <= x) & (x <= toData))[0]`. */
  function Window(x: seq<real>, fromData: real, toData: real): (w: seq<nat>)
    ensures forall i :: 0 <= i < |w| ==> w[i] < |x| && InRange(x[w[i]], fromData, toData)
    ensures forall a, b :: 0 <= a < b < |w| ==> w[a] < w[b]
  {
    WindowFrom(x, fromData, toData, 0)
  }

  /** The samples of s at the indices w, in the order of w (numpy fancy indexing). */
  function Gather(s: seq<real>, w: seq<nat>): (r: seq<real>)
    requires forall i :: 0 <= i < |w| ==> w[i] < |s|
    ensures |r| == |w|
    ensures forall i :: 0 <= i < |w| ==> r[i] == s[w[i]]
  {
    seq(|w|, i requires 0 <= i < |w| => s[w[i]])
  }

  function Sum(s: seq<real>): real {
    if s == [] then 0.0 else s[0] + Sum(s[1..])
  }

  /** The straight line through the first and last selected samples, evaluated at every selected axis value. */
  function Baseline(xw: seq<real>, yw: seq<real>): (b: seq<real>)
    requires |xw| == |yw| > 0
    requires xw[|xw| - 1] != xw[0]
    ensures |b| == |xw|
    ensures b[0] == yw[0] && b[|b| - 1] == yw[|yw| - 1]
  {
    var slope := (yw[|yw| - 1] - yw[0]) / (xw[|xw| - 1] - xw[0]);
    var b := seq(|xw|, k requires 0 <= k < |xw| => yw[0] + slope * (xw[k] - xw[0]));
    RiseOverRun(yw[|yw| - 1] - yw[0], xw[|xw| - 1] - xw[0]);
    b
  }

  lemma RiseOverRun(rise: real, run: real)
    requires run != 0.0
    ensures (rise / run) * run == rise
  {
  }

  lemma NegatedRun(slope: real, a: real, b: real)
    ensures (-slope) * (-a - -b) == slope * (a - b)
  {
  }

  /** Net count of the selected samples: raw minus the baseline sum, or the fixed fallbacks. */
  function NetOfWindow(xw: seq<real>, yw: seq<real>): real
    requires |xw| == |yw|
  {
    if |xw| == 0 then NET_EMPTY
    else if xw[|xw| - 1] - xw[0] != 0.0 then Sum(yw) - Sum(Baseline(xw, yw))
    else NET_ZERO_WIDTH
  }

  function RawCounts(x: seq<real>, y: seq<real>, fromData: real, toData: real): real
    requires |x| == |y|
  {
    var w := Window(x, fromData, toData);
    if |w| == 0 then RAW_EMPTY else Sum(Gather(y, w))
  }

  function NetCounts(x: seq<real>, y: seq<real>, fromData: real, toData: real): real
    requires |x| == |y|
  {
    var w := Window(x, fromData, toData);
    NetOfWindow(Gather(x, w), Gather(y, w))
  }

  /** The first index of a maximal element. */
  function ArgMax(s: seq<real>): (k: nat)
    requires |s| > 0
    ensures k < |s|
    ensures forall j :: 0 <= j < |s| ==> s[j] <= s[k]
    ensures forall j :: 0 <= j < k ==> s[j] < s[k]
  {
    if |s| == 1 then 0
    else
      var k := ArgMax(s[..|s| - 1]);
      if s[|s| - 1] > s[k] then |s| - 1 else k
  }

  /** The first index of a minimal element. */
  function ArgMin(s: seq<real>): (k: nat)
    requires |s| > 0
    ensures k < |s|
    ensures forall j :: 0 <= j < |s| ==> s[k] <= s[j]
    ensures forall j :: 0 <= j < k ==> s[k] < s[j]
  {
    if |s| == 1 then 0
    else
      var k := ArgMin(s[..|s| - 1]);
      if s[|s| - 1] < s[k] then |s| - 1 else k
  }

  /** Axis coordinate of the (first) maximal sample in the window. */
  function ChannelAtMax(x: seq<real>, y: seq<real>, fromData: real, toData: real): real
    requires |x| == |y|
  {
    var w := Window(x, fromData, toData);
    if |w| == 0 then LOCATION_EMPTY else Gather(x, w)[ArgMax(Gather(y, w))]
  }

  /** Axis coordinate of the (first) minimal sample in the window. */
  function ChannelAtMin(x: seq<real>, y: seq<real>, fromData: real, toData: real): real
    requires |x| == |y|
  {
    var w := Window(x, fromData, toData);
    if |w| == 0 then LOCATION_EMPTY else Gather(x, w)[ArgMin(Gather(y, w))]
  }

  // ---------------------------------------------------------------------------
  // The window

  lemma {:induction false} WindowFromComplete(x: seq<real>, fromData: real, toData: real, start: nat, k: nat)
    requires start <= k < |x| && InRange(x[k], fromData, toData)
    ensures k in WindowFrom(x, fromData, toData, start)
    decreases |x| - start
  {
    if start < k {
      WindowFromComplete(x, fromData, toData, start + 1, k);
    }
  }

  /** The window is exactly the set of axis positions whose value lies in [fromData, toData]. */
  lemma WindowExactly(x: seq<real>, fromData: real, toData: real)
    ensures forall k: nat :: k in Window(x, fromData, toData) <==> k < |x| && InRange(x[k], fromData, toData)
  {
    forall k: nat | k < |x| && InRange(x[k], fromData, toData)
      ensures k in Window(x, fromData, toData)
    {
      WindowFromComplete(x, fromData, toData, 0, k);
    }
  }

  /** The position in the window at which an in-range axis index is listed. */
  lemma WindowPosition(x: seq<real>, fromData: real, toData: real, j: nat) returns (i: nat)
    requires j < |x| && InRange(x[j], fromData, toData)
    ensures i < |Window(x, fromData, toData)| && Window(x, fromData, toData)[i] == j
  {
    WindowFromComplete(x, fromData, toData, 0, j);
    var w := Window(x, fromData, toData);
    i :| 0 <= i < |w| && w[i] == j;
  }

  /** On a monotonic axis the selected positions form one contiguous run of indices. */
  lemma WindowContiguous(x: seq<real>, fromData: real, toData: real, a: nat, b: nat, c: nat)
    requires a <= b <= c < |x|
    requires (forall i, j :: 0 <= i <= j < |x| ==> x[i] <= x[j]) || (forall i, j :: 0 <= i <= j < |x| ==> x[j] <= x[i])
    requires a in Window(x, fromData, toData) && c in Window(x, fromData, toData)
    ensures b in Window(x, fromData, toData)
  {
    WindowExactly(x, fromData, toData);
  }

  // ---------------------------------------------------------------------------
  // Raw counts

  /** Sum over all positions of the samples whose axis value lies in range (an
      independent, mask-weighted definition of the raw count). */
  function MaskedSum(x: seq<real>, y: seq<real>, fromData: real, toData: real, start: nat): real
    requires |x| == |y| && start <= |x|
    decreases |x| - start
  {
    if start == |x| then 0.0
    else (if InRange(x[start], fromData, toData) then y[start] else 0.0) + MaskedSum(x, y, fromData, toData, start + 1)
  }

  lemma {:induction false} GatherCons(s: seq<real>, j: nat, w: seq<nat>)
    requires j < |s| && forall i :: 0 <= i < |w| ==> w[i] < |s|
    ensures Gather(s, [j] + w) == [s[j]] + Gather(s, w)
  {
    assert forall i :: 0 <= i < |[j] + w| ==> ([j] + w)[i] < |s|;
    var l := Gather(s, [j] + w);
    var r := [s[j]] + Gather(s, w);
    assert |l| == |r|;
    forall i | 0 <= i < |l| ensures l[i] == r[i] {
      if i > 0 { assert ([j] + w)[i] == w[i - 1]; }
    }
  }

  lemma {:induction false} WindowSumFrom(x: seq<real>, y: seq<real>, fromData: real, toData: real, start: nat)
    requires |x| == |y| && start <= |x|
    ensures Sum(Gather(y, WindowFrom(x, fromData, toData, start))) == MaskedSum(x, y, fromData, toData, start)
    decreases |x| - start
  {
    if start < |x| {
      WindowSumFrom(x, y, fromData, toData, start + 1);
      var rest := WindowFrom(x, fromData, toData, start + 1);
      if InRange(x[start], fromData, toData) {
        GatherCons(y, start, rest);
        assert Gather(y, [start] + rest)[1..] == Gather(y, rest);
      }
    }
  }

  /** The raw count is the sum of y over exactly the in-range positions. */
  lemma RawIsMaskedSum(x: seq<real>, y: seq<real>, fromData: real, toData: real)
    requires |x| == |y|
    ensures RawCounts(x, y, fromData, toData) == MaskedSum(x, y, fromData, toData, 0)
  {
    WindowSumFrom(x, y, fromData, toData, 0);
  }

  lemma {:induction false} SumNonNegative(s: seq<real>)
    requires forall i :: 0 <= i < |s| ==> s[i] >= 0.0
    ensures Sum(s) >= 0.0
  {
    if s != [] {
      SumNonNegative(s[1..]);
    }
  }

  /** Non-negative samples give a non-negative raw count. */
  lemma RawNonNegative(x: seq<real>, y: seq<real>, fromData: real, toData: real)
    requires |x| == |y|
    requires forall j :: 0 <= j < |y| ==> y[j] >= 0.0
    ensures RawCounts(x, y, fromData, toData) >= 0.0
  {
    var w := Window(x, fromData, toData);
    SumNonNegative(Gather(y, w));
  }

  // ---------------------------------------------------------------------------
  // Fallbacks

  /** A ROI that selects no axis position (in particular one with fromData > toData,
      or one that lies outside the axis range) yields raw 0 and net 0. */
  lemma EmptyWindowCounts(x: seq<real>, y: seq<real>, fromData: real, toData: real)
    requires |x| == |y|
    requires forall j :: 0 <= j < |x| ==> !InRange(x[j], fromData, toData)
    ensures RawCounts(x, y, fromData, toData) == 0.0
    ensures NetCounts(x, y, fromData, toData) == 0.0
  {
  }

  /** A window whose first and last selected axis values coincide has net 0. */
  lemma ZeroWidthNet(x: seq<real>, y: seq<real>, fromData: real, toData: real)
    requires |x| == |y|
    requires var w := Window(x, fromData, toData); |w| > 0 && x[w[0]] == x[w[|w| - 1]]
    ensures NetCounts(x, y, fromData, toData) == 0.0
  {
  }

  /** A window that selects a single sample has net 0. */
  lemma SingleSampleNet(x: seq<real>, y: seq<real>, fromData: real, toData: real)
    requires |x| == |y|
    requires |Window(x, fromData, toData)| == 1
    ensures NetCounts(x, y, fromData, toData) == 0.0
    ensures RawCounts(x, y, fromData, toData) == y[Window(x, fromData, toData)[0]]
  {
    var w := Window(x, fromData, toData);
    var yw := Gather(y, w);
    assert yw[1..] == [];
    assert Sum(yw) == yw[0] + Sum(yw[1..]);
  }

  // ---------------------------------------------------------------------------
  // Net counts

  function Residuals(a: seq<real>, b: seq<real>): (r: seq<real>)
    requires |a| == |b|
    ensures |r| == |a|
    ensures forall i :: 0 <= i < |a| ==> r[i] == a[i] - b[i]
  {
    seq(|a|, i requires 0 <= i < |a| => a[i] - b[i])
  }

  lemma {:induction false} SumResiduals(a: seq<real>, b: seq<real>)
    requires |a| == |b|
    ensures Sum(a) - Sum(b) == Sum(Residuals(a, b))
  {
    if a != [] {
      SumResiduals(a[1..], b[1..]);
      assert Residuals(a, b)[1..] == Residuals(a[1..], b[1..]);
    }
  }

  /** In a window of positive width, the net count is the sum of the samples' heights above the chord. */
  lemma NetIsResidualSum(x: seq<real>, y: seq<real>, fromData: real, toData: real)
    requires |x| == |y|
    requires var w := Window(x, fromData, toData); |w| > 0 && x[w[0]] != x[w[|w| - 1]]
    ensures var w := Window(x, fromData, toData);
            NetCounts(x, y, fromData, toData)
            == Sum(Residuals(Gather(y, w), Baseline(Gather(x, w), Gather(y, w))))
  {
    var w := Window(x, fromData, toData);
    SumResiduals(Gather(y, w), Baseline(Gather(x, w), Gather(y, w)));
  }

  /** Samples on or above the chord through the window's end samples give a non-negative net count. */
  lemma NetNonNegative(x: seq<real>, y: seq<real>, fromData: real, toData: real)
    requires |x| == |y|
    requires var w := Window(x, fromData, toData);
             |w| > 0 && x[w[0]] != x[w[|w| - 1]] ==>
             forall k :: 0 <= k < |w| ==>
               y[w[k]] >= Baseline(Gather(x, w), Gather(y, w))[k]
    ensures NetCounts(x, y, fromData, toData) >= 0.0
  {
    var w := Window(x, fromData, toData);
    if |w| > 0 && x[w[0]] != x[w[|w| - 1]] {
      NetIsResidualSum(x, y, fromData, toData);
      SumNonNegative(Residuals(Gather(y, w), Baseline(Gather(x, w), Gather(y, w))));
    }
  }

  lemma ChordOfLine(x0: real, x1: real, a: real, b: real)
    requires x1 - x0 != 0.0
    ensures ((a + b * x1) - (a + b * x0)) / (x1 - x0) == b
  {
    assert (a + b * x1) - (a + b * x0) == b * (x1 - x0);
  }

  lemma PointOfLine(x0: real, xk: real, a: real, b: real)
    ensures (a + b * x0) + b * (xk - x0) == a + b * xk
  {
  }

  /** The chord through samples on a straight line is that line. */
  lemma BaselineOfLine(xw: seq<real>, yw: seq<real>, a: real, b: real)
    requires |xw| == |yw| > 0 && xw[|xw| - 1] != xw[0]
    requires forall k :: 0 <= k < |xw| ==> yw[k] == a + b * xw[k]
    ensures Baseline(xw, yw) == yw
  {
    var n := |xw| - 1;
    ChordOfLine(xw[0], xw[n], a, b);
    var line := Baseline(xw, yw);
    forall k | 0 <= k < |xw| ensures line[k] == yw[k] {
      PointOfLine(xw[0], xw[k], a, b);
    }
  }

  lemma NetOfLine(xw: seq<real>, yw: seq<real>, a: real, b: real)
    requires |xw| == |yw|
    requires forall k :: 0 <= k < |xw| ==> yw[k] == a + b * xw[k]
    ensures NetOfWindow(xw, yw) == 0.0
  {
    if |xw| > 0 && xw[|xw| - 1] - xw[0] != 0.0 {
      BaselineOfLine(xw, yw, a, b);
    }
  }

  /** Samples lying on a straight line y = a + b*x give net count 0: the baseline is the data itself. */
  lemma StraightLineNet(x: seq<real>, y: seq<real>, fromData: real, toData: real, a: real, b: real)
    requires |x| == |y|
    requires forall j :: 0 <= j < |x| ==> y[j] == a + b * x[j]
    ensures NetCounts(x, y, fromData, toData) == 0.0
  {
    var w := Window(x, fromData, toData);
    var xw, yw := Gather(x, w), Gather(y, w);
    forall k | 0 <= k < |xw| ensures yw[k] == a + b * xw[k] {
      assert yw[k] == y[w[k]] && xw[k] == x[w[k]];
    }
    NetOfLine(xw, yw, a, b);
  }

  // ---------------------------------------------------------------------------
  // Extremum locations

  /**
   * The channel at max lies at the first selected sample that no selected sample exceeds:
   * ties between equal maxima go to the lowest index.
   */
  lemma ChannelAtMaxOfPeak(x: seq<real>, y: seq<real>, fromData: real, toData: real, p: nat)
    requires |x| == |y| && p < |x|
    requires InRange(x[p], fromData, toData)
    requires forall j :: 0 <= j < |x| && InRange(x[j], fromData, toData) ==> y[j] <= y[p]
    requires forall j :: 0 <= j < p && InRange(x[j], fromData, toData) ==> y[j] < y[p]
    ensures ChannelAtMax(x, y, fromData, toData) == x[p]
  {
    var w := Window(x, fromData, toData);
    var i := WindowPosition(x, fromData, toData, p);
    var yw := Gather(y, w);
    var k := ArgMax(yw);
    assert yw[i] <= yw[k] && yw[k] <= yw[i];
    assert w[k] == p;
  }

  /**
   * The channel at min lies at the first selected sample that no selected sample undercuts:
   * ties between equal minima go to the lowest index.
   */
  lemma ChannelAtMinOfTrough(x: seq<real>, y: seq<real>, fromData: real, toData: real, p: nat)
    requires |x| == |y| && p < |x|
    requires InRange(x[p], fromData, toData)
    requires forall j :: 0 <= j < |x| && InRange(x[j], fromData, toData) ==> y[p] <= y[j]
    requires forall j :: 0 <= j < p && InRange(x[j], fromData, toData) ==> y[p] < y[j]
    ensures ChannelAtMin(x, y, fromData, toData) == x[p]
  {
    var w := Window(x, fromData, toData);
    var i := WindowPosition(x, fromData, toData, p);
    var yw := Gather(y, w);
    var k := ArgMin(yw);
    assert yw[k] <= yw[i] && yw[i] <= yw[k];
    assert w[k] == p;
  }

  /**
   * Two selected samples of equal height, as where a peak's height is matched at the end of
   * the window: the channel at max is the first of them.
   */
  lemma TiedPeakGoesToFirst()
    ensures ChannelAtMax([500.0, 600.0], [1200.0, 1200.0], 400.01, 600.01) == 500.0
  {
    ChannelAtMaxOfPeak([500.0, 600.0], [1200.0, 1200.0], 400.01, 600.01, 0);
  }

  /** In a strictly increasing index sequence, a smaller entry sits at an earlier position. */
  lemma IndexOrder(w: seq<nat>, a: nat, b: nat)
    requires a < |w| && b < |w|
    requires forall u, v :: 0 <= u < v < |w| ==> w[u] < w[v]
    requires w[a] < w[b]
    ensures a < b
  {
  }

  /**
   * For a non-empty window, the channel at max is the axis value of a selected sample that no
   * selected sample exceeds and that every earlier selected sample is strictly below.
   */
  lemma ChannelAtMaxIsMaximal(x: seq<real>, y: seq<real>, fromData: real, toData: real)
    requires |x| == |y|
    requires |Window(x, fromData, toData)| > 0
    ensures exists p :: 0 <= p < |x| && InRange(x[p], fromData, toData)
              && x[p] == ChannelAtMax(x, y, fromData, toData)
              && (forall j :: 0 <= j < |x| && InRange(x[j], fromData, toData) ==> y[j] <= y[p])
              && (forall j :: 0 <= j < p && InRange(x[j], fromData, toData) ==> y[j] < y[p])
  {
    var w := Window(x, fromData, toData);
    var yw := Gather(y, w);
    var k := ArgMax(yw);
    var p := w[k];
    forall j | 0 <= j < |x| && InRange(x[j], fromData, toData) ensures y[j] <= y[p] {
      var i := WindowPosition(x, fromData, toData, j);
      assert yw[i] <= yw[k];
    }
    forall j | 0 <= j < p && InRange(x[j], fromData, toData) ensures y[j] < y[p] {
      var i := WindowPosition(x, fromData, toData, j);
      IndexOrder(w, i, k);
      assert yw[i] < yw[k];
    }
  }

  /**
   * For a non-empty window, the channel at min is the axis value of a selected sample that no
   * selected sample undercuts and that every earlier selected sample is strictly above.
   */
  lemma ChannelAtMinIsMinimal(x: seq<real>, y: seq<real>, fromData: real, toData: real)
    requires |x| == |y|
    requires |Window(x, fromData, toData)| > 0
    ensures exists p :: 0 <= p < |x| && InRange(x[p], fromData, toData)
              && x[p] == ChannelAtMin(x, y, fromData, toData)
              && (forall j :: 0 <= j < |x| && InRange(x[j], fromData, toData) ==> y[p] <= y[j])
              && (forall j :: 0 <= j < p && InRange(x[j], fromData, toData) ==> y[p] < y[j])
  {
    var w := Window(x, fromData, toData);
    var yw := Gather(y, w);
    var k := ArgMin(yw);
    var p := w[k];
    forall j | 0 <= j < |x| && InRange(x[j], fromData, toData) ensures y[p] <= y[j] {
      var i := WindowPosition(x, fromData, toData, j);
      assert yw[k] <= yw[i];
    }
    forall j | 0 <= j < p && InRange(x[j], fromData, toData) ensures y[p] < y[j] {
      var i := WindowPosition(x, fromData, toData, j);
      IndexOrder(w, i, k);
      assert yw[k] < yw[i];
    }
  }

  // ---------------------------------------------------------------------------
  // Axis mirroring

  function Negated(s: seq<real>): (r: seq<real>)
    ensures |r| == |s|
    ensures forall i :: 0 <= i < |s| ==> r[i] == -s[i]
  {
    seq(|s|, i requires 0 <= i < |s| => -s[i])
  }

  lemma {:induction false} MirroredWindowFrom(x: seq<real>, fromData: real, toData: real, start: nat)
    requires start <= |x|
    ensures WindowFrom(Negated(x), -toData, -fromData, start) == WindowFrom(x, fromData, toData, start)
    decreases |x| - start
  {
    if start < |x| {
      MirroredWindowFrom(x, fromData, toData, start + 1);
      assert InRange(Negated(x)[start], -toData, -fromData) <==> InRange(x[start], fromData, toData);
    }
  }

  lemma MirroredBaseline(xw: seq<real>, yw: seq<real>)
    requires |xw| == |yw| > 0 && xw[|xw| - 1] != xw[0]
    ensures Baseline(Negated(xw), yw) == Baseline(xw, yw)
  {
    var n := |xw| - 1;
    var slope := (yw[n] - yw[0]) / (xw[n] - xw[0]);
    var slope' := (yw[n] - yw[0]) / (Negated(xw)[n] - Negated(xw)[0]);
    assert Negated(xw)[n] - Negated(xw)[0] == -(xw[n] - xw[0]);
    assert slope' == -slope;
    var l, r := Baseline(Negated(xw), yw), Baseline(xw, yw);
    forall k | 0 <= k < |xw| ensures l[k] == r[k] {
      assert l[k] == yw[0] + slope' * (Negated(xw)[k] - Negated(xw)[0]);
      assert r[k] == yw[0] + slope * (xw[k] - xw[0]);
      NegatedRun(slope, xw[k], xw[0]);
    }
  }

  /** Negating the axis and the ROI bounds (fromData, toData) := (-toData, -fromData)
      leaves raw and net counts unchanged and negates the extremum locations. */
  lemma MirrorInvariance(x: seq<real>, y: seq<real>, fromData: real, toData: real)
    requires |x| == |y|
    ensures RawCounts(Negated(x), y, -toData, -fromData) == RawCounts(x, y, fromData, toData)
    ensures NetCounts(Negated(x), y, -toData, -fromData) == NetCounts(x, y, fromData, toData)
    ensures ChannelAtMax(Negated(x), y, -toData, -fromData) == -ChannelAtMax(x, y, fromData, toData)
    ensures ChannelAtMin(Negated(x), y, -toData, -fromData) == -ChannelAtMin(x, y, fromData, toData)
  {
    MirroredWindowFrom(x, fromData, toData, 0);
    var w := Window(x, fromData, toData);
    var xw := Gather(x, w);
    assert Gather(Negated(x), w) == Negated(xw);
    if |w| > 0 && xw[|xw| - 1] - xw[0] != 0.0 {
      MirroredBaseline(xw, Gather(y, w));
    }
  }
}
