/** The statistics the "FPS Monitor" window shows for a history of frame
    rates. Frame rates are modelled as exact reals; float rounding is not. */
module FpsChart {

  /** Sum of the samples, accumulated front to back. */
  function Sum(s: seq<real>): real
  {
    if s == [] then 0.0 else Sum(s[..|s| - 1]) + s[|s| - 1]
  }

  /** The average shown: 0 for an empty history, otherwise sum / size. */
  function Mean(s: seq<real>): real
  {
    if s == [] then 0.0 else Sum(s) / |s| as real
  }

  /** The "Current" reading: the most recent sample, or 0 for an empty history. */
  function Current(s: seq<real>): (r: real)
    ensures s == [] ==> r == 0.0
    ensures s != [] ==> r == s[|s| - 1]
  {
    if s == [] then 0.0 else s[|s| - 1]
  }

  /** The value std::min_element finds; only defined on a non-empty history. */
  function MinOf(s: seq<real>): (m: real)
    requires |s| > 0
    ensures m in s
    ensures forall i :: 0 <= i < |s| ==> m <= s[i]
  {
    if |s| == 1 then s[0]
    else
      var rest := MinOf(s[1..]);
      if rest < s[0] then rest else s[0]
  }

  /** The value std::max_element finds; only defined on a non-empty history. */
  function MaxOf(s: seq<real>): (m: real)
    requires |s| > 0
    ensures m in s
    ensures forall i :: 0 <= i < |s| ==> s[i] <= m
  {
    if |s| == 1 then s[0]
    else
      var rest := MaxOf(s[1..]);
      if s[0] < rest then rest else s[0]
  }

  /** The divisor of the frame-time reading: the current rate when it is
      positive, 1 otherwise. */
  function FrameTimeDivisor(current: real): (d: real)
    ensures d > 0.0
    ensures current > 0.0 ==> d == current
    ensures current <= 0.0 ==> d == 1.0
  {
    if current > 0.0 then current else 1.0
  }

  /** The "Frame time" reading in milliseconds: the period of the current
      frame rate, or 1000 ms when there is no positive rate. */
  function FrameTimeMs(current: real): (ms: real)
    ensures ms > 0.0
    ensures current > 0.0 ==> ms * current == 1000.0
    ensures current <= 0.0 ==> ms == 1000.0
  {
    1000.0 / FrameTimeDivisor(current)
  }

  /** The average as the chart computes it: a running sum over the history,
      then one division when the history is not empty. */
  method Average(history: seq<real>) returns (avg: real)
    ensures avg == Mean(history)
  {
    avg := 0.0;
    if history != [] {
      var i := 0;
      while i < |history|
        invariant 0 <= i <= |history|
        invariant avg == Sum(history[..i])
      {
        assert history[..i + 1][..i] == history[..i];
        avg := avg + history[i];
        i := i + 1;
      }
      assert history[..|history|] == history;
      avg := avg / |history| as real;
    }
  }

  /** Every sample at least `lo` makes the sum at least size * lo. */
  lemma {:induction false} SumAtLeast(s: seq<real>, lo: real)
    requires forall i :: 0 <= i < |s| ==> lo <= s[i]
    ensures Sum(s) >= |s| as real * lo
  {
    if s != [] {
      var init := s[..|s| - 1];
      assert forall i :: 0 <= i < |init| ==> init[i] == s[i];
      SumAtLeast(init, lo);
      assert |s| as real * lo == |init| as real * lo + lo;
    }
  }

  /** Every sample at most `hi` makes the sum at most size * hi. */
  lemma {:induction false} SumAtMost(s: seq<real>, hi: real)
    requires forall i :: 0 <= i < |s| ==> s[i] <= hi
    ensures Sum(s) <= |s| as real * hi
  {
    if s != [] {
      var init := s[..|s| - 1];
      assert forall i :: 0 <= i < |init| ==> init[i] == s[i];
      SumAtMost(init, hi);
      assert |s| as real * hi == |init| as real * hi + hi;
    }
  }

  /** Bounds that hold of every sample of a non-empty history hold of its average. */
  lemma MeanWithin(s: seq<real>, lo: real, hi: real)
    requires |s| > 0
    requires forall i :: 0 <= i < |s| ==> lo <= s[i] <= hi
    ensures lo <= Mean(s) <= hi
  {
    var n, total := |s| as real, Sum(s);
    SumAtLeast(s, lo);
    SumAtMost(s, hi);
    DivideBounds(total, n, lo, hi);
  }

  /** The average of a non-empty history lies between its minimum and maximum. */
  lemma MeanBetweenExtremes(s: seq<real>)
    requires |s| > 0
    ensures MinOf(s) <= Mean(s) <= MaxOf(s)
  {
    MeanWithin(s, MinOf(s), MaxOf(s));
  }

  /** Dividing bounds n * lo and n * hi on a total by a positive n. */
  lemma DivideBounds(total: real, n: real, lo: real, hi: real)
    requires n > 0.0 && n * lo <= total <= n * hi
    ensures lo <= total / n <= hi
  {
    assert total / n * n == total;
  }

  /** The values the chart window reads off a history. */
  datatype Readout = Readout(current: real, average: real, minimum: real, maximum: real, frameTimeMs: real)

  /** One call of the chart: the readings for a non-empty history. The
      minimum and maximum are not defined on an empty one. */
  method DrawFpsChart(history: seq<real>) returns (r: Readout)
    requires |history| > 0
    ensures r.current == history[|history| - 1]
    ensures r.average == Mean(history) && r.minimum <= r.average <= r.maximum
    ensures r.minimum in history && r.maximum in history
    ensures forall i :: 0 <= i < |history| ==> r.minimum <= history[i] <= r.maximum
    ensures r.frameTimeMs == FrameTimeMs(r.current)
  {
    var avg := Average(history);
    var current := Current(history);
    var lo := MinOf(history);
    var hi := MaxOf(history);
    MeanBetweenExtremes(history);
    r := Readout(current, avg, lo, hi, FrameTimeMs(current));
  }

  /** A history of 30, 60 and 90 frames per second reads current 90,
      average 60, minimum 30 and maximum 90. */
  lemma ThreeSampleReadings()
    ensures Current([30.0, 60.0, 90.0]) == 90.0
    ensures Mean([30.0, 60.0, 90.0]) == 60.0
    ensures MinOf([30.0, 60.0, 90.0]) == 30.0
    ensures MaxOf([30.0, 60.0, 90.0]) == 90.0
  {
    var s := [30.0, 60.0, 90.0];
    assert s[..2] == [30.0, 60.0] && s[..2][..1] == [30.0] && s[..2][..1][..0] == [];
    assert Sum([30.0]) == 30.0;
    assert Sum([30.0, 60.0]) == 90.0;
    assert Sum(s) == 180.0;
  }
}
