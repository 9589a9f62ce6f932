/** The three per-minute labels of the target study: the first-touch label (which of
    entry +/- threshold the price reaches first within the horizon), the trend label (the
    sign of the close-to-close move over the horizon) and the regime label (the sign of
    the least-squares slope of the next four hours of closes, with a dead band).

    The table is taken as already sorted by timestamp; rows are addressed by position. */
module LabelEngine {
  import opened Series
  import opened Regression

  /** Horizon of the touch and trend labels, in one-minute rows. */
  const HORIZON_MIN: nat := 15
  /** Distance from the entry price that counts as a touch, in price units. */
  const TOUCH_TH: real := 10.0
  /** Length of the regression window of the regime label, in one-minute rows. */
  const REGIME_WINDOW_MIN: nat := 240
  /** Dead band of the regime label, in price units per minute. */
  const SLOPE_TH: real := 0.02

  // ----- Target 1: first touch -----

  /** The bar's high reaches the upper barrier. */
  predicate UpTouch(b: Bar, entry: real, th: real)
  {
    b.high >= entry + th
  }

  /** The bar's low reaches the lower barrier. */
  predicate DownTouch(b: Bar, entry: real, th: real)
  {
    b.low <= entry - th
  }

  predicate Touches(b: Bar, entry: real, th: real)
  {
    UpTouch(b, entry, th) || DownTouch(b, entry, th)
  }

  /** The label of a scan over `future`: +1 at the first bar that touches the upper
      barrier, -1 at the first that touches the lower one (the upper one is checked first
      on each bar), 0 when no bar touches either. */
  function FirstTouchIn(future: seq<Bar>, entry: real, th: real): (r: int)
    ensures -1 <= r <= 1
  {
    if |future| == 0 then 0
    else if UpTouch(future[0], entry, th) then 1
    else if DownTouch(future[0], entry, th) then -1
    else FirstTouchIn(future[1..], entry, th)
  }

  /** No bar strictly before position k touches either barrier. */
  predicate QuietBefore(future: seq<Bar>, k: int, entry: real, th: real)
    requires 0 <= k <= |future|
  {
    forall j :: 0 <= j < k ==> !Touches(future[j], entry, th)
  }

  /** The label of row i: the scan of rows i+1..i+h against row i's close, or missing
      when fewer than h rows follow. */
  function TouchLabel(bars: seq<Bar>, i: nat, h: nat, th: real): (r: Option<int>)
    requires i < |bars|
    ensures r.Some? <==> i + h < |bars|
    ensures r.Some? ==> -1 <= r.value <= 1
  {
    if i + h < |bars| then Some(FirstTouchIn(bars[i + 1..i + h + 1], bars[i].close, th)) else None
  }

  /** The scan's answer in terms of the first touching bar: +1 exactly when some bar
      touches the upper barrier and every earlier bar is quiet, -1 exactly when some bar
      touches only the lower barrier and every earlier bar is quiet, 0 exactly when
      every bar is quiet. */
  lemma {:induction false} FirstTouchInSpec(future: seq<Bar>, entry: real, th: real)
    ensures FirstTouchIn(future, entry, th) == 1 <==>
      exists k :: 0 <= k < |future| && QuietBefore(future, k, entry, th) && UpTouch(future[k], entry, th)
    ensures FirstTouchIn(future, entry, th) == -1 <==>
      exists k :: 0 <= k < |future| && QuietBefore(future, k, entry, th)
        && !UpTouch(future[k], entry, th) && DownTouch(future[k], entry, th)
    ensures FirstTouchIn(future, entry, th) == 0 <==> QuietBefore(future, |future|, entry, th)
  {
    if |future| > 0 {
      var rest := future[1..];
      FirstTouchInSpec(rest, entry, th);
      // A quiet prefix of the tail, shifted by one, is a quiet prefix of the whole.
      forall k | 0 <= k < |rest| && QuietBefore(rest, k, entry, th) && !Touches(future[0], entry, th)
        ensures QuietBefore(future, k + 1, entry, th)
      {
        forall j | 0 <= j < k + 1
          ensures !Touches(future[j], entry, th)
        {
          if j > 0 {
            assert future[j] == rest[j - 1];
          }
        }
      }
      forall k | 1 <= k <= |future| && QuietBefore(future, k, entry, th)
        ensures QuietBefore(rest, k - 1, entry, th)
      {
        forall j | 0 <= j < k - 1
          ensures !Touches(rest[j], entry, th)
        {
          assert rest[j] == future[j + 1];
        }
      }
      if !Touches(future[0], entry, th) {
        if FirstTouchIn(future, entry, th) == 1 {
          var k :| 0 <= k < |rest| && QuietBefore(rest, k, entry, th) && UpTouch(rest[k], entry, th);
          assert future[k + 1] == rest[k];
        }
        if FirstTouchIn(future, entry, th) == -1 {
          var k :| 0 <= k < |rest| && QuietBefore(rest, k, entry, th)
            && !UpTouch(rest[k], entry, th) && DownTouch(rest[k], entry, th);
          assert future[k + 1] == rest[k];
        }
        if exists k :: 0 <= k < |future| && QuietBefore(future, k, entry, th) && UpTouch(future[k], entry, th) {
          var k :| 0 <= k < |future| && QuietBefore(future, k, entry, th) && UpTouch(future[k], entry, th);
          assert k > 0;
          assert rest[k - 1] == future[k];
        }
        if exists k :: 0 <= k < |future| && QuietBefore(future, k, entry, th)
             && !UpTouch(future[k], entry, th) && DownTouch(future[k], entry, th) {
          var k :| 0 <= k < |future| && QuietBefore(future, k, entry, th)
            && !UpTouch(future[k], entry, th) && DownTouch(future[k], entry, th);
          assert k > 0;
          assert rest[k - 1] == future[k];
        }
      } else {
        assert QuietBefore(future, 0, entry, th);
        assert !QuietBefore(future, |future|, entry, th) by {
          assert Touches(future[0], entry, th);
        }
        if !UpTouch(future[0], entry, th) {
          assert forall k :: 0 < k <= |future| ==> !QuietBefore(future, k, entry, th) by {
            forall k | 0 < k <= |future|
              ensures !QuietBefore(future, k, entry, th)
            {
              assert Touches(future[0], entry, th);
            }
          }
        }
      }
    }
  }

  /** When no bar of the horizon touches a barrier, the close-to-close move over the
      horizon stays strictly inside the band: a flat touch label bounds the trend move. */
  lemma {:induction false} QuietHorizonBoundsMove(bars: seq<Bar>, i: nat, h: nat, th: real)
    requires i < |bars| && 1 <= h
    requires TouchLabel(bars, i, h, th) == Some(0)
    requires WellFormedBar(bars[i + h])
    ensures -th < bars[i + h].close - bars[i].close < th
  {
    var future := bars[i + 1..i + h + 1];
    FirstTouchInSpec(future, bars[i].close, th);
    assert future[h - 1] == bars[i + h];
    assert !Touches(future[h - 1], bars[i].close, th);
  }

  /** The label of one row, as the script computes it: take rows i+1..i+h (fewer near the
      end of the table), give up when there are fewer than h of them, otherwise scan them
      in order and return at the first touch. */
  method FirstTouch(bars: seq<Bar>, i: nat, h: nat, th: real) returns (outcome: Option<int>)
    requires i < |bars|
    ensures outcome == TouchLabel(bars, i, h, th)
  {
    var entry := bars[i].close;
    // The label-based slice i+1..i+h includes both ends and stops at the last row.
    var last := if i + h < |bars| then i + h else |bars| - 1;
    var future := bars[i + 1..last + 1];
    if |future| < h {
      return None;
    }
    var k := 0;
    while k < |future|
      invariant 0 <= k <= |future|
      invariant FirstTouchIn(future[k..], entry, th) == FirstTouchIn(future, entry, th)
    {
      if future[k].high >= entry + th {
        return Some(1);
      }
      if future[k].low <= entry - th {
        return Some(-1);
      }
      assert future[k..][1..] == future[k + 1..];
      k := k + 1;
    }
    return Some(0);
  }

  /** The touch column: the label of every row in turn. */
  method TouchColumn(bars: seq<Bar>, h: nat, th: real) returns (col: seq<Option<int>>)
    ensures |col| == |bars|
    ensures forall i :: 0 <= i < |bars| ==> col[i] == TouchLabel(bars, i, h, th)
  {
    col := [];
    var i := 0;
    while i < |bars|
      invariant 0 <= i <= |bars|
      invariant |col| == i
      invariant forall j :: 0 <= j < i ==> col[j] == TouchLabel(bars, j, h, th)
    {
      var outcome := FirstTouch(bars, i, h, th);
      col := col + [outcome];
      i := i + 1;
    }
  }

  // ----- Target 2: trend -----

  /** numpy's sign of a real: 1, -1 or 0. */
  function Sign(x: real): (r: int)
    ensures r == 1 <==> x > 0.0
    ensures r == -1 <==> x < 0.0
    ensures r == 0 <==> x == 0.0
  {
    if x > 0.0 then 1 else if x < 0.0 then -1 else 0
  }

  /** The sign of the close h rows later minus this row's close; missing where the
      shifted column runs past the end of the table. */
  function TrendLabel(bars: seq<Bar>, i: nat, h: nat): (r: Option<int>)
    requires i < |bars|
    ensures r.Some? <==> i + h < |bars|
    ensures r == Some(1) <==> i + h < |bars| && bars[i + h].close > bars[i].close
    ensures r == Some(-1) <==> i + h < |bars| && bars[i + h].close < bars[i].close
    ensures r == Some(0) <==> i + h < |bars| && bars[i + h].close == bars[i].close
  {
    if i + h < |bars| then Some(Sign(bars[i + h].close - bars[i].close)) else None
  }

  /** The trend column. */
  function TrendColumn(bars: seq<Bar>, h: nat): (col: seq<Option<int>>)
    ensures |col| == |bars|
    ensures forall i :: 0 <= i < |bars| ==> col[i] == TrendLabel(bars, i, h)
  {
    seq(|bars|, i requires 0 <= i < |bars| => TrendLabel(bars, i, h))
  }

  /** The touch and trend labels are missing on exactly the same rows, the last h. */
  lemma {:induction false} TouchAndTrendDefinedTogether(bars: seq<Bar>, i: nat, h: nat, th: real)
    requires i < |bars|
    ensures TouchLabel(bars, i, h, th).Some? <==> TrendLabel(bars, i, h).Some?
    ensures TouchLabel(bars, i, h, th).Some? <==> i < |bars| - h
  {
  }

  // ----- Target 3: regime -----

  /** The slope of the window of w closes starting at row i, or missing when the window
      would run past the end of the table. */
  function SlopeAt(closes: seq<real>, w: nat, i: nat): (r: Option<real>)
    requires w >= 1 && i <= |closes|
    ensures r.Some? <==> i + w <= |closes|
  {
    if i + w <= |closes| then Some(OlsSlope(closes[i..i + w])) else None
  }

  /** The slope column, built by appending one window slope per row. */
  method SlopeColumn(closes: seq<real>, w: nat) returns (slopes: seq<Option<real>>)
    requires w >= 1
    ensures |slopes| == |closes|
    ensures forall i :: 0 <= i < |closes| ==> slopes[i] == SlopeAt(closes, w, i)
  {
    slopes := [];
    var i := 0;
    while i < |closes|
      invariant 0 <= i <= |closes|
      invariant |slopes| == i
      invariant forall j :: 0 <= j < i ==> slopes[j] == SlopeAt(closes, w, j)
    {
      // Position-based slicing stops at the end of the column.
      var window := closes[i..if i + w <= |closes| then i + w else |closes|];
      if |window| < w {
        slopes := slopes + [None];
      } else {
        slopes := slopes + [Some(OlsSlope(window))];
      }
      i := i + 1;
    }
  }

  /** The nested where: 1 above the band, -1 below it, 0 inside it and 0 for a missing
      slope (a missing value compares false both ways). */
  function RegimeLabel(slope: Option<real>, th: real): (r: int)
    ensures r == 1 <==> slope.Some? && slope.value > th
    ensures r == -1 <==> slope.Some? && !(slope.value > th) && slope.value < -th
    ensures -1 <= r <= 1
  {
    if slope.Some? && slope.value > th then 1
    else if slope.Some? && slope.value < -th then -1
    else 0
  }

  /** The regime column: one label for every row, none missing. */
  function RegimeColumn(slopes: seq<Option<real>>, th: real): (col: seq<int>)
    ensures |col| == |slopes|
    ensures forall i :: 0 <= i < |slopes| ==> col[i] == RegimeLabel(slopes[i], th)
  {
    seq(|slopes|, i requires 0 <= i < |slopes| => RegimeLabel(slopes[i], th))
  }

  /** The last w-1 rows have no full window, and their regime label is 0 rather than
      missing. */
  lemma {:induction false} RegimeOfShortWindowIsFlat(closes: seq<real>, w: nat, i: nat, th: real)
    requires w >= 1 && i < |closes| && |closes| < i + w
    ensures RegimeLabel(SlopeAt(closes, w, i), th) == 0
  {
  }

  /** A four-hour window of closes lying on a straight line of slope s is labelled by s
      alone: up when s is above the band, down when below, flat inside it. */
  lemma {:induction false} RegimeOfStraightWindow(closes: seq<real>, w: nat, i: nat, a: real, s: real, th: real)
    requires 2 <= w && i + w <= |closes| && 0.0 <= th
    requires forall k :: i <= k < i + w ==> closes[k] == a + s * (k - i) as real
    ensures RegimeLabel(SlopeAt(closes, w, i), th) == (if s > th then 1 else if s < -th then -1 else 0)
  {
    var window := closes[i..i + w];
    forall k | 0 <= k < |window|
      ensures window[k] == a + s * k as real
    {
      assert window[k] == closes[i + k];
      assert (i + k) - i == k;
    }
    OlsSlopeOfLine(window, a, s);
  }

  /** Moving every close by the same amount leaves the slope, and so the regime, as it was. */
  lemma {:induction false} RegimeIgnoresLevel(closes: seq<real>, moved: seq<real>, c: real, w: nat, i: nat, th: real)
    requires 1 <= w && i <= |closes| && |moved| == |closes|
    requires forall k :: 0 <= k < |closes| ==> moved[k] == closes[k] + c
    ensures SlopeAt(moved, w, i) == SlopeAt(closes, w, i)
    ensures RegimeLabel(SlopeAt(moved, w, i), th) == RegimeLabel(SlopeAt(closes, w, i), th)
  {
    if i + w <= |closes| {
      var ys, zs := closes[i..i + w], moved[i..i + w];
      forall k | 0 <= k < |ys|
        ensures zs[k] == ys[k] + c + 0.0 * k as real
      {
        assert zs[k] == moved[i + k] && ys[k] == closes[i + k];
      }
      if w >= 2 {
        OlsSlopeOfAddedLine(ys, zs, c, 0.0);
      }
    }
  }

  /** Reflecting every close (negating it) reflects the regime: up becomes down and down
      becomes up, for any non-negative band. */
  lemma {:induction false} RegimeReflects(closes: seq<real>, mirrored: seq<real>, w: nat, i: nat, th: real)
    requires 1 <= w && i <= |closes| && |mirrored| == |closes| && 0.0 <= th
    requires forall k :: 0 <= k < |closes| ==> mirrored[k] == -closes[k]
    ensures RegimeLabel(SlopeAt(mirrored, w, i), th) == -RegimeLabel(SlopeAt(closes, w, i), th)
  {
    if i + w <= |closes| {
      var ys, zs := closes[i..i + w], mirrored[i..i + w];
      forall k | 0 <= k < |ys|
        ensures zs[k] == -1.0 * ys[k]
      {
        assert zs[k] == mirrored[i + k] && ys[k] == closes[i + k];
      }
      OlsSlopeOfScaled(ys, zs, -1.0);
    }
  }

  // ----- The whole table -----

  /** The four new columns of the table. */
  datatype Labels = Labels(touch: seq<Option<int>>, trend: seq<Option<int>>,
                           slope: seq<Option<real>>, regime: seq<int>)

  /** All labels with the script's parameters: 15-minute touch at +/-10 and trend,
      240-minute slope and regime with a 0.02 band. */
  method ComputeLabels(bars: seq<Bar>) returns (labels: Labels)
    ensures |labels.touch| == |labels.trend| == |labels.slope| == |labels.regime| == |bars|
    ensures forall i :: 0 <= i < |bars| ==>
      labels.touch[i] == TouchLabel(bars, i, HORIZON_MIN, TOUCH_TH)
      && labels.trend[i] == TrendLabel(bars, i, HORIZON_MIN)
      && labels.slope[i] == SlopeAt(Closes(bars), REGIME_WINDOW_MIN, i)
      && labels.regime[i] == RegimeLabel(labels.slope[i], SLOPE_TH)
  {
    var touch := TouchColumn(bars, HORIZON_MIN, TOUCH_TH);
    var slopes := SlopeColumn(Closes(bars), REGIME_WINDOW_MIN);
    labels := Labels(touch, TrendColumn(bars, HORIZON_MIN), slopes, RegimeColumn(slopes, SLOPE_TH));
  }
}
