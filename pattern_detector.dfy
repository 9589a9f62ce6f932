/** The "up, up, down" study on 15-minute candles: a candle is a pattern candle when the
    close has risen more than 0.095% over the two previous candles, the previous candle
    closed above its open, and the candle itself closes below its open; the profit target
    is hit when the next candle's high lies at least 10 above the close. The report gives
    the number of pattern candles, the share of them that hit the target, the share of all
    candles that hit it, the number of candles and the share of pattern candles. */
module PatternDetector {
  import opened Series
  import opened Resampling

  /** The rise over two candles that counts as an uptrend, as a fraction of the old close. */
  const PCT_UPTREND_TH: real := 0.00095
  /** The profit target, in price units. */
  const DELTA_PRICE: real := 10.0

  /** A candle that closes above its open. */
  predicate MaUptrend(c: Candle)
  {
    c.close > c.open
  }

  /** The relative change of the close from two candles back exceeds the threshold. Before
      the third candle the change is undefined and the test fails. A zero old close makes
      the quotient an infinity of the sign of the new close (or undefined when both are
      zero), so the test then holds exactly when the new close is positive. */
  function PctUptrend(cs: seq<Candle>, t: nat): (u: bool)
    requires t < |cs|
    ensures u ==> 2 <= t
  {
    if t < 2 then false
    else if cs[t - 2].close == 0.0 then cs[t].close > 0.0
    else (cs[t].close - cs[t - 2].close) / cs[t - 2].close > PCT_UPTREND_TH
  }

  /** Up over two candles, an up candle just before, and a down candle now. The shifted
      test of the first candle has no previous candle and fails. */
  function Pattern(cs: seq<Candle>, t: nat): (p: bool)
    requires t < |cs|
  {
    PctUptrend(cs, t) && 1 <= t && MaUptrend(cs[t - 1]) && cs[t].close < cs[t].open
  }

  /** The next candle's high is at least the target above this close; the last candle has
      no next one and never hits. */
  function ProfitHit(cs: seq<Candle>, t: nat): (h: bool)
    requires t < |cs|
    ensures h ==> t + 1 < |cs|
  {
    t + 1 < |cs| && cs[t + 1].high - cs[t].close >= DELTA_PRICE
  }

  /** The pattern flag of every candle. */
  function PatternColumn(cs: seq<Candle>): (col: seq<bool>)
    ensures |col| == |cs|
    ensures forall t :: 0 <= t < |cs| ==> col[t] == Pattern(cs, t)
  {
    seq(|cs|, t requires 0 <= t < |cs| => Pattern(cs, t))
  }

  /** The profit-target flag of every candle. */
  function HitColumn(cs: seq<Candle>): (col: seq<bool>)
    ensures |col| == |cs|
    ensures forall t :: 0 <= t < |cs| ==> col[t] == ProfitHit(cs, t)
    ensures |cs| > 0 ==> !col[|cs| - 1]
  {
    seq(|cs|, t requires 0 <= t < |cs| => ProfitHit(cs, t))
  }

  /** The number of true flags. */
  function CountTrue(s: seq<bool>): (n: nat)
    ensures n <= |s|
  {
    if |s| == 0 then 0 else (if s[0] then 1 else 0) + CountTrue(s[1..])
  }

  /** The values of col on the rows where keep holds, in row order. */
  function Select(col: seq<bool>, keep: seq<bool>): (r: seq<bool>)
    requires |col| == |keep|
    ensures |r| == CountTrue(keep)
  {
    if |col| == 0 then []
    else (if keep[0] then [col[0]] else []) + Select(col[1..], keep[1..])
  }

  /** The rows flagged in both columns. */
  function And(col: seq<bool>, keep: seq<bool>): (r: seq<bool>)
    requires |col| == |keep|
    ensures |r| == |col|
    ensures forall i :: 0 <= i < |col| ==> r[i] == (col[i] && keep[i])
  {
    seq(|col|, i requires 0 <= i < |col| => col[i] && keep[i])
  }

  /** Filtering col by keep keeps one true value for every row flagged in both. */
  lemma {:induction false} SelectCount(col: seq<bool>, keep: seq<bool>)
    requires |col| == |keep|
    ensures CountTrue(Select(col, keep)) == CountTrue(And(col, keep))
  {
    if |col| > 0 {
      SelectCount(col[1..], keep[1..]);
      assert And(col, keep)[1..] == And(col[1..], keep[1..]);
      CountTrueAppend(if keep[0] then [col[0]] else [], Select(col[1..], keep[1..]));
    }
  }

  /** The complementary row mask. */
  function Negate(keep: seq<bool>): (r: seq<bool>)
    ensures |r| == |keep|
    ensures forall i :: 0 <= i < |keep| ==> r[i] == !keep[i]
  {
    seq(|keep|, i requires 0 <= i < |keep| => !keep[i])
  }

  /** The mean of a flag column: the share of true flags, undefined for an empty column. */
  function Mean(col: seq<bool>): (m: Option<real>)
    ensures m.None? <==> |col| == 0
    ensures m.Some? ==> 0.0 <= m.value <= 1.0 && m.value * |col| as real == CountTrue(col) as real
  {
    Fraction(CountTrue(col), |col|)
  }

  /** What the study reports. */
  datatype Report = Report(
    patterns: nat,
    successRate: Option<real>,
    generalRate: Option<real>,
    total: nat,
    frequency: Option<real>)

  /** The study over a table of 15-minute candles. Dividing the pattern count by an empty
      table's length is a division by zero; that frequency is None. */
  function Analyze(cs: seq<Candle>): (r: Report)
    ensures r.total == |cs| && r.patterns <= r.total
    ensures r.successRate.None? <==> r.patterns == 0
    ensures r.generalRate.None? <==> r.total == 0
    ensures r.frequency.None? <==> r.total == 0
    ensures r.successRate.Some? ==> 0.0 <= r.successRate.value <= 1.0
    ensures r.generalRate.Some? ==> 0.0 <= r.generalRate.value <= 1.0
    ensures r.frequency.Some? ==>
      0.0 <= r.frequency.value <= 1.0 && r.frequency.value * r.total as real == r.patterns as real
    ensures r.patterns == CountTrue(PatternColumn(cs))
  {
    var pattern := PatternColumn(cs);
    var hit := HitColumn(cs);
    var patternHits := Select(hit, pattern);
    Report(|patternHits|, Mean(patternHits), Mean(hit), |cs|, Fraction(|patternHits|, |cs|))
  }

  /** The success rate is the number of candles flagged both pattern and hit over the
      number of pattern candles; the general rate is the number of hits over the number of
      candles. */
  lemma {:induction false} AnalyzeRates(cs: seq<Candle>)
    ensures Analyze(cs).successRate.Some? ==>
      Analyze(cs).successRate.value
        == CountTrue(And(HitColumn(cs), PatternColumn(cs))) as real / Analyze(cs).patterns as real
    ensures Analyze(cs).generalRate.Some? ==>
      Analyze(cs).generalRate.value == CountTrue(HitColumn(cs)) as real / Analyze(cs).total as real
  {
    SelectCount(HitColumn(cs), PatternColumn(cs));
  }

  /** The whole study from one-minute bars: resample, then analyse. */
  function AnalyzeMinuteBars(bars: seq<Bar>): (r: Report)
    ensures r.total == |Bins(bars)| && r.patterns <= r.total
  {
    Analyze(Resample(bars))
  }

  /** Some candle is analysed exactly when some bar is given. */
  lemma {:induction false} MinuteBarsGiveCandles(bars: seq<Bar>)
    ensures AnalyzeMinuteBars(bars).total == 0 <==> |bars| == 0
  {
    if |bars| > 0 {
      ResampleComplete(bars, 0);
    }
  }

  /** CountTrue adds up over concatenation. */
  lemma {:induction false} CountTrueAppend(a: seq<bool>, b: seq<bool>)
    ensures CountTrue(a + b) == CountTrue(a) + CountTrue(b)
  {
    if |a| > 0 {
      assert (a + b)[0] == a[0];
      assert (a + b)[1..] == a[1..] + b;
      CountTrueAppend(a[1..], b);
    } else {
      assert a + b == b;
    }
  }

  /** Every hit is either on a pattern row or on another row: the general hit count is the
      sum of the hits among pattern rows and among the others. */
  lemma {:induction false} HitsSplitByPattern(col: seq<bool>, keep: seq<bool>)
    requires |col| == |keep|
    ensures CountTrue(Select(col, keep)) + CountTrue(Select(col, Negate(keep))) == CountTrue(col)
  {
    if |col| > 0 {
      assert Negate(keep)[1..] == Negate(keep[1..]);
      HitsSplitByPattern(col[1..], keep[1..]);
      CountTrueAppend(if keep[0] then [col[0]] else [], Select(col[1..], keep[1..]));
      CountTrueAppend(if !keep[0] then [col[0]] else [], Select(col[1..], Negate(keep)[1..]));
    }
  }

  /** With a positive old close, the relative-change test is the same as the new close
      exceeding the old one scaled by 1 + threshold. */
  lemma RatioAbove(x: real, p: real, th: real)
    requires p > 0.0
    ensures (x - p) / p > th <==> x > p * (1.0 + th)
  {
    assert (x - p) / p * p == x - p;
  }

  /** A pattern candle closes above the close two candles back, raised by the threshold,
      when that close is positive; and it follows an up candle and is a down candle. */
  lemma {:induction false} PatternShape(cs: seq<Candle>, t: nat)
    requires t < |cs| && Pattern(cs, t)
    ensures 2 <= t && cs[t - 1].close > cs[t - 1].open && cs[t].close < cs[t].open
    ensures cs[t - 2].close > 0.0 ==> cs[t].close > cs[t - 2].close * (1.0 + PCT_UPTREND_TH)
  {
    if cs[t - 2].close > 0.0 {
      RatioAbove(cs[t].close, cs[t - 2].close, PCT_UPTREND_TH);
    }
  }

  /** No two adjacent true flags. */
  predicate NoAdjacent(s: seq<bool>)
  {
    forall i :: 0 <= i < |s| - 1 ==> !(s[i] && s[i + 1])
  }

  /** A column without adjacent true flags has at most ceil(n / 2) of them. */
  lemma {:induction false} NoAdjacentCount(s: seq<bool>)
    requires NoAdjacent(s)
    ensures 2 * CountTrue(s) <= |s| + 1
    decreases |s|
  {
    if |s| >= 2 {
      assert NoAdjacent(s[1..]);
      assert NoAdjacent(s[2..]);
      assert s[1..][1..] == s[2..];
      if s[0] {
        NoAdjacentCount(s[2..]);
      } else {
        NoAdjacentCount(s[1..]);
      }
    }
  }

  /** A pattern candle is a down candle and the next pattern needs an up candle just
      before it, so two pattern candles are never adjacent; with none among the first two
      candles, at most (n - 1) / 2 of n candles are pattern candles. */
  lemma {:induction false} PatternsAreSparse(cs: seq<Candle>)
    requires |cs| >= 1
    ensures 2 * Analyze(cs).patterns <= |cs| - 1
  {
    var col := PatternColumn(cs);
    forall i | 0 <= i < |col| - 1
      ensures !(col[i] && col[i + 1])
    {
      if col[i] {
        PatternShape(cs, i);
      }
    }
    if |cs| >= 2 {
      assert col == col[..2] + col[2..];
      CountTrueAppend(col[..2], col[2..]);
      assert !col[0] && !col[1];
      assert CountTrue(col[..2]) == 0;
      assert NoAdjacent(col[2..]);
      NoAdjacentCount(col[2..]);
    } else {
      assert !col[0];
    }
  }

  /** The hits after a pattern are among all hits, so the pattern's success count never
      exceeds the general one. */
  lemma {:induction false} PatternHitsAmongAllHits(cs: seq<Candle>)
    ensures var hit := HitColumn(cs);
      CountTrue(Select(hit, PatternColumn(cs))) <= CountTrue(hit)
  {
    HitsSplitByPattern(HitColumn(cs), PatternColumn(cs));
  }

  /** Four candles: the third rises 1% over the first, follows an up candle and is a down
      candle, and the fourth's high is 11 above its close; it is the only pattern and the
      only hit. */
  lemma AnalyzeExample()
    ensures Analyze([Candle(0, 99.0, 100.0, 99.0, 100.0), Candle(1, 100.0, 101.0, 100.0, 101.0),
                     Candle(2, 102.0, 102.0, 100.0, 101.0), Candle(3, 105.0, 112.0, 105.0, 111.0)])
      == Report(1, Some(1.0), Some(0.25), 4, Some(0.25))
  {
    var cs := [Candle(0, 99.0, 100.0, 99.0, 100.0), Candle(1, 100.0, 101.0, 100.0, 101.0),
               Candle(2, 102.0, 102.0, 100.0, 101.0), Candle(3, 105.0, 112.0, 105.0, 111.0)];
    assert !Pattern(cs, 3);
    assert PatternColumn(cs) == [false, false, true, false];
    assert HitColumn(cs) == [false, false, true, false];
    var hit := [false, false, true, false];
    assert Select(hit[3..], [false]) == [];
    assert Select(hit[2..], [true, false]) == [true];
    assert Select(hit, [false, false, true, false]) == [true];
    assert CountTrue(hit[3..]) == 0;
    assert CountTrue(hit[2..]) == 1;
    assert CountTrue(hit) == 1;
  }
}
