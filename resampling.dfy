/** Aggregation of one-minute bars into 15-minute candles: every bar falls into the bin
    [k * 15 min, (k+1) * 15 min) of its timestamp; the bins run from the first bar's bin to
    the last one's, each non-empty bin gives one candle (first open, highest high, lowest
    low, last close) and empty bins are dropped. "First" and "last" are in time order: the
    table is stably sorted by timestamp before it is binned, so among bars with equal
    timestamps the one given first counts as earlier. */
module Resampling {
  import opened Series

  /** Fifteen minutes in milliseconds. */
  const BUCKET_MS: int := 900000

  /** The index of the 15-minute bin holding a millisecond timestamp. Bins are aligned to
      the epoch, which puts their edges at the same instants as bins aligned to the start
      of the first day. */
  function Bucket(ts: int): int
  {
    ts / BUCKET_MS
  }

  /** A bin is closed on the left and open on the right. */
  lemma BucketBounds(ts: int)
    ensures Bucket(ts) * BUCKET_MS <= ts < (Bucket(ts) + 1) * BUCKET_MS
  {
  }

  /** One 15-minute row: the bin index and the aggregated prices. */
  datatype Candle = Candle(bucket: int, open: real, high: real, low: real, close: real)

  /** The bars of bin b, in input order. */
  function Members(bars: seq<Bar>, b: int): (m: seq<Bar>)
    ensures |m| <= |bars|
  {
    if |bars| == 0 then []
    else (if Bucket(bars[0].timestamp) == b then [bars[0]] else []) + Members(bars[1..], b)
  }

  /** The highest high of a non-empty group. */
  function MaxHigh(ms: seq<Bar>): (h: real)
    requires |ms| > 0
    ensures forall k :: 0 <= k < |ms| ==> ms[k].high <= h
    ensures exists k :: 0 <= k < |ms| && ms[k].high == h
  {
    if |ms| == 1 then ms[0].high
    else
      var rest := MaxHigh(ms[1..]);
      assert forall k :: 1 <= k < |ms| ==> ms[k] == ms[1..][k - 1];
      if ms[0].high >= rest then ms[0].high else rest
  }

  /** The lowest low of a non-empty group. */
  function MinLow(ms: seq<Bar>): (l: real)
    requires |ms| > 0
    ensures forall k :: 0 <= k < |ms| ==> l <= ms[k].low
    ensures exists k :: 0 <= k < |ms| && ms[k].low == l
  {
    if |ms| == 1 then ms[0].low
    else
      var rest := MinLow(ms[1..]);
      assert forall k :: 1 <= k < |ms| ==> ms[k] == ms[1..][k - 1];
      if ms[0].low <= rest then ms[0].low else rest
  }

  /** The position of the earliest bar of a non-empty group: the smallest timestamp, and
      the first such bar among equal ones. */
  function Earliest(ms: seq<Bar>): (k: nat)
    requires |ms| > 0
    ensures k < |ms|
    ensures forall j :: 0 <= j < |ms| ==> ms[k].timestamp <= ms[j].timestamp
    ensures forall j :: 0 <= j < k ==> ms[k].timestamp < ms[j].timestamp
  {
    if |ms| == 1 then 0
    else
      var r := Earliest(ms[1..]) + 1;
      assert forall j :: 1 <= j < |ms| ==> ms[j] == ms[1..][j - 1];
      if ms[0].timestamp <= ms[r].timestamp then 0 else r
  }

  /** The position of the latest bar of a non-empty group: the largest timestamp, and the
      last such bar among equal ones. */
  function Latest(ms: seq<Bar>): (k: nat)
    requires |ms| > 0
    ensures k < |ms|
    ensures forall j :: 0 <= j < |ms| ==> ms[j].timestamp <= ms[k].timestamp
    ensures forall j :: k < j < |ms| ==> ms[j].timestamp < ms[k].timestamp
  {
    if |ms| == 1 then 0
    else
      var r := Latest(ms[1..]) + 1;
      assert forall j :: 1 <= j < |ms| ==> ms[j] == ms[1..][j - 1];
      if ms[0].timestamp > ms[r].timestamp then 0 else r
  }

  /** first / max / min / last of the group. */
  function Aggregate(b: int, ms: seq<Bar>): (c: Candle)
    requires |ms| > 0
    ensures c.bucket == b && c.open == ms[Earliest(ms)].open && c.close == ms[Latest(ms)].close
    ensures forall k :: 0 <= k < |ms| ==> c.low <= ms[k].low && ms[k].high <= c.high
    ensures exists k :: 0 <= k < |ms| && ms[k].high == c.high
    ensures exists k :: 0 <= k < |ms| && ms[k].low == c.low
  {
    Candle(b, ms[Earliest(ms)].open, MaxHigh(ms), MinLow(ms), ms[Latest(ms)].close)
  }

  /** Timestamps never decrease along the sequence. */
  predicate TimeOrdered(bars: seq<Bar>)
  {
    forall i, j :: 0 <= i < j < |bars| ==> bars[i].timestamp <= bars[j].timestamp
  }

  /** For a group already in time order, the first and last bars are the earliest and the
      latest. */
  lemma {:induction false} OrderedGroupEnds(ms: seq<Bar>)
    requires |ms| > 0 && TimeOrdered(ms)
    ensures Earliest(ms) == 0 && Latest(ms) == |ms| - 1
  {
    assert forall j :: 0 <= j < |ms| ==> ms[0].timestamp <= ms[j].timestamp;
    assert forall j :: 0 <= j < |ms| ==> ms[j].timestamp <= ms[|ms| - 1].timestamp;
  }

  /** The bars of one bin keep the order of the table. */
  lemma {:induction false} MembersOrdered(bars: seq<Bar>, b: int)
    requires TimeOrdered(bars)
    ensures TimeOrdered(Members(bars, b))
  {
    if |bars| > 0 {
      var rest := bars[1..];
      assert TimeOrdered(rest);
      MembersOrdered(rest, b);
      MembersAreBars(rest, b);
      var m := Members(bars, b);
      if Bucket(bars[0].timestamp) == b {
        assert m == [bars[0]] + Members(rest, b);
        forall i, j | 0 <= i < j < |m|
          ensures m[i].timestamp <= m[j].timestamp
        {
          if i == 0 {
            assert m[j] in rest;
          }
        }
      }
    }
  }

  /** On a table in time order, each candle opens at its bin's first bar and closes at its
      last one. */
  lemma {:induction false} OrderedCandleEnds(bars: seq<Bar>, k: nat)
    requires TimeOrdered(bars) && k < |Resample(bars)|
    ensures var ms := Members(bars, Resample(bars)[k].bucket);
      Resample(bars)[k].open == ms[0].open && Resample(bars)[k].close == ms[|ms| - 1].close
  {
    var r := Resample(bars);
    var b := r[k].bucket;
    var ms := Members(bars, b);
    assert b == Bins(bars)[k];
    assert r[k] == Aggregate(b, ms);
    MembersOrdered(bars, b);
    OrderedGroupEnds(ms);
  }

  /** The earliest bin of a non-empty table. */
  function FirstBucket(bars: seq<Bar>): (lo: int)
    requires |bars| > 0
    ensures forall i :: 0 <= i < |bars| ==> lo <= Bucket(bars[i].timestamp)
  {
    if |bars| == 1 then Bucket(bars[0].timestamp)
    else
      var rest := FirstBucket(bars[1..]);
      assert forall i :: 1 <= i < |bars| ==> bars[i] == bars[1..][i - 1];
      if Bucket(bars[0].timestamp) <= rest then Bucket(bars[0].timestamp) else rest
  }

  /** The latest bin of a non-empty table. */
  function LastBucket(bars: seq<Bar>): (hi: int)
    requires |bars| > 0
    ensures forall i :: 0 <= i < |bars| ==> Bucket(bars[i].timestamp) <= hi
  {
    if |bars| == 1 then Bucket(bars[0].timestamp)
    else
      var rest := LastBucket(bars[1..]);
      assert forall i :: 1 <= i < |bars| ==> bars[i] == bars[1..][i - 1];
      if Bucket(bars[0].timestamp) >= rest then Bucket(bars[0].timestamp) else rest
  }

  /** Every member of bin b has its timestamp in bin b. */
  lemma {:induction false} MembersInBin(bars: seq<Bar>, b: int)
    ensures forall k :: 0 <= k < |Members(bars, b)| ==> Bucket(Members(bars, b)[k].timestamp) == b
  {
    if |bars| > 0 {
      MembersInBin(bars[1..], b);
    }
  }

  /** The bin of any bar has at least that bar as a member. */
  lemma {:induction false} MembersOfOwnBin(bars: seq<Bar>, i: nat)
    requires i < |bars|
    ensures |Members(bars, Bucket(bars[i].timestamp))| > 0
  {
    if i > 0 {
      MembersOfOwnBin(bars[1..], i - 1);
      assert bars[1..][i - 1] == bars[i];
    }
  }

  /** The bins among b..hi that hold at least one bar, in increasing order. */
  function NonEmptyBins(bars: seq<Bar>, b: int, hi: int): (ks: seq<int>)
    decreases if b <= hi then hi - b + 1 else 0
    ensures forall k :: 0 <= k < |ks| ==> b <= ks[k] <= hi && |Members(bars, ks[k])| > 0
    ensures forall k, l :: 0 <= k < l < |ks| ==> ks[k] < ks[l]
  {
    if b > hi then []
    else (if |Members(bars, b)| > 0 then [b] else []) + NonEmptyBins(bars, b + 1, hi)
  }

  /** The bins of the 15-minute table: from the first bar's bin to the last one's, the
      empty ones dropped. */
  function Bins(bars: seq<Bar>): (ks: seq<int>)
    ensures forall k :: 0 <= k < |ks| ==> |Members(bars, ks[k])| > 0
    ensures forall k, l :: 0 <= k < l < |ks| ==> ks[k] < ks[l]
  {
    if |bars| == 0 then [] else NonEmptyBins(bars, FirstBucket(bars), LastBucket(bars))
  }

  /** The 15-minute table: one candle per non-empty bin, in increasing bin order, each the
      first/max/min/last of the bars of its bin. */
  function Resample(bars: seq<Bar>): (r: seq<Candle>)
    ensures |r| == |Bins(bars)|
    ensures forall k, l :: 0 <= k < l < |r| ==> r[k].bucket < r[l].bucket
    ensures forall k :: 0 <= k < |r| ==>
      r[k].bucket == Bins(bars)[k] && r[k] == Aggregate(Bins(bars)[k], Members(bars, Bins(bars)[k]))
  {
    var ks := Bins(bars);
    seq(|ks|, k requires 0 <= k < |ks| => Aggregate(ks[k], Members(bars, ks[k])))
  }

  /** Every non-empty bin in b..hi is listed. */
  lemma {:induction false} NonEmptyBinsComplete(bars: seq<Bar>, b: int, hi: int, x: int)
    requires b <= x <= hi && |Members(bars, x)| > 0
    ensures x in NonEmptyBins(bars, b, hi)
    decreases hi - b
  {
    if x > b {
      NonEmptyBinsComplete(bars, b + 1, hi, x);
    }
  }

  /** No bar is lost: the bin of every bar has a row of the 15-minute table. */
  lemma {:induction false} ResampleComplete(bars: seq<Bar>, i: nat)
    requires i < |bars|
    ensures exists k :: 0 <= k < |Resample(bars)| && Resample(bars)[k].bucket == Bucket(bars[i].timestamp)
  {
    var x := Bucket(bars[i].timestamp);
    MembersOfOwnBin(bars, i);
    NonEmptyBinsComplete(bars, FirstBucket(bars), LastBucket(bars), x);
    var k :| 0 <= k < |Bins(bars)| && Bins(bars)[k] == x;
    assert Resample(bars)[k].bucket == x;
  }

  /** Every row comes from at least one bar of its own bin. */
  lemma {:induction false} ResampleSound(bars: seq<Bar>, k: nat)
    requires k < |Resample(bars)|
    ensures exists i :: 0 <= i < |bars| && Bucket(bars[i].timestamp) == Resample(bars)[k].bucket
  {
    var b := Bins(bars)[k];
    var ms := Members(bars, b);
    MembersInBin(bars, b);
    MembersAreBars(bars, b);
    var i :| 0 <= i < |bars| && bars[i] == ms[0];
  }

  lemma {:induction false} MembersAreBars(bars: seq<Bar>, b: int)
    ensures forall k :: 0 <= k < |Members(bars, b)| ==> Members(bars, b)[k] in bars
  {
    if |bars| > 0 {
      MembersAreBars(bars[1..], b);
    }
  }

  /** Every bar of bin b is a member of it. */
  lemma {:induction false} MembersComplete(bars: seq<Bar>, b: int, i: nat)
    requires i < |bars| && Bucket(bars[i].timestamp) == b
    ensures bars[i] in Members(bars, b)
  {
    if i > 0 {
      MembersComplete(bars[1..], b, i - 1);
      assert bars[1..][i - 1] == bars[i];
    }
  }

  /** A candle's high and low bound every bar of its bin, not only the ones it was built
      from. */
  lemma {:induction false} CandleBoundsBinBars(bars: seq<Bar>, k: nat, i: nat)
    requires k < |Resample(bars)| && i < |bars|
    requires Bucket(bars[i].timestamp) == Resample(bars)[k].bucket
    ensures Resample(bars)[k].low <= bars[i].low && bars[i].high <= Resample(bars)[k].high
  {
    var b := Resample(bars)[k].bucket;
    var ms := Members(bars, b);
    assert Resample(bars)[k] == Aggregate(b, ms);
    MembersComplete(bars, b, i);
    var m :| 0 <= m < |ms| && ms[m] == bars[i];
  }

  /** A candle opens at the open of a bar of its bin whose timestamp is the smallest in the
      bin. */
  lemma {:induction false} CandleOpensAtEarliest(bars: seq<Bar>, k: nat)
    requires k < |Resample(bars)|
    ensures exists j :: (0 <= j < |bars| && Bucket(bars[j].timestamp) == Resample(bars)[k].bucket
      && bars[j].open == Resample(bars)[k].open
      && forall i :: 0 <= i < |bars| && Bucket(bars[i].timestamp) == Resample(bars)[k].bucket ==>
           bars[j].timestamp <= bars[i].timestamp)
  {
    var b := Resample(bars)[k].bucket;
    var ms := Members(bars, b);
    assert b == Bins(bars)[k];
    assert Resample(bars)[k] == Aggregate(b, ms);
    var e := Earliest(ms);
    MembersAreBars(bars, b);
    MembersInBin(bars, b);
    var j :| 0 <= j < |bars| && bars[j] == ms[e];
    forall i | 0 <= i < |bars| && Bucket(bars[i].timestamp) == b
      ensures bars[j].timestamp <= bars[i].timestamp
    {
      MembersComplete(bars, b, i);
      var m :| 0 <= m < |ms| && ms[m] == bars[i];
    }
  }

  /** A candle closes at the close of a bar of its bin whose timestamp is the largest in
      the bin. */
  lemma {:induction false} CandleClosesAtLatest(bars: seq<Bar>, k: nat)
    requires k < |Resample(bars)|
    ensures exists j :: (0 <= j < |bars| && Bucket(bars[j].timestamp) == Resample(bars)[k].bucket
      && bars[j].close == Resample(bars)[k].close
      && forall i :: 0 <= i < |bars| && Bucket(bars[i].timestamp) == Resample(bars)[k].bucket ==>
           bars[i].timestamp <= bars[j].timestamp)
  {
    var b := Resample(bars)[k].bucket;
    var ms := Members(bars, b);
    assert b == Bins(bars)[k];
    assert Resample(bars)[k] == Aggregate(b, ms);
    var e := Latest(ms);
    MembersAreBars(bars, b);
    MembersInBin(bars, b);
    var j :| 0 <= j < |bars| && bars[j] == ms[e];
    forall i | 0 <= i < |bars| && Bucket(bars[i].timestamp) == b
      ensures bars[i].timestamp <= bars[j].timestamp
    {
      MembersComplete(bars, b, i);
      var m :| 0 <= m < |ms| && ms[m] == bars[i];
    }
  }

  /** The number of bars whose bin lies in lo..hi. */
  function BarsBetween(bars: seq<Bar>, lo: int, hi: int): (n: nat)
    ensures n <= |bars|
  {
    if |bars| == 0 then 0
    else (if lo <= Bucket(bars[0].timestamp) <= hi then 1 else 0) + BarsBetween(bars[1..], lo, hi)
  }

  /** The bars of bins b..hi are those of bin b and those of bins b+1..hi. */
  lemma {:induction false} BarsBetweenSplit(bars: seq<Bar>, b: int, hi: int)
    requires b <= hi
    ensures BarsBetween(bars, b, hi) == |Members(bars, b)| + BarsBetween(bars, b + 1, hi)
  {
    if |bars| > 0 {
      BarsBetweenSplit(bars[1..], b, hi);
    }
  }

  /** Each listed bin holds a bar of its own, so there are no more bins than bars. */
  lemma {:induction false} NonEmptyBinsNoMore(bars: seq<Bar>, b: int, hi: int)
    ensures |NonEmptyBins(bars, b, hi)| <= BarsBetween(bars, b, hi)
    decreases if b <= hi then hi - b + 1 else 0
  {
    if b <= hi {
      NonEmptyBinsNoMore(bars, b + 1, hi);
      BarsBetweenSplit(bars, b, hi);
    }
  }

  /** Empty bins are never emitted, so the 15-minute table is no longer than the bars. */
  lemma {:induction false} ResampleNoLonger(bars: seq<Bar>)
    ensures |Resample(bars)| <= |bars|
  {
    if |bars| > 0 {
      NonEmptyBinsNoMore(bars, FirstBucket(bars), LastBucket(bars));
    }
  }

  /** A candle whose open and close lie between its low and its high. */
  predicate WellFormedCandle(c: Candle)
  {
    c.low <= c.open <= c.high && c.low <= c.close <= c.high
  }

  /** Aggregating well-formed bars gives well-formed candles. */
  lemma {:induction false} ResamplePreservesWellFormed(bars: seq<Bar>)
    requires forall i :: 0 <= i < |bars| ==> WellFormedBar(bars[i])
    ensures forall k :: 0 <= k < |Resample(bars)| ==> WellFormedCandle(Resample(bars)[k])
  {
    var r := Resample(bars);
    forall k | 0 <= k < |r|
      ensures WellFormedCandle(r[k])
    {
      var ms := Members(bars, r[k].bucket);
      MembersWellFormed(bars, r[k].bucket);
      assert WellFormedBar(ms[0]) && WellFormedBar(ms[|ms| - 1]);
    }
  }

  lemma {:induction false} MembersWellFormed(bars: seq<Bar>, b: int)
    requires forall i :: 0 <= i < |bars| ==> WellFormedBar(bars[i])
    ensures forall k :: 0 <= k < |Members(bars, b)| ==> WellFormedBar(Members(bars, b)[k])
  {
    if |bars| > 0 {
      MembersWellFormed(bars[1..], b);
    }
  }
}
