/** The two summaries printed for every label column: the count of present labels with
    the share of up, down and flat labels among them, and the average length of a run of
    equal consecutive labels. Both first drop the missing labels, so a run can continue
    across a gap. */
module LabelSummary {
  import opened Series
  import LabelEngine

  /** The present labels, in order (pandas' dropna). */
  function Dropna(labels: seq<Option<int>>): (s: seq<int>)
    ensures |s| <= |labels|
    ensures |s| == 0 <==> forall i :: 0 <= i < |labels| ==> labels[i].None?
  {
    if |labels| == 0 then []
    else (if labels[0].Some? then [labels[0].value] else []) + Dropna(labels[1..])
  }

  /** Exactly the present values survive. */
  lemma {:induction false} DropnaKeepsPresentValues(labels: seq<Option<int>>)
    ensures forall x :: x in Dropna(labels) <==> Some(x) in labels
  {
    if |labels| > 0 {
      DropnaKeepsPresentValues(labels[1..]);
      assert labels == [labels[0]] + labels[1..];
    }
  }

  /** Dropping missing labels commutes with concatenation. */
  lemma {:induction false} DropnaAppend(a: seq<Option<int>>, b: seq<Option<int>>)
    ensures Dropna(a + b) == Dropna(a) + Dropna(b)
  {
    if |a| > 0 {
      assert (a + b)[1..] == a[1..] + b;
      DropnaAppend(a[1..], b);
    } else {
      assert a + b == b;
    }
  }

  /** A column present on exactly its first m rows keeps exactly those m labels. */
  lemma {:induction false} DropnaOfPresentPrefix(labels: seq<Option<int>>, m: nat)
    requires m <= |labels|
    requires forall i :: 0 <= i < |labels| ==> (labels[i].Some? <==> i < m)
    ensures |Dropna(labels)| == m
    ensures forall i :: 0 <= i < m ==> Dropna(labels)[i] == labels[i].value
  {
    if |labels| > 0 {
      var rest := labels[1..];
      if m > 0 {
        DropnaOfPresentPrefix(rest, m - 1);
        forall i | 1 <= i < m
          ensures Dropna(labels)[i] == labels[i].value
        {
          assert Dropna(labels)[i] == Dropna(rest)[i - 1];
          assert rest[i - 1] == labels[i];
        }
      } else {
        DropnaOfPresentPrefix(rest, 0);
      }
    }
  }

  /** The number of present labels is the number of rows holding a value, counted over
      the first n rows. */
  lemma {:induction false} PresentRowsCounted(labels: seq<Option<int>>, n: nat)
    requires n <= |labels|
    ensures |Dropna(labels[..n])| == |set i | 0 <= i < n && labels[i].Some?|
  {
    if n == 0 {
      assert labels[..0] == [];
    } else {
      PresentRowsCounted(labels, n - 1);
      assert labels[..n] == labels[..n - 1] + [labels[n - 1]];
      DropnaAppend(labels[..n - 1], [labels[n - 1]]);
      assert [labels[n - 1]][1..] == [];
      var before := set i | 0 <= i < n - 1 && labels[i].Some?;
      if labels[n - 1].Some? {
        assert (set i | 0 <= i < n && labels[i].Some?) == before + {n - 1};
      } else {
        assert (set i | 0 <= i < n && labels[i].Some?) == before;
      }
    }
  }

  /** A summary counts exactly the rows that hold a label. */
  lemma {:induction false} SummaryCountsPresentRows(labels: seq<Option<int>>)
    ensures Summarize(labels).count == |set i | 0 <= i < |labels| && labels[i].Some?|
  {
    PresentRowsCounted(labels, |labels|);
    assert labels[..|labels|] == labels;
  }

  /** How many times v occurs in s (the numerator of `(s == v).mean()`). */
  function CountOf(s: seq<int>, v: int): (c: nat)
    ensures c <= |s|
    ensures c == 0 <==> v !in s
  {
    if |s| == 0 then 0 else (if s[0] == v then 1 else 0) + CountOf(s[1..], v)
  }

  /** When every label is -1, 0 or 1, the three counts split the column. */
  lemma {:induction false} CountsPartition(s: seq<int>)
    requires forall k :: 0 <= k < |s| ==> -1 <= s[k] <= 1
    ensures CountOf(s, 1) + CountOf(s, -1) + CountOf(s, 0) == |s|
  {
    if |s| > 0 {
      CountsPartition(s[1..]);
    }
  }

  /** The summary of one label column. */
  datatype Summary = Summary(count: nat, pctUp: Option<real>, pctDown: Option<real>, pctFlat: Option<real>)

  /** Count of present labels and the share of 1, -1 and 0 among them; the shares are
      missing when no label is present. */
  function Summarize(labels: seq<Option<int>>): (r: Summary)
    ensures r.count <= |labels|
    ensures r.count == 0 <==> forall i :: 0 <= i < |labels| ==> labels[i].None?
    ensures r.count == 0 <==> r.pctUp.None? && r.pctDown.None? && r.pctFlat.None?
    ensures r.count == |Dropna(labels)|
  {
    var s := Dropna(labels);
    Summary(|s|, Fraction(CountOf(s, 1), |s|), Fraction(CountOf(s, -1), |s|), Fraction(CountOf(s, 0), |s|))
  }

  /** The share of a summary that belongs to label v: up for 1, down for -1, flat for 0. */
  function ShareOf(r: Summary, v: int): Option<real>
  {
    if v == 1 then r.pctUp else if v == -1 then r.pctDown else r.pctFlat
  }

  /** Each share is the number of present labels of its class over the number of present
      labels. */
  lemma {:induction false} SharesAreClassCounts(labels: seq<Option<int>>, v: int)
    requires -1 <= v <= 1
    ensures ShareOf(Summarize(labels), v).Some? ==>
      ShareOf(Summarize(labels), v).value == CountOf(Dropna(labels), v) as real / Summarize(labels).count as real
  {
  }

  /** For a column of -1/0/1 labels with at least one present, the three shares lie in
      [0, 1] and add up to 1. */
  lemma {:induction false} SharesSumToOne(labels: seq<Option<int>>)
    requires forall i :: 0 <= i < |labels| && labels[i].Some? ==> -1 <= labels[i].value <= 1
    requires exists i :: 0 <= i < |labels| && labels[i].Some?
    ensures Summarize(labels).pctUp.Some? && Summarize(labels).pctDown.Some? && Summarize(labels).pctFlat.Some?
    ensures Summarize(labels).pctUp.value + Summarize(labels).pctDown.value + Summarize(labels).pctFlat.value == 1.0
    ensures 0.0 <= Summarize(labels).pctUp.value <= 1.0
    ensures 0.0 <= Summarize(labels).pctDown.value <= 1.0
    ensures 0.0 <= Summarize(labels).pctFlat.value <= 1.0
  {
    var s := Dropna(labels);
    PresentLabelsInRange(labels);
    CountsPartition(s);
    SharesOfPartition(CountOf(s, 1) as real, CountOf(s, -1) as real, CountOf(s, 0) as real, |s| as real);
  }

  lemma {:induction false} PresentLabelsInRange(labels: seq<Option<int>>)
    requires forall i :: 0 <= i < |labels| && labels[i].Some? ==> -1 <= labels[i].value <= 1
    ensures forall k :: 0 <= k < |Dropna(labels)| ==> -1 <= Dropna(labels)[k] <= 1
  {
    if |labels| > 0 {
      var rest := labels[1..];
      assert forall i :: 0 <= i < |rest| && rest[i].Some? ==> -1 <= rest[i].value <= 1 by {
        forall i | 0 <= i < |rest| && rest[i].Some?
          ensures -1 <= rest[i].value <= 1
        {
          assert rest[i] == labels[i + 1];
        }
      }
      PresentLabelsInRange(rest);
    }
  }

  lemma SharesOfPartition(up: real, down: real, flat: real, n: real)
    requires n > 0.0 && up + down + flat == n
    ensures up / n + down / n + flat / n == 1.0
  {
    assert up / n + down / n + flat / n == (up + down + flat) / n;
  }

  /** The touch column keeps one label per row that has a full horizon after it. */
  lemma {:induction false} TouchCount(bars: seq<Bar>, h: nat, th: real, col: seq<Option<int>>)
    requires |col| == |bars|
    requires forall i :: 0 <= i < |bars| ==> col[i] == LabelEngine.TouchLabel(bars, i, h, th)
    ensures Summarize(col).count == if h < |bars| then |bars| - h else 0
  {
    var m := if h < |bars| then |bars| - h else 0;
    DropnaOfPresentPrefix(col, m);
  }

  /** The regime column has no missing label, so every row is counted. */
  lemma {:induction false} RegimeCount(regime: seq<int>)
    ensures Summarize(seq(|regime|, i requires 0 <= i < |regime| => Some(regime[i]))).count == |regime|
  {
    DropnaOfPresentPrefix(seq(|regime|, i requires 0 <= i < |regime| => Some(regime[i])), |regime|);
  }

  lemma SummarizeExample()
    ensures Summarize([Some(1), Some(1), Some(-1), None, Some(0)]) == Summary(4, Some(0.5), Some(0.25), Some(0.25))
  {
    var l4 := [Some(0)];
    var l3 := [None] + l4;
    var l2 := [Some(-1)] + l3;
    var l1 := [Some(1)] + l2;
    var l0 := [Some(1)] + l1;
    DropnaCons(Some(0), []);
    DropnaCons(None, l4);
    DropnaCons(Some(-1), l3);
    DropnaCons(Some(1), l2);
    DropnaCons(Some(1), l1);
    assert l0 == [Some(1), Some(1), Some(-1), None, Some(0)];
    var s := Dropna(l0);
    assert s == [1] + ([1] + ([-1] + [0]));
    CountOfCons(0, [], 1);
    CountOfCons(-1, [0], 1);
    CountOfCons(1, [-1] + [0], 1);
    CountOfCons(1, [1] + ([-1] + [0]), 1);
    CountOfCons(0, [], -1);
    CountOfCons(-1, [0], -1);
    CountOfCons(1, [-1] + [0], -1);
    CountOfCons(1, [1] + ([-1] + [0]), -1);
    CountOfCons(0, [], 0);
    CountOfCons(-1, [0], 0);
    CountOfCons(1, [-1] + [0], 0);
    CountOfCons(1, [1] + ([-1] + [0]), 0);
    assert CountOf(s, 1) == 2 && CountOf(s, -1) == 1 && CountOf(s, 0) == 1 && |s| == 4;
    assert Fraction(2, 4) == Some(0.5);
    assert Fraction(1, 4) == Some(0.25);
    assert Summarize(l0) == Summary(4, Some(0.5), Some(0.25), Some(0.25));
  }

  lemma DropnaCons(x: Option<int>, rest: seq<Option<int>>)
    ensures Dropna([x] + rest) == (if x.Some? then [x.value] else []) + Dropna(rest)
  {
    assert ([x] + rest)[1..] == rest;
  }

  lemma CountOfCons(x: int, rest: seq<int>, v: int)
    ensures CountOf([x] + rest, v) == (if x == v then 1 else 0) + CountOf(rest, v)
  {
    assert ([x] + rest)[1..] == rest;
  }

  // ----- Stability: run lengths -----

  /** The lengths of the maximal blocks of equal consecutive values, in order: the sizes
      of the groups formed by the cumulative sum of "differs from the previous value". */
  function RunLengths(s: seq<int>): (r: seq<nat>)
    ensures |r| == 0 <==> |s| == 0
    ensures forall k :: 0 <= k < |r| ==> r[k] >= 1
  {
    if |s| == 0 then []
    else
      var rest := RunLengths(s[1..]);
      if |s| > 1 && s[1] == s[0] then [rest[0] + 1] + rest[1..] else [1] + rest
  }

  /** The number of positions whose value differs from the one before. */
  function Changes(s: seq<int>): (c: nat)
    ensures |s| >= 1 ==> c <= |s| - 1
  {
    if |s| <= 1 then 0 else (if s[0] != s[1] then 1 else 0) + Changes(s[1..])
  }

  function Total(xs: seq<nat>): nat
  {
    if |xs| == 0 then 0 else xs[0] + Total(xs[1..])
  }

  /** Every value falls in exactly one run. */
  lemma {:induction false} RunLengthsCoverSeries(s: seq<int>)
    ensures Total(RunLengths(s)) == |s|
  {
    if |s| > 0 {
      var rest := RunLengths(s[1..]);
      RunLengthsCoverSeries(s[1..]);
      if |s| > 1 && s[1] == s[0] {
        var r := [rest[0] + 1] + rest[1..];
        assert r[1..] == rest[1..];
      } else {
        assert ([1] + rest)[1..] == rest;
      }
    }
  }

  /** A new run starts at the first value and at every change: the group count is the
      last value of the cumulative sum. */
  lemma {:induction false} RunCountIsChangesPlusOne(s: seq<int>)
    requires |s| > 0
    ensures |RunLengths(s)| == 1 + Changes(s)
  {
    if |s| > 1 {
      RunCountIsChangesPlusOne(s[1..]);
    }
  }

  /** The mean group size of the present labels, missing when none is present. */
  function AvgRunLength(labels: seq<Option<int>>): (r: Option<real>)
    ensures r.None? <==> |Dropna(labels)| == 0
  {
    var s := Dropna(labels);
    if |s| == 0 then None else Some(Total(RunLengths(s)) as real / |RunLengths(s)| as real)
  }

  /** The average run length is the number of present labels over one plus the number of
      changes among them, and so lies between 1 and the number of present labels. */
  lemma {:induction false} AvgRunLengthClosedForm(labels: seq<Option<int>>)
    requires |Dropna(labels)| > 0
    ensures AvgRunLength(labels) == Some(|Dropna(labels)| as real / (1 + Changes(Dropna(labels))) as real)
    ensures 1.0 <= AvgRunLength(labels).value <= |Dropna(labels)| as real
  {
    var s := Dropna(labels);
    RunLengthsCoverSeries(s);
    RunCountIsChangesPlusOne(s);
    QuotientBounds(|s| as real, (1 + Changes(s)) as real);
  }

  lemma QuotientBounds(n: real, g: real)
    requires 1.0 <= g <= n
    ensures 1.0 <= n / g <= n
  {
    assert n / g >= 1.0;
    assert n / g <= n / 1.0;
  }

  /** A missing label does not break a run: dropping happens before runs are formed. */
  lemma {:induction false} AvgRunLengthIgnoresGaps(a: seq<Option<int>>, b: seq<Option<int>>)
    ensures AvgRunLength(a + [None] + b) == AvgRunLength(a + b)
  {
    DropnaAppend(a + [None], b);
    DropnaAppend(a, [None]);
    DropnaAppend(a, b);
    assert Dropna([None]) == [];
    assert Dropna(a + [None]) == Dropna(a);
  }

  /** A column that never changes is one run. */
  lemma {:induction false} ConstantSeriesIsOneRun(s: seq<int>)
    requires |s| > 0
    requires forall k :: 0 <= k < |s| ==> s[k] == s[0]
    ensures RunLengths(s) == [|s|]
  {
    if |s| > 1 {
      ConstantSeriesIsOneRun(s[1..]);
    }
  }

  lemma AvgRunLengthExample()
    ensures AvgRunLength([Some(1), Some(1), Some(1), Some(-1), Some(-1), Some(0)]) == Some(2.0)
  {
    var l5 := [Some(0)];
    var l4 := [Some(-1)] + l5;
    var l3 := [Some(-1)] + l4;
    var l2 := [Some(1)] + l3;
    var l1 := [Some(1)] + l2;
    var l0 := [Some(1)] + l1;
    DropnaCons(Some(0), []);
    DropnaCons(Some(-1), l5);
    DropnaCons(Some(-1), l4);
    DropnaCons(Some(1), l3);
    DropnaCons(Some(1), l2);
    DropnaCons(Some(1), l1);
    assert l0 == [Some(1), Some(1), Some(1), Some(-1), Some(-1), Some(0)];
    var s5 := [0];
    var s4 := [-1] + s5;
    var s3 := [-1] + s4;
    var s2 := [1] + s3;
    var s1 := [1] + s2;
    var s0 := [1] + s1;
    assert Dropna(l0) == s0;
    ChangesCons(-1, s5);
    ChangesCons(-1, s4);
    ChangesCons(1, s3);
    ChangesCons(1, s2);
    ChangesCons(1, s1);
    assert Changes(s0) == 2;
    AvgRunLengthClosedForm(l0);
    assert |s0| == 6;
    assert 6 as real / 3 as real == 2.0;
    assert AvgRunLength(l0) == Some(2.0);
  }

  lemma ChangesCons(x: int, rest: seq<int>)
    requires |rest| > 0
    ensures Changes([x] + rest) == (if x != rest[0] then 1 else 0) + Changes(rest)
  {
    assert ([x] + rest)[1..] == rest;
  }
}
