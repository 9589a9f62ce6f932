/** Shared vocabulary of the two analysis scripts: a 1-minute price bar, an optional
    cell (pandas' NaN), and the mean of a boolean column expressed as a ratio of counts. */
module Series {

  /** A data-frame cell that may be missing (NaN in the source). */
  datatype Option<+T> = None | Some(value: T)

  /** One row of the price table: a timestamp in milliseconds since the epoch and the
      open/high/low/close prices of that minute. */
  datatype Bar = Bar(timestamp: int, open: real, high: real, low: real, close: real)

  /** A bar whose open and close lie between its low and its high. */
  predicate WellFormedBar(b: Bar)
  {
    b.low <= b.open <= b.high && b.low <= b.close <= b.high
  }

  /** The closing prices of a table, the column most labels are computed from. */
  function Closes(bars: seq<Bar>): (cs: seq<real>)
    ensures |cs| == |bars|
    ensures forall i :: 0 <= i < |bars| ==> cs[i] == bars[i].close
  {
    seq(|bars|, i requires 0 <= i < |bars| => bars[i].close)
  }

  /** The mean of a boolean column with `hits` true cells out of `total`: pandas gives NaN
      for an empty column, and plain Python division raises; both are None here. */
  function Fraction(hits: nat, total: nat): (f: Option<real>)
    ensures f.None? <==> total == 0
    ensures f.Some? ==> f.value * total as real == hits as real
    ensures f.Some? && hits <= total ==> 0.0 <= f.value <= 1.0
  {
    if total == 0 then None else Some(hits as real / total as real)
  }
}
