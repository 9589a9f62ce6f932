# Gold-price target labels and the "up, up, down" pattern study

This project models the two analysis scripts of TradeGold that work on one-minute gold
price bars: each bar has a millisecond timestamp, an open, a high, a low and a close.

- `ig_scripts/analyze_targets.py` gives every bar three labels:
  - **first touch**: within the next 15 bars, does the price rise 10 above the entry close
    (1) before it falls 10 below it (-1)? Neither is 0, and a bar without 15 later bars has
    no label.
  - **trend**: the sign of the close 15 bars later minus the close now.
  - **regime**: the least-squares slope of the closes over the next 240 bars, bucketed
    against ±0.02. A bar without a full window has no slope; the bucketing then gives 0.

  It then summarises each label column: its number of present values, the shares of 1,
  -1 and 0, and the average length of runs of equal consecutive values.
- `ig_scripts/target_analysis.py` resamples the bars into 15-minute candles, then:
  - flags "up, up, down" candles: the close rose more than 0.095% over two candles, the
    previous candle closed above its open, and this candle closes below its open;
  - flags candles whose next candle's high reaches 10 above their close;
  - reports the number of pattern candles, the hit rate after a pattern, the hit rate over
    all candles, the number of candles and the pattern frequency.

Modules:

- `Series` (`series.dfy`): bars, the `Option` that stands for a missing (NaN) value, and
  the rate of `hits` out of `total`.
- `Regression` (`regression.dfy`): the least-squares slope of a window over the positions
  0, 1, …, W-1. The model uses the exact closed form of that slope in place of the
  regression library. It also proves the slope's behaviour:
  - on a straight line the slope is that line's slope;
  - adding a line to the data adds that line's slope;
  - scaling the data scales the slope.
- `LabelEngine` (`label_engine.dfy`): the three labels.
  - The first-touch scan and the slopes loop are methods with loops, proved against the
    label functions.
  - `ComputeLabels` fills all the columns.
- `LabelSummary` (`label_summary.dfy`): dropping missing values, the label shares and the
  average run length.
- `Resampling` (`resampling.dfy`): the 15-minute aggregation.
- `PatternDetector` (`pattern_detector.dfy`): the pattern, the profit target and the
  report.

Prices are real numbers and timestamps are integers. A missing value is `None`. A rate
over zero rows is `None`: pandas gives NaN for the mean of an empty column, and Python
raises on a division by zero.

Edge cases, as the code decides them:

- Only the 15-minute bins without any bar are dropped (`dropna` after the aggregation). A
  bin with just a few bars still gives a candle.
- The average run length of a column with no present value is the mean of an empty group
  list. That mean is NaN, not 0, and the model gives `None`.
- A bar whose regime window is incomplete gets regime 0, because NaN compares false on
  both sides. It does not get a missing value.

## Model

| member | source | states |
|---|---|---|
| Series.Closes | ig_scripts/analyze_targets.py:47 | the close column has one entry per bar, equal to that bar's close |
| Series.Fraction | ig_scripts/analyze_targets.py:62-64 | the mean of a 0/1 column with `hits` ones out of `total` rows: undefined exactly when there are no rows, times `total` gives `hits`, and lies in [0, 1] |
| Regression.PositionSums | ig_scripts/analyze_targets.py:41 | the positions 0..W-1 sum to W(W-1)/2 and their squares to (W-1)W(2W-1)/6 |
| Regression.SpreadClosedForm | ig_scripts/analyze_targets.py:41-43 | the denominator of the slope, W·Σk² - (Σk)², is W²(W-1)(W+1)/12 |
| Regression.SpreadSign | ig_scripts/analyze_targets.py:41-43 | the denominator is never negative, and it is positive exactly when the window has at least two points; so a one-point window has slope 0, as the regression gives |
| Regression.SpreadIdentity | ig_scripts/analyze_targets.py:41-43 | the algebra behind the two lemmas above, from the closed forms of the position sums |
| Regression.OlsSlopeOfLine | ig_scripts/analyze_targets.py:40-43 | the least-squares slope of points lying on a + s·k, over at least two positions, is s |
| Regression.OlsSlopeOfAddedLine | ig_scripts/analyze_targets.py:40-43 | adding a + s·k to every point of a window of at least two points adds s to the slope |
| Regression.OlsSlopeOfScaled | ig_scripts/analyze_targets.py:40-43 | multiplying every point by c multiplies the slope by c |
| Regression.CovarianceOfAddedLine | ig_scripts/analyze_targets.py:40-43 | adding a + s·k to the points adds s times the denominator to the numerator of the slope |
| Regression.CovarianceOfScaled | ig_scripts/analyze_targets.py:40-43 | scaling the points scales the numerator of the slope |
| Regression.SumYOfAddedLine | ig_scripts/analyze_targets.py:40-43 | the sum of the points grows by W·a + s·Σk when a + s·k is added |
| Regression.SumKYOfAddedLine | ig_scripts/analyze_targets.py:40-43 | the position-weighted sum grows by a·Σk + s·Σk² when a + s·k is added |
| Regression.ScaledSums | ig_scripts/analyze_targets.py:40-43 | both sums scale with the points |
| LabelEngine.FirstTouchIn | ig_scripts/analyze_targets.py:27-32 | the scan's result is one of -1, 0, 1 |
| LabelEngine.FirstTouchInSpec | ig_scripts/analyze_targets.py:27-32 | the scan gives 1 exactly when some bar reaches entry + threshold with no earlier bar touching either side; -1 exactly when the first touching bar reaches only the lower side (the upper test wins on a bar touching both); 0 exactly when no bar touches |
| LabelEngine.TouchLabel | ig_scripts/analyze_targets.py:22-32 | the label is present exactly when 15 later bars exist, and is then in {-1, 0, 1} |
| LabelEngine.FirstTouch | ig_scripts/analyze_targets.py:22-32 | the loop with early returns over the (possibly short) slice after the bar gives the first-touch label |
| LabelEngine.TouchColumn | ig_scripts/analyze_targets.py:34 | the touch column holds each bar's first-touch label |
| LabelEngine.QuietHorizonBoundsMove | ig_scripts/analyze_targets.py:22-32 | when the label is 0, the close at the horizon lies strictly within the threshold of the entry close |
| LabelEngine.Sign | ig_scripts/analyze_targets.py:37 | the sign is 1, -1 or 0 exactly when the value is positive, negative or zero |
| LabelEngine.TrendLabel | ig_scripts/analyze_targets.py:37 | the trend is present exactly when the bar 15 later exists, and is 1 / -1 / 0 exactly when that close is above / below / equal to the current close |
| LabelEngine.TrendColumn | ig_scripts/analyze_targets.py:37 | the trend column holds each bar's trend label |
| LabelEngine.TouchAndTrendDefinedTogether | ig_scripts/analyze_targets.py:25-26 | the touch and trend labels are missing on exactly the same bars, the last 15 |
| LabelEngine.SlopeAt | ig_scripts/analyze_targets.py:46-51 | a slope is present exactly when the window of 240 closes from the bar fits in the series |
| LabelEngine.SlopeColumn | ig_scripts/analyze_targets.py:45-51 | the loop appends one slope per bar, the window's least-squares slope or a missing value |
| LabelEngine.RegimeLabel | ig_scripts/analyze_targets.py:54-55 | regime 1 exactly when the slope is present and above the threshold; -1 exactly when it is present, not above it, and below minus the threshold; otherwise 0 |
| LabelEngine.RegimeColumn | ig_scripts/analyze_targets.py:54-55 | the regime column buckets each slope |
| LabelEngine.RegimeOfShortWindowIsFlat | ig_scripts/analyze_targets.py:48-49 | a bar without a full window gets regime 0 |
| LabelEngine.RegimeOfStraightWindow | ig_scripts/analyze_targets.py:40-55 | on a window of closes lying on a line of slope s, the regime is the bucket of s |
| LabelEngine.RegimeIgnoresLevel | ig_scripts/analyze_targets.py:40-55 | shifting all closes by a constant changes neither the slope nor the regime |
| LabelEngine.RegimeReflects | ig_scripts/analyze_targets.py:40-55 | negating all closes negates the regime |
| LabelEngine.ComputeLabels | ig_scripts/analyze_targets.py:8-12 | all four columns have one entry per bar and hold the labels for horizon 15, threshold 10, window 240 and slope threshold 0.02 |
| LabelSummary.Dropna | ig_scripts/analyze_targets.py:59 | dropping the missing values leaves at most as many, and none exactly when all are missing |
| LabelSummary.DropnaKeepsPresentValues | ig_scripts/analyze_targets.py:59 | a value survives exactly when it is present somewhere in the column |
| LabelSummary.DropnaAppend | ig_scripts/analyze_targets.py:59 | dropping distributes over concatenation |
| LabelSummary.DropnaOfPresentPrefix | ig_scripts/analyze_targets.py:59 | on a column present on its first m rows only, dropping keeps exactly those m values in order |
| LabelSummary.CountOf | ig_scripts/analyze_targets.py:62-64 | a count is at most the length, and zero exactly when the value is absent |
| LabelSummary.CountsPartition | ig_scripts/analyze_targets.py:62-64 | on labels in {-1, 0, 1}, the three counts add up to the length |
| LabelSummary.Summarize | ig_scripts/analyze_targets.py:58-65 | the count is the number of present labels, at most the column length; it is zero exactly when every value is missing, and exactly then the three shares are undefined |
| LabelSummary.PresentRowsCounted | ig_scripts/analyze_targets.py:59-61 | among the first n rows, dropping keeps as many labels as there are rows holding a value |
| LabelSummary.SummaryCountsPresentRows | ig_scripts/analyze_targets.py:59-61 | the summary count is the number of rows holding a label |
| LabelSummary.SharesAreClassCounts | ig_scripts/analyze_targets.py:62-64 | a defined share of 1, -1 or 0 is the number of present labels of that class over the number of present labels |
| LabelSummary.SharesSumToOne | ig_scripts/analyze_targets.py:58-65 | on a column with some present label in {-1, 0, 1}, the three shares are defined, lie in [0, 1] and add up to 1 |
| LabelSummary.PresentLabelsInRange | ig_scripts/analyze_targets.py:59 | the values left after dropping stay in {-1, 0, 1} |
| LabelSummary.TouchCount | ig_scripts/analyze_targets.py:25-26 | the touch column has |bars| - 15 present values, or none on a shorter series |
| LabelSummary.RegimeCount | ig_scripts/analyze_targets.py:54-55 | the regime column has no missing value, so its count is the number of bars |
| LabelSummary.SummarizeExample | ig_scripts/analyze_targets.py:58-65 | [1, 1, -1, missing, 0] summarises to count 4 and shares 0.5, 0.25, 0.25 |
| LabelSummary.RunLengths | ig_scripts/analyze_targets.py:75-76 | there are no runs exactly when the series is empty, and every run has length at least 1 |
| LabelSummary.Changes | ig_scripts/analyze_targets.py:75 | a series of n values changes value at most n - 1 times |
| LabelSummary.RunLengthsCoverSeries | ig_scripts/analyze_targets.py:75-76 | the run lengths add up to the series length |
| LabelSummary.RunCountIsChangesPlusOne | ig_scripts/analyze_targets.py:75 | a non-empty series has one run more than value changes |
| LabelSummary.AvgRunLength | ig_scripts/analyze_targets.py:73-76 | the average is undefined exactly when no value is present |
| LabelSummary.AvgRunLengthClosedForm | ig_scripts/analyze_targets.py:73-76 | the average is n / (1 + number of changes) over the n present values, and lies between 1 and n |
| LabelSummary.AvgRunLengthIgnoresGaps | ig_scripts/analyze_targets.py:74 | a missing value between two parts does not split a run |
| LabelSummary.ConstantSeriesIsOneRun | ig_scripts/analyze_targets.py:75-76 | a constant series is a single run of its whole length |
| LabelSummary.AvgRunLengthExample | ig_scripts/analyze_targets.py:73-76 | [1, 1, 1, -1, -1, 0] has average run length 2 |
| Resampling.BucketBounds | ig_scripts/target_analysis.py:14 | a timestamp lies in its bin, closed on the left and open on the right, 15 minutes wide |
| Resampling.Members | ig_scripts/target_analysis.py:14 | the bars of a bin are drawn from the table, no more than there are bars |
| Resampling.MembersComplete | ig_scripts/target_analysis.py:14 | every bar whose timestamp falls in bin b is a member of bin b |
| Resampling.MaxHigh | ig_scripts/target_analysis.py:16 | the candle high is at least every member's high and is one of them |
| Resampling.MinLow | ig_scripts/target_analysis.py:17 | the candle low is at most every member's low and is one of them |
| Resampling.Earliest | ig_scripts/target_analysis.py:15 | "first" is the bar with the smallest timestamp, the first one given among equal timestamps |
| Resampling.Latest | ig_scripts/target_analysis.py:18 | "last" is the bar with the largest timestamp, the last one given among equal timestamps |
| Resampling.Aggregate | ig_scripts/target_analysis.py:14-18 | the candle opens at the earliest bar's open, closes at the latest bar's close, and its high and low are the extremes of the bin, each attained by a member |
| Resampling.OrderedGroupEnds | ig_scripts/target_analysis.py:15-18 | on a group in time order, the first and last bars given are the earliest and latest |
| Resampling.MembersOrdered | ig_scripts/target_analysis.py:14 | the bars of a bin keep the table's time order |
| Resampling.OrderedCandleEnds | ig_scripts/target_analysis.py:14-18 | on a table in time order each candle opens at the first bar of its bin and closes at the last one |
| Resampling.CandleBoundsBinBars | ig_scripts/target_analysis.py:16-17 | a candle's high is at least, and its low at most, those of every bar whose timestamp falls in its bin |
| Resampling.CandleOpensAtEarliest | ig_scripts/target_analysis.py:15 | a candle opens at the open of a bar of its bin whose timestamp is the smallest of all bars in the bin |
| Resampling.CandleClosesAtLatest | ig_scripts/target_analysis.py:18 | a candle closes at the close of a bar of its bin whose timestamp is the largest of all bars in the bin |
| Resampling.FirstBucket | ig_scripts/target_analysis.py:14 | the first bin is at or before every bar's bin |
| Resampling.LastBucket | ig_scripts/target_analysis.py:14 | the last bin is at or after every bar's bin |
| Resampling.MembersInBin | ig_scripts/target_analysis.py:14 | every member of bin b has its timestamp in bin b |
| Resampling.MembersOfOwnBin | ig_scripts/target_analysis.py:14 | a bar's own bin is not empty |
| Resampling.NonEmptyBins | ig_scripts/target_analysis.py:14-19 | the kept bins lie in the scanned range, are non-empty and strictly ascending |
| Resampling.Bins | ig_scripts/target_analysis.py:14-19 | the kept bins are non-empty and strictly ascending |
| Resampling.Resample | ig_scripts/target_analysis.py:14-19 | one candle per kept bin, in ascending bin order, each the aggregate of that bin's bars |
| Resampling.NonEmptyBinsComplete | ig_scripts/target_analysis.py:19 | every non-empty bin in the range is kept |
| Resampling.ResampleComplete | ig_scripts/target_analysis.py:14-19 | every bar's bin has a candle |
| Resampling.ResampleSound | ig_scripts/target_analysis.py:14-19 | every candle's bin holds some bar |
| Resampling.BarsBetween | ig_scripts/target_analysis.py:14-19 | the number of bars whose bin lies in a range is at most the number of bars |
| Resampling.BarsBetweenSplit | ig_scripts/target_analysis.py:14-19 | the bars of bins b..hi are those of bin b plus those of bins b+1..hi |
| Resampling.NonEmptyBinsNoMore | ig_scripts/target_analysis.py:19 | there are no more non-empty bins in a range than bars in it |
| Resampling.ResampleNoLonger | ig_scripts/target_analysis.py:14-19 | empty bins are never emitted, so the 15-minute table has at most as many rows as there are bars |
| Resampling.MembersAreBars | ig_scripts/target_analysis.py:14 | every member of a bin is a bar of the table |
| Resampling.ResamplePreservesWellFormed | ig_scripts/target_analysis.py:14-19 | bars whose open and close lie within their low and high give candles with the same property |
| Resampling.MembersWellFormed | ig_scripts/target_analysis.py:14 | the members of well-formed bars are well formed |
| PatternDetector.PctUptrend | ig_scripts/target_analysis.py:28-29 | the two-candle rise test never holds on the first two candles |
| PatternDetector.ProfitHit | ig_scripts/target_analysis.py:45-46 | a hit needs a next candle |
| PatternDetector.PatternColumn | ig_scripts/target_analysis.py:33-38 | the pattern column flags each candle by the pattern test |
| PatternDetector.HitColumn | ig_scripts/target_analysis.py:45-46 | the hit column flags each candle by the profit test, and the last candle never hits |
| PatternDetector.CountTrue | ig_scripts/target_analysis.py:52 | a count of true flags is at most the column length |
| PatternDetector.CountTrueAppend | ig_scripts/target_analysis.py:52 | counts add up over concatenation |
| PatternDetector.Select | ig_scripts/target_analysis.py:49 | filtering by a mask keeps as many rows as the mask has true flags |
| PatternDetector.And | ig_scripts/target_analysis.py:49-52 | the rows flagged in both columns, one flag per row |
| PatternDetector.SelectCount | ig_scripts/target_analysis.py:49-52 | the hits kept by the pattern filter are exactly the rows flagged both pattern and hit |
| PatternDetector.Negate | ig_scripts/target_analysis.py:49 | the complementary mask flips every flag |
| PatternDetector.Mean | ig_scripts/target_analysis.py:52 | the mean of a flag column is undefined exactly on an empty column, lies in [0, 1] and times the length gives the number of true flags |
| PatternDetector.Analyze | ig_scripts/target_analysis.py:49-65 | the pattern count is the number of pattern candles, at most the number of candles; the success rate is undefined exactly when there is no pattern, the general rate and the frequency exactly when there is no candle; all three lie in [0, 1] and the frequency times the candle count is the pattern count |
| PatternDetector.AnalyzeRates | ig_scripts/target_analysis.py:52-60 | the success rate is the number of candles flagged both pattern and hit over the number of pattern candles; the general rate is the number of hits over the number of candles |
| PatternDetector.AnalyzeMinuteBars | ig_scripts/target_analysis.py:14-65 | the study over minute bars analyses one candle per kept bin |
| PatternDetector.MinuteBarsGiveCandles | ig_scripts/target_analysis.py:14-19 | there is some candle exactly when there is some bar |
| PatternDetector.HitsSplitByPattern | ig_scripts/target_analysis.py:49-60 | every hit lies either on a pattern row or on another row: the two filtered hit counts add up to the general one |
| PatternDetector.PatternHitsAmongAllHits | ig_scripts/target_analysis.py:52-60 | the hits after a pattern never outnumber all hits |
| PatternDetector.RatioAbove | ig_scripts/target_analysis.py:28-29 | with a positive old close, a relative change above the threshold means the new close exceeds the old one raised by that threshold |
| PatternDetector.PatternShape | ig_scripts/target_analysis.py:28-38 | a pattern candle has two candles before it, follows an up candle, is a down candle, and closes above 1.00095 times the close two candles back when that close is positive |
| PatternDetector.NoAdjacentCount | ig_scripts/target_analysis.py:33-38 | a flag column without two adjacent true flags has at most ceil(n/2) of them |
| PatternDetector.PatternsAreSparse | ig_scripts/target_analysis.py:33-38 | pattern candles are never adjacent (a down candle cannot be the up candle the next pattern needs), so n candles hold at most (n - 1)/2 of them |
| PatternDetector.AnalyzeExample | ig_scripts/target_analysis.py:25-65 | four candles with one pattern that hits the target report 1 pattern, success rate 1, general rate 0.25, 4 candles and frequency 0.25 |

## Left out

- Reading the CSV file, parsing timestamps, printing and writing the labelled table are I/O
  and are not modelled. The columns are parameters.
- Sorting by time before labelling (`ig_scripts/analyze_targets.py:19`) is not modelled. The
  labelling functions take the bars in the order given, which is assumed to be time order.
  The 15-minute aggregation needs no such assumption: it picks its first and last bars by
  timestamp, as the stable sort before binning does.
- Floating point is not modelled. Prices and slopes are exact reals, so rounding, infinities
  and NaN prices in the input are outside the model. The one infinity the pattern test can
  meet, a zero close two candles back, is written out.
- Regression.OlsSlope: the model uses the exact closed form of the least-squares slope
  instead of the regression library's numerical fit. It requires a window of at least one
  point, which every window of the script has.
- The moving averages `MA_5` and `MA_15` (`ig_scripts/target_analysis.py:23-24`) are computed but never
  used, and the constant `ADX_WINDOW` (`ig_scripts/analyze_targets.py:13`) is unused. The
  commented-out condition of the pattern (`ig_scripts/target_analysis.py:34`) is not part of the code.
- The 15-minute bins are aligned to the epoch rather than to the first day's midnight. The
  bin edges are the same instants, because 15 minutes divides a day.
- Percent formatting of the printed rates (`* 100`) is left to the output and not modelled.
- The data download and broker modules (`ig_data_api.py`, `data_loader.py`, `IBKR_api.py`)
  are not part of this model.
