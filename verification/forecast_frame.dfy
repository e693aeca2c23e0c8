/**
 The quarter-hour forecast table built from one model's response: the time
 grid `pd.date_range(start, end, freq=interval, inclusive="left")`, shifted
 by the response's UTC offset, with the five forecast variables as columns.
 getforecast.py and saveforecast.py build it the same way.
 */
module ForecastFrame {
  import opened Common

  /** One forecast row; every variable may be missing (NaN). */
  datatype ForecastRow = ForecastRow(
    datetime: Time,
    windSpeed: Option<real>,
    windGusts: Option<real>,
    windDirection: Option<real>,
    apparentTemperature: Option<real>,
    precipitation: Option<real>)

  /** The `datetime` column of a forecast table. */
  function Datetimes(rows: seq<ForecastRow>): (ts: seq<Time>)
    ensures |ts| == |rows| && forall i :: 0 <= i < |rows| ==> ts[i] == rows[i].datetime
  {
    seq(|rows|, i requires 0 <= i < |rows| => rows[i].datetime)
  }

  /** The variable arrays of a response, one value per grid point. */
  datatype Variables = Variables(
    windSpeed: seq<Option<real>>,
    windGusts: seq<Option<real>>,
    windDirection: seq<Option<real>>,
    apparentTemperature: seq<Option<real>>,
    precipitation: seq<Option<real>>)

  /** pandas refuses to build a table from columns of different lengths. */
  datatype FrameError = ColumnLengthMismatch

  /** Points `start + k * interval` below `end`, generated one step at a time. */
  function DateRange(start: Time, end: Time, interval: int): (grid: seq<Time>)
    requires interval > 0
    ensures forall k :: 0 <= k < |grid| ==> grid[k] == start + k * interval
    ensures forall k :: 0 <= k < |grid| ==> grid[k] < end
    ensures start + |grid| * interval >= end
    decreases end - start
  {
    if start >= end then []
    else
      var rest := DateRange(start + interval, end, interval);
      assert forall k :: 1 <= k <= |rest| ==> start + interval + (k - 1) * interval == start + k * interval;
      assert start + interval + |rest| * interval == start + (|rest| + 1) * interval;
      [start] + rest
  }

  /**
   The grid holds exactly the non-negative steps that stay below `end`; its
   length is the ceiling of (end - start) / interval, and it is empty when
   `end <= start`.
   */
  lemma DateRangeExact(start: Time, end: Time, interval: int)
    requires interval > 0
    ensures forall k :: 0 <= k ==> (start + k * interval < end <==> k < |DateRange(start, end, interval)|)
    ensures end <= start ==> |DateRange(start, end, interval)| == 0
    ensures end > start ==>
      var n := |DateRange(start, end, interval)|;
      (n - 1) * interval < end - start <= n * interval
  {
    var grid := DateRange(start, end, interval);
    var n := |grid|;
    forall k | 0 <= k
      ensures start + k * interval < end <==> k < n
    {
      if k >= n {
        assert (k - n) * interval >= 0;
        assert k * interval == n * interval + (k - n) * interval;
      } else {
        assert grid[k] == start + k * interval;
      }
    }
    if end > start {
      assert n > 0;
      assert grid[n - 1] == start + (n - 1) * interval;
    }
  }

  /** Consecutive grid points are exactly one interval apart, so the grid is strictly increasing. */
  lemma DateRangeSpacing(start: Time, end: Time, interval: int)
    requires interval > 0
    ensures var grid := DateRange(start, end, interval);
      forall k :: 0 < k < |grid| ==> grid[k] - grid[k - 1] == interval
    ensures StrictlyIncreasing(DateRange(start, end, interval))
  {
    var grid := DateRange(start, end, interval);
    forall k | 0 < k < |grid|
      ensures grid[k] - grid[k - 1] == interval
    {
      StepDifference(start, interval, k - 1, k);
    }
    forall i, j | 0 <= i < j < |grid|
      ensures grid[i] < grid[j]
    {
      StepDifference(start, interval, i, j);
    }
  }

  /** Two grid points are `j - i` intervals apart. */
  lemma StepDifference(start: Time, interval: int, i: int, j: int)
    requires interval > 0 && i < j
    ensures (start + j * interval) - (start + i * interval) == (j - i) * interval
    ensures (start + i * interval) < (start + j * interval)
    ensures j == i + 1 ==> (start + j * interval) - (start + i * interval) == interval
  {
    assert j * interval - i * interval == (j - i) * interval;
  }

  /** Every point moved by the same offset (the correction to local time). */
  function ShiftBy(grid: seq<Time>, offset: int): (shifted: seq<Time>)
    ensures |shifted| == |grid|
    ensures forall k :: 0 <= k < |grid| ==> shifted[k] - grid[k] == offset
  {
    seq(|grid|, k requires 0 <= k < |grid| => grid[k] + offset)
  }

  /**
   Shifting the grid is the same as shifting its window: length, order and
   spacing are those of a grid over `[start + offset, end + offset)`.
   */
  lemma {:induction false} ShiftedDateRange(start: Time, end: Time, interval: int, offset: int)
    requires interval > 0
    ensures ShiftBy(DateRange(start, end, interval), offset) == DateRange(start + offset, end + offset, interval)
    decreases end - start
  {
    if start < end {
      ShiftedDateRange(start + interval, end, interval, offset);
      var rest := DateRange(start + interval, end, interval);
      assert ShiftBy([start] + rest, offset) == [start + offset] + ShiftBy(rest, offset);
    } else {
      assert DateRange(start, end, interval) == [];
    }
  }

  predicate ColumnsFit(vars: Variables, n: nat)
  {
    && |vars.windSpeed| == n
    && |vars.windGusts| == n
    && |vars.windDirection| == n
    && |vars.apparentTemperature| == n
    && |vars.precipitation| == n
  }

  /**
   The local-time forecast table: row `i` carries the `i`-th value of every
   variable at grid point `i` moved by `utcOffset`; mismatched column lengths
   are an error.
   */
  function BuildFrame(start: Time, end: Time, interval: int, utcOffset: int, vars: Variables)
    : (r: Result<seq<ForecastRow>, FrameError>)
    requires interval > 0
    ensures r.Ok? <==> ColumnsFit(vars, |DateRange(start, end, interval)|)
    ensures r.Ok? ==> |r.value| == |vars.windSpeed|
    ensures r.Ok? ==> forall i :: 0 <= i < |r.value| ==>
      && r.value[i].datetime == start + i * interval + utcOffset
      && r.value[i].windSpeed == vars.windSpeed[i]
      && r.value[i].windGusts == vars.windGusts[i]
      && r.value[i].windDirection == vars.windDirection[i]
      && r.value[i].apparentTemperature == vars.apparentTemperature[i]
      && r.value[i].precipitation == vars.precipitation[i]
  {
    var grid := DateRange(start, end, interval);
    if !ColumnsFit(vars, |grid|) then Err(ColumnLengthMismatch)
    else
      var local := ShiftBy(grid, utcOffset);
      Ok(seq(|grid|, i requires 0 <= i < |grid| =>
        ForecastRow(local[i], vars.windSpeed[i], vars.windGusts[i], vars.windDirection[i],
                    vars.apparentTemperature[i], vars.precipitation[i])))
  }

  /** The rows of a built table are strictly increasing in time, so its datetimes can serve as an index. */
  lemma BuildFrameIsGrid(start: Time, end: Time, interval: int, utcOffset: int, vars: Variables)
    requires interval > 0
    requires BuildFrame(start, end, interval, utcOffset, vars).Ok?
    ensures var rows := BuildFrame(start, end, interval, utcOffset, vars).value;
      forall i, j :: 0 <= i < j < |rows| ==> rows[i].datetime < rows[j].datetime
  {
    var rows := BuildFrame(start, end, interval, utcOffset, vars).value;
    var grid := DateRange(start, end, interval);
    DateRangeSpacing(start, end, interval);
    forall i, j | 0 <= i < j < |rows|
      ensures rows[i].datetime < rows[j].datetime
    {
      assert rows[i].datetime == grid[i] + utcOffset;
      assert rows[j].datetime == grid[j] + utcOffset;
    }
  }
}
