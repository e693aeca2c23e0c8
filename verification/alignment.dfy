/**
 The station-to-forecast alignment in `get_forecast` (getforecast.py): the
 station table is indexed by time and reindexed onto the forecast grid with
 `method="backfill"`, which takes, for every grid time, the earliest station
 row at or after it; the three smoothed station columns are then left-joined
 onto the forecast rows.
 */
module Alignment {
  import opened Common
  import opened ForecastFrame
  import opened Station
  import Location

  /** A forecast row with the three smoothed station columns joined on. */
  datatype TableRow = TableRow(
    forecast: ForecastRow,
    smoothWindAvg: Option<real>,
    smoothWindMin: Option<real>,
    smoothWindMax: Option<real>)

  /**
   pandas refuses a fill-method reindex on an index with repeated labels, and
   on one with unordered labels unless there are no target times to fill.
   */
  datatype AlignError = IndexNotIncreasing

  /** Everything that stops `get_forecast` before it has a table. */
  datatype ForecastError =
    | UnsupportedLocation
    | BadFrame(frameError: FrameError)
    | BadStationIndex(alignError: AlignError)

  /** The smoothing window `get_forecast` asks the station data for. */
  const StationSmoothingWindow: int := 15

  function Times(station: seq<StationRow>): (ts: seq<Time>)
    ensures |ts| == |station|
    ensures forall i :: 0 <= i < |station| ==> ts[i] == station[i].datetime
  {
    seq(|station|, i requires 0 <= i < |station| => station[i].datetime)
  }

  /** Position of the earliest entry at or after `t`, scanning from the front. */
  function FirstAtOrAfter(times: seq<Time>, t: Time): (r: Option<nat>)
    ensures r.Some? ==> r.value < |times| && times[r.value] >= t
    ensures r.Some? ==> forall j :: 0 <= j < r.value ==> times[j] < t
    ensures r.None? <==> forall j :: 0 <= j < |times| ==> times[j] < t
    decreases |times|
  {
    if |times| == 0 then None
    else if times[0] >= t then Some(0)
    else
      match FirstAtOrAfter(times[1..], t)
      case None => None
      case Some(k) => Some(k + 1)
  }

  /**
   The backfill indexer on an increasing index, computed by a binary search
   for the left insertion point of `t`. pandas finds the same position with a
   linear merge of the two sorted indexes; the search is an equivalent way to
   compute it.
   */
  method BackfillIndexer(times: seq<Time>, t: Time) returns (r: Option<nat>)
    requires StrictlyIncreasing(times)
    ensures r == FirstAtOrAfter(times, t)
  {
    var lo, hi := 0, |times|;
    while lo < hi
      invariant 0 <= lo <= hi <= |times|
      invariant forall j :: 0 <= j < lo ==> times[j] < t
      invariant forall j :: hi <= j < |times| ==> times[j] >= t
      decreases hi - lo
    {
      var mid := (lo + hi) / 2;
      if times[mid] < t {
        lo := mid + 1;
      } else {
        hi := mid;
      }
    }
    FirstAtOrAfterSplit(times, t, lo);
    if lo < |times| {
      r := Some(lo);
    } else {
      r := None;
    }
  }

  /** A split point with every earlier entry before `t` and every later one not is the scan's answer. */
  lemma FirstAtOrAfterSplit(times: seq<Time>, t: Time, p: int)
    requires 0 <= p <= |times|
    requires forall j :: 0 <= j < p ==> times[j] < t
    requires forall j :: p <= j < |times| ==> times[j] >= t
    ensures FirstAtOrAfter(times, t) == if p < |times| then Some(p) else None
  {
    var r := FirstAtOrAfter(times, t);
    if p < |times| {
      assert times[p] >= t;
      assert r.Some?;
      assert times[r.value] >= t;
    }
  }

  /** The station row a backfill reindex puts at time `t`, or none when every row is earlier. */
  function BackfillRow(station: seq<StationRow>, t: Time): (r: Option<StationRow>)
    ensures r.None? <==> forall k :: 0 <= k < |station| ==> station[k].datetime < t
    ensures r.Some? ==>
      exists k :: (0 <= k < |station| && station[k] == r.value && station[k].datetime >= t
                   && forall j :: 0 <= j < k ==> station[j].datetime < t)
  {
    match FirstAtOrAfter(Times(station), t)
    case None => None
    case Some(k) => Some(station[k])
  }

  /** `station_data.reindex(grid, method="backfill")`: one (possibly missing) station row per grid time. */
  function Reindex(station: seq<StationRow>, grid: seq<Time>): (aligned: seq<Option<StationRow>>)
    ensures |aligned| == |grid|
    ensures forall i :: 0 <= i < |grid| ==> aligned[i] == BackfillRow(station, grid[i])
  {
    seq(|grid|, i requires 0 <= i < |grid| => BackfillRow(station, grid[i]))
  }

  /** The reindex computed position by position: one binary search per grid time. */
  method ReindexBackfill(station: seq<StationRow>, grid: seq<Time>) returns (aligned: seq<Option<StationRow>>)
    requires StrictlyIncreasing(Times(station))
    ensures aligned == Reindex(station, grid)
  {
    var times := Times(station);
    aligned := [];
    for i := 0 to |grid|
      invariant |aligned| == i
      invariant forall k :: 0 <= k < i ==> aligned[k] == BackfillRow(station, grid[k])
    {
      var position := BackfillIndexer(times, grid[i]);
      var row := if position.Some? then Some(station[position.value]) else None;
      aligned := aligned + [row];
    }
  }

  /** On an increasing index an exact match is always the row taken. */
  lemma BackfillUsesExactMatch(station: seq<StationRow>, k: int)
    requires StrictlyIncreasing(Times(station))
    requires 0 <= k < |station|
    ensures BackfillRow(station, station[k].datetime) == Some(station[k])
  {
    var times := Times(station);
    var t := station[k].datetime;
    var r := FirstAtOrAfter(times, t);
    assert times[k] == t;
    assert r.Some?;
  }

  /**
   On an increasing index the row taken is the nearest one not before `t`:
   no row with a time at or after `t` is earlier than it.
   */
  lemma BackfillIsNearestLater(station: seq<StationRow>, t: Time, k: int)
    requires StrictlyIncreasing(Times(station))
    requires 0 <= k < |station| && station[k].datetime >= t
    ensures BackfillRow(station, t).Some?
    ensures t <= BackfillRow(station, t).value.datetime <= station[k].datetime
  {
    var times := Times(station);
    var r := FirstAtOrAfter(times, t);
    assert times[k] >= t;
    assert r.Some? && r.value <= k;
    if r.value < k {
      assert times[r.value] < times[k];
    }
  }

  /** Later grid times never pick up earlier station rows. */
  lemma BackfillMonotone(station: seq<StationRow>, t1: Time, t2: Time)
    requires StrictlyIncreasing(Times(station))
    requires t1 <= t2
    requires BackfillRow(station, t2).Some?
    ensures BackfillRow(station, t1).Some?
    ensures BackfillRow(station, t1).value.datetime <= BackfillRow(station, t2).value.datetime
  {
    var times := Times(station);
    var k2 := FirstAtOrAfter(times, t2).value;
    BackfillIsNearestLater(station, t1, k2);
  }

  /** The smoothed columns a joined row carries: the backfilled row's, or missing. */
  predicate CarriesSmoothed(row: TableRow, source: Option<StationRow>)
  {
    match source
    case None => row.smoothWindAvg.None? && row.smoothWindMin.None? && row.smoothWindMax.None?
    case Some(s) =>
      row.smoothWindAvg == s.smoothWindAvg && row.smoothWindMin == s.smoothWindMin
      && row.smoothWindMax == s.smoothWindMax
  }

  /** The three left joins: exactly the forecast rows, in order, with the station columns added. */
  function JoinSmoothed(frame: seq<ForecastRow>, aligned: seq<Option<StationRow>>): (table: seq<TableRow>)
    requires |aligned| == |frame|
    ensures |table| == |frame|
    ensures forall i :: 0 <= i < |frame| ==> table[i].forecast == frame[i]
    ensures forall i :: 0 <= i < |frame| ==> CarriesSmoothed(table[i], aligned[i])
  {
    seq(|frame|, i requires 0 <= i < |frame| =>
      match aligned[i]
      case None => TableRow(frame[i], None, None, None)
      case Some(s) => TableRow(frame[i], s.smoothWindAvg, s.smoothWindMin, s.smoothWindMax))
  }

  /**
   Whether pandas can backfill from station times onto `targets` grid times:
   an increasing index always, and any index without repeats when there is
   nothing to fill, since the empty target is answered before the order is
   looked at.
   */
  predicate Fillable(times: seq<Time>, targets: nat)
  {
    StrictlyIncreasing(times) || (targets == 0 && Distinct(times))
  }

  /**
   Reindex then join: fails only on an index pandas cannot fill from; otherwise
   every forecast row is kept unchanged and carries the smoothed values of the
   earliest station row at or after its time.
   */
  function AlignStation(frame: seq<ForecastRow>, station: seq<StationRow>): (r: Result<seq<TableRow>, AlignError>)
    ensures r.Ok? <==> StrictlyIncreasing(Times(station)) || (|frame| == 0 && Distinct(Times(station)))
    ensures r.Ok? ==> |r.value| == |frame|
    ensures r.Ok? ==> forall i :: 0 <= i < |frame| ==> r.value[i].forecast == frame[i]
    ensures r.Ok? ==> forall i :: 0 <= i < |frame| ==>
      CarriesSmoothed(r.value[i], BackfillRow(station, frame[i].datetime))
  {
    if Fillable(Times(station), |frame|) then Ok(JoinSmoothed(frame, Reindex(station, Datetimes(frame))))
    else Err(IndexNotIncreasing)
  }

  /**
   The table `get_forecast` plots for one model response: the location is
   checked first, then the frame is built, then the station readings, smoothed
   over 15 rows, are aligned onto it.
   */
  function GetForecast(location: string, start: Time, end: Time, interval: int, utcOffset: int,
                       vars: Variables, stationRaw: seq<StationRecord>): (r: Result<seq<TableRow>, ForecastError>)
    requires interval > 0
    ensures Location.Resolve(location).Err? ==> r == Err(UnsupportedLocation)
    ensures Location.Resolve(location).Ok? && BuildFrame(start, end, interval, utcOffset, vars).Err? ==>
      r == Err(BadFrame(ColumnLengthMismatch))
    ensures r.Ok? <==>
      && Location.Resolve(location).Ok?
      && BuildFrame(start, end, interval, utcOffset, vars).Ok?
      && Fillable(Times(GetStationData(stationRaw, StationSmoothingWindow)), |DateRange(start, end, interval)|)
    ensures Location.Resolve(location).Ok? && BuildFrame(start, end, interval, utcOffset, vars).Ok? && r.Err? ==>
      r == Err(BadStationIndex(IndexNotIncreasing))
    ensures r.Ok? ==>
      && BuildFrame(start, end, interval, utcOffset, vars).Ok?
      && |r.value| == |DateRange(start, end, interval)|
      && forall i :: 0 <= i < |r.value| ==>
        r.value[i].forecast == BuildFrame(start, end, interval, utcOffset, vars).value[i]
    ensures r.Ok? ==>
      var frame := BuildFrame(start, end, interval, utcOffset, vars).value;
      var smoothed := GetStationData(stationRaw, StationSmoothingWindow);
      forall i :: 0 <= i < |r.value| ==> CarriesSmoothed(r.value[i], BackfillRow(smoothed, frame[i].datetime))
  {
    match Location.Resolve(location)
    case Err(_) => Err(UnsupportedLocation)
    case Ok(_) =>
      match BuildFrame(start, end, interval, utcOffset, vars)
      case Err(e) => Err(BadFrame(e))
      case Ok(frame) =>
        match AlignStation(frame, GetStationData(stationRaw, StationSmoothingWindow))
        case Err(e) => Err(BadStationIndex(e))
        case Ok(table) => Ok(table)
  }
}
