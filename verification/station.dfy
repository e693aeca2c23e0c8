/**
 Station observations as `get_station_data` in getstationdata.py prepares
 them: the vendor's swapped average/minimum columns are put right, and three
 trailing rolling aggregates are added, positionally over `window` rows with
 pandas' default of requiring a complete window of present values.
 */
module Station {
  import opened Common
  import opened Stats

  /** One reading as the vendor delivers it (knots; any value may be missing). */
  datatype StationRecord = StationRecord(
    datetime: Time,
    windAvg: Option<real>,
    windMin: Option<real>,
    windMax: Option<real>)

  /** A prepared reading: corrected columns plus their rolling aggregates. */
  datatype StationRow = StationRow(
    datetime: Time,
    windAvg: Option<real>,
    windMin: Option<real>,
    windMax: Option<real>,
    smoothWindAvg: Option<real>,
    smoothWindMin: Option<real>,
    smoothWindMax: Option<real>)

  /** The column rename `wind_avg` <-> `wind_min`. */
  function SwapAvgMin(r: StationRecord): StationRecord
  {
    r.(windAvg := r.windMin, windMin := r.windAvg)
  }

  /** The rename exchanges exactly the two columns, so doing it twice restores the record. */
  lemma SwapAvgMinInvolution(r: StationRecord)
    ensures SwapAvgMin(SwapAvgMin(r)) == r
    ensures SwapAvgMin(r).windAvg == r.windMin && SwapAvgMin(r).windMin == r.windAvg
    ensures SwapAvgMin(r).windMax == r.windMax && SwapAvgMin(r).datetime == r.datetime
  {
  }

  /** Row `i` ends a window of `w` rows, all inside the table and all present. */
  predicate FullWindow(xs: seq<Option<real>>, i: int, w: int)
    requires 0 <= i < |xs|
  {
    1 <= w <= i + 1 && forall k :: i - w < k <= i ==> xs[k].Some?
  }

  /** The values of the trailing window ending at row `i`, oldest first. */
  function WindowValues(xs: seq<Option<real>>, i: int, w: int): (vs: seq<real>)
    requires 0 <= i < |xs| && FullWindow(xs, i, w)
    ensures |vs| == w
    ensures forall k :: 0 <= k < w ==> xs[i - w + 1 + k] == Some(vs[k])
  {
    seq(w, k requires 0 <= k < w => xs[i - w + 1 + k].value)
  }

  /**
   `rolling(window=w).mean()`: present exactly when the trailing window is
   full, and then its sum divided by `w`, between the window's extremes.
   */
  function RollingMean(xs: seq<Option<real>>, w: int): (r: seq<Option<real>>)
    requires w >= 1
    ensures |r| == |xs|
    ensures forall i :: 0 <= i < |xs| ==> (r[i].Some? <==> FullWindow(xs, i, w))
    ensures forall i :: 0 <= i < |xs| && r[i].Some? ==> IsWindowMean(xs, i, w, r[i].value)
  {
    seq(|xs|, i requires 0 <= i < |xs| =>
      if FullWindow(xs, i, w) then Some(WindowMean(xs, i, w)) else None)
  }

  /** `m` is the sum of the window's `w` values divided by `w` (see `IsMean`). */
  predicate IsWindowMean(xs: seq<Option<real>>, i: int, w: int, m: real)
    requires 0 <= i < |xs| && FullWindow(xs, i, w)
  {
    IsMean(WindowValues(xs, i, w), m)
  }

  /** The mean of a full window. */
  function WindowMean(xs: seq<Option<real>>, i: int, w: int): (m: real)
    requires 0 <= i < |xs| && FullWindow(xs, i, w)
    ensures IsWindowMean(xs, i, w, m)
  {
    Mean(WindowValues(xs, i, w))
  }

  /** `rolling(window=w).min()`: the least value of a full trailing window. */
  function RollingMin(xs: seq<Option<real>>, w: int): (r: seq<Option<real>>)
    requires w >= 1
    ensures |r| == |xs|
    ensures forall i :: 0 <= i < |xs| ==> (r[i].Some? <==> FullWindow(xs, i, w))
    ensures forall i, k :: 0 <= i < |xs| && r[i].Some? && 0 <= k && i - w < k <= i ==>
      xs[k].Some? && r[i].value <= xs[k].value
    ensures forall i :: 0 <= i < |xs| && r[i].Some? ==> exists k :: 0 <= k && i - w < k <= i && xs[k] == r[i]
    ensures forall i :: 0 <= i < |xs| && r[i].Some? ==> xs[i].Some? && r[i].value <= xs[i].value
  {
    seq(|xs|, i requires 0 <= i < |xs| =>
      if FullWindow(xs, i, w) then Some(WindowMinimum(xs, i, w)) else None)
  }

  /** `rolling(window=w).max()`: the greatest value of a full trailing window. */
  function RollingMax(xs: seq<Option<real>>, w: int): (r: seq<Option<real>>)
    requires w >= 1
    ensures |r| == |xs|
    ensures forall i :: 0 <= i < |xs| ==> (r[i].Some? <==> FullWindow(xs, i, w))
    ensures forall i, k :: 0 <= i < |xs| && r[i].Some? && 0 <= k && i - w < k <= i ==>
      xs[k].Some? && xs[k].value <= r[i].value
    ensures forall i :: 0 <= i < |xs| && r[i].Some? ==> exists k :: 0 <= k && i - w < k <= i && xs[k] == r[i]
    ensures forall i :: 0 <= i < |xs| && r[i].Some? ==> xs[i].Some? && xs[i].value <= r[i].value
  {
    seq(|xs|, i requires 0 <= i < |xs| =>
      if FullWindow(xs, i, w) then Some(WindowMaximum(xs, i, w)) else None)
  }

  /** Every row of a full window contributes its value, and every value comes from such a row. */
  lemma WindowMembers(xs: seq<Option<real>>, i: int, w: int)
    requires 0 <= i < |xs| && FullWindow(xs, i, w)
    ensures forall k :: i - w < k <= i ==> xs[k].value in WindowValues(xs, i, w)
    ensures forall v :: v in WindowValues(xs, i, w) ==> exists k :: i - w < k <= i && xs[k] == Some(v)
  {
    var vs := WindowValues(xs, i, w);
    forall k | i - w < k <= i
      ensures xs[k].value in vs
    {
      assert vs[k - (i - w + 1)] == xs[k].value;
    }
    forall v | v in vs
      ensures exists k :: i - w < k <= i && xs[k] == Some(v)
    {
      var j :| 0 <= j < w && vs[j] == v;
      assert xs[i - w + 1 + j] == Some(v);
    }
  }

  /** The minimum of a full window, related back to the rows it was taken from. */
  function WindowMinimum(xs: seq<Option<real>>, i: int, w: int): (m: real)
    requires 0 <= i < |xs| && FullWindow(xs, i, w)
    ensures forall k :: i - w < k <= i ==> m <= xs[k].value
    ensures exists k :: i - w < k <= i && xs[k] == Some(m)
  {
    WindowMembers(xs, i, w);
    Minimum(WindowValues(xs, i, w))
  }

  /** The maximum of a full window, related back to the rows it was taken from. */
  function WindowMaximum(xs: seq<Option<real>>, i: int, w: int): (m: real)
    requires 0 <= i < |xs| && FullWindow(xs, i, w)
    ensures forall k :: i - w < k <= i ==> xs[k].value <= m
    ensures exists k :: i - w < k <= i && xs[k] == Some(m)
  {
    WindowMembers(xs, i, w);
    Maximum(WindowValues(xs, i, w))
  }

  function AvgColumn(rows: seq<StationRow>): (c: seq<Option<real>>)
    ensures |c| == |rows| && forall i :: 0 <= i < |rows| ==> c[i] == rows[i].windAvg
  {
    seq(|rows|, i requires 0 <= i < |rows| => rows[i].windAvg)
  }

  function MinColumn(rows: seq<StationRow>): (c: seq<Option<real>>)
    ensures |c| == |rows| && forall i :: 0 <= i < |rows| ==> c[i] == rows[i].windMin
  {
    seq(|rows|, i requires 0 <= i < |rows| => rows[i].windMin)
  }

  function MaxColumn(rows: seq<StationRow>): (c: seq<Option<real>>)
    ensures |c| == |rows| && forall i :: 0 <= i < |rows| ==> c[i] == rows[i].windMax
  {
    seq(|rows|, i requires 0 <= i < |rows| => rows[i].windMax)
  }

  /**
   The prepared station table: one row per reading in the same order, the
   average and minimum columns exchanged, the maximum untouched, and the three
   smoothed columns taken over the corrected columns.
   */
  function GetStationData(raw: seq<StationRecord>, window: int): (rows: seq<StationRow>)
    requires window >= 1
    ensures |rows| == |raw|
    ensures forall i :: 0 <= i < |raw| ==>
      && rows[i].datetime == raw[i].datetime
      && rows[i].windAvg == raw[i].windMin
      && rows[i].windMin == raw[i].windAvg
      && rows[i].windMax == raw[i].windMax
    ensures forall i :: 0 <= i < |raw| ==>
      && rows[i].smoothWindAvg == RollingMean(AvgColumn(rows), window)[i]
      && rows[i].smoothWindMin == RollingMin(MinColumn(rows), window)[i]
      && rows[i].smoothWindMax == RollingMax(MaxColumn(rows), window)[i]
  {
    var fixed := seq(|raw|, i requires 0 <= i < |raw| => SwapAvgMin(raw[i]));
    var avg := seq(|fixed|, i requires 0 <= i < |fixed| => fixed[i].windAvg);
    var lo := seq(|fixed|, i requires 0 <= i < |fixed| => fixed[i].windMin);
    var hi := seq(|fixed|, i requires 0 <= i < |fixed| => fixed[i].windMax);
    var smoothAvg := RollingMean(avg, window);
    var smoothMin := RollingMin(lo, window);
    var smoothMax := RollingMax(hi, window);
    var rows := seq(|raw|, i requires 0 <= i < |raw| =>
      StationRow(fixed[i].datetime, fixed[i].windAvg, fixed[i].windMin, fixed[i].windMax,
                 smoothAvg[i], smoothMin[i], smoothMax[i]));
    assert AvgColumn(rows) == avg;
    assert MinColumn(rows) == lo;
    assert MaxColumn(rows) == hi;
    rows
  }

  /** A one-row window is full exactly where the value is present, and holds just that value. */
  lemma UnitWindow(xs: seq<Option<real>>, i: int)
    requires 0 <= i < |xs|
    ensures FullWindow(xs, i, 1) <==> xs[i].Some?
    ensures xs[i].Some? ==> WindowValues(xs, i, 1) == [xs[i].value]
  {
  }

  lemma {:induction false} RollingMeanUnitWindow(xs: seq<Option<real>>)
    ensures RollingMean(xs, 1) == xs
  {
    forall i | 0 <= i < |xs|
      ensures RollingMean(xs, 1)[i] == xs[i]
    {
      UnitWindow(xs, i);
      if xs[i].Some? {
        var vs := WindowValues(xs, i, 1);
        assert Sum(vs) == xs[i].value + Sum(vs[1..]);
      }
    }
  }

  lemma {:induction false} RollingMinUnitWindow(xs: seq<Option<real>>)
    ensures RollingMin(xs, 1) == xs
  {
    forall i | 0 <= i < |xs|
      ensures RollingMin(xs, 1)[i] == xs[i]
    {
      UnitWindow(xs, i);
    }
  }

  lemma {:induction false} RollingMaxUnitWindow(xs: seq<Option<real>>)
    ensures RollingMax(xs, 1) == xs
  {
    forall i | 0 <= i < |xs|
      ensures RollingMax(xs, 1)[i] == xs[i]
    {
      UnitWindow(xs, i);
    }
  }

  /** With the default one-row window every smoothed column repeats its corrected column. */
  lemma UnitWindowIsIdentity(raw: seq<StationRecord>)
    ensures var rows := GetStationData(raw, 1);
      forall i :: 0 <= i < |rows| ==>
        && rows[i].smoothWindAvg == rows[i].windAvg
        && rows[i].smoothWindMin == rows[i].windMin
        && rows[i].smoothWindMax == rows[i].windMax
  {
    var rows := GetStationData(raw, 1);
    RollingMeanUnitWindow(AvgColumn(rows));
    RollingMinUnitWindow(MinColumn(rows));
    RollingMaxUnitWindow(MaxColumn(rows));
  }
}
