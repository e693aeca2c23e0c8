/**
 The forecast archive saveforecast.py keeps for one location and one model:
 one HDF5 file per bucket number, each holding a `data` table of saved rows.
 Appending is the only mutation. A file can exist without a table: opening
 a missing file to read it creates the file and then fails on the table.
 */
module BucketStore {
  import opened Common
  import opened ForecastFrame

  /** A forecast row as archived, with the time of the run that saved it. */
  datatype SavedRow = SavedRow(row: ForecastRow, saveTime: Time)

  /** The bucket files that exist, and the `data` table of each file that has one. */
  datatype Store = Store(files: set<int>, tables: map<int, seq<SavedRow>>)

  /** One `store.append("data", ...)` call: the rows handed to bucket `bucket`. */
  datatype Write = Write(bucket: int, rows: seq<ForecastRow>)

  /** Every row written by one run carries that run's clock reading and is otherwise unchanged. */
  function Stamp(rows: seq<ForecastRow>, now: Time): (saved: seq<SavedRow>)
    ensures |saved| == |rows|
    ensures forall i :: 0 <= i < |rows| ==> saved[i].row == rows[i] && saved[i].saveTime == now
  {
    seq(|rows|, i requires 0 <= i < |rows| => SavedRow(rows[i], now))
  }

  /** The rows of a bucket's table, or none when it has no table. */
  function Table(store: Store, bucket: int): seq<SavedRow>
  {
    if bucket in store.tables then store.tables[bucket] else []
  }

  /**
   `HDFStore.append` in table format: an empty frame writes nothing at all;
   otherwise the rows go after the bucket's existing rows, creating the file
   and the table if needed. No other bucket is touched.
   */
  function Append(store: Store, bucket: int, saved: seq<SavedRow>): (r: Store)
    ensures |saved| == 0 ==> r == store
    ensures |saved| > 0 ==> r.files == store.files + {bucket}
    ensures |saved| > 0 ==> r.tables.Keys == store.tables.Keys + {bucket}
    ensures Table(r, bucket) == Table(store, bucket) + saved
    ensures forall k :: k != bucket ==> Table(r, k) == Table(store, k)
    ensures forall k :: k != bucket && k in store.tables ==> k in r.tables && r.tables[k] == store.tables[k]
  {
    if |saved| == 0 then store
    else Store(store.files + {bucket}, store.tables[bucket := Table(store, bucket) + saved])
  }

  /** Opening a bucket file in append mode creates it, even when the read that follows fails. */
  function Touch(store: Store, bucket: int): (r: Store)
    ensures r.files == store.files + {bucket}
    ensures r.tables == store.tables
  {
    store.(files := store.files + {bucket})
  }

  /** A run's appends, replayed in the order they were made. */
  function ApplyWrites(store: Store, writes: seq<Write>, now: Time): Store
    decreases |writes|
  {
    if |writes| == 0 then store
    else ApplyWrites(Append(store, writes[0].bucket, Stamp(writes[0].rows, now)), writes[1..], now)
  }

  /** Everything written to `bucket`, in the order written. */
  function RowsFor(writes: seq<Write>, bucket: int): seq<ForecastRow>
    decreases |writes|
  {
    if |writes| == 0 then []
    else (if writes[0].bucket == bucket then writes[0].rows else []) + RowsFor(writes[1..], bucket)
  }

  /** The buckets that received at least one row. */
  function Written(writes: seq<Write>): set<int>
    decreases |writes|
  {
    if |writes| == 0 then {}
    else (if |writes[0].rows| > 0 then {writes[0].bucket} else {}) + Written(writes[1..])
  }

  lemma StampConcat(a: seq<ForecastRow>, b: seq<ForecastRow>, now: Time)
    ensures Stamp(a + b, now) == Stamp(a, now) + Stamp(b, now)
  {
  }

  /**
   After a run every bucket holds its old rows followed by, stamped, exactly
   the rows written to it, in write order.
   */
  lemma {:induction false} ApplyWritesContents(store: Store, writes: seq<Write>, now: Time, b: int)
    ensures Table(ApplyWrites(store, writes, now), b) == Table(store, b) + Stamp(RowsFor(writes, b), now)
    decreases |writes|
  {
    if |writes| > 0 {
      var w := writes[0];
      var next := Append(store, w.bucket, Stamp(w.rows, now));
      var mine := if w.bucket == b then w.rows else [];
      ApplyWritesContents(next, writes[1..], now, b);
      AppendOne(store, w, now, b);
      StampedTwice(Table(store, b), Table(next, b), Table(ApplyWrites(store, writes, now), b),
                   mine, RowsFor(writes[1..], b), now);
    }
  }

  /** Two stamped appends in a row are one append of both parts. */
  lemma StampedTwice(t0: seq<SavedRow>, t1: seq<SavedRow>, t2: seq<SavedRow>,
                     first: seq<ForecastRow>, second: seq<ForecastRow>, now: Time)
    requires t1 == t0 + Stamp(first, now)
    requires t2 == t1 + Stamp(second, now)
    ensures t2 == t0 + Stamp(first + second, now)
  {
    StampConcat(first, second, now);
  }

  /** One append extends bucket `b` by the write's rows if they are for `b`, and by nothing otherwise. */
  lemma AppendOne(store: Store, w: Write, now: Time, b: int)
    ensures Table(Append(store, w.bucket, Stamp(w.rows, now)), b)
      == Table(store, b) + Stamp(if w.bucket == b then w.rows else [], now)
  {
    if w.bucket != b {
      assert Stamp([], now) == [];
    }
  }

  /** Every bucket's table after a run, as `ApplyWritesContents` states it for one bucket. */
  lemma ApplyWritesTables(store: Store, writes: seq<Write>, now: Time)
    ensures forall b :: Table(ApplyWrites(store, writes, now), b) == Table(store, b) + Stamp(RowsFor(writes, b), now)
  {
    forall b
      ensures Table(ApplyWrites(store, writes, now), b) == Table(store, b) + Stamp(RowsFor(writes, b), now)
    {
      ApplyWritesContents(store, writes, now, b);
    }
  }

  /** A bucket counts as written exactly when some rows were handed to it. */
  lemma {:induction false} WrittenHasRows(writes: seq<Write>, b: int)
    ensures b in Written(writes) <==> |RowsFor(writes, b)| > 0
    decreases |writes|
  {
    if |writes| > 0 {
      WrittenHasRows(writes[1..], b);
    }
  }

  /** A run creates exactly the tables of the buckets it handed rows to. */
  lemma {:induction false} ApplyWritesKeys(store: Store, writes: seq<Write>, now: Time)
    ensures ApplyWrites(store, writes, now).tables.Keys == store.tables.Keys + Written(writes)
    decreases |writes|
  {
    if |writes| > 0 {
      ApplyWritesKeys(Append(store, writes[0].bucket, Stamp(writes[0].rows, now)), writes[1..], now);
    }
  }

  /** Appends that carry no rows leave the archive exactly as it was. */
  lemma {:induction false} ApplyEmptyWrites(store: Store, writes: seq<Write>, now: Time)
    requires forall j :: 0 <= j < |writes| ==> writes[j].rows == []
    ensures ApplyWrites(store, writes, now) == store
    decreases |writes|
  {
    if |writes| > 0 {
      assert writes[0].rows == [];
      assert forall j :: 0 <= j < |writes[1..]| ==> writes[1..][j] == writes[j + 1];
      ApplyEmptyWrites(store, writes[1..], now);
    }
  }

  /** A run creates exactly the files of the buckets it handed rows to. */
  lemma {:induction false} ApplyWritesFiles(store: Store, writes: seq<Write>, now: Time)
    ensures ApplyWrites(store, writes, now).files == store.files + Written(writes)
    decreases |writes|
  {
    if |writes| > 0 {
      ApplyWritesFiles(Append(store, writes[0].bucket, Stamp(writes[0].rows, now)), writes[1..], now);
    }
  }

  /** The latest of some instants, or none (NaT) when there are none. */
  function MaxTime(ts: seq<Time>): (m: Option<Time>)
    ensures m.None? <==> |ts| == 0
    ensures m.Some? ==> m.value in ts && forall t :: t in ts ==> t <= m.value
    decreases |ts|
  {
    if |ts| == 0 then None
    else
      assert ts == [ts[0]] + ts[1..];
      match MaxTime(ts[1..])
      case None => Some(ts[0])
      case Some(rest) => Some(if ts[0] >= rest then ts[0] else rest)
  }

  /** The larger of two instants, where a missing one loses. */
  function Later(a: Option<Time>, b: Option<Time>): (m: Option<Time>)
    ensures m.None? <==> a.None? && b.None?
    ensures a.Some? ==> m.value >= a.value
    ensures b.Some? ==> m.value >= b.value
    ensures m == a || m == b
  {
    if a.None? then b
    else if b.None? then a
    else if a.value >= b.value then a else b
  }

  /** An instant of `ts` that no other instant of `ts` exceeds is its maximum. */
  lemma MaxTimeIs(ts: seq<Time>, m: Time)
    requires m in ts && forall t :: t in ts ==> t <= m
    ensures MaxTime(ts) == Some(m)
  {
  }

  /** The latest instant of a concatenation is the later of the parts' latest instants. */
  lemma MaxTimeConcat(a: seq<Time>, b: seq<Time>)
    ensures MaxTime(a + b) == Later(MaxTime(a), MaxTime(b))
  {
    var l := Later(MaxTime(a), MaxTime(b));
    if l.Some? {
      assert forall t :: t in a + b ==> t in a || t in b;
      MaxTimeIs(a + b, l.value);
    } else {
      assert a + b == [];
    }
  }

  function SavedTimes(saved: seq<SavedRow>): (ts: seq<Time>)
    ensures |ts| == |saved| && forall i :: 0 <= i < |saved| ==> ts[i] == saved[i].row.datetime
  {
    seq(|saved|, i requires 0 <= i < |saved| => saved[i].row.datetime)
  }

  /** The maximum of the row times is the time of some row, and no row is later. */
  lemma MaxTimeOfRows(rows: seq<ForecastRow>)
    ensures MaxTime(Datetimes(rows)).Some? ==> exists x :: x in rows && x.datetime == MaxTime(Datetimes(rows)).value
    ensures MaxTime(Datetimes(rows)).Some? ==> forall y :: y in rows ==> y.datetime <= MaxTime(Datetimes(rows)).value
  {
    var ts := Datetimes(rows);
    var m := MaxTime(ts);
    if m.Some? {
      var i :| 0 <= i < |ts| && ts[i] == m.value;
      assert rows[i] in rows && rows[i].datetime == m.value;
      forall y | y in rows
        ensures y.datetime <= m.value
      {
        var k :| 0 <= k < |rows| && rows[k] == y;
        assert ts[k] in ts;
      }
    }
  }

  /** `df["datetime"].max()` over forecast rows: NaT for no rows, else the time of a row no other row passes. */
  function Latest(rows: seq<ForecastRow>): (m: Option<Time>)
    ensures m.None? <==> |rows| == 0
    ensures m.Some? ==> (exists x :: x in rows && x.datetime == m.value)
    ensures m.Some? ==> forall y :: y in rows ==> y.datetime <= m.value
  {
    MaxTimeOfRows(rows);
    MaxTime(Datetimes(rows))
  }

  /** A row that no other row passes gives the maximum. */
  lemma LatestIs(rows: seq<ForecastRow>, x: ForecastRow)
    requires x in rows
    requires forall y :: y in rows ==> y.datetime <= x.datetime
    ensures Latest(rows) == Some(x.datetime)
  {
    var m := Latest(rows);
    var z :| z in rows && z.datetime == m.value;
  }

  /** The stored maximum of a bucket table, read back from its index. */
  function LatestSaved(saved: seq<SavedRow>): Option<Time>
  {
    MaxTime(SavedTimes(saved))
  }

  /** Appending stamped rows to a table moves its stored maximum to the later of the two. */
  lemma LatestSavedAfterAppend(saved: seq<SavedRow>, rows: seq<ForecastRow>, now: Time)
    ensures LatestSaved(saved + Stamp(rows, now)) == Later(LatestSaved(saved), Latest(rows))
  {
    assert SavedTimes(saved + Stamp(rows, now)) == SavedTimes(saved) + Datetimes(rows);
    MaxTimeConcat(SavedTimes(saved), Datetimes(rows));
  }

  /** `row.datetime > prev`, where comparing with NaT is false. */
  predicate Newer(row: ForecastRow, prev: Option<Time>)
  {
    prev.Some? && row.datetime > prev.value
  }

  /** `a == b` on timestamps, where NaT equals nothing, not even NaT. */
  predicate SameTime(a: Option<Time>, b: Option<Time>)
  {
    a.Some? && b.Some? && a.value == b.value
  }
}
