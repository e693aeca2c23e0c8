/**
 `save_forecast` in saveforecast.py for one model response: the forecast
 table is trimmed to rows that are not in the past and have a wind speed,
 then distributed over hour buckets numbered down from `hours_to_show`.
 When bucket `hours_to_show` has no file yet (first run) the table is cut
 into chunks of four from its end; otherwise each bucket in turn receives
 the rows later than anything it already holds.

 Each loop is modelled as a plan (the appends it makes, the rows it leaves in
 `df`, and why it stopped) whose appends are then replayed on the archive in
 order. The first-run loop never reads the archive. The incremental loop
 reads only bucket `countdown`, which no earlier iteration has appended to
 (`ReadsUnwrittenBucket`), so its plan reads the archive as it was at the start.
 */
module SaveForecast {
  import opened Common
  import opened ForecastFrame
  import opened BucketStore
  import Location

  /** Rows at most this many seconds in the past are still saved. */
  const PastMarginSeconds: int := 120

  /** Why a loop ended. */
  datatype Stop =
    | Finished                    // the working table ran empty
    | CountdownExhausted          // `countdown` reached 0
    | NoNewData                   // a bucket already ends at `last_forecast_time`
    | MissingBucket(bucket: int)  // reading the bucket's table raised a KeyError

  /** The appends a loop makes, the rows it leaves in `df`, and why it stopped. */
  datatype Plan = Plan(writes: seq<Write>, rest: seq<ForecastRow>, stop: Stop)

  /** The archive after a loop, and the loop's plan. */
  datatype Outcome = Outcome(store: Store, plan: Plan)

  /** Every table belongs to an existing file. */
  predicate Consistent(store: Store)
  {
    store.tables.Keys <= store.files
  }

  /**
   The archive as a loop leaves it: every bucket holds its old rows and then
   the rows appended to it; tables and files appear only for buckets that
   received rows, plus the file a failed read creates.
   */
  function Finish(store: Store, plan: Plan, now: Time): (r: Store)
    ensures forall b :: Table(r, b) == Table(store, b) + Stamp(RowsFor(plan.writes, b), now)
    ensures r.tables.Keys == store.tables.Keys + Written(plan.writes)
    ensures r.files == store.files + Written(plan.writes) +
      (if plan.stop.MissingBucket? then {plan.stop.bucket} else {})
  {
    ApplyWritesTables(store, plan.writes, now);
    ApplyWritesKeys(store, plan.writes, now);
    ApplyWritesFiles(store, plan.writes, now);
    var written := ApplyWrites(store, plan.writes, now);
    if plan.stop.MissingBucket? then Touch(written, plan.stop.bucket) else written
  }

  /** The rows written, in reverse write order: for chunks cut from the end, their original order. */
  function Saved(writes: seq<Write>): seq<ForecastRow>
    decreases |writes|
  {
    if |writes| == 0 then [] else Saved(writes[1..]) + writes[0].rows
  }

  /** Every row of every append is among the rows written. */
  lemma {:induction false} SavedHoldsWrites(writes: seq<Write>)
    ensures forall j, x :: 0 <= j < |writes| && x in writes[j].rows ==> x in Saved(writes)
    decreases |writes|
  {
    if |writes| > 0 {
      SavedHoldsWrites(writes[1..]);
      forall j, x | 0 <= j < |writes| && x in writes[j].rows
        ensures x in Saved(writes)
      {
        if j > 0 {
          assert writes[j] == writes[1..][j - 1];
        }
      }
    }
  }

  /** The stored maximum of bucket `bucket`. */
  function Prev(store: Store, bucket: int): Option<Time>
  {
    LatestSaved(Table(store, bucket))
  }

  /** Appends go to `top`, `top - 1`, `top - 2`, ... in that order. */
  predicate CountsDown(writes: seq<Write>, top: int)
  {
    forall j :: 0 <= j < |writes| ==> writes[j].bucket == top - j
  }

  /** With one append per bucket counting down, each bucket receives exactly its own append. */
  lemma {:induction false} RowsForCountdown(writes: seq<Write>, top: int)
    requires CountsDown(writes, top)
    ensures forall b :: top - |writes| < b <= top ==> RowsFor(writes, b) == writes[top - b].rows
    ensures forall b :: b > top || b <= top - |writes| ==> RowsFor(writes, b) == []
    decreases |writes|
  {
    if |writes| > 0 {
      assert CountsDown(writes[1..], top - 1) by {
        forall j | 0 <= j < |writes[1..]|
          ensures writes[1..][j].bucket == top - 1 - j
        {
          assert writes[1..][j] == writes[j + 1];
        }
      }
      RowsForCountdown(writes[1..], top - 1);
      forall b | top - |writes| < b < top
        ensures RowsFor(writes, b) == writes[top - b].rows
      {
        assert writes[1..][top - 1 - b] == writes[top - b];
      }
    }
  }

  /** Replaying a counting-down plan changes exactly its buckets, each by its own append. */
  lemma ReplayCountdown(store: Store, writes: seq<Write>, top: int, now: Time)
    requires CountsDown(writes, top)
    ensures forall b :: top - |writes| < b <= top ==>
      Table(ApplyWrites(store, writes, now), b) == Table(store, b) + Stamp(writes[top - b].rows, now)
    ensures forall b :: b > top || b <= top - |writes| ==>
      Table(ApplyWrites(store, writes, now), b) == Table(store, b)
  {
    RowsForCountdown(writes, top);
    forall b
      ensures Table(ApplyWrites(store, writes, now), b) == Table(store, b) + Stamp(RowsFor(writes, b), now)
    {
      ApplyWritesContents(store, writes, now, b);
    }
  }

  /**
   `after` is `store` with bucket `top - j` extended by the `j`-th append,
   stamped with `now`, and every other bucket as it was.
   */
  ghost predicate AppendedCountingDown(store: Store, after: Store, writes: seq<Write>, top: int, now: Time)
  {
    && CountsDown(writes, top)
    && (forall b :: top - |writes| < b <= top ==> Table(after, b) == Table(store, b) + Stamp(writes[top - b].rows, now))
    && (forall b :: b > top || b <= top - |writes| ==> Table(after, b) == Table(store, b))
  }

  /** A counting-down run writes only to the buckets it counted through. */
  lemma WrittenWithin(writes: seq<Write>, top: int)
    requires CountsDown(writes, top)
    ensures forall b :: b in Written(writes) ==> top - |writes| < b <= top
  {
    RowsForCountdown(writes, top);
    forall b | b in Written(writes)
      ensures top - |writes| < b <= top
    {
      WrittenHasRows(writes, b);
    }
  }

  /** Finishing a counting-down plan gives each of its buckets its own append and changes nothing else. */
  lemma FinishCountdown(store: Store, p: Plan, top: int, now: Time)
    requires CountsDown(p.writes, top)
    ensures AppendedCountingDown(store, Finish(store, p, now), p.writes, top, now)
    ensures forall b :: b in Written(p.writes) ==> top - |p.writes| < b <= top
  {
    RowsForCountdown(p.writes, top);
    WrittenWithin(p.writes, top);
  }

  /**
   The two row filters: rows not older than two minutes before `now`, then
   rows whose wind speed is present. Both keep the surviving rows' order.
   */
  function Prepare(rows: seq<ForecastRow>, now: Time): (df: seq<ForecastRow>)
    ensures forall x :: x in df <==> x in rows && x.datetime > now - PastMarginSeconds && x.windSpeed.Some?
    ensures multiset(df) <= multiset(rows)
  {
    var recent := Filter(rows, (r: ForecastRow) => r.datetime > now - PastMarginSeconds);
    Filter(recent, (r: ForecastRow) => r.windSpeed.Some?)
  }

  /** In a time-ordered table the first row is earlier than every other row. */
  lemma HeadIsEarliest(rows: seq<ForecastRow>)
    requires |rows| > 0 && StrictlyIncreasing(Datetimes(rows))
    ensures StrictlyIncreasing(Datetimes(rows[1..]))
    ensures forall x :: x in rows[1..] ==> rows[0].datetime < x.datetime
  {
    var rest := rows[1..];
    assert Datetimes(rest) == Datetimes(rows)[1..];
    forall x | x in rest
      ensures rows[0].datetime < x.datetime
    {
      var k :| 0 <= k < |rest| && rest[k] == x;
      assert Datetimes(rows)[0] < Datetimes(rows)[k + 1];
    }
  }

  /** A row earlier than every row of a time-ordered table can go in front of it. */
  lemma EarliestInFront(first: ForecastRow, tail: seq<ForecastRow>)
    requires StrictlyIncreasing(Datetimes(tail))
    requires forall x :: x in tail ==> first.datetime < x.datetime
    ensures StrictlyIncreasing(Datetimes([first] + tail))
  {
    var r := [first] + tail;
    forall i, j | 0 <= i < j < |r|
      ensures Datetimes(r)[i] < Datetimes(r)[j]
    {
      if i == 0 {
        assert r[j] == tail[j - 1] && tail[j - 1] in tail;
      } else {
        assert Datetimes(tail)[i - 1] < Datetimes(tail)[j - 1];
      }
    }
  }

  /** Filtering keeps rows in their time order. */
  lemma {:induction false} FilterKeepsTimeOrder(rows: seq<ForecastRow>, keep: ForecastRow -> bool)
    requires StrictlyIncreasing(Datetimes(rows))
    ensures StrictlyIncreasing(Datetimes(Filter(rows, keep)))
    decreases |rows|
  {
    if |rows| > 0 {
      HeadIsEarliest(rows);
      FilterKeepsTimeOrder(rows[1..], keep);
      if keep(rows[0]) {
        EarliestInFront(rows[0], Filter(rows[1..], keep));
      }
    }
  }

  /** A time-ordered forecast table stays time-ordered after both filters. */
  lemma PrepareKeepsTimeOrder(rows: seq<ForecastRow>, now: Time)
    requires StrictlyIncreasing(Datetimes(rows))
    ensures StrictlyIncreasing(Datetimes(Prepare(rows, now)))
  {
    var recent := Filter(rows, (r: ForecastRow) => r.datetime > now - PastMarginSeconds);
    FilterKeepsTimeOrder(rows, (r: ForecastRow) => r.datetime > now - PastMarginSeconds);
    FilterKeepsTimeOrder(recent, (r: ForecastRow) => r.windSpeed.Some?);
  }


  /** Puts one append in front of the appends of the iterations after it. */
  function PlanPrepend(write: Write, p: Plan): (r: Plan)
    ensures |r.writes| == |p.writes| + 1 && r.writes[0] == write && r.writes[1..] == p.writes
    ensures forall j :: 1 <= j < |r.writes| ==> r.writes[j] == p.writes[j - 1]
    ensures Saved(r.writes) == Saved(p.writes) + write.rows
    ensures r.rest == p.rest && r.stop == p.stop
  {
    var writes := [write] + p.writes;
    assert writes[1..] == p.writes;
    Plan(writes, p.rest, p.stop)
  }

  /** `df.tail(4)` takes the last four rows, or all of them when fewer remain. */
  function TailStart(pending: seq<ForecastRow>): (cut: int)
    ensures 0 <= cut <= |pending| && |pending| - cut <= 4
    ensures |pending| > 0 ==> cut < |pending|
    ensures cut > 0 ==> cut == |pending| - 4
  {
    if |pending| < 4 then 0 else |pending| - 4
  }

  /**
   The first-run loop: while rows remain, the last four go to bucket
   `countdown`, are dropped, and `countdown` goes down by one, stopping when
   it reaches 0. What was saved, read back to front, is the end of the table.
   */
  function FirstRunPlan(pending: seq<ForecastRow>, countdown: int): (p: Plan)
    ensures p.stop == Finished || p.stop == CountdownExhausted
    ensures p.stop == Finished ==> p.rest == []
    ensures p.stop == CountdownExhausted ==> countdown >= 1 && |p.writes| == countdown
    ensures countdown >= 1 ==> |p.writes| <= countdown
    ensures CountsDown(p.writes, countdown)
    decreases |pending|
  {
    if |pending| == 0 then Plan([], pending, Finished)
    else
      var cut := TailStart(pending);
      var write := Write(countdown, pending[cut..]);
      if countdown - 1 == 0 then Plan([write], pending[..cut], CountdownExhausted)
      else PlanPrepend(write, FirstRunPlan(pending[..cut], countdown - 1))
  }

  /** The rows left over followed by the rows saved, back to front, are the whole working table. */
  lemma {:induction false} FirstRunCovers(pending: seq<ForecastRow>, countdown: int)
    ensures FirstRunPlan(pending, countdown).rest + Saved(FirstRunPlan(pending, countdown).writes) == pending
    decreases |pending|
  {
    if |pending| > 0 {
      var cut := TailStart(pending);
      if countdown - 1 == 0 {
        assert Saved([Write(countdown, pending[cut..])]) == pending[cut..];
        assert pending[..cut] + pending[cut..] == pending;
      } else {
        FirstRunStep(pending, countdown);
        FirstRunCovers(pending[..cut], countdown - 1);
        CoversPrepend(pending, cut, Write(countdown, pending[cut..]), FirstRunPlan(pending[..cut], countdown - 1));
      }
    }
  }

  /** The rows before `cut`, covered by a later plan, and the rows from `cut`, saved first, cover the table. */
  lemma CoversPrepend(pending: seq<ForecastRow>, cut: int, write: Write, inner: Plan)
    requires 0 <= cut <= |pending| && write.rows == pending[cut..]
    requires inner.rest + Saved(inner.writes) == pending[..cut]
    ensures PlanPrepend(write, inner).rest + Saved(PlanPrepend(write, inner).writes) == pending
  {
    calc {
      PlanPrepend(write, inner).rest + Saved(PlanPrepend(write, inner).writes);
      inner.rest + (Saved(inner.writes) + pending[cut..]);
      (inner.rest + Saved(inner.writes)) + pending[cut..];
      pending[..cut] + pending[cut..];
      pending;
    }
  }

  /**
   Block `j` of four rows counted from the end of the working table, clipped
   at its start: rows `[|pending| - 4(j+1), |pending| - 4j)`; none past the start.
   */
  function Chunk(pending: seq<ForecastRow>, j: int): (rows: seq<ForecastRow>)
    ensures 0 <= j && 4 * j < |pending| ==> 1 <= |rows| <= 4
    ensures 0 <= j && 4 * (j + 1) <= |pending| ==> |rows| == 4
  {
    if 0 <= j && 4 * j < |pending| then
      var lo := if |pending| - 4 * (j + 1) < 0 then 0 else |pending| - 4 * (j + 1);
      pending[lo .. |pending| - 4 * j]
    else []
  }

  predicate ChunksFromEnd(pending: seq<ForecastRow>, writes: seq<Write>)
  {
    forall j :: 0 <= j < |writes| ==> writes[j].rows == Chunk(pending, j) && 4 * j < |pending|
  }

  /** Dropping the last four rows shifts every later block down by one. */
  lemma ChunkOfPrefix(pending: seq<ForecastRow>, cut: int, j: int)
    requires |pending| >= 4 && cut == |pending| - 4 && 1 <= j
    ensures Chunk(pending[..cut], j - 1) == Chunk(pending, j)
  {
    var prefix := pending[..cut];
    assert |prefix| == cut;
    if 4 * j < |pending| {
      var lo := if |pending| - 4 * (j + 1) < 0 then 0 else |pending| - 4 * (j + 1);
      var hi := |pending| - 4 * j;
      assert hi <= cut && hi == cut - 4 * (j - 1);
      assert forall k :: lo <= k < hi ==> prefix[k] == pending[k];
      assert prefix[lo..hi] == pending[lo..hi];
      assert Chunk(prefix, j - 1) == prefix[lo..hi];
    } else {
      assert !(4 * (j - 1) < |prefix|);
    }
  }

  /** The first block is what `df.tail(4)` takes. */
  lemma FirstChunkIsTail(pending: seq<ForecastRow>)
    requires |pending| > 0
    ensures Chunk(pending, 0) == pending[TailStart(pending)..]
  {
  }

  /** The first iteration of a first run that goes on: its append, then the first run over the rest. */
  lemma FirstRunStep(pending: seq<ForecastRow>, countdown: int)
    requires |pending| > 0 && countdown - 1 != 0
    ensures FirstRunPlan(pending, countdown)
      == PlanPrepend(Write(countdown, pending[TailStart(pending)..]),
                     FirstRunPlan(pending[..TailStart(pending)], countdown - 1))
  {
  }

  /** Blocks from the end of the rows before the last four, behind those four, are blocks from the end. */
  lemma ChunksPrepend(pending: seq<ForecastRow>, write: Write, inner: Plan)
    requires |pending| > 0 && write.rows == pending[TailStart(pending)..]
    requires ChunksFromEnd(pending[..TailStart(pending)], inner.writes)
    ensures ChunksFromEnd(pending, PlanPrepend(write, inner).writes)
  {
    var cut := TailStart(pending);
    var p := PlanPrepend(write, inner);
    FirstChunkIsTail(pending);
    if |inner.writes| > 0 {
      assert |pending[..cut]| > 0;
    }
    forall j | 0 <= j < |p.writes|
      ensures p.writes[j].rows == Chunk(pending, j) && 4 * j < |pending|
    {
      if j > 0 {
        assert p.writes[j] == inner.writes[j - 1];
        ChunkOfPrefix(pending, cut, j);
      }
    }
  }

  /** The first run cuts the working table into blocks of four from its end. */
  lemma {:induction false} FirstRunChunks(pending: seq<ForecastRow>, countdown: int)
    ensures ChunksFromEnd(pending, FirstRunPlan(pending, countdown).writes)
    decreases |pending|
  {
    if |pending| > 0 {
      var cut := TailStart(pending);
      FirstChunkIsTail(pending);
      if countdown - 1 != 0 {
        FirstRunStep(pending, countdown);
        FirstRunChunks(pending[..cut], countdown - 1);
        ChunksPrepend(pending, Write(countdown, pending[cut..]), FirstRunPlan(pending[..cut], countdown - 1));
      }
    }
  }

  /** Each first-run chunk holds one to four rows. */
  lemma ChunkBounds(pending: seq<ForecastRow>, countdown: int)
    ensures var p := FirstRunPlan(pending, countdown);
      forall j :: 0 <= j < |p.writes| ==> 1 <= |p.writes[j].rows| <= 4
  {
    FirstRunChunks(pending, countdown);
  }

  /** Every chunk but the earliest holds four rows, and so does that one if rows are left over. */
  predicate FullChunks(p: Plan)
  {
    forall j :: 0 <= j < |p.writes| && (j < |p.writes| - 1 || |p.rest| > 0) ==> |p.writes[j].rows| == 4
  }

  /** Only the earliest chunk can be short, and only when it used up the table. */
  lemma {:induction false} ChunksFull(pending: seq<ForecastRow>, countdown: int)
    ensures FullChunks(FirstRunPlan(pending, countdown))
    decreases |pending|
  {
    if |pending| > 0 {
      var cut := TailStart(pending);
      var p := FirstRunPlan(pending, countdown);
      if countdown - 1 != 0 {
        var inner := FirstRunPlan(pending[..cut], countdown - 1);
        ChunksFull(pending[..cut], countdown - 1);
        assert p == PlanPrepend(Write(countdown, pending[cut..]), inner);
        if |inner.writes| > 0 || |inner.rest| > 0 {
          assert |pending[..cut]| > 0;
        }
        forall j | 1 <= j < |p.writes| && (j < |p.writes| - 1 || |p.rest| > 0)
          ensures |p.writes[j].rows| == 4
        {
          assert p.writes[j] == inner.writes[j - 1];
        }
      }
    }
  }

  /**
   With enough buckets (or a `hours_to_show` below 1, whose countdown never
   reaches 0) the first run saves every row, each exactly once.
   */
  lemma FirstRunSavesAll(pending: seq<ForecastRow>, countdown: int)
    requires countdown < 1 || |pending| <= 4 * countdown
    ensures FirstRunPlan(pending, countdown).rest == []
    ensures Saved(FirstRunPlan(pending, countdown).writes) == pending
  {
    FirstRunLeavesNothing(pending, countdown);
    FirstRunCovers(pending, countdown);
  }

  /** With enough buckets the first run empties the working table. */
  lemma {:induction false} FirstRunLeavesNothing(pending: seq<ForecastRow>, countdown: int)
    requires countdown < 1 || |pending| <= 4 * countdown
    ensures FirstRunPlan(pending, countdown).rest == []
    decreases |pending|
  {
    if |pending| > 0 {
      var cut := TailStart(pending);
      if countdown - 1 == 0 {
        assert cut == 0;
      } else {
        FirstRunStep(pending, countdown);
        FirstRunLeavesNothing(pending[..cut], countdown - 1);
      }
    }
  }


  /**
   The archive after the first-run loop: bucket `countdown - j` has chunk `j`
   appended, stamped with `now`; every other bucket is as it was.
   */
  function FirstRun(store: Store, pending: seq<ForecastRow>, countdown: int, now: Time): (o: Outcome)
    ensures o.plan == FirstRunPlan(pending, countdown)
    ensures AppendedCountingDown(store, o.store, o.plan.writes, countdown, now)
    ensures o.store.tables.Keys == store.tables.Keys + Written(o.plan.writes)
    ensures o.store.files == store.files + Written(o.plan.writes)
  {
    var p := FirstRunPlan(pending, countdown);
    FinishCountdown(store, p, countdown, now);
    Outcome(Finish(store, p, now), p)
  }


  /** One incremental iteration's split of the working rows. */
  datatype Split = Split(newer: seq<ForecastRow>, kept: seq<ForecastRow>)

  /** The row test of `df["datetime"] > prev`. */
  function NewerThan(prev: Option<Time>): ForecastRow -> bool
  {
    (r: ForecastRow) => Newer(r, prev)
  }

  /** Its complement: the rows `drop` leaves behind. */
  function NotNewerThan(prev: Option<Time>): ForecastRow -> bool
  {
    (r: ForecastRow) => !Newer(r, prev)
  }

  /**
   `df[df["datetime"] > prev]` and the `drop` of the same rows: the rows
   later than the stored maximum, and the rest, each in table order.
   */
  function SplitNewer(pending: seq<ForecastRow>, prev: Option<Time>): (s: Split)
    ensures forall x :: x in s.newer <==> x in pending && Newer(x, prev)
    ensures forall x :: x in s.kept <==> x in pending && !Newer(x, prev)
  {
    Split(Filter(pending, NewerThan(prev)), Filter(pending, NotNewerThan(prev)))
  }

  /** The split loses and invents no rows. */
  lemma SplitPartition(pending: seq<ForecastRow>, prev: Option<Time>)
    ensures multiset(SplitNewer(pending, prev).newer) + multiset(SplitNewer(pending, prev).kept) == multiset(pending)
  {
    FilterPartition(pending, NewerThan(prev), NotNewerThan(prev));
  }

  /** When nothing is later than the stored maximum, nothing is appended and nothing dropped. */
  lemma SplitNothingNewer(pending: seq<ForecastRow>, prev: Option<Time>)
    requires forall x :: x in pending ==> !Newer(x, prev)
    ensures SplitNewer(pending, prev) == Split([], pending)
  {
    FilterNone(pending, NewerThan(prev));
    FilterAll(pending, NotNewerThan(prev));
  }

  /** What the incremental loop reads from the archive: the stored maximum of every table. */
  function Maxima(store: Store): (m: map<int, Option<Time>>)
    ensures m.Keys == store.tables.Keys
    ensures forall b :: b in m ==> m[b] == Prev(store, b)
  {
    map b | b in store.tables :: Prev(store, b)
  }

  /** The buckets the incremental loop can still visit: existing tables at or below `countdown`. */
  function Remaining(maxima: map<int, Option<Time>>, countdown: int): set<int>
  {
    set k | k in maxima && k <= countdown
  }

  /** Visiting an existing bucket leaves strictly fewer to visit. */
  lemma RemainingShrinks(maxima: map<int, Option<Time>>, countdown: int)
    requires countdown in maxima
    ensures Remaining(maxima, countdown - 1) < Remaining(maxima, countdown)
  {
    assert countdown in Remaining(maxima, countdown);
    assert countdown !in Remaining(maxima, countdown - 1);
  }

  /**
   The incremental loop over the tables' stored maxima. Every iteration reads
   bucket `countdown` (a missing table ends the loop), stops if the bucket
   already ends at `last`, and otherwise appends the newer rows, drops them,
   and counts down, stopping after bucket 1.
   */
  function IncrementalPlan(maxima: map<int, Option<Time>>, pending: seq<ForecastRow>, last: Option<Time>,
                           countdown: int): (p: Plan)
    ensures Walked(maxima, last, countdown, p)
    decreases Remaining(maxima, countdown)
  {
    if countdown !in maxima || SameTime(last, maxima[countdown]) then
      WalkStops(maxima, last, countdown, pending);
      Plan([], pending, if countdown !in maxima then MissingBucket(countdown) else NoNewData)
    else
      var s := SplitNewer(pending, maxima[countdown]);
      var write := Write(countdown, s.newer);
      if countdown - 1 == 0 then
        WalkLastBucket(maxima, last, write, s.kept);
        Plan([write], s.kept, CountdownExhausted)
      else
        RemainingShrinks(maxima, countdown);
        var inner := IncrementalPlan(maxima, s.kept, last, countdown - 1);
        WalkPrepend(maxima, last, countdown, write, inner);
        PlanPrepend(write, inner)
  }

  /** How the incremental loop ends, as `IncrementalPlan` states it, for the loop started at `countdown`. */
  ghost predicate Walked(maxima: map<int, Option<Time>>, last: Option<Time>, countdown: int, p: Plan)
  {
    && p.stop != Finished
    && (p.stop == CountdownExhausted ==> countdown >= 1 && |p.writes| == countdown)
    && (p.stop.MissingBucket? ==> p.stop.bucket == countdown - |p.writes| && p.stop.bucket !in maxima)
    && (p.stop == NoNewData ==>
          countdown - |p.writes| in maxima && SameTime(last, maxima[countdown - |p.writes|]))
    && (forall b :: countdown - |p.writes| < b <= countdown ==> b in maxima && !SameTime(last, maxima[b]))
    && (countdown >= 1 ==> |p.writes| <= countdown)
    && CountsDown(p.writes, countdown)
  }

  /** A loop that stops at its first bucket, because the table is missing or already ends at `last`. */
  lemma WalkStops(maxima: map<int, Option<Time>>, last: Option<Time>, countdown: int, pending: seq<ForecastRow>)
    requires countdown !in maxima || SameTime(last, maxima[countdown])
    ensures Walked(maxima, last, countdown,
                   Plan([], pending, if countdown !in maxima then MissingBucket(countdown) else NoNewData))
  {
  }

  /** A loop that appends to bucket 1 and then runs out of buckets. */
  lemma WalkLastBucket(maxima: map<int, Option<Time>>, last: Option<Time>, write: Write, kept: seq<ForecastRow>)
    requires 1 in maxima && !SameTime(last, maxima[1]) && write.bucket == 1
    ensures Walked(maxima, last, 1, Plan([write], kept, CountdownExhausted))
  {
  }

  /** One more iteration in front of a loop that started a bucket lower. */
  lemma WalkPrepend(maxima: map<int, Option<Time>>, last: Option<Time>, countdown: int, write: Write, inner: Plan)
    requires countdown in maxima && !SameTime(last, maxima[countdown])
    requires write.bucket == countdown && countdown - 1 != 0
    requires Walked(maxima, last, countdown - 1, inner)
    ensures Walked(maxima, last, countdown, PlanPrepend(write, inner))
  {
    var p := PlanPrepend(write, inner);
    assert CountsDown(p.writes, countdown) by {
      forall j | 1 <= j < |p.writes|
        ensures p.writes[j].bucket == countdown - j
      {
        assert p.writes[j] == inner.writes[j - 1];
      }
    }
  }

  /** What the loop does after its first append: stop when that was bucket 1, else go on one bucket lower. */
  function TailPlan(maxima: map<int, Option<Time>>, kept: seq<ForecastRow>, last: Option<Time>, countdown: int)
    : (p: Plan)
    requires countdown in maxima
    decreases Remaining(maxima, countdown), 0
  {
    if countdown - 1 == 0 then Plan([], kept, CountdownExhausted)
    else
      RemainingShrinks(maxima, countdown);
      IncrementalPlan(maxima, kept, last, countdown - 1)
  }

  /** The first iteration of a loop that got past its checks: its append, then the tail of the loop. */
  lemma IncrementalStep(maxima: map<int, Option<Time>>, pending: seq<ForecastRow>, last: Option<Time>,
                        countdown: int)
    requires countdown in maxima && !SameTime(last, maxima[countdown])
    ensures var s := SplitNewer(pending, maxima[countdown]);
      IncrementalPlan(maxima, pending, last, countdown)
        == PlanPrepend(Write(countdown, s.newer), TailPlan(maxima, s.kept, last, countdown))
    ensures countdown - 1 != 0 ==> Remaining(maxima, countdown - 1) < Remaining(maxima, countdown)
  {
    var s := SplitNewer(pending, maxima[countdown]);
    if countdown - 1 == 0 {
      assert PlanPrepend(Write(countdown, s.newer), Plan([], s.kept, CountdownExhausted))
        == Plan([Write(countdown, s.newer)], s.kept, CountdownExhausted);
    } else {
      RemainingShrinks(maxima, countdown);
    }
  }

  /** A loop whose first bucket is missing or already up to date appends nothing and leaves `df` whole. */
  lemma IncrementalHalts(maxima: map<int, Option<Time>>, pending: seq<ForecastRow>, last: Option<Time>,
                         countdown: int)
    requires countdown !in maxima || SameTime(last, maxima[countdown])
    ensures IncrementalPlan(maxima, pending, last, countdown)
      == Plan([], pending, if countdown !in maxima then MissingBucket(countdown) else NoNewData)
  {
  }

  /** Every row an append carries comes from the working rows. */
  predicate Drawn(writes: seq<Write>, pending: seq<ForecastRow>)
  {
    forall j, x :: 0 <= j < |writes| && x in writes[j].rows ==> x in pending
  }

  /** Rows split in two, one part split again: the three parts still make up the whole. */
  lemma RegroupParts(whole: seq<ForecastRow>, taken: seq<ForecastRow>, kept: seq<ForecastRow>,
                     rest: seq<ForecastRow>, saved: seq<ForecastRow>)
    requires multiset(taken) + multiset(kept) == multiset(whole)
    requires multiset(rest) + multiset(saved) == multiset(kept)
    ensures multiset(rest) + multiset(saved + taken) == multiset(whole)
  {
  }

  /** The multiset balance of an incremental plan: what it saved and what it left make up the working rows. */
  ghost predicate Balanced(pending: seq<ForecastRow>, p: Plan)
  {
    multiset(p.rest) + multiset(Saved(p.writes)) == multiset(pending)
  }

  /** Balance is kept by one more iteration in front that splits the working rows. */
  lemma BalancePrepend(pending: seq<ForecastRow>, countdown: int, s: Split, inner: Plan)
    requires multiset(s.newer) + multiset(s.kept) == multiset(pending)
    requires Balanced(s.kept, inner)
    ensures Balanced(pending, PlanPrepend(Write(countdown, s.newer), inner))
  {
    RegroupParts(pending, s.newer, s.kept, inner.rest, Saved(inner.writes));
  }

  /** The incremental loop neither loses nor invents rows: what it saved and what it left make up `df`. */
  lemma {:induction false} IncrementalPartition(maxima: map<int, Option<Time>>, pending: seq<ForecastRow>,
                                                last: Option<Time>, countdown: int)
    ensures Balanced(pending, IncrementalPlan(maxima, pending, last, countdown))
    decreases Remaining(maxima, countdown)
  {
    if countdown in maxima && !SameTime(last, maxima[countdown]) {
      var s := SplitNewer(pending, maxima[countdown]);
      IncrementalStep(maxima, pending, last, countdown);
      if countdown - 1 != 0 {
        IncrementalPartition(maxima, s.kept, last, countdown - 1);
      }
      SplitPartition(pending, maxima[countdown]);
      BalancePrepend(pending, countdown, s, TailPlan(maxima, s.kept, last, countdown));
    } else {
      IncrementalHalts(maxima, pending, last, countdown);
    }
  }

  /** A loop that continues after appending to bucket `countdown` draws its rows from the working rows. */
  lemma DrawnStep(maxima: map<int, Option<Time>>, pending: seq<ForecastRow>, last: Option<Time>, countdown: int)
    requires countdown in maxima && !SameTime(last, maxima[countdown]) && countdown - 1 != 0
    requires Drawn(IncrementalPlan(maxima, SplitNewer(pending, maxima[countdown]).kept, last, countdown - 1).writes,
                   SplitNewer(pending, maxima[countdown]).kept)
    ensures Drawn(IncrementalPlan(maxima, pending, last, countdown).writes, pending)
  {
    var s := SplitNewer(pending, maxima[countdown]);
    var inner := IncrementalPlan(maxima, s.kept, last, countdown - 1);
    var p := IncrementalPlan(maxima, pending, last, countdown);
    IncrementalStep(maxima, pending, last, countdown);
    forall j, x | 0 <= j < |p.writes| && x in p.writes[j].rows
      ensures x in pending
    {
      if j > 0 {
        assert p.writes[j] == inner.writes[j - 1];
      }
    }
  }

  /** Every incremental append holds working rows. */
  lemma {:induction false} IncrementalDrawn(maxima: map<int, Option<Time>>, pending: seq<ForecastRow>,
                                            last: Option<Time>, countdown: int)
    ensures Drawn(IncrementalPlan(maxima, pending, last, countdown).writes, pending)
    decreases Remaining(maxima, countdown)
  {
    if countdown in maxima && !SameTime(last, maxima[countdown]) {
      var s := SplitNewer(pending, maxima[countdown]);
      IncrementalStep(maxima, pending, last, countdown);
      if countdown - 1 != 0 {
        IncrementalDrawn(maxima, s.kept, last, countdown - 1);
        DrawnStep(maxima, pending, last, countdown);
      }
    } else {
      IncrementalHalts(maxima, pending, last, countdown);
    }
  }

  /** No earlier iteration claimed `x`: it is not newer than the maximum of any bucket in `(b, countdown]`. */
  predicate UnclaimedAbove(maxima: map<int, Option<Time>>, x: ForecastRow, b: int, countdown: int)
  {
    forall c :: b < c <= countdown && c in maxima ==> !Newer(x, maxima[c])
  }

  /** Looking one bucket further up adds that bucket's test. */
  lemma UnclaimedAboveStep(maxima: map<int, Option<Time>>, x: ForecastRow, b: int, countdown: int)
    requires b < countdown && countdown in maxima
    ensures UnclaimedAbove(maxima, x, b, countdown) <==>
      UnclaimedAbove(maxima, x, b, countdown - 1) && !Newer(x, maxima[countdown])
  {
  }

  /** Row `x` is in the `j`-th append exactly when it is a working row later than bucket `countdown - j`'s maximum that no higher bucket took. */
  ghost predicate Claimed(maxima: map<int, Option<Time>>, pending: seq<ForecastRow>, countdown: int,
                          writes: seq<Write>, j: int, x: ForecastRow)
    requires 0 <= j < |writes|
  {
    x in writes[j].rows <==>
      x in pending && countdown - j in maxima && Newer(x, maxima[countdown - j])
      && UnclaimedAbove(maxima, x, countdown - j, countdown)
  }

  /** Every append holds exactly the rows its bucket claims. */
  ghost predicate ClaimsRows(maxima: map<int, Option<Time>>, pending: seq<ForecastRow>, countdown: int, p: Plan)
  {
    forall j, x :: 0 <= j < |p.writes| ==> Claimed(maxima, pending, countdown, p.writes, j, x)
  }

  /** The rows left over are exactly the working rows no visited bucket took. */
  ghost predicate RestUnclaimed(maxima: map<int, Option<Time>>, pending: seq<ForecastRow>, countdown: int, p: Plan)
  {
    forall x :: x in p.rest <==> x in pending && UnclaimedAbove(maxima, x, countdown - |p.writes|, countdown)
  }

  /**
   Claiming is kept by one more iteration in front: bucket `countdown` takes
   the newer rows, the iterations after it claim from the rest.
   */
  lemma ClaimsPrepend(maxima: map<int, Option<Time>>, pending: seq<ForecastRow>, countdown: int,
                      s: Split, inner: Plan)
    requires countdown in maxima
    requires forall x :: x in s.newer <==> x in pending && Newer(x, maxima[countdown])
    requires forall x :: x in s.kept <==> x in pending && !Newer(x, maxima[countdown])
    requires ClaimsRows(maxima, s.kept, countdown - 1, inner)
    ensures ClaimsRows(maxima, pending, countdown, PlanPrepend(Write(countdown, s.newer), inner))
  {
    var p := PlanPrepend(Write(countdown, s.newer), inner);
    forall j, x | 0 <= j < |p.writes|
      ensures Claimed(maxima, pending, countdown, p.writes, j, x)
    {
      if j > 0 {
        assert Claimed(maxima, s.kept, countdown - 1, inner.writes, j - 1, x);
        UnclaimedAboveStep(maxima, x, countdown - j, countdown);
      }
    }
  }

  /** Which rows each iteration appends: the newer rows among those the higher buckets left. */
  lemma {:induction false} IncrementalClaims(maxima: map<int, Option<Time>>, pending: seq<ForecastRow>,
                                             last: Option<Time>, countdown: int)
    ensures ClaimsRows(maxima, pending, countdown, IncrementalPlan(maxima, pending, last, countdown))
    decreases Remaining(maxima, countdown)
  {
    if countdown in maxima && !SameTime(last, maxima[countdown]) {
      var s := SplitNewer(pending, maxima[countdown]);
      IncrementalStep(maxima, pending, last, countdown);
      if countdown - 1 != 0 {
        IncrementalClaims(maxima, s.kept, last, countdown - 1);
      }
      ClaimsPrepend(maxima, pending, countdown, s, TailPlan(maxima, s.kept, last, countdown));
    } else {
      IncrementalHalts(maxima, pending, last, countdown);
    }
  }

  /** A loop that continues after appending to bucket `countdown` leaves what the rest of the loop leaves. */
  lemma RestStep(maxima: map<int, Option<Time>>, pending: seq<ForecastRow>, last: Option<Time>, countdown: int)
    requires countdown in maxima && !SameTime(last, maxima[countdown]) && countdown - 1 != 0
    requires RestUnclaimed(maxima, SplitNewer(pending, maxima[countdown]).kept, countdown - 1,
                           IncrementalPlan(maxima, SplitNewer(pending, maxima[countdown]).kept, last, countdown - 1))
    ensures RestUnclaimed(maxima, pending, countdown, IncrementalPlan(maxima, pending, last, countdown))
  {
    var p := IncrementalPlan(maxima, pending, last, countdown);
    IncrementalStep(maxima, pending, last, countdown);
    forall x
      ensures x in p.rest <==> x in pending && UnclaimedAbove(maxima, x, countdown - |p.writes|, countdown)
    {
      UnclaimedAboveStep(maxima, x, countdown - |p.writes|, countdown);
    }
  }

  /** Which rows the incremental loop leaves in `df`: those no visited bucket took. */
  lemma {:induction false} IncrementalRest(maxima: map<int, Option<Time>>, pending: seq<ForecastRow>,
                                           last: Option<Time>, countdown: int)
    ensures RestUnclaimed(maxima, pending, countdown, IncrementalPlan(maxima, pending, last, countdown))
    decreases Remaining(maxima, countdown)
  {
    if countdown in maxima && !SameTime(last, maxima[countdown]) {
      var s := SplitNewer(pending, maxima[countdown]);
      IncrementalStep(maxima, pending, last, countdown);
      if countdown - 1 == 0 {
        forall x
          ensures x in s.kept <==> x in pending && UnclaimedAbove(maxima, x, countdown - 1, countdown)
        {
          UnclaimedAboveStep(maxima, x, countdown - 1, countdown);
        }
      } else {
        IncrementalRest(maxima, s.kept, last, countdown - 1);
        RestStep(maxima, pending, last, countdown);
      }
    } else {
      IncrementalHalts(maxima, pending, last, countdown);
    }
  }

  /**
   The bucket an iteration reads has not been appended to by the iterations
   before it, so its stored maximum is the one it had when the loop started.
   */
  lemma ReadsUnwrittenBucket(store: Store, pending: seq<ForecastRow>, last: Option<Time>, countdown: int,
                             now: Time, j: int)
    requires 0 <= j <= |IncrementalPlan(Maxima(store), pending, last, countdown).writes|
    ensures var done := IncrementalPlan(Maxima(store), pending, last, countdown).writes[..j];
      Table(ApplyWrites(store, done, now), countdown - j) == Table(store, countdown - j)
    ensures var done := IncrementalPlan(Maxima(store), pending, last, countdown).writes[..j];
      countdown - j in ApplyWrites(store, done, now).tables <==> countdown - j in store.tables
  {
    var done := IncrementalPlan(Maxima(store), pending, last, countdown).writes[..j];
    assert CountsDown(done, countdown);
    ReplayCountdown(store, done, countdown, now);
    ApplyWritesKeys(store, done, now);
    WrittenWithin(done, countdown);
  }

  /** A counting-down plan whose buckets all have tables creates no table, and no file but a failed read's. */
  lemma FinishWithinTables(store: Store, p: Plan, top: int, now: Time)
    requires CountsDown(p.writes, top)
    requires forall b :: top - |p.writes| < b <= top ==> b in store.tables
    ensures Finish(store, p, now).tables.Keys == store.tables.Keys
    ensures Consistent(store) ==>
      Finish(store, p, now).files == store.files + (if p.stop.MissingBucket? then {p.stop.bucket} else {})
  {
    WrittenWithin(p.writes, top);
    assert Written(p.writes) <= store.tables.Keys by {
      forall b | b in Written(p.writes)
        ensures b in store.tables
      {
      }
    }
  }

  /**
   The archive after the incremental loop: bucket `countdown - j` has the
   `j`-th iteration's rows appended, stamped with `now`, every other bucket
   is as it was, no table appears, and the only file that can appear is the
   one whose read failed.
   */
  function Incremental(store: Store, pending: seq<ForecastRow>, last: Option<Time>, countdown: int, now: Time)
    : (o: Outcome)
    ensures o.plan == IncrementalPlan(Maxima(store), pending, last, countdown)
    ensures AppendedCountingDown(store, o.store, o.plan.writes, countdown, now)
    ensures o.store.tables.Keys == store.tables.Keys
    ensures Written(o.plan.writes) <= store.tables.Keys
    ensures o.store.files == store.files + Written(o.plan.writes) +
      (if o.plan.stop.MissingBucket? then {o.plan.stop.bucket} else {})
    ensures Consistent(store) ==>
      o.store.files == store.files + (if o.plan.stop.MissingBucket? then {o.plan.stop.bucket} else {})
  {
    var p := IncrementalPlan(Maxima(store), pending, last, countdown);
    FinishCountdown(store, p, countdown, now);
    FinishWithinTables(store, p, countdown, now);
    Outcome(Finish(store, p, now), p)
  }

  /** The first run takes all its rows from the working table. */
  lemma FirstRunDrawn(pending: seq<ForecastRow>, countdown: int)
    ensures Drawn(FirstRunPlan(pending, countdown).writes, pending)
  {
    var p := FirstRunPlan(pending, countdown);
    FirstRunCovers(pending, countdown);
    SavedHoldsWrites(p.writes);
    forall j, x | 0 <= j < |p.writes| && x in p.writes[j].rows
      ensures x in pending
    {
      assert x in Saved(p.writes);
      assert x in p.rest + Saved(p.writes);
    }
  }

  /**
   One model response saved: the two filters, `last_forecast_time` taken once
   from what survives them, then the incremental loop when bucket
   `hours_to_show` has a file and the first-run loop otherwise. Either way the
   buckets from `hours_to_show` down each get one append, at most
   `hours_to_show` of them when that is positive, and every table keeps a file.
   */
  function SaveModelForecast(store: Store, rows: seq<ForecastRow>, hours: int, now: Time): (o: Outcome)
    ensures var df := Prepare(rows, now);
      o.plan == if hours in store.files then IncrementalPlan(Maxima(store), df, Latest(df), hours)
                else FirstRunPlan(df, hours)
    ensures o.store.tables.Keys == store.tables.Keys + Written(o.plan.writes)
    ensures o.store.files == store.files + Written(o.plan.writes) +
      (if o.plan.stop.MissingBucket? then {o.plan.stop.bucket} else {})
    ensures AppendedCountingDown(store, o.store, o.plan.writes, hours, now)
    ensures hours >= 1 ==> |o.plan.writes| <= hours
    ensures Consistent(store) ==> Consistent(o.store)
    ensures hours !in store.files ==> o.plan.stop == Finished || o.plan.stop == CountdownExhausted
    ensures hours in store.files ==> o.plan.stop != Finished
  {
    var df := Prepare(rows, now);
    if hours in store.files then Incremental(store, df, Latest(df), hours, now) else FirstRun(store, df, hours, now)
  }

  /** Every row a run appends is a row of the response that is not in the past and has a wind speed. */
  lemma SavedRowsPassFilters(store: Store, rows: seq<ForecastRow>, hours: int, now: Time)
    ensures Drawn(SaveModelForecast(store, rows, hours, now).plan.writes, Prepare(rows, now))
    ensures var o := SaveModelForecast(store, rows, hours, now);
      forall j, x :: 0 <= j < |o.plan.writes| && x in o.plan.writes[j].rows ==>
        x in rows && x.datetime > now - PastMarginSeconds && x.windSpeed.Some?
  {
    var df := Prepare(rows, now);
    if hours in store.files {
      IncrementalDrawn(Maxima(store), df, Latest(df), hours);
    } else {
      FirstRunDrawn(df, hours);
    }
  }

  /** No iteration of a plan appends any row. */
  ghost predicate NothingAppended(p: Plan)
  {
    forall j :: 0 <= j < |p.writes| ==> p.writes[j].rows == []
  }

  /** A second loop `q` after a first loop `p` appended nothing, and fails on a read only where `p` did. */
  ghost predicate Quiet(q: Plan, p: Plan)
  {
    NothingAppended(q) && (q.stop.MissingBucket? ==> q.stop == p.stop)
  }

  /** The maxima `after` a loop `p`: each bucket it appended to moves up to the later of its maximum and the rows appended. */
  ghost predicate MaximaAfter(before: map<int, Option<Time>>, after: map<int, Option<Time>>, p: Plan, countdown: int)
  {
    && after.Keys == before.Keys
    && (forall b :: b in before && countdown - |p.writes| < b <= countdown ==>
          after[b] == Later(before[b], Latest(p.writes[countdown - b].rows)))
    && (forall b :: b in before && !(countdown - |p.writes| < b <= countdown) ==> after[b] == before[b])
  }

  /** A bucket that received rows newer than its maximum, from rows ending at `Latest(pending)`, now ends there. */
  lemma NewerRowsEndAtLatest(pending: seq<ForecastRow>, prev: Option<Time>)
    requires |SplitNewer(pending, prev).newer| > 0
    ensures Later(prev, Latest(SplitNewer(pending, prev).newer)) == Latest(pending)
    ensures Latest(pending).Some?
  {
    var newer := SplitNewer(pending, prev).newer;
    var last := Latest(pending);
    assert newer[0] in newer;
    var x :| x in pending && x.datetime == last.value;
    assert Newer(x, prev);
    LatestIs(newer, x);
  }

  /** The maxima after a loop, seen from the loop after its first iteration. */
  lemma MaximaAfterTail(before: map<int, Option<Time>>, after: map<int, Option<Time>>, write: Write, inner: Plan,
                        countdown: int)
    requires countdown in before && countdown in after && after[countdown] == before[countdown]
    requires MaximaAfter(before, after, PlanPrepend(write, inner), countdown)
    ensures MaximaAfter(before, after, inner, countdown - 1)
  {
    var p := PlanPrepend(write, inner);
    forall b | b in before && countdown - 1 - |inner.writes| < b <= countdown - 1
      ensures after[b] == Later(before[b], Latest(inner.writes[countdown - 1 - b].rows))
    {
      assert p.writes[countdown - b] == inner.writes[countdown - 1 - b];
    }
  }

  /** An empty append in front of a quiet loop keeps it quiet. */
  lemma QuietPrepend(q: Plan, p: Plan, bucket: int, write: Write)
    requires Quiet(q, p)
    ensures Quiet(PlanPrepend(Write(bucket, []), q), PlanPrepend(write, p))
  {
  }

  /** A first loop that stopped at its first bucket left that bucket as it was, so the second stops there too. */
  lemma RerunStopsAtOnce(before: map<int, Option<Time>>, after: map<int, Option<Time>>,
                         pending: seq<ForecastRow>, countdown: int)
    requires countdown !in before || SameTime(Latest(pending), before[countdown])
    requires MaximaAfter(before, after, IncrementalPlan(before, pending, Latest(pending), countdown), countdown)
    ensures Quiet(IncrementalPlan(after, pending, Latest(pending), countdown),
                  IncrementalPlan(before, pending, Latest(pending), countdown))
  {
    if countdown in before {
      assert after[countdown] == before[countdown];
    }
  }

  /** A first bucket that received rows now ends at `last_forecast_time`, so the second loop stops there. */
  lemma RerunCaughtUp(before: map<int, Option<Time>>, after: map<int, Option<Time>>,
                      pending: seq<ForecastRow>, countdown: int)
    requires countdown in before && !SameTime(Latest(pending), before[countdown])
    requires |SplitNewer(pending, before[countdown]).newer| > 0
    requires MaximaAfter(before, after, IncrementalPlan(before, pending, Latest(pending), countdown), countdown)
    ensures Quiet(IncrementalPlan(after, pending, Latest(pending), countdown),
                  IncrementalPlan(before, pending, Latest(pending), countdown))
  {
    var s := SplitNewer(pending, before[countdown]);
    IncrementalStep(before, pending, Latest(pending), countdown);
    assert after[countdown] == Later(before[countdown], Latest(s.newer));
    NewerRowsEndAtLatest(pending, before[countdown]);
  }

  /** A first bucket that received nothing is unchanged: the second loop passes it the same way. */
  lemma RerunPassesEmpty(before: map<int, Option<Time>>, after: map<int, Option<Time>>,
                         pending: seq<ForecastRow>, countdown: int)
    requires countdown in before && !SameTime(Latest(pending), before[countdown])
    requires |SplitNewer(pending, before[countdown]).newer| == 0
    requires MaximaAfter(before, after, IncrementalPlan(before, pending, Latest(pending), countdown), countdown)
    ensures SplitNewer(pending, before[countdown]) == Split([], pending)
    ensures countdown in after && after[countdown] == before[countdown]
    ensures countdown - 1 != 0 ==>
      MaximaAfter(before, after, IncrementalPlan(before, pending, Latest(pending), countdown - 1), countdown - 1)
  {
    var last := Latest(pending);
    var s := SplitNewer(pending, before[countdown]);
    IncrementalStep(before, pending, last, countdown);
    assert after[countdown] == Later(before[countdown], Latest(s.newer));
    assert forall x :: x in pending ==> !Newer(x, before[countdown]);
    SplitNothingNewer(pending, before[countdown]);
    if countdown - 1 != 0 {
      MaximaAfterTail(before, after, Write(countdown, s.newer), TailPlan(before, s.kept, last, countdown), countdown);
    }
  }

  /** Passing an unchanged bucket with an empty append keeps the second loop quiet. */
  lemma RerunPassStep(before: map<int, Option<Time>>, after: map<int, Option<Time>>,
                      pending: seq<ForecastRow>, countdown: int)
    requires countdown in before && !SameTime(Latest(pending), before[countdown])
    requires SplitNewer(pending, before[countdown]) == Split([], pending)
    requires countdown in after && after[countdown] == before[countdown]
    requires countdown - 1 != 0 ==>
      Quiet(IncrementalPlan(after, pending, Latest(pending), countdown - 1),
            IncrementalPlan(before, pending, Latest(pending), countdown - 1))
    ensures Quiet(IncrementalPlan(after, pending, Latest(pending), countdown),
                  IncrementalPlan(before, pending, Latest(pending), countdown))
  {
    var last := Latest(pending);
    IncrementalStep(before, pending, last, countdown);
    IncrementalStep(after, pending, last, countdown);
    QuietPrepend(TailPlan(after, pending, last, countdown), TailPlan(before, pending, last, countdown),
                 countdown, Write(countdown, []));
  }

  /**
   Running the incremental loop again, over the maxima the first loop left
   and with the same working rows, appends nothing: the first bucket that
   received rows now ends at `last_forecast_time`, and every bucket before it
   is unchanged and again receives nothing.
   */
  lemma {:induction false} IncrementalRerun(before: map<int, Option<Time>>, after: map<int, Option<Time>>,
                                            pending: seq<ForecastRow>, countdown: int)
    requires MaximaAfter(before, after, IncrementalPlan(before, pending, Latest(pending), countdown), countdown)
    ensures Quiet(IncrementalPlan(after, pending, Latest(pending), countdown),
                  IncrementalPlan(before, pending, Latest(pending), countdown))
    decreases Remaining(before, countdown)
  {
    if countdown !in before || SameTime(Latest(pending), before[countdown]) {
      RerunStopsAtOnce(before, after, pending, countdown);
    } else if |SplitNewer(pending, before[countdown]).newer| > 0 {
      RerunCaughtUp(before, after, pending, countdown);
    } else {
      RerunPassesEmpty(before, after, pending, countdown);
      if countdown - 1 != 0 {
        RemainingShrinks(before, countdown);
        IncrementalRerun(before, after, pending, countdown - 1);
      }
      RerunPassStep(before, after, pending, countdown);
    }
  }

  /** The maxima a second run reads are the first run's maxima moved up by its appends. */
  lemma MaximaAfterFinish(store: Store, p: Plan, top: int, now: Time)
    requires CountsDown(p.writes, top)
    requires forall b :: top - |p.writes| < b <= top ==> b in store.tables
    ensures MaximaAfter(Maxima(store), Maxima(Finish(store, p, now)), p, top)
  {
    var after := Finish(store, p, now);
    FinishCountdown(store, p, top, now);
    FinishWithinTables(store, p, top, now);
    forall b | b in store.tables && top - |p.writes| < b <= top
      ensures Prev(after, b) == Later(Prev(store, b), Latest(p.writes[top - b].rows))
    {
      LatestSavedAfterAppend(Table(store, b), p.writes[top - b].rows, now);
    }
  }

  /** A run that appends nothing and fails, if at all, on a file that exists leaves the archive as it was. */
  lemma FinishQuiet(store: Store, q: Plan, now: Time)
    requires NothingAppended(q)
    requires q.stop.MissingBucket? ==> q.stop.bucket in store.files
    ensures Finish(store, q, now) == store
  {
    ApplyEmptyWrites(store, q.writes, now);
  }

  /** Every bucket the incremental loop appends to has a table. */
  lemma IncrementalVisitsTables(store: Store, pending: seq<ForecastRow>, last: Option<Time>, countdown: int)
    ensures var p := IncrementalPlan(Maxima(store), pending, last, countdown);
      forall b :: countdown - |p.writes| < b <= countdown ==> b in store.tables
  {
  }

  /** The incremental loop's archive, replayed once more with the same rows, stays as it is. */
  lemma IncrementalFinishTwice(store: Store, pending: seq<ForecastRow>, countdown: int, now: Time)
    ensures var once := Finish(store, IncrementalPlan(Maxima(store), pending, Latest(pending), countdown), now);
      Finish(once, IncrementalPlan(Maxima(once), pending, Latest(pending), countdown), now) == once
  {
    var last := Latest(pending);
    var p := IncrementalPlan(Maxima(store), pending, last, countdown);
    var once := Finish(store, p, now);
    IncrementalVisitsTables(store, pending, last, countdown);
    MaximaAfterFinish(store, p, countdown, now);
    IncrementalRerun(Maxima(store), Maxima(once), pending, countdown);
    FinishQuiet(once, IncrementalPlan(Maxima(once), pending, last, countdown), now);
  }

  /** The incremental loop run twice with the same rows at the same time leaves the archive as one run did. */
  lemma IncrementalTwice(store: Store, pending: seq<ForecastRow>, countdown: int, now: Time)
    ensures var once := Incremental(store, pending, Latest(pending), countdown, now).store;
      Incremental(once, pending, Latest(pending), countdown, now).store == once
  {
    IncrementalFinishTwice(store, pending, countdown, now);
  }

  /** On a time-ordered table the last row is the latest, and it is in the tail the first chunk takes. */
  lemma TailHoldsLatest(pending: seq<ForecastRow>)
    requires |pending| > 0 && StrictlyIncreasing(Datetimes(pending))
    ensures Latest(pending[TailStart(pending)..]) == Latest(pending)
    ensures Latest(pending).Some?
  {
    var x := pending[|pending| - 1];
    var tail := pending[TailStart(pending)..];
    forall y | y in pending
      ensures y.datetime <= x.datetime
    {
      var k :| 0 <= k < |pending| && pending[k] == y;
      if k < |pending| - 1 {
        assert Datetimes(pending)[k] < Datetimes(pending)[|pending| - 1];
      }
    }
    assert x == tail[|tail| - 1];
    LatestIs(pending, x);
    LatestIs(tail, x);
  }

  /**
   A first run followed by a run with the same rows: the second finds bucket
   `hours_to_show` ending at `last_forecast_time` and appends nothing. An
   empty table writes nothing, so the second run is a first run again.
   */
  lemma FirstRunThenIncremental(store: Store, pending: seq<ForecastRow>, countdown: int, now: Time)
    requires Consistent(store) && countdown !in store.files
    requires StrictlyIncreasing(Datetimes(pending))
    ensures var once := FirstRun(store, pending, countdown, now).store;
      if |pending| == 0 then once == store
      else countdown in once.files && Incremental(once, pending, Latest(pending), countdown, now).store == once
  {
    var once := FirstRun(store, pending, countdown, now).store;
    if |pending| > 0 {
      FirstRunEndsAtLatest(store, pending, countdown, now);
      var q := IncrementalPlan(Maxima(once), pending, Latest(pending), countdown);
      IncrementalHalts(Maxima(once), pending, Latest(pending), countdown);
      FinishQuiet(once, q, now);
    }
  }

  /** After a first run on a non-empty time-ordered table, bucket `hours_to_show` exists and ends at its latest row. */
  lemma FirstRunEndsAtLatest(store: Store, pending: seq<ForecastRow>, countdown: int, now: Time)
    requires Consistent(store) && countdown !in store.files
    requires |pending| > 0 && StrictlyIncreasing(Datetimes(pending))
    ensures var once := FirstRun(store, pending, countdown, now).store;
      && countdown in once.files && countdown in Maxima(once)
      && SameTime(Latest(pending), Maxima(once)[countdown])
  {
    var p := FirstRunPlan(pending, countdown);
    var once := Finish(store, p, now);
    FirstRunChunks(pending, countdown);
    FirstChunkIsTail(pending);
    var tail := pending[TailStart(pending)..];
    assert p.writes[0].rows == tail;
    FinishCountdown(store, p, countdown, now);
    WrittenHasRows(p.writes, countdown);
    RowsForCountdown(p.writes, countdown);
    assert countdown in once.files;
    assert Table(once, countdown) == [] + Stamp(tail, now);
    LatestSavedAfterAppend([], tail, now);
    TailHoldsLatest(pending);
  }

  /**
   Saving the same time-ordered response again at the same time changes
   nothing in a consistent archive: the loops stop on the bucket that already
   ends at `last_forecast_time`.
   */
  lemma SaveTwiceIsSaveOnce(store: Store, rows: seq<ForecastRow>, hours: int, now: Time)
    requires Consistent(store)
    requires StrictlyIncreasing(Datetimes(rows))
    ensures var once := SaveModelForecast(store, rows, hours, now).store;
      SaveModelForecast(once, rows, hours, now).store == once
  {
    var df := Prepare(rows, now);
    if hours in store.files {
      IncrementalTwice(store, df, hours, now);
    } else {
      PrepareKeepsTimeOrder(rows, now);
      FirstRunThenIncremental(store, df, hours, now);
    }
  }

  /** What stops `save_forecast` before anything is saved. */
  datatype SaveError = UnsupportedLocation | BadFrame(frameError: FrameError)

  /**
   `save_forecast` for one model response: the location is checked first
   (an unknown one raises before anything is requested), then the response's
   table is built and saved.
   */
  function SaveResponse(location: string, start: Time, end: Time, interval: int, utcOffset: int, vars: Variables,
                        store: Store, hours: int, now: Time): (r: Result<Outcome, SaveError>)
    requires interval > 0
    ensures Location.Resolve(location).Err? ==> r == Err(UnsupportedLocation)
    ensures Location.Resolve(location).Ok? && BuildFrame(start, end, interval, utcOffset, vars).Err? ==>
      r == Err(BadFrame(ColumnLengthMismatch))
    ensures r.Ok? <==> Location.Resolve(location).Ok? && BuildFrame(start, end, interval, utcOffset, vars).Ok?
    ensures r.Ok? ==>
      r.value.plan == SaveModelForecast(store, BuildFrame(start, end, interval, utcOffset, vars).value, hours, now).plan
    ensures r.Ok? ==> AppendedCountingDown(store, r.value.store, r.value.plan.writes, hours, now)
    ensures r.Ok? ==> r.value.store.tables.Keys == store.tables.Keys + Written(r.value.plan.writes)
    ensures r.Ok? ==>
      r.value.store.files == store.files + Written(r.value.plan.writes) +
        (if r.value.plan.stop.MissingBucket? then {r.value.plan.stop.bucket} else {})
    ensures r.Ok? && Consistent(store) ==> Consistent(r.value.store)
  {
    match Location.Resolve(location)
    case Err(_) => Err(UnsupportedLocation)
    case Ok(_) =>
      match BuildFrame(start, end, interval, utcOffset, vars)
      case Err(e) => Err(BadFrame(e))
      case Ok(frame) => Ok(SaveModelForecast(store, frame, hours, now))
  }

  /**
   Saving the same response again at the same time leaves a consistent
   archive as the first save left it: the grid is time-ordered, so the second
   save finds nothing new.
   */
  lemma SaveResponseTwice(location: string, start: Time, end: Time, interval: int, utcOffset: int,
                          vars: Variables, store: Store, hours: int, now: Time)
    requires interval > 0
    requires Consistent(store)
    ensures var r := SaveResponse(location, start, end, interval, utcOffset, vars, store, hours, now);
      r.Ok? ==>
        var again := SaveResponse(location, start, end, interval, utcOffset, vars, r.value.store, hours, now);
        again.Ok? && again.value.store == r.value.store
  {
    var built := BuildFrame(start, end, interval, utcOffset, vars);
    if Location.Resolve(location).Ok? && built.Ok? {
      BuildFrameIsGrid(start, end, interval, utcOffset, vars);
      assert StrictlyIncreasing(Datetimes(built.value));
      SaveTwiceIsSaveOnce(store, built.value, hours, now);
    }
  }
}
