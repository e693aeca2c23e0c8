/**
 Axis labels for a list of instants (`generate_labels`, which getforecast.py
 and getstationdata.py define identically). A label is either the full
 date-and-time form or the time-of-day alone; the formatted strings are
 abstracted to the day and time of day they stand for. The printed forms stop
 at minutes; the model keeps the seconds.
 */
module Labels {
  import opened Common

  datatype Label = Full(day: int, time: int) | TimeOnly(time: int)

  /** Instant `i` falls on a different calendar day than the one before it (the first always does). */
  predicate StartsNewDay(dates: seq<Time>, i: int)
    requires 0 <= i < |dates|
  {
    i == 0 || DayOf(dates[i]) != DayOf(dates[i - 1])
  }

  /**
   One label per instant, in input order. `previous` plays the role of
   `previous_date`: it starts out missing, so the first label is always full.
   */
  method GenerateLabels(dates: seq<Time>) returns (labels: seq<Label>)
    ensures |labels| == |dates|
    ensures |dates| > 0 ==> labels[0].Full?
    ensures forall i :: 0 <= i < |dates| ==> (labels[i].Full? <==> StartsNewDay(dates, i))
    ensures forall i :: 0 <= i < |dates| ==> labels[i].time == TimeOfDay(dates[i])
    ensures forall i :: 0 <= i < |dates| && labels[i].Full? ==> labels[i].day == DayOf(dates[i])
  {
    labels := [];
    var previous: Option<int> := None;
    for i := 0 to |dates|
      invariant |labels| == i
      invariant i == 0 ==> previous == None
      invariant i > 0 ==> previous == Some(DayOf(dates[i - 1]))
      invariant forall k :: 0 <= k < i ==> (labels[k].Full? <==> StartsNewDay(dates, k))
      invariant forall k :: 0 <= k < i ==> labels[k].time == TimeOfDay(dates[k])
      invariant forall k :: 0 <= k < i && labels[k].Full? ==> labels[k].day == DayOf(dates[k])
    {
      var day := DayOf(dates[i]);
      if previous != Some(day) {
        labels := labels + [Full(day, TimeOfDay(dates[i]))];
        previous := Some(day);
      } else {
        labels := labels + [TimeOnly(TimeOfDay(dates[i]))];
      }
    }
  }

  /**
   On time-ordered instants a full label marks the first instant of each
   calendar day: no earlier instant shares its day.
   */
  lemma FullLabelMarksFirstOfDay(dates: seq<Time>, i: int)
    requires NonDecreasing(dates)
    requires 0 <= i < |dates|
    ensures StartsNewDay(dates, i) <==> forall j :: 0 <= j < i ==> DayOf(dates[j]) != DayOf(dates[i])
  {
    if i > 0 && DayOf(dates[i]) != DayOf(dates[i - 1]) {
      DayOfMonotone(dates[i - 1], dates[i]);
      forall j | 0 <= j < i
        ensures DayOf(dates[j]) != DayOf(dates[i])
      {
        DayOfMonotone(dates[j], dates[i - 1]);
      }
    }
  }
}
