/**
 Shared vocabulary of the wind-forecast model: missing cells, results,
 whole-second timestamps with their calendar day, and order-preserving
 row filtering (pandas' boolean-mask selection).
 */
module Common {

  /** A cell that may be missing: pandas' NaN for numbers and NaT for times. */
  datatype Option<T> = None | Some(value: T)

  /** The outcome of a step that can raise. */
  datatype Result<T, E> = Ok(value: T) | Err(error: E)

  /** An instant as whole seconds; wall-clock time once a UTC offset is added. */
  type Time = int

  const SecondsPerDay: int := 86400

  /** Calendar day of an instant (floor division, like `datetime.date()`). */
  function DayOf(t: Time): int
  {
    t / SecondsPerDay
  }

  /** Seconds since midnight of the instant's own day. */
  function TimeOfDay(t: Time): int
  {
    t % SecondsPerDay
  }

  /** Later instants never fall on an earlier calendar day. */
  lemma DayOfMonotone(a: Time, b: Time)
    requires a <= b
    ensures DayOf(a) <= DayOf(b)
  {
  }

  predicate StrictlyIncreasing(s: seq<Time>)
  {
    forall i, j :: 0 <= i < j < |s| ==> s[i] < s[j]
  }

  /** No instant occurs twice. */
  predicate Distinct(s: seq<Time>)
  {
    forall i, j :: 0 <= i < j < |s| ==> s[i] != s[j]
  }

  predicate NonDecreasing(s: seq<Time>)
  {
    forall i, j :: 0 <= i < j < |s| ==> s[i] <= s[j]
  }

  /** The elements of `s` that satisfy `keep`, in their original order. */
  function Filter<T(!new)>(s: seq<T>, keep: T -> bool): (r: seq<T>)
    ensures |r| <= |s|
    ensures forall x :: x in r <==> x in s && keep(x)
    ensures multiset(r) <= multiset(s)
    decreases |s|
  {
    if |s| == 0 then []
    else
      assert s == [s[0]] + s[1..];
      (if keep(s[0]) then [s[0]] else []) + Filter(s[1..], keep)
  }

  /** Filtering commutes with concatenation, i.e. it never reorders rows. */
  lemma {:induction false} FilterConcat<T(!new)>(a: seq<T>, b: seq<T>, keep: T -> bool)
    ensures Filter(a + b, keep) == Filter(a, keep) + Filter(b, keep)
    decreases |a|
  {
    if |a| == 0 {
      assert a + b == b;
    } else {
      assert (a + b)[1..] == a[1..] + b;
      FilterConcat(a[1..], b, keep);
    }
  }

  /** Splitting a sequence by a test and by its negation loses and invents nothing. */
  lemma {:induction false} FilterPartition<T(!new)>(s: seq<T>, keep: T -> bool, drop: T -> bool)
    requires forall x :: x in s ==> drop(x) == !keep(x)
    ensures multiset(Filter(s, keep)) + multiset(Filter(s, drop)) == multiset(s)
    decreases |s|
  {
    if |s| > 0 {
      var rest := s[1..];
      assert s == [s[0]] + rest;
      assert forall x :: x in rest ==> x in s;
      FilterPartition(rest, keep, drop);
      assert s[0] in s;
    }
  }

  /** Filtering only looks at the elements themselves: tests that agree on them agree on the result. */
  lemma {:induction false} FilterAgree<T(!new)>(s: seq<T>, p: T -> bool, q: T -> bool)
    requires forall x :: x in s ==> p(x) == q(x)
    ensures Filter(s, p) == Filter(s, q)
    decreases |s|
  {
    if |s| > 0 {
      assert s[0] in s;
      assert forall x :: x in s[1..] ==> x in s;
      FilterAgree(s[1..], p, q);
    }
  }

  /** A test every element passes filters nothing out. */
  lemma {:induction false} FilterAll<T(!new)>(s: seq<T>, keep: T -> bool)
    requires forall x :: x in s ==> keep(x)
    ensures Filter(s, keep) == s
    decreases |s|
  {
    if |s| > 0 {
      assert keep(s[0]) by { assert s[0] in s; }
      assert forall x :: x in s[1..] ==> x in s;
      FilterAll(s[1..], keep);
      calc {
        Filter(s, keep);
        [s[0]] + Filter(s[1..], keep);
        [s[0]] + s[1..];
        s;
      }
    }
  }

  /** A test no element passes filters everything out. */
  lemma {:induction false} FilterNone<T(!new)>(s: seq<T>, keep: T -> bool)
    requires forall x :: x in s ==> !keep(x)
    ensures Filter(s, keep) == []
    decreases |s|
  {
    if |s| > 0 {
      assert s[0] in s;
      assert forall x :: x in s[1..] ==> x in s;
      FilterNone(s[1..], keep);
    }
  }
}
