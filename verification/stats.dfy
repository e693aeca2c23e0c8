/**
 Exact arithmetic over the values of one rolling window: sum, count,
 extremes and mean. Counting in `real` keeps the mean's reasoning within
 real arithmetic.
 */
module Stats {

  function Sum(vs: seq<real>): real
    decreases |vs|
  {
    if |vs| == 0 then 0.0 else vs[0] + Sum(vs[1..])
  }

  /** The number of values, as the real divisor of the mean. */
  function Count(vs: seq<real>): (c: real)
    ensures c == |vs| as real
    decreases |vs|
  {
    if |vs| == 0 then 0.0 else 1.0 + Count(vs[1..])
  }

  function Minimum(vs: seq<real>): (m: real)
    requires |vs| > 0
    ensures m in vs
    ensures forall v :: v in vs ==> m <= v
    decreases |vs|
  {
    if |vs| == 1 then vs[0]
    else
      var rest := Minimum(vs[1..]);
      assert vs == [vs[0]] + vs[1..];
      if vs[0] <= rest then vs[0] else rest
  }

  function Maximum(vs: seq<real>): (m: real)
    requires |vs| > 0
    ensures m in vs
    ensures forall v :: v in vs ==> v <= m
    decreases |vs|
  {
    if |vs| == 1 then vs[0]
    else
      var rest := Maximum(vs[1..]);
      assert vs == [vs[0]] + vs[1..];
      if vs[0] >= rest then vs[0] else rest
  }

  /** A sum of values, each at least `lo`, is at least `lo` times their count. */
  lemma {:induction false} SumAtLeast(vs: seq<real>, lo: real)
    requires forall v :: v in vs ==> lo <= v
    ensures Count(vs) * lo <= Sum(vs)
    decreases |vs|
  {
    if |vs| > 0 {
      var rest := vs[1..];
      assert vs[0] in vs;
      assert forall v :: v in rest ==> v in vs;
      SumAtLeast(rest, lo);
      assert Count(rest) * lo <= Sum(rest);
      assert lo <= vs[0];
      assert Sum(vs) == vs[0] + Sum(rest);
      AddOne(Count(rest), lo);
      assert Count(vs) == 1.0 + Count(rest);
    }
  }

  /** A sum of values, each at most `hi`, is at most `hi` times their count. */
  lemma {:induction false} SumAtMost(vs: seq<real>, hi: real)
    requires forall v :: v in vs ==> v <= hi
    ensures Sum(vs) <= Count(vs) * hi
    decreases |vs|
  {
    if |vs| > 0 {
      var rest := vs[1..];
      assert vs[0] in vs;
      assert forall v :: v in rest ==> v in vs;
      SumAtMost(rest, hi);
      assert Sum(rest) <= Count(rest) * hi;
      assert vs[0] <= hi;
      assert Sum(vs) == vs[0] + Sum(rest);
      AddOne(Count(rest), hi);
      assert Count(vs) == 1.0 + Count(rest);
    }
  }

  lemma AddOne(c: real, x: real)
    ensures (1.0 + c) * x == c * x + x
  {
  }

  /** `m` is the sum of the `n` values divided by `n`, and so lies between their extremes. */
  predicate IsMean(vs: seq<real>, m: real)
    requires |vs| > 0
  {
    && m * (|vs| as real) == Sum(vs)
    && Minimum(vs) <= m <= Maximum(vs)
  }

  /** The arithmetic mean of some values. */
  function Mean(vs: seq<real>): (m: real)
    requires |vs| > 0
    ensures IsMean(vs, m)
  {
    var lo := Minimum(vs);
    var hi := Maximum(vs);
    SumAtLeast(vs, lo);
    SumAtMost(vs, hi);
    MeanBetween(lo, Sum(vs), hi, Count(vs));
    Sum(vs) / Count(vs)
  }

  /** Dividing the bounds `n * lo <= s <= n * hi` by a positive `n`. */
  lemma MeanBetween(lo: real, s: real, hi: real, n: real)
    requires n > 0.0
    requires n * lo <= s <= n * hi
    ensures lo <= s / n <= hi
    ensures (s / n) * n == s
  {
    assert (s / n) * n == s;
  }
}
