/**
 * `calculate_stats` (home_task/cli.py): the outlier-trimmed summary of one group's
 * days-to-hire sample. The sample is sorted, the first and last deciles become the
 * trimmed minimum and maximum, and the average is taken over the sorted values that
 * lie between them, bounds included. `float()` is the identity on exact reals here.
 */
module Aggregator {
  import opened Wrappers
  import opened Sorting
  import opened Quantiles

  /** Default `min_postings`. */
  const MinPostings := 5

  /** The statistics dictionary: `min_days`, `max_days`, `avg_days`, `job_postings_number`. */
  datatype Stats = Stats(minDays: real, maxDays: real, avgDays: real, jobPostingsNumber: nat)

  /** `[v for v in s if lo <= v <= hi]`: each value kept, with all its copies, exactly when it lies in the band. */
  function Filter(s: seq<int>, lo: real, hi: real): (r: seq<int>)
    ensures InBandCopies(r, s, lo, hi)
    ensures InBand(r, lo, hi)
    ensures SortedAsc(s) ==> SortedAsc(r)
  {
    if s == [] then []
    else
      var rest := Filter(s[1..], lo, hi);
      FilterCopies(s, rest, lo, hi);
      if lo <= s[0] as real <= hi then
        InBandCons(s[0], rest, lo, hi);
        FilterSortedCons(s, rest);
        [s[0]] + rest
      else
        FilterSortedTail(s, rest);
        rest
  }

  /** `r` holds exactly the copies of `s`'s values that lie in the band `lo..hi`. */
  ghost predicate InBandCopies(r: seq<int>, s: seq<int>, lo: real, hi: real)
  {
    forall x {:trigger multiset(r)[x]} :: multiset(r)[x] == if lo <= x as real <= hi then multiset(s)[x] else 0
  }

  /** Keeping the in-band copies depends only on the multiset of the source list. */
  lemma InBandCopiesPermutation(r: seq<int>, s: seq<int>, t: seq<int>, lo: real, hi: real)
    requires InBandCopies(r, s, lo, hi) && multiset(s) == multiset(t)
    ensures InBandCopies(r, t, lo, hi)
  {
  }

  /** Every element of `r` lies in the band `lo..hi`. */
  ghost predicate InBand(r: seq<int>, lo: real, hi: real)
  {
    forall k :: 0 <= k < |r| ==> lo <= r[k] as real <= hi
  }

  lemma FilterCopies(s: seq<int>, rest: seq<int>, lo: real, hi: real)
    requires s != [] && InBandCopies(rest, s[1..], lo, hi)
    ensures InBandCopies(if lo <= s[0] as real <= hi then [s[0]] + rest else rest, s, lo, hi)
  {
    assert s == [s[0]] + s[1..];
    assert multiset(s) == multiset{s[0]} + multiset(s[1..]);
    assert multiset([s[0]] + rest) == multiset{s[0]} + multiset(rest);
  }

  lemma InBandCons(x: int, rest: seq<int>, lo: real, hi: real)
    requires lo <= x as real <= hi && InBand(rest, lo, hi)
    ensures InBand([x] + rest, lo, hi)
  {
    var r := [x] + rest;
    forall k | 0 <= k < |r| ensures lo <= r[k] as real <= hi {
      if k > 0 { assert r[k] == rest[k - 1]; }
    }
  }

  /** Every element of `rest` occurs in the tail of `s`. */
  ghost predicate FromTail(rest: seq<int>, s: seq<int>)
    requires s != []
  {
    forall y {:trigger multiset(rest)[y]} :: multiset(rest)[y] <= multiset(s[1..])[y]
  }

  lemma FilterSortedTail(s: seq<int>, rest: seq<int>)
    requires s != [] && (SortedAsc(s[1..]) ==> SortedAsc(rest))
    ensures SortedAsc(s) ==> SortedAsc(rest)
  {
    if SortedAsc(s) {
      Tail(s);
    }
  }

  lemma FilterSortedCons(s: seq<int>, rest: seq<int>)
    requires s != [] && FromTail(rest, s) && (SortedAsc(s[1..]) ==> SortedAsc(rest))
    ensures SortedAsc(s) ==> SortedAsc([s[0]] + rest)
  {
    if SortedAsc(s) {
      Tail(s);
      var tail := s[1..];
      forall y | y in multiset(rest) ensures s[0] <= y {
        assert multiset(tail)[y] > 0;
        var k :| 0 <= k < |tail| && tail[k] == y;
        assert s[k + 1] == y;
      }
      AllAtLeastMultiset(rest, s[0]);
      ConsSorted(s[0], rest);
    }
  }

  function Sum(s: seq<int>): int
  {
    if s == [] then 0 else s[0] + Sum(s[1..])
  }

  /** `statistics.mean` of a non-empty list of integers, exactly. */
  function Mean(s: seq<int>): real
    requires s != []
  {
    Sum(s) as real / |s| as real
  }

  // ----- calculate_stats -----

  /**
   * `calculate_stats(values, min_postings)`: `None` below the threshold, otherwise the
   * trimmed statistics. An empty sample that passes a threshold of zero or less makes
   * `quantiles` raise `StatisticsError`.
   */
  function CalculateStats(values: seq<int>, minPostings: int := MinPostings): (r: Result<Option<Stats>>)
    ensures r.Err? <==> values == [] && minPostings <= 0
    ensures r.Ok? ==> (r.value.None? <==> |values| < minPostings)
    ensures r.Ok? && r.value.Some? ==> r.value.value.jobPostingsNumber == |values|
    ensures r.Ok? && r.value.Some? ==>
      r.value.value.minDays <= r.value.value.avgDays <= r.value.value.maxDays
  {
    if |values| < minPostings then Ok(None)
    else if values == [] then Err(StatisticsError)
    else
      var sortedValues := Sort(values);
      var minDays, maxDays := TrimLow(values), TrimHigh(values);
      var filtered := Filter(sortedValues, minDays, maxDays);
      TrimmedNonEmpty(values);
      MeanWithin(filtered, minDays, maxDays);
      Ok(Some(Stats(minDays, maxDays, Mean(filtered), |values|)))
  }

  /** A sample that reaches the threshold yields the band of its outer deciles and the mean of the values inside it. */
  lemma StatsComputed(values: seq<int>, minPostings: int)
    requires values != [] && |values| >= minPostings
    ensures var kept := Filter(Sort(values), TrimLow(values), TrimHigh(values));
      kept != [] &&
      CalculateStats(values, minPostings) ==
        Ok(Some(Stats(TrimLow(values), TrimHigh(values), Mean(kept), |values|)))
  {
    TrimmedNonEmpty(values);
  }

  // ----- the trimming band -----

  /** The first decile of a sample, the trimmed minimum. */
  function TrimLow(values: seq<int>): real
    requires values != []
  {
    Deciles(Sort(values))[0]
  }

  /** The last decile of a sample, the trimmed maximum. */
  function TrimHigh(values: seq<int>): real
    requires values != []
  {
    Deciles(Sort(values))[Intervals - 2]
  }

  /** The band cuts of a sample are those of its sorted form, with a sample value inside the band. */
  lemma TrimmedNonEmpty(values: seq<int>)
    requires values != []
    ensures Filter(Sort(values), TrimLow(values), TrimHigh(values)) != []
  {
    var d := Sort(values);
    var k := DecilesEncloseAValue(d);
    var lo, hi := TrimLow(values), TrimHigh(values);
    assert lo <= d[k] as real <= hi;
    var f := Filter(d, lo, hi);
    assert multiset(d)[d[k]] > 0;
    assert InBandCopies(f, d, lo, hi);
    assert multiset(f)[d[k]] > 0;
  }

  // ----- means -----

  lemma {:induction false} SumWithin(s: seq<int>, lo: real, hi: real)
    requires forall k :: 0 <= k < |s| ==> lo <= s[k] as real <= hi
    ensures lo * |s| as real <= Sum(s) as real <= hi * |s| as real
  {
    if s != [] {
      SumWithin(s[1..], lo, hi);
      var n := |s[1..]| as real;
      assert |s| as real == n + 1.0;
      assert lo * (n + 1.0) == lo * n + lo;
      assert hi * (n + 1.0) == hi * n + hi;
    }
  }

  /** The mean of values in a band lies in the band. */
  lemma MeanWithin(s: seq<int>, lo: real, hi: real)
    requires s != []
    requires forall k :: 0 <= k < |s| ==> lo <= s[k] as real <= hi
    ensures lo <= Mean(s) <= hi
  {
    SumWithin(s, lo, hi);
    var n := |s| as real;
    assert Mean(s) * n == Sum(s) as real;
  }

  lemma {:induction false} SumAppend(a: seq<int>, b: seq<int>)
    ensures Sum(a + b) == Sum(a) + Sum(b)
  {
    if a != [] {
      var ab := a + b;
      assert ab != [] && ab[0] == a[0] && ab[1..] == a[1..] + b;
      assert Sum(ab) == ab[0] + Sum(ab[1..]);
      SumAppend(a[1..], b);
    } else {
      assert a + b == b;
    }
  }

  /** The sum of a list depends only on its multiset. */
  lemma {:induction false} SumPermutation(a: seq<int>, b: seq<int>)
    requires multiset(a) == multiset(b)
    ensures Sum(a) == Sum(b)
  {
    if a == [] {
      assert |b| == |multiset(b)| == 0;
    } else {
      assert a == [a[0]] + a[1..];
      assert a[0] in multiset(b);
      var i :| 0 <= i < |b| && b[i] == a[0];
      var rest := SumRemove(b, i);
      assert multiset(a) == multiset{a[0]} + multiset(a[1..]);
      assert multiset(a[1..]) == multiset(a) - multiset{a[0]};
      SumPermutation(a[1..], rest);
    }
  }

  /** Taking element `i` out of a list: the rest sums to the remainder and keeps the other copies. */
  lemma SumRemove(b: seq<int>, i: int) returns (rest: seq<int>)
    requires 0 <= i < |b|
    ensures Sum(b) == b[i] + Sum(rest)
    ensures multiset(rest) == multiset(b) - multiset{b[i]}
  {
    rest := b[..i] + b[i + 1..];
    assert b == b[..i] + ([b[i]] + b[i + 1..]);
    SumAppend(b[..i], [b[i]] + b[i + 1..]);
    SumAppend(b[..i], b[i + 1..]);
    assert Sum([b[i]] + b[i + 1..]) == b[i] + Sum(b[i + 1..]) by {
      assert ([b[i]] + b[i + 1..])[1..] == b[i + 1..];
    }
    assert multiset(b) == multiset(b[..i]) + multiset{b[i]} + multiset(b[i + 1..]);
  }

  /** The sum of five values, written out. */
  lemma SumOfFive(s: seq<int>)
    requires |s| == 5
    ensures Sum(s) == s[0] + s[1] + s[2] + s[3] + s[4]
  {
    var t1 := s[1..];
    var t2 := t1[1..];
    var t3 := t2[1..];
    var t4 := t3[1..];
    assert t4[1..] == [];
    assert Sum(t4) == s[4] + Sum(t4[1..]);
    assert Sum(t3) == s[3] + Sum(t4);
    assert Sum(t2) == s[2] + Sum(t3);
    assert Sum(t1) == s[1] + Sum(t2);
  }

  /** The mean of a list depends only on its multiset. */
  lemma MeanPermutation(a: seq<int>, b: seq<int>)
    requires multiset(a) == multiset(b) && a != []
    ensures b != [] && Mean(a) == Mean(b)
  {
    assert |a| == |multiset(a)| == |multiset(b)| == |b|;
    SumPermutation(a, b);
  }

  // ----- properties of calculate_stats -----

  /** The statistics depend only on the multiset of the sample: any reordering gives the same result. */
  lemma CalculateStatsPermutationInvariant(a: seq<int>, b: seq<int>, minPostings: int)
    requires multiset(a) == multiset(b)
    ensures CalculateStats(a, minPostings) == CalculateStats(b, minPostings)
  {
    assert |a| == |multiset(a)| == |multiset(b)| == |b|;
    SortPermutationInvariant(a, b);
  }
}
