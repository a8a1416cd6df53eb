/**
 * Properties of the per-job statistics computed by `Aggregator.CalculateStats`: what the averaged
 * list holds, how small and large samples are trimmed, and worked scenarios.
 */
module StatsProperties {
  import opened Wrappers
  import opened Sorting
  import opened Quantiles
  import opened Aggregator

  /**
   * For a sample that yields statistics, the averaged list is non-empty, ascending, and holds
   * exactly the sample's values inside the band `min_days .. max_days`, with all their copies;
   * `avg_days` is its mean and `job_postings_number` counts the whole, untrimmed sample.
   */
  lemma TrimmedSample(values: seq<int>, minPostings: int, st: Stats)
    requires CalculateStats(values, minPostings) == Ok(Some(st))
    ensures Filter(Sort(values), st.minDays, st.maxDays) != []
    ensures SortedAsc(Filter(Sort(values), st.minDays, st.maxDays))
    ensures InBandCopies(Filter(Sort(values), st.minDays, st.maxDays), values, st.minDays, st.maxDays)
    ensures st.avgDays == Mean(Filter(Sort(values), st.minDays, st.maxDays))
    ensures st.jobPostingsNumber == |values|
  {
    TrimmedNonEmpty(values);
    var d := Sort(values);
    InBandCopiesPermutation(Filter(d, st.minDays, st.maxDays), d, values, st.minDays, st.maxDays);
  }

  /** A sample of one repeated value `v` yields `min_days == avg_days == max_days == v`. */
  lemma ConstantSample(values: seq<int>, v: int, minPostings: int)
    requires |values| >= minPostings && values != []
    requires forall k :: 0 <= k < |values| ==> values[k] == v
    ensures CalculateStats(values, minPostings) == Ok(Some(Stats(v as real, v as real, v as real, |values|)))
  {
    var d := Sort(values);
    forall k | 0 <= k < |d| ensures d[k] == v {
      assert d[k] in multiset(values);
    }
    ConstantDeciles(d, v);
    assert TrimLow(values) == v as real && TrimHigh(values) == v as real;
    StatsComputed(values, minPostings);
    var st := CalculateStats(values, minPostings).value.value;
    assert st.minDays == v as real && st.maxDays == v as real;
    assert st.minDays <= st.avgDays <= st.maxDays;
    assert st == Stats(v as real, v as real, v as real, |values|);
  }

  /** Ten postings of one day each (a worked scenario): every statistic is 1.0 and the count is 10. */
  lemma TenOnes(values: seq<int>)
    requires values == [1, 1, 1, 1, 1, 1, 1, 1, 1, 1]
    ensures CalculateStats(values) == Ok(Some(Stats(1.0, 1.0, 1.0, 10)))
  {
    ConstantSample(values, 1, MinPostings);
  }

  /**
   * Samples of at most nine values are not trimmed at all: the outer deciles are extrapolated
   * beyond the smallest and largest value, so every value is inside the band and `avg_days` is
   * the plain mean of the sample.
   */
  lemma SmallSampleUntrimmed(values: seq<int>, minPostings: int)
    requires 1 <= |values| <= 9 && |values| >= minPostings
    ensures CalculateStats(values, minPostings) ==
      Ok(Some(Stats(TrimLow(values), TrimHigh(values), Mean(values), |values|)))
  {
    SmallSampleBand(values);
    var lo, hi := TrimLow(values), TrimHigh(values);
    KeepsEverything(values, lo, hi);
    StatsComputed(values, minPostings);
    MeanPermutation(Filter(Sort(values), lo, hi), values);
  }

  /** Up to nine values, the band reaches from the least to the greatest value. */
  lemma SmallSampleBand(values: seq<int>)
    requires 1 <= |values| <= 9
    ensures forall k :: 0 <= k < |values| ==> TrimLow(values) <= values[k] as real <= TrimHigh(values)
  {
    var d := Sort(values);
    OuterDecilesSmall(d);
    BandHoldsAll(values, d, TrimLow(values), TrimHigh(values));
  }

  /** When every value lies inside the band, the averaged list holds the whole sample. */
  lemma KeepsEverything(values: seq<int>, lo: real, hi: real)
    requires forall k :: 0 <= k < |values| ==> lo <= values[k] as real <= hi
    ensures multiset(Filter(Sort(values), lo, hi)) == multiset(values)
  {
    var kept := Filter(Sort(values), lo, hi);
    forall x ensures multiset(kept)[x] == multiset(values)[x] {
      if multiset(values)[x] > 0 {
        var i :| 0 <= i < |values| && values[i] == x;
      }
    }
    assert multiset(kept) == multiset(values);
  }

  /** When the band reaches from the least to the greatest value, every value of the sample is inside it. */
  lemma BandHoldsAll(values: seq<int>, d: seq<int>, lo: real, hi: real)
    requires SortedAsc(d) && multiset(d) == multiset(values) && d != []
    requires lo <= d[0] as real && d[|d| - 1] as real <= hi
    ensures forall k :: 0 <= k < |values| ==> lo <= values[k] as real <= hi
  {
    forall k | 0 <= k < |values| ensures lo <= values[k] as real <= hi {
      assert values[k] in multiset(d);
      var i :| 0 <= i < |d| && d[i] == values[k];
    }
  }

  /**
   * From ten values on, the band lies within the sample's range: the least value is at most
   * `min_days` and the greatest at least `max_days`.
   */
  lemma LargeSampleWithinRange(values: seq<int>)
    requires |values| >= 10
    ensures exists k :: 0 <= k < |values| && values[k] as real <= TrimLow(values)
    ensures exists k :: 0 <= k < |values| && TrimHigh(values) <= values[k] as real
  {
    var d := Sort(values);
    var i := OccursIn(d, values, 0);
    var j := OccursIn(d, values, |d| - 1);
    OuterDecilesLarge(d, values[i], values[j]);
  }

  /**
   * Five postings, the fewest the default threshold admits: `min_days` and `max_days` extrapolate
   * four tenths of the outermost gap of the sorted sample beyond its ends.
   */
  lemma FiveValueBand(values: seq<int>)
    requires |values| == 5
    ensures var d := Sort(values);
      TrimLow(values) == d[0] as real - 0.4 * (d[1] - d[0]) as real &&
      TrimHigh(values) == d[4] as real + 0.4 * (d[4] - d[3]) as real
  {
    DecilesOfFive(Sort(values));
  }

  /**
   * The sample 1..5 in any order: `min_days` 0.6 and `max_days` 5.4 lie outside the sample's
   * range, so the trimmed minimum may be smaller than every value.
   */
  lemma OneToFive(values: seq<int>)
    requires multiset(values) == multiset{1, 2, 3, 4, 5}
    ensures CalculateStats(values) == Ok(Some(Stats(0.6, 5.4, 3.0, 5)))
  {
    assert |values| == |multiset(values)| == 5;
    OneToFiveParts(values);
    SmallSampleUntrimmed(values, MinPostings);
  }

  lemma OneToFiveParts(values: seq<int>)
    requires multiset(values) == multiset{1, 2, 3, 4, 5}
    ensures |values| == 5
    ensures TrimLow(values) == 0.6 && TrimHigh(values) == 5.4 && Mean(values) == 3.0
  {
    assert |values| == |multiset(values)| == 5;
    OneToFiveBand(values, Sort(values));
    OneToFiveMean(values);
  }

  lemma OneToFiveBand(values: seq<int>, d: seq<int>)
    requires |values| == 5 && d == Sort(values) && multiset(values) == multiset{1, 2, 3, 4, 5}
    ensures TrimLow(values) == 0.6 && TrimHigh(values) == 5.4
  {
    SortedOneToFive(d);
    FiveValueBand(values);
  }

  lemma OneToFiveMean(values: seq<int>)
    requires multiset(values) == multiset{1, 2, 3, 4, 5}
    ensures values != [] && Mean(values) == 3.0
  {
    var e := [1, 2, 3, 4, 5];
    assert multiset(e) == multiset{1, 2, 3, 4, 5};
    SumOfFive(e);
    assert Mean(e) == 15.0 / 5.0;
    MeanPermutation(e, values);
  }

  /** The ascending arrangement of the values 1..5. */
  lemma SortedOneToFive(d: seq<int>)
    requires SortedAsc(d) && multiset(d) == multiset{1, 2, 3, 4, 5}
    ensures |d| == 5 && d[0] == 1 && d[1] == 2 && d[2] == 3 && d[3] == 4 && d[4] == 5
  {
    var e := [1, 2, 3, 4, 5];
    assert SortedAsc(e) && multiset(e) == multiset{1, 2, 3, 4, 5};
    SortedUnique(d, e);
  }
}
