/**
 * Python's `statistics.quantiles(data, n=10)` with its default method 'exclusive'
 * (Hyndman and Fan type 6): the nine cut points that split the sorted sample into
 * ten equal-probability intervals. Integer inputs make every cut point an exact
 * rational, so the model computes in `real`.
 */
module Quantiles {
  import opened Sorting

  /** Number of intervals the call site asks for (`n=10`). */
  const Intervals := 10

  function Clamp(j: int, lo: int, hi: int): (r: int)
    requires lo <= hi
    ensures lo <= r <= hi
    ensures lo <= j <= hi ==> r == j
  {
    if j < lo then lo else if j > hi then hi else j
  }

  /** `(lo * (n - delta) + hi * delta) / n`: linear interpolation, or extrapolation when `delta` is outside 0..n. */
  function Interpolate(lo: int, hi: int, delta: int): real
  {
    (lo * (Intervals - delta) + hi * delta) as real / Intervals as real
  }

  /** The index `j` of the upper neighbour used for cut point `i`: `i * m // n` clamped to 1 .. len - 1. */
  function CutIndex(len: int, i: int): (j: int)
    requires len >= 2
    ensures 1 <= j <= len - 1
  {
    Clamp(i * (len + 1) / Intervals, 1, len - 1)
  }

  /** Cut point number `i` (1-based) of an ascending sample with at least two elements. */
  function CutPoint(d: seq<int>, i: int): real
    requires |d| >= 2
  {
    var m := |d| + 1;
    var j := CutIndex(|d|, i);
    var delta := i * m - j * Intervals;
    Interpolate(d[j - 1], d[j], delta)
  }

  /** `quantiles(data, n=10)`: the sample is sorted first; a one-element sample yields nine copies of it. */
  function Deciles(data: seq<int>): (r: seq<real>)
    requires |data| >= 1
    ensures |r| == Intervals - 1
  {
    var d := Sort(data);
    if |d| == 1 then seq(Intervals - 1, _ => d[0] as real)
    else seq(Intervals - 1, i => CutPoint(d, i + 1))
  }

  // ----- interpolation facts -----

  lemma InterpolateShape(lo: int, hi: int, delta: int)
    ensures Interpolate(lo, hi, delta) == lo as real + ((hi - lo) * delta) as real / 10.0
  {
    assert lo * (Intervals - delta) + hi * delta == 10 * lo + (hi - lo) * delta;
  }

  lemma InterpolateBetween(lo: int, hi: int, delta: int)
    requires lo <= hi && 0 <= delta <= Intervals
    ensures lo as real <= Interpolate(lo, hi, delta) <= hi as real
  {
    InterpolateShape(lo, hi, delta);
    assert 0 <= (hi - lo) * delta <= (hi - lo) * 10;
  }

  lemma InterpolateBelow(lo: int, hi: int, delta: int)
    requires lo <= hi && delta <= 0
    ensures Interpolate(lo, hi, delta) <= lo as real
  {
    InterpolateShape(lo, hi, delta);
    assert (hi - lo) * delta <= 0;
  }

  lemma InterpolateAbove(lo: int, hi: int, delta: int)
    requires lo <= hi && delta >= Intervals
    ensures hi as real <= Interpolate(lo, hi, delta)
  {
    InterpolateShape(lo, hi, delta);
    assert (hi - lo) * delta >= (hi - lo) * 10;
  }

  lemma InterpolateEqual(v: int, delta: int)
    ensures Interpolate(v, v, delta) == v as real
  {
    InterpolateShape(v, v, delta);
  }

  // ----- the first and last cut points (those calculate_stats uses) -----

  /** For samples of at most nine values the first cut point lies at or below the smallest value. */
  lemma FirstCutSmall(d: seq<int>)
    requires SortedAsc(d) && 2 <= |d| <= 9
    ensures CutPoint(d, 1) <= d[0] as real
  {
    var m := |d| + 1;
    assert CutIndex(|d|, 1) == 1;
    InterpolateBelow(d[0], d[1], m - Intervals);
  }

  /** For samples of at least nine values the first cut point lies between two neighbouring values. */
  lemma FirstCutLarge(d: seq<int>)
    requires SortedAsc(d) && |d| >= 9
    ensures var j := (|d| + 1) / Intervals;
      1 <= j < |d| && d[j - 1] as real <= CutPoint(d, 1) <= d[j] as real
  {
    var m := |d| + 1;
    var j := m / Intervals;
    assert CutIndex(|d|, 1) == j;
    InterpolateBetween(d[j - 1], d[j], m - j * Intervals);
  }

  /** For samples of at most nine values the last cut point lies at or above the largest value. */
  lemma LastCutSmall(d: seq<int>)
    requires SortedAsc(d) && 2 <= |d| <= 9
    ensures d[|d| - 1] as real <= CutPoint(d, 9)
  {
    var L := |d|;
    var m := L + 1;
    assert 9 * m / Intervals >= L;
    assert CutIndex(L, 9) == L - 1;
    InterpolateAbove(d[L - 2], d[L - 1], 9 * m - (L - 1) * Intervals);
  }

  /** For samples of at least ten values the last cut point lies between two neighbouring values. */
  lemma LastCutLarge(d: seq<int>)
    requires SortedAsc(d) && |d| >= 10
    ensures var j := 9 * (|d| + 1) / Intervals;
      1 <= j < |d| && d[j - 1] as real <= CutPoint(d, 9) <= d[j] as real
  {
    var m := |d| + 1;
    var j := 9 * m / Intervals;
    assert CutIndex(|d|, 9) == j;
    InterpolateBetween(d[j - 1], d[j], 9 * m - j * Intervals);
  }

  /** Some sample value lies between the first and the last cut point. */
  lemma CutsEncloseAValue(d: seq<int>) returns (k: nat)
    requires SortedAsc(d) && |d| >= 2
    ensures k < |d| && CutPoint(d, 1) <= d[k] as real <= CutPoint(d, 9)
  {
    if |d| <= 9 {
      FirstCutSmall(d);
      LastCutSmall(d);
      k := 0;
    } else {
      FirstCutLarge(d);
      LastCutLarge(d);
      var m := |d| + 1;
      k := m / Intervals;
      assert k <= 9 * m / Intervals - 1;
    }
  }

  /** Every cut point of a constant sample is that constant. */
  lemma ConstantCuts(d: seq<int>, v: int, i: int)
    requires |d| >= 2 && forall k :: 0 <= k < |d| ==> d[k] == v
    ensures CutPoint(d, i) == v as real
  {
    var j := CutIndex(|d|, i);
    InterpolateEqual(v, i * (|d| + 1) - j * Intervals);
  }

  // ----- the deciles as returned by quantiles -----

  /** On an already ascending sample the first and last deciles are the first and last cut points. */
  lemma DecilesOfSorted(d: seq<int>)
    requires SortedAsc(d) && |d| >= 2
    ensures Deciles(d)[0] == CutPoint(d, 1) && Deciles(d)[8] == CutPoint(d, 9)
  {
    SortOfSorted(d);
  }

  /** A one-value sample yields nine copies of its value. */
  lemma DecilesOfSingleton(d: seq<int>)
    requires |d| == 1
    ensures Deciles(d)[0] == Deciles(d)[8] == d[0] as real
  {
    assert SortedAsc(d);
    SortOfSorted(d);
  }

  /** On an already ascending sample of two or more values the deciles are the nine cut points in order. */
  lemma AllDecilesOfSorted(d: seq<int>)
    requires SortedAsc(d) && |d| >= 2
    ensures forall i :: 0 <= i < Intervals - 1 ==> Deciles(d)[i] == CutPoint(d, i + 1)
  {
    SortOfSorted(d);
  }

  /** Some value of an ascending sample lies between its first and last decile. */
  lemma DecilesEncloseAValue(d: seq<int>) returns (k: nat)
    requires SortedAsc(d) && |d| >= 1
    ensures k < |d| && Deciles(d)[0] <= d[k] as real <= Deciles(d)[Intervals - 2]
  {
    if |d| >= 2 {
      DecilesOfSorted(d);
      k := CutsEncloseAValue(d);
    } else {
      DecilesOfSingleton(d);
      k := 0;
    }
  }

  /** Up to nine values, the outer deciles enclose the whole sample (they are extrapolated). */
  lemma OuterDecilesSmall(d: seq<int>)
    requires SortedAsc(d) && 1 <= |d| <= 9
    ensures Deciles(d)[0] <= d[0] as real && d[|d| - 1] as real <= Deciles(d)[Intervals - 2]
  {
    if |d| >= 2 {
      DecilesOfSorted(d);
      FirstCutSmall(d);
      LastCutSmall(d);
    } else {
      DecilesOfSingleton(d);
    }
  }

  /** From ten values on, the outer deciles lie within the sample's range. */
  lemma OuterDecilesLarge(d: seq<int>, least: int, greatest: int)
    requires SortedAsc(d) && |d| >= 10
    requires least == d[0] && greatest == d[|d| - 1]
    ensures least as real <= Deciles(d)[0] && Deciles(d)[Intervals - 2] <= greatest as real
  {
    DecilesOfSorted(d);
    FirstDecileLarge(d, least);
    LastDecileLarge(d, greatest);
  }

  lemma FirstDecileLarge(d: seq<int>, least: int)
    requires SortedAsc(d) && |d| >= 10 && least == d[0]
    ensures least as real <= CutPoint(d, 1)
  {
    FirstCutLarge(d);
    SortedAt(d, 0, (|d| + 1) / Intervals - 1);
  }

  lemma LastDecileLarge(d: seq<int>, greatest: int)
    requires SortedAsc(d) && |d| >= 10 && greatest == d[|d| - 1]
    ensures CutPoint(d, 9) <= greatest as real
  {
    LastCutLarge(d);
    SortedAt(d, 9 * (|d| + 1) / Intervals, |d| - 1);
  }

  /** Every decile of a constant sample is that constant. */
  lemma ConstantDeciles(d: seq<int>, v: int)
    requires |d| >= 1 && forall k :: 0 <= k < |d| ==> d[k] == v
    ensures Deciles(d)[0] == Deciles(d)[Intervals - 2] == v as real
  {
    if |d| >= 2 {
      assert SortedAsc(d);
      DecilesOfSorted(d);
      ConstantCuts(d, v, 1);
      ConstantCuts(d, v, 9);
    } else {
      DecilesOfSingleton(d);
    }
  }

  lemma CutsOneToFive()
    ensures CutPoint([1, 2, 3, 4, 5], 1) == 0.6 && CutPoint([1, 2, 3, 4, 5], 2) == 1.2
    ensures CutPoint([1, 2, 3, 4, 5], 3) == 1.8 && CutPoint([1, 2, 3, 4, 5], 4) == 2.4
    ensures CutPoint([1, 2, 3, 4, 5], 5) == 3.0 && CutPoint([1, 2, 3, 4, 5], 6) == 3.6
    ensures CutPoint([1, 2, 3, 4, 5], 7) == 4.2 && CutPoint([1, 2, 3, 4, 5], 8) == 4.8
    ensures CutPoint([1, 2, 3, 4, 5], 9) == 5.4
  {
  }

  /**
   * The smallest sample the default threshold admits, five values: the outer deciles extrapolate
   * four tenths of the outermost gap beyond the least and the greatest value.
   */
  lemma DecilesOfFive(d: seq<int>)
    requires SortedAsc(d) && |d| == 5
    ensures Deciles(d)[0] == d[0] as real - 0.4 * (d[1] - d[0]) as real
    ensures Deciles(d)[Intervals - 2] == d[4] as real + 0.4 * (d[4] - d[3]) as real
  {
    DecilesOfSorted(d);
    assert CutPoint(d, 1) == Interpolate(d[0], d[1], -4);
    assert CutPoint(d, 9) == Interpolate(d[3], d[4], 14);
    InterpolateShape(d[0], d[1], -4);
    InterpolateShape(d[3], d[4], 14);
  }

  /** The worked sample 1..5: all nine cut points, the outer two extrapolated beyond the data. */
  lemma DecilesOneToFive(d: seq<int>)
    requires d == [1, 2, 3, 4, 5]
    ensures Deciles(d) == [0.6, 1.2, 1.8, 2.4, 3.0, 3.6, 4.2, 4.8, 5.4]
  {
    var cuts := [0.6, 1.2, 1.8, 2.4, 3.0, 3.6, 4.2, 4.8, 5.4];
    OneToFiveAscending(d);
    OneToFiveCuts(d, cuts);
    DecilesAreCuts(d, cuts);
  }

  lemma OneToFiveAscending(d: seq<int>)
    requires d == [1, 2, 3, 4, 5]
    ensures SortedAsc(d) && |d| == 5
  {
  }

  lemma OneToFiveCuts(d: seq<int>, cuts: seq<real>)
    requires d == [1, 2, 3, 4, 5] && cuts == [0.6, 1.2, 1.8, 2.4, 3.0, 3.6, 4.2, 4.8, 5.4]
    ensures |cuts| == Intervals - 1 && forall i :: 0 <= i < Intervals - 1 ==> cuts[i] == CutPoint(d, i + 1)
  {
    CutsOneToFive();
  }

  lemma DecilesAreCuts(d: seq<int>, cuts: seq<real>)
    requires SortedAsc(d) && |d| >= 2
    requires |cuts| == Intervals - 1 && forall i :: 0 <= i < Intervals - 1 ==> cuts[i] == CutPoint(d, i + 1)
    ensures Deciles(d) == cuts
  {
    AllDecilesOfSorted(d);
  }
}
