/** Python's `sorted` on a list of integers: the ascending permutation of its input. */
module Sorting {

  ghost predicate SortedAsc(s: seq<int>)
  {
    forall i, j :: 0 <= i < j < |s| ==> s[i] <= s[j]
  }

  /** Every element of `s` is at least `lo`. */
  ghost predicate AllAtLeast(s: seq<int>, lo: int)
  {
    forall k :: 0 <= k < |s| ==> lo <= s[k]
  }

  /** Two positions of an ascending sequence are in order. */
  lemma SortedAt(s: seq<int>, i: int, j: int)
    requires SortedAsc(s) && 0 <= i <= j < |s|
    ensures s[i] <= s[j]
  {
  }

  lemma AllAtLeastMultiset(s: seq<int>, lo: int)
    requires forall y | y in multiset(s) :: lo <= y
    ensures AllAtLeast(s, lo)
  {
    forall k | 0 <= k < |s| ensures lo <= s[k] {
      assert s[k] in multiset(s);
    }
  }

  lemma ConsSorted(x: int, s: seq<int>)
    requires SortedAsc(s) && AllAtLeast(s, x)
    ensures SortedAsc([x] + s)
  {
    var r := [x] + s;
    forall i, j | 0 <= i < j < |r| ensures r[i] <= r[j] {
      if i > 0 {
        assert r[i] == s[i - 1] && r[j] == s[j - 1];
      }
    }
  }

  /** Inserts `x` into an ascending sequence, keeping it ascending. */
  function Insert(x: int, s: seq<int>): (r: seq<int>)
    requires SortedAsc(s)
    ensures SortedAsc(r)
    ensures multiset(r) == multiset(s) + multiset{x}
    decreases |s|, 1
  {
    if s == [] || x <= s[0] then
      ConsSorted(x, s);
      [x] + s
    else
      InsertStep(x, s);
      [s[0]] + Insert(x, s[1..])
  }

  lemma InsertStep(x: int, s: seq<int>)
    requires SortedAsc(s) && s != [] && s[0] < x
    ensures SortedAsc([s[0]] + Insert(x, s[1..]))
    ensures multiset([s[0]] + Insert(x, s[1..])) == multiset(s) + multiset{x}
    decreases |s|, 0
  {
    assert s == [s[0]] + s[1..];
    Tail(s);
    var rest := Insert(x, s[1..]);
    HeadBelowRest(x, s, rest);
    ConsSorted(s[0], rest);
  }

  /** Everything in `s[1..]` with `x` added lies at or above the head of an ascending `s` below `x`. */
  lemma HeadBelowRest(x: int, s: seq<int>, rest: seq<int>)
    requires SortedAsc(s) && s != [] && s[0] < x
    requires multiset(rest) == multiset(s[1..]) + multiset{x}
    ensures AllAtLeast(rest, s[0])
  {
    forall y | y in multiset(rest) ensures s[0] <= y {
      if y != x {
        assert y in multiset(s[1..]);
        var k :| 0 <= k < |s[1..]| && s[1..][k] == y;
        assert s[k + 1] == y;
      }
    }
    AllAtLeastMultiset(rest, s[0]);
  }

  /**
   * `sorted(s)`, by insertion: the ascending permutation of `s`, which is unique
   * (`SortedUnique`), so any sorting algorithm computes it.
   */
  function Sort(s: seq<int>): (r: seq<int>)
    ensures SortedAsc(r)
    ensures multiset(r) == multiset(s)
    ensures |r| == |s|
  {
    if s == [] then []
    else
      assert s == [s[0]] + s[1..];
      var r := Insert(s[0], Sort(s[1..]));
      assert |r| == |multiset(r)|;
      r
  }

  /** The least element of a non-empty ascending sequence is its first. */
  lemma FirstIsLeast(s: seq<int>, x: int)
    requires SortedAsc(s) && x in multiset(s)
    ensures s[0] <= x
  {
    var k :| 0 <= k < |s| && s[k] == x;
  }

  /** Dropping the first element keeps a sequence ascending and removes one copy of it. */
  lemma Tail(s: seq<int>)
    requires SortedAsc(s) && s != []
    ensures SortedAsc(s[1..])
    ensures multiset(s[1..]) == multiset(s) - multiset{s[0]}
  {
    assert s == [s[0]] + s[1..];
    var t := s[1..];
    forall i, j | 0 <= i < j < |t| ensures t[i] <= t[j] {
      assert t[i] == s[i + 1] && t[j] == s[j + 1];
    }
  }

  /** Two ascending sequences with the same elements (counted with multiplicity) are equal. */
  lemma {:induction false} SortedUnique(a: seq<int>, b: seq<int>)
    requires SortedAsc(a) && SortedAsc(b)
    requires multiset(a) == multiset(b)
    ensures a == b
  {
    if a == [] {
      assert |b| == |multiset(b)| == 0;
    } else {
      HeadsEqual(a, b);
      Tail(a);
      Tail(b);
      SortedUnique(a[1..], b[1..]);
      assert a == [a[0]] + a[1..];
      assert b == [b[0]] + b[1..];
    }
  }

  lemma HeadsEqual(a: seq<int>, b: seq<int>)
    requires SortedAsc(a) && SortedAsc(b) && a != []
    requires multiset(a) == multiset(b)
    ensures b != [] && a[0] == b[0]
  {
    assert a[0] in multiset(a);
    assert a[0] in multiset(b);
    FirstIsLeast(b, a[0]);
    assert b[0] in multiset(b);
    FirstIsLeast(a, b[0]);
  }

  /** `sorted` depends only on the multiset of its input. */
  lemma SortPermutationInvariant(a: seq<int>, b: seq<int>)
    requires multiset(a) == multiset(b)
    ensures Sort(a) == Sort(b)
  {
    SortedUnique(Sort(a), Sort(b));
  }

  /** Sorting an ascending sequence changes nothing. */
  lemma SortOfSorted(s: seq<int>)
    requires SortedAsc(s)
    ensures Sort(s) == s
  {
    SortedUnique(Sort(s), s);
  }

  /** Every element of a rearrangement occurs in the original list. */
  lemma OccursIn(d: seq<int>, values: seq<int>, k: int) returns (i: int)
    requires multiset(d) == multiset(values) && 0 <= k < |d|
    ensures 0 <= i < |values| && values[i] == d[k]
  {
    assert d[k] in multiset(values);
    i :| 0 <= i < |values| && values[i] == d[k];
  }
}
