/**
 * The rows a rebuild writes to `days_to_hire_stats`: one per query row whose sample yields
 * statistics, carrying the group's key and the computed statistics (the synthetic `id` is
 * left out). `Snapshot` is the table a successful `update_stats` leaves behind.
 */
module StatsTable {
  import opened Wrappers
  import opened Aggregator
  import opened Grouping

  /** A row of `days_to_hire_stats`, without its synthetic `id`. */
  datatype StatsRow = StatsRow(
    standardJobId: string,
    countryCode: Option<string>,
    minDays: real,
    avgDays: real,
    maxDays: real,
    jobPostingsNumber: nat)

  function StatsKey(r: StatsRow): Key
  {
    Key(r.standardJobId, r.countryCode)
  }

  /** The row inserted for one query row: its key plus `**stats`. */
  function MakeRow(row: QueryRow, st: Stats): (r: StatsRow)
    ensures StatsKey(r) == KeyOf(row)
  {
    StatsRow(row.standardJobId, CountryCodeOf(row), st.minDays, st.avgDays, st.maxDays, st.jobPostingsNumber)
  }

  /** `if stats := calculate_stats(row.days_to_hire)`: the row inserted for one query row, if any. */
  function Inserted(row: QueryRow): seq<StatsRow>
  {
    match CalculateStats(row.daysToHire)
    case Ok(Some(st)) => [MakeRow(row, st)]
    case _ => []
  }

  /** The rows `each` yields for `rows`, one run after the other, in the order of `rows`. */
  function FlatMap(rows: seq<QueryRow>, each: QueryRow -> seq<StatsRow>): seq<StatsRow>
  {
    if rows == [] then [] else each(rows[0]) + FlatMap(rows[1..], each)
  }

  /** The rows inserted for `rows`, in order: one per row for which `calculate_stats` is not `None`. */
  function ExpectedRows(rows: seq<QueryRow>): seq<StatsRow>
  {
    FlatMap(rows, Inserted)
  }

  /** The table after a successful rebuild: country-level rows, then global rows. */
  function Snapshot(countryRows: seq<QueryRow>, globalRows: seq<QueryRow>): seq<StatsRow>
  {
    ExpectedRows(countryRows) + ExpectedRows(globalRows)
  }

  lemma {:induction false} FlatMapAppend(a: seq<QueryRow>, b: seq<QueryRow>, each: QueryRow -> seq<StatsRow>)
    ensures FlatMap(a + b, each) == FlatMap(a, each) + FlatMap(b, each)
  {
    if a != [] {
      assert (a + b)[0] == a[0] && (a + b)[1..] == a[1..] + b;
      FlatMapAppend(a[1..], b, each);
    } else {
      assert a + b == b;
    }
  }

  /** Processing two runs of rows one after the other inserts the rows of each in turn. */
  lemma ExpectedRowsAppend(a: seq<QueryRow>, b: seq<QueryRow>)
    ensures ExpectedRows(a + b) == ExpectedRows(a) + ExpectedRows(b)
  {
    FlatMapAppend(a, b, Inserted);
  }

  /**
   * One query row: nothing is inserted when it has fewer than five samples; otherwise exactly
   * one row, with the group's key (`None` for a global row) and the computed statistics.
   */
  lemma InsertedForRow(row: QueryRow)
    ensures |row.daysToHire| < MinPostings ==> Inserted(row) == []
    ensures |row.daysToHire| >= MinPostings ==>
      CalculateStats(row.daysToHire).Ok? && CalculateStats(row.daysToHire).value.Some? &&
      Inserted(row) == [MakeRow(row, CalculateStats(row.daysToHire).value.value)]
  {
  }

  /** Every row of a rebuilt table satisfies `min_days <= avg_days <= max_days` and counts at least five postings. */
  lemma {:induction false} RowsWellFormed(rows: seq<QueryRow>)
    ensures forall r :: r in ExpectedRows(rows) ==>
      r.minDays <= r.avgDays <= r.maxDays && r.jobPostingsNumber >= MinPostings
  {
    if rows != [] {
      RowsWellFormed(rows[1..]);
    }
  }

  /** Rows that differ only in the order of each group's samples insert the same stats rows. */
  lemma {:induction false} ExpectedRowsReordered(r1: seq<QueryRow>, r2: seq<QueryRow>)
    requires |r1| == |r2|
    requires forall i :: 0 <= i < |r1| ==>
      KeyOf(r1[i]) == KeyOf(r2[i]) && multiset(r1[i].daysToHire) == multiset(r2[i].daysToHire)
    ensures ExpectedRows(r1) == ExpectedRows(r2)
  {
    if r1 != [] {
      CalculateStatsPermutationInvariant(r1[0].daysToHire, r2[0].daysToHire, MinPostings);
      ExpectedRowsReordered(r1[1..], r2[1..]);
    }
  }

  /**
   * Every group of a correct query answer reaches the threshold, so it yields exactly one stats
   * row under its own key: the rows of the rebuild follow the answer one for one.
   */
  lemma OneRowPerGroup(rows: seq<QueryRow>)
    requires forall i :: 0 <= i < |rows| ==> |rows[i].daysToHire| >= MinPostings
    ensures |ExpectedRows(rows)| == |rows|
    ensures forall i :: 0 <= i < |rows| ==> StatsKey(ExpectedRows(rows)[i]) == KeyOf(rows[i])
  {
    forall i | 0 <= i < |rows| ensures |Inserted(rows[i])| == 1 && StatsKey(Inserted(rows[i])[0]) == KeyOf(rows[i]) {
      InsertedForRow(rows[i]);
    }
    FlatMapSingles(rows, Inserted);
  }

  /** When `each` yields exactly one row per element, `FlatMap` is the pointwise map. */
  lemma {:induction false} FlatMapSingles(rows: seq<QueryRow>, each: QueryRow -> seq<StatsRow>)
    requires forall i :: 0 <= i < |rows| ==> |each(rows[i])| == 1
    ensures |FlatMap(rows, each)| == |rows|
    ensures forall i :: 0 <= i < |rows| ==> FlatMap(rows, each)[i] == each(rows[i])[0]
  {
    if rows != [] {
      FlatMapSingles(rows[1..], each);
    }
  }

  /**
   * Rebuilding twice from unchanged postings gives the same table: any correct answers to
   * the two queries yield the same snapshot, whatever order `array_agg` returned samples in.
   */
  lemma SnapshotDetermined(postings: seq<JobPosting>, c1: seq<QueryRow>, g1: seq<QueryRow>, c2: seq<QueryRow>, g2: seq<QueryRow>)
    requires IsCountryQueryResult(postings, c1) && IsGlobalQueryResult(postings, g1)
    requires IsCountryQueryResult(postings, c2) && IsGlobalQueryResult(postings, g2)
    ensures Snapshot(c1, g1) == Snapshot(c2, g2)
  {
    QueryResultUnique(postings, c1, c2, true);
    QueryResultUnique(postings, g1, g2, false);
    ExpectedRowsReordered(c1, c2);
    ExpectedRowsReordered(g1, g2);
  }

  /** No two rows of a table share a `(standard_job_id, country_code)` key. */
  ghost predicate KeysDistinct(table: seq<StatsRow>)
  {
    forall i, j :: 0 <= i < j < |table| ==> StatsKey(table[i]) != StatsKey(table[j])
  }

  // ----- the NULL country group -----

  /**
   * Every posting in a job's NULL-country group also belongs to that job's global group: its
   * samples are among the global group's, so there are no more of them.
   */
  lemma {:induction false} NullGroupWithinGlobal(postings: seq<JobPosting>, job: string)
    ensures multiset(Samples(postings, Key(job, None), true)) <= multiset(Samples(postings, Key(job, None), false))
    ensures |Samples(postings, Key(job, None), true)| <= |Samples(postings, Key(job, None), false)|
  {
    if postings != [] {
      NullGroupWithinGlobal(postings[1..], job);
    }
    var byCountry, global := Samples(postings, Key(job, None), true), Samples(postings, Key(job, None), false);
    assert |multiset(byCountry)| <= |multiset(global)|;
  }

  /**
   * As written, the country-level query also groups postings whose `country_code` is NULL: once
   * such a group reaches five samples, the rebuilt table holds two rows keyed `(job, NULL)`,
   * that group's and the job's global one.
   */
  lemma NullCountryDuplicatesGlobal(postings: seq<JobPosting>, c: seq<QueryRow>, g: seq<QueryRow>, p: JobPosting)
    requires IsCountryQueryResult(postings, c) && IsGlobalQueryResult(postings, g)
    requires p in postings && p.countryCode.None? && p.daysToHire.Some?
    requires |Samples(postings, GroupOf(p, true), true)| >= MinGroupSize
    ensures !KeysDistinct(Snapshot(c, g))
  {
    var key := Key(p.standardJobId, None);
    assert GroupOf(p, true) == key && GroupOf(p, false) == key;
    NullGroupWithinGlobal(postings, p.standardJobId);
    var i := KeyIndex(Keys(c), key);
    var j := KeyIndex(Keys(g), key);
    OneRowPerGroup(c);
    OneRowPerGroup(g);
    var ec := ExpectedRows(c);
    var table := Snapshot(c, g);
    assert StatsKey(table[i]) == key == StatsKey(table[|ec| + j]);
  }

  /** The position of a key listed in `keys`. */
  lemma KeyIndex(keys: seq<Key>, key: Key) returns (i: int)
    requires key in keys
    ensures 0 <= i < |keys| && keys[i] == key
  {
    i :| 0 <= i < |keys| && keys[i] == key;
  }

  /** Five postings of one job with no country, each hired after one day. */
  const NullCountryPostings: seq<JobPosting> := [
    JobPosting("j", None, Some(1)), JobPosting("j", None, Some(1)), JobPosting("j", None, Some(1)),
    JobPosting("j", None, Some(1)), JobPosting("j", None, Some(1))]

  /** Five NULL-country postings of one job already make a group that the country-level query reports. */
  lemma NullCountryPostingsQualify()
    ensures NullCountryPostings[0] in NullCountryPostings
    ensures |Samples(NullCountryPostings, GroupOf(NullCountryPostings[0], true), true)| == 5
  {
    var ps := NullCountryPostings;
    var key := Key("j", None);
    assert ps[1..][1..][1..][1..][1..] == [];
    assert Samples(ps[1..][1..][1..][1..], key, true) == [1];
    assert Samples(ps[1..][1..][1..], key, true) == [1, 1];
    assert Samples(ps[1..][1..], key, true) == [1, 1, 1];
    assert Samples(ps[1..], key, true) == [1, 1, 1, 1];
  }

  /**
   * Those five postings as input: whatever rows the two queries return for them, the rebuilt
   * table holds the key `("j", NULL)` twice.
   */
  lemma NullCountryExample(c: seq<QueryRow>, g: seq<QueryRow>)
    requires IsCountryQueryResult(NullCountryPostings, c) && IsGlobalQueryResult(NullCountryPostings, g)
    ensures !KeysDistinct(Snapshot(c, g))
  {
    NullCountryPostingsQualify();
    NullCountryDuplicatesGlobal(NullCountryPostings, c, g, NullCountryPostings[0]);
  }

  /** The postings that carry a country: what the country-level query evidently means to group. */
  function WithCountry(postings: seq<JobPosting>): (r: seq<JobPosting>)
    ensures forall p :: p in r <==> p in postings && p.countryCode.Some?
  {
    if postings == [] then []
    else (if postings[0].countryCode.Some? then [postings[0]] else []) + WithCountry(postings[1..])
  }

  /** The country-level query restricted to `country_code IS NOT NULL`. */
  ghost predicate IsIntendedCountryQueryResult(postings: seq<JobPosting>, rows: seq<QueryRow>)
  {
    IsQueryResult(WithCountry(postings), rows, true)
  }

  /** Every key of the corrected country-level answer names a country. */
  lemma IntendedKeysHaveCountry(postings: seq<JobPosting>, rows: seq<QueryRow>, i: int)
    requires IsIntendedCountryQueryResult(postings, rows) && 0 <= i < |rows|
    ensures KeyOf(rows[i]).country.Some?
  {
    ResultKeyIsGroup(WithCountry(postings), rows, true, i);
  }

  /**
   * With the corrected country-level query, the rebuilt table holds at most one row per
   * `(standard_job_id, country_code)`: country rows name a country, global rows do not, and
   * each query lists every key once.
   */
  lemma SnapshotKeysDistinct(postings: seq<JobPosting>, c: seq<QueryRow>, g: seq<QueryRow>)
    requires IsIntendedCountryQueryResult(postings, c) && IsGlobalQueryResult(postings, g)
    ensures KeysDistinct(Snapshot(c, g))
  {
    SnapshotKeys(c, g);
    forall k | 0 <= k < |c| ensures Keys(c)[k].country.Some? {
      IntendedKeysHaveCountry(postings, c, k);
    }
    var table := Snapshot(c, g);
    forall i, j | 0 <= i < j < |table| ensures StatsKey(table[i]) != StatsKey(table[j]) {
      KeysOfBothQueriesDistinct(Keys(c), Keys(g), i, j);
    }
  }

  /** When every group reaches the threshold, the table's keys are the country keys, then the global keys. */
  lemma SnapshotKeys(c: seq<QueryRow>, g: seq<QueryRow>)
    requires forall i :: 0 <= i < |c| ==> |c[i].daysToHire| >= MinPostings
    requires forall i :: 0 <= i < |g| ==> |g[i].daysToHire| >= MinPostings
    ensures |Snapshot(c, g)| == |c| + |g|
    ensures forall k :: 0 <= k < |c| + |g| ==> StatsKey(Snapshot(c, g)[k]) == (Keys(c) + Keys(g))[k]
  {
    OneRowPerGroup(c);
    OneRowPerGroup(g);
  }

  /** Ascending country keys, which name a country, followed by ascending global keys, which do not. */
  lemma KeysOfBothQueriesDistinct(countryKeys: seq<Key>, globalKeys: seq<Key>, i: int, j: int)
    requires StrictlyAscending(countryKeys) && StrictlyAscending(globalKeys)
    requires forall k :: 0 <= k < |countryKeys| ==> countryKeys[k].country.Some?
    requires forall k :: 0 <= k < |globalKeys| ==> globalKeys[k].country.None?
    requires 0 <= i < j < |countryKeys| + |globalKeys|
    ensures (countryKeys + globalKeys)[i] != (countryKeys + globalKeys)[j]
  {
    var n := |countryKeys|;
    if j < n {
      AscendingDistinct(countryKeys, i, j);
    } else if i >= n {
      AscendingDistinct(globalKeys, i - n, j - n);
    }
  }

  lemma AscendingDistinct(keys: seq<Key>, i: int, j: int)
    requires StrictlyAscending(keys) && 0 <= i < j < |keys|
    ensures keys[i] != keys[j]
  {
    KeyLessIrreflexive(keys[i]);
  }
}
