/**
 * The two grouped extraction queries of `update_stats` (home_task/cli.py), stated as
 * specifications over the `job_posting` table: which groups a result holds, with which
 * samples, and in which order. The database computes them; the model only says what a
 * correct answer is, and proves that the answer is determined by the postings up to the
 * order of each group's `array_agg` samples.
 */
module Grouping {
  import opened Wrappers

  /** One row of `job_posting`: only the columns the queries read. */
  datatype JobPosting = JobPosting(standardJobId: string, countryCode: Option<string>, daysToHire: Option<int>)

  /**
   * A row of a query result. The country-level query selects `country_code`; the global one
   * does not select it at all.
   */
  datatype QueryRow =
    | CountryRow(standardJobId: string, countryCode: Option<string>, daysToHire: seq<int>)
    | GlobalRow(standardJobId: string, daysToHire: seq<int>)

  /** `getattr(row, 'country_code', None)`: a global row has no such column. */
  function CountryCodeOf(row: QueryRow): Option<string>
  {
    if row.CountryRow? then row.countryCode else None
  }

  /** The group key a stats row is stored under: job and (nullable) country. */
  datatype Key = Key(job: string, country: Option<string>)

  function KeyOf(row: QueryRow): Key
  {
    Key(row.standardJobId, CountryCodeOf(row))
  }

  /** `HAVING count() >= 5`, counted after `WHERE days_to_hire IS NOT NULL`. */
  const MinGroupSize := 5

  // ----- ORDER BY: code-point lexicographic strings, NULL after every country -----

  predicate StrLess(a: string, b: string)
  {
    if a == [] then b != []
    else if b == [] then false
    else a[0] < b[0] || (a[0] == b[0] && StrLess(a[1..], b[1..]))
  }

  lemma StrLessIrreflexive(a: string)
    ensures !StrLess(a, a)
  {
  }

  lemma {:induction false} StrLessTransitive(a: string, b: string, c: string)
    requires StrLess(a, b) && StrLess(b, c)
    ensures StrLess(a, c)
  {
    if a != [] && b != [] && c != [] && a[0] == b[0] && b[0] == c[0] {
      StrLessTransitive(a[1..], b[1..], c[1..]);
    }
  }

  lemma {:induction false} StrLessTotal(a: string, b: string)
    requires a != b
    ensures StrLess(a, b) || StrLess(b, a)
  {
    if a != [] && b != [] && a[0] == b[0] {
      assert a == [a[0]] + a[1..] && b == [b[0]] + b[1..];
      StrLessTotal(a[1..], b[1..]);
    }
  }

  /** `ORDER BY country_code` ascending: PostgreSQL places NULL last. */
  predicate CountryLess(x: Option<string>, y: Option<string>)
  {
    match (x, y)
    case (Some(a), Some(b)) => StrLess(a, b)
    case (Some(_), None) => true
    case _ => false
  }

  /** `ORDER BY standard_job_id, country_code`. */
  predicate KeyLess(a: Key, b: Key)
  {
    StrLess(a.job, b.job) || (a.job == b.job && CountryLess(a.country, b.country))
  }

  lemma KeyLessIrreflexive(a: Key)
    ensures !KeyLess(a, a)
  {
    StrLessIrreflexive(a.job);
    if a.country.Some? {
      StrLessIrreflexive(a.country.value);
    }
  }

  lemma KeyLessTransitive(a: Key, b: Key, c: Key)
    requires KeyLess(a, b) && KeyLess(b, c)
    ensures KeyLess(a, c)
  {
    if StrLess(a.job, b.job) && StrLess(b.job, c.job) {
      StrLessTransitive(a.job, b.job, c.job);
    } else if a.job == b.job && b.job == c.job {
      if a.country.Some? && b.country.Some? && c.country.Some? {
        StrLessTransitive(a.country.value, b.country.value, c.country.value);
      }
    }
  }

  lemma KeyLessTotal(a: Key, b: Key)
    requires a != b
    ensures KeyLess(a, b) || KeyLess(b, a)
  {
    if a.job != b.job {
      StrLessTotal(a.job, b.job);
    } else if a.country.Some? && b.country.Some? {
      StrLessTotal(a.country.value, b.country.value);
    }
  }

  /** Strictly ascending keys: ordered and without repetition. */
  ghost predicate StrictlyAscending(keys: seq<Key>)
  {
    forall i, j :: 0 <= i < j < |keys| ==> KeyLess(keys[i], keys[j])
  }

  /** Two strictly ascending key lists holding the same keys are the same list. */
  lemma {:induction false} AscendingUnique(a: seq<Key>, b: seq<Key>)
    requires StrictlyAscending(a) && StrictlyAscending(b)
    requires forall k :: k in a <==> k in b
    ensures a == b
  {
    if a != [] {
      assert b != [] by {
        assert a[0] in b;
      }
      FirstEqual(a, b);
      DropFirst(a);
      DropFirst(b);
      forall k ensures k in a[1..] <==> k in b[1..] {
        assert k in a[1..] <==> k in a && k != a[0];
        assert k in b[1..] <==> k in b && k != b[0];
      }
      AscendingUnique(a[1..], b[1..]);
      assert a == [a[0]] + a[1..] && b == [b[0]] + b[1..];
    } else {
      NothingInEmpty(b);
    }
  }

  /** A list no key is in is empty. */
  lemma NothingInEmpty(b: seq<Key>)
    requires forall k :: k !in b
    ensures b == []
  {
    FirstIsIn(b);
  }

  lemma FirstIsIn(b: seq<Key>)
    ensures |b| > 0 ==> b[0] in b
  {
  }

  lemma FirstEqual(a: seq<Key>, b: seq<Key>)
    requires StrictlyAscending(a) && StrictlyAscending(b) && a != [] && b != []
    requires forall k :: k in a <==> k in b
    ensures a[0] == b[0]
  {
    if a[0] != b[0] {
      assert a[0] in b;
      var i :| 0 <= i < |b| && b[i] == a[0];
      assert b[i] != b[0];
      assert KeyLess(b[0], a[0]);
      assert b[0] in a;
      var j :| 0 <= j < |a| && a[j] == b[0];
      assert KeyLess(a[0], b[0]);
      KeyLessTransitive(a[0], b[0], a[0]);
      KeyLessIrreflexive(a[0]);
    }
  }

  /** Dropping the least key keeps the list strictly ascending, and the least key occurs only once. */
  lemma DropFirst(a: seq<Key>)
    requires StrictlyAscending(a) && a != []
    ensures StrictlyAscending(a[1..])
    ensures a[0] !in a[1..]
    ensures forall k :: k in a[1..] <==> k in a && k != a[0]
  {
    if a[0] in a[1..] {
      var i :| 1 <= i < |a| && a[i] == a[0];
      KeyLessIrreflexive(a[0]);
    }
    assert a == [a[0]] + a[1..];
  }

  // ----- the groups -----

  /** The key of the group a posting falls in: `(job, country)` for the country query, `(job, NULL)` for the global one. */
  function GroupOf(p: JobPosting, byCountry: bool): Key
  {
    if byCountry then Key(p.standardJobId, p.countryCode) else Key(p.standardJobId, None)
  }

  /**
   * `array_agg(days_to_hire)` of the group `key`, over the postings that pass
   * `WHERE days_to_hire IS NOT NULL`, in table order (the aggregate's order is not fixed;
   * every property below depends only on the samples' multiset).
   */
  function Samples(postings: seq<JobPosting>, key: Key, byCountry: bool): (r: seq<int>)
    ensures |r| <= |postings|
  {
    if postings == [] then []
    else
      var p := postings[0];
      var rest := Samples(postings[1..], key, byCountry);
      if p.daysToHire.Some? && GroupOf(p, byCountry) == key then [p.daysToHire.value] + rest else rest
  }

  /** A group with at least one sample has a posting that contributed it. */
  lemma {:induction false} SampleHasPosting(postings: seq<JobPosting>, key: Key, byCountry: bool) returns (p: JobPosting)
    requires Samples(postings, key, byCountry) != []
    ensures p in postings && p.daysToHire.Some? && GroupOf(p, byCountry) == key
  {
    var q := postings[0];
    if q.daysToHire.Some? && GroupOf(q, byCountry) == key {
      p := q;
    } else {
      p := SampleHasPosting(postings[1..], key, byCountry);
    }
  }

  /** The keys of a query result, in result order. */
  function Keys(rows: seq<QueryRow>): (keys: seq<Key>)
    ensures |keys| == |rows|
    ensures forall i :: 0 <= i < |rows| ==> keys[i] == KeyOf(rows[i])
  {
    if rows == [] then [] else [KeyOf(rows[0])] + Keys(rows[1..])
  }

  /**
   * `rows` is a correct answer to one of the two grouped queries over `postings`:
   * rows of the query's shape, in `ORDER BY` order without repeated keys, each group with at
   * least `MinGroupSize` samples that are exactly its postings' non-null `days_to_hire`, and
   * every group that reaches the threshold present.
   */
  ghost predicate IsQueryResult(postings: seq<JobPosting>, rows: seq<QueryRow>, byCountry: bool)
  {
    (forall i :: 0 <= i < |rows| ==> rows[i].CountryRow? == byCountry) &&
    StrictlyAscending(Keys(rows)) &&
    (forall i :: 0 <= i < |rows| ==>
      |rows[i].daysToHire| >= MinGroupSize &&
      multiset(rows[i].daysToHire) == multiset(Samples(postings, KeyOf(rows[i]), byCountry))) &&
    (forall p :: (p in postings && p.daysToHire.Some? &&
                  |Samples(postings, GroupOf(p, byCountry), byCountry)| >= MinGroupSize) ==>
      GroupOf(p, byCountry) in Keys(rows))
  }

  /** `country_query`: grouped by `(standard_job_id, country_code)`, ordered by both. */
  ghost predicate IsCountryQueryResult(postings: seq<JobPosting>, rows: seq<QueryRow>)
  {
    IsQueryResult(postings, rows, true)
  }

  /** `global_query`: grouped and ordered by `standard_job_id` alone. */
  ghost predicate IsGlobalQueryResult(postings: seq<JobPosting>, rows: seq<QueryRow>)
  {
    IsQueryResult(postings, rows, false)
  }

  /** A key of a correct answer is a group of the postings that reaches the threshold. */
  lemma ResultKeyIsGroup(postings: seq<JobPosting>, rows: seq<QueryRow>, byCountry: bool, i: int)
    requires IsQueryResult(postings, rows, byCountry) && 0 <= i < |rows|
    ensures exists p :: (p in postings && p.daysToHire.Some? && GroupOf(p, byCountry) == KeyOf(rows[i]) &&
                         |Samples(postings, GroupOf(p, byCountry), byCountry)| >= MinGroupSize)
  {
    var key := KeyOf(rows[i]);
    var s := Samples(postings, key, byCountry);
    assert |s| == |multiset(s)| == |multiset(rows[i].daysToHire)| == |rows[i].daysToHire|;
    var p := SampleHasPosting(postings, key, byCountry);
  }

  /**
   * The answer to a grouped query is determined by the postings: two correct answers list
   * the same groups in the same order with the same samples, up to the order of the samples.
   */
  lemma QueryResultUnique(postings: seq<JobPosting>, rows1: seq<QueryRow>, rows2: seq<QueryRow>, byCountry: bool)
    requires IsQueryResult(postings, rows1, byCountry) && IsQueryResult(postings, rows2, byCountry)
    ensures |rows1| == |rows2|
    ensures forall i :: 0 <= i < |rows1| ==>
      KeyOf(rows1[i]) == KeyOf(rows2[i]) && rows1[i].CountryRow? == rows2[i].CountryRow? &&
      multiset(rows1[i].daysToHire) == multiset(rows2[i].daysToHire)
  {
    KeysDetermined(postings, rows1, rows2, byCountry);
    assert Keys(rows1) == Keys(rows2);
    forall i | 0 <= i < |rows1|
      ensures KeyOf(rows1[i]) == KeyOf(rows2[i])
      ensures multiset(rows1[i].daysToHire) == multiset(rows2[i].daysToHire)
    {
      assert Keys(rows1)[i] == Keys(rows2)[i];
    }
  }

  /** Two correct answers hold the same keys in the same order. */
  lemma KeysDetermined(postings: seq<JobPosting>, rows1: seq<QueryRow>, rows2: seq<QueryRow>, byCountry: bool)
    requires IsQueryResult(postings, rows1, byCountry) && IsQueryResult(postings, rows2, byCountry)
    ensures Keys(rows1) == Keys(rows2)
  {
    var k1, k2 := Keys(rows1), Keys(rows2);
    forall k | k in k1 ensures k in k2 {
      var i :| 0 <= i < |k1| && k1[i] == k;
      ResultKeyIsGroup(postings, rows1, byCountry, i);
    }
    forall k | k in k2 ensures k in k1 {
      var i :| 0 <= i < |k2| && k2[i] == k;
      ResultKeyIsGroup(postings, rows2, byCountry, i);
    }
    AscendingUnique(k1, k2);
  }
}
