/**
 * The rebuild driver: `process_chunk` pages through an ordered query answer with LIMIT/OFFSET,
 * inserting one stats row per group that yields statistics and committing after every page;
 * `update_stats` truncates the table, commits, runs the country-level and then the global pass,
 * and on any failure rolls back and re-raises.
 *
 * The database session is a `Session` object: `committed` is the durable content of
 * `days_to_hire_stats`, `working` the content seen inside the open transaction. Storage
 * failures are injected: every fallible statement (execute or commit) is numbered by `calls`,
 * and the statements whose numbers are in `faults` raise.
 */
module Driver {
  import opened Wrappers
  import opened Aggregator
  import opened Grouping
  import opened StatsTable

  function Min(a: int, b: int): int
  {
    if a <= b then a else b
  }

  /** `query.limit(limit).offset(offset)` over the ordered answer `query`. */
  function Page(query: seq<QueryRow>, limit: nat, offset: nat): (page: seq<QueryRow>)
    ensures page == [] <==> limit == 0 || offset >= |query|
    ensures |page| == if offset >= |query| then 0 else Min(limit, |query| - offset)
  {
    if offset >= |query| then [] else query[offset..Min(offset + limit, |query|)]
  }

  lemma PageElements(query: seq<QueryRow>, limit: nat, offset: nat)
    ensures forall i :: 0 <= i < |Page(query, limit, offset)| ==> Page(query, limit, offset)[i] == query[offset + i]
  {
  }

  /** The rows of the pages at offsets `offset`, `offset + limit`, ... up to the first empty page. */
  function PagedRows(query: seq<QueryRow>, limit: nat, offset: nat): seq<QueryRow>
    decreases |query| - offset
  {
    var page := Page(query, limit, offset);
    if page == [] then [] else page + PagedRows(query, limit, offset + limit)
  }

  /**
   * With a positive page size, the pages from `offset` on hold exactly the rows from `offset`
   * on, in order: offset pagination over a fixed ordered answer neither skips nor repeats a row.
   */
  lemma {:induction false} PagedRowsFrom(query: seq<QueryRow>, limit: nat, offset: nat)
    requires limit > 0 && offset <= |query|
    ensures PagedRows(query, limit, offset) == query[offset..]
    decreases |query| - offset
  {
    if offset < |query| {
      var next := Min(offset + limit, |query|);
      PagedRowsFrom(query, limit, next);
      if offset + limit > |query| {
        assert PagedRows(query, limit, offset + limit) == [];
      }
      assert query[offset..] == query[offset..next] + query[next..];
    }
  }

  /** Paging with a positive size visits the whole answer; LIMIT 0 visits nothing. */
  lemma PagedRowsAll(query: seq<QueryRow>, limit: nat)
    ensures limit > 0 ==> PagedRows(query, limit, 0) == query
    ensures limit == 0 ==> PagedRows(query, limit, 0) == []
  {
    if limit > 0 {
      PagedRowsFrom(query, limit, 0);
    }
  }

  /** The offsets of the pages requested from `offset` on: every page up to and including the first empty one. */
  function PageOffsets(query: seq<QueryRow>, limit: nat, offset: nat): (offsets: seq<nat>)
    ensures offsets != [] && offsets[0] == offset
    decreases |query| - offset
  {
    if limit == 0 || offset >= |query| then [offset] else [offset] + PageOffsets(query, limit, offset + limit)
  }

  /**
   * The pages are requested at `offset`, `offset + limit`, `offset + 2 * limit`, ...; every page
   * but the last is non-empty and the last one is empty.
   */
  lemma {:induction false} PageOffsetsStep(query: seq<QueryRow>, limit: nat, offset: nat)
    ensures var offsets := PageOffsets(query, limit, offset);
      (forall i :: 0 <= i < |offsets| ==> offsets[i] == offset + i * limit) &&
      (forall i :: 0 <= i < |offsets| - 1 ==> Page(query, limit, offsets[i]) != []) &&
      Page(query, limit, offsets[|offsets| - 1]) == []
    decreases |query| - offset
  {
    var offsets := PageOffsets(query, limit, offset);
    if Page(query, limit, offset) != [] {
      PageOffsetsStep(query, limit, offset + limit);
      var rest := PageOffsets(query, limit, offset + limit);
      assert offsets == [offset] + rest;
      forall i | 1 <= i < |offsets|
        ensures offsets[i] == offset + i * limit
      {
        assert offsets[i] == rest[i - 1] == offset + limit + (i - 1) * limit;
      }
    }
  }

  /**
   * How the driver sees the rows inserted for a row of an answer: `each` yields them, and it
   * agrees with `Inserted` wherever the latter is mentioned. The paging and commit logic never
   * looks inside the statistics, so it is proved over `FlatMap(_, each)`; callers pass `Inserted`.
   */
  ghost predicate Computes(each: QueryRow -> seq<StatsRow>)
  {
    forall row {:trigger Inserted(row)} :: each(row) == Inserted(row)
  }

  /** A function that `Computes` yields, for every answer, exactly the rows `ExpectedRows` gives. */
  lemma {:induction false} ComputesExpected(rows: seq<QueryRow>, each: QueryRow -> seq<StatsRow>)
    requires Computes(each)
    ensures FlatMap(rows, each) == ExpectedRows(rows)
  {
    if rows != [] {
      ComputesExpected(rows[1..], each);
      assert each(rows[0]) == Inserted(rows[0]);
    }
  }

  /** `Inserted` is the function the driver computes with. */
  lemma InsertedComputes()
    ensures Computes(Inserted)
  {
  }

  /** The rows yielded for a prefix of `rows` open the rows yielded for all of `rows`. */
  lemma FlatMapPrefix(rows: seq<QueryRow>, n: nat, each: QueryRow -> seq<StatsRow>)
    requires n <= |rows|
    ensures FlatMap(rows[..n], each) <= FlatMap(rows, each)
  {
    assert rows == rows[..n] + rows[n..];
    FlatMapAppend(rows[..n], rows[n..], each);
  }

  /** One more row: the rows yielded for it follow those of the earlier ones. */
  lemma FlatMapStep(rows: seq<QueryRow>, i: nat, each: QueryRow -> seq<StatsRow>)
    requires i < |rows|
    ensures FlatMap(rows[..i + 1], each) == FlatMap(rows[..i], each) + each(rows[i])
  {
    assert rows[..i + 1] == rows[..i] + [rows[i]];
    FlatMapAppend(rows[..i], [rows[i]], each);
    assert [rows[i]][1..] == [];
  }

  /** `table` is `base` followed by the rows yielded for some prefix of `rows`. */
  ghost predicate HoldsPrefixOf(table: seq<StatsRow>, base: seq<StatsRow>, rows: seq<QueryRow>, each: QueryRow -> seq<StatsRow>)
  {
    exists n :: 0 <= n <= |rows| && table == base + FlatMap(rows[..n], each)
  }

  /** Witness for `HoldsPrefixOf`. */
  lemma HoldsPrefixAt(table: seq<StatsRow>, base: seq<StatsRow>, rows: seq<QueryRow>, each: QueryRow -> seq<StatsRow>, n: nat)
    requires n <= |rows| && table == base + FlatMap(rows[..n], each)
    ensures HoldsPrefixOf(table, base, rows, each)
  {
  }

  /** Where a rebuild stopped: at the truncate or its commit, or in one of the two passes. */
  datatype Stage = Truncating | CountryPass | GlobalPass

  /**
   * The durable table a pass leaves when the page at `offset` fails: every earlier page was
   * committed, so it is `base` followed by the rows of the answer before `offset`; a failure at
   * the first page leaves the durable table `committed` the pass started with.
   */
  ghost function DurableBeforePage(committed: seq<StatsRow>, base: seq<StatsRow>, query: seq<QueryRow>, offset: nat, each: QueryRow -> seq<StatsRow>): seq<StatsRow>
  {
    if offset == 0 then committed else base + FlatMap(query[..Min(offset, |query|)], each)
  }

  /** The last entry of a non-empty log. */
  function Last(log: seq<nat>): nat
    requires log != []
  {
    log[|log| - 1]
  }

  /**
   * The log of requested pages against the offsets still to come: requesting the page at
   * `offset` moves that offset from the one to the other.
   */
  lemma PagesFetched(all: seq<nat>, before: seq<nat>, after: seq<nat>, query: seq<QueryRow>, limit: nat, offset: nat)
    requires all == before + PageOffsets(query, limit, offset) && after == before + [offset]
    ensures after <= all
    ensures Page(query, limit, offset) == [] ==> all == after
    ensures Page(query, limit, offset) != [] ==> all == after + PageOffsets(query, limit, offset + limit)
  {
    var offsets := PageOffsets(query, limit, offset);
    assert (before + offsets)[..|before| + 1] == after;
    if Page(query, limit, offset) != [] {
      AppendAssociative(before, [offset], PageOffsets(query, limit, offset + limit));
    }
  }

  lemma AppendAssociative<T>(a: seq<T>, b: seq<T>, c: seq<T>)
    ensures (a + b) + c == a + (b + c)
  {
  }

  /** A database session over `days_to_hire_stats`, with injected storage failures. */
  class Session {
    /** The table as other transactions see it. */
    var committed: seq<StatsRow>
    /** The table as this session's open transaction sees it. */
    var working: seq<StatsRow>
    /** How many fallible statements the session has issued. */
    var calls: nat
    /** The numbers of the statements that raise. */
    const faults: set<nat>
    /** The offsets of the pages requested so far, in order. */
    ghost var pages: seq<nat>

    constructor(table: seq<StatsRow>, faults: set<nat>)
      ensures committed == table && working == table && calls == 0 && this.faults == faults && pages == []
    {
      committed, working, calls := table, table, 0;
      this.faults := faults;
      pages := [];
    }

    /** No statement numbered `from` up to (not including) `to` raises. */
    ghost predicate Clean(from: nat, to: nat)
    {
      forall k :: from <= k < to ==> k !in faults
    }

    /** An empty run of statements raises nothing. */
    lemma CleanEmpty(n: nat)
      ensures Clean(n, n)
    {
    }

    /** A run of statements extended by one raises nothing iff the run and the new statement do not. */
    lemma CleanStep(from: nat, to: nat)
      requires from <= to
      ensures Clean(from, to + 1) <==> Clean(from, to) && to !in faults
    {
    }

    /** Two adjacent runs raise nothing iff neither does. */
    lemma CleanJoin(from: nat, mid: nat, to: nat)
      requires from <= mid <= to
      ensures Clean(from, to) <==> Clean(from, mid) && Clean(mid, to)
    {
    }

    /** Issues one fallible statement: it raises exactly when its number is a fault. */
    method Issue() returns (r: Outcome)
      modifies this
      ensures calls == old(calls) + 1 && committed == old(committed) && working == old(working)
      ensures pages == old(pages)
      ensures r == if old(calls) in faults then Fail(StorageError) else Pass
    {
      r := if calls in faults then Fail(StorageError) else Pass;
      calls := calls + 1;
    }

    /** `TRUNCATE TABLE days_to_hire_stats`, inside the open transaction. */
    method Truncate() returns (r: Outcome)
      modifies this
      ensures calls == old(calls) + 1 && committed == old(committed) && pages == old(pages)
      ensures r == if old(calls) in faults then Fail(StorageError) else Pass
      ensures working == if r.Pass? then [] else old(working)
    {
      r := Issue();
      if r.Pass? {
        working := [];
      }
    }

    /** Executes `query.limit(limit).offset(offset)` and fetches all of its rows. */
    method Fetch(query: seq<QueryRow>, limit: nat, offset: nat) returns (r: Result<seq<QueryRow>>)
      modifies this
      ensures calls == old(calls) + 1 && committed == old(committed) && working == old(working)
      ensures pages == old(pages) + [offset]
      ensures r == if old(calls) in faults then Err(StorageError) else Ok(Page(query, limit, offset))
    {
      var o := Issue();
      pages := pages + [offset];
      r := if o.Pass? then Ok(Page(query, limit, offset)) else Err(StorageError);
    }

    /** `insert(DaysToHireStats).values(...)`, inside the open transaction. */
    method Insert(row: StatsRow) returns (r: Outcome)
      modifies this
      ensures calls == old(calls) + 1 && committed == old(committed) && pages == old(pages)
      ensures r == if old(calls) in faults then Fail(StorageError) else Pass
      ensures working == if r.Pass? then old(working) + [row] else old(working)
    {
      r := Issue();
      if r.Pass? {
        working := working + [row];
      }
    }

    /** `session.commit()`: the open transaction's table becomes the durable one. */
    method Commit() returns (r: Outcome)
      modifies this
      ensures calls == old(calls) + 1 && working == old(working) && pages == old(pages)
      ensures r == if old(calls) in faults then Fail(StorageError) else Pass
      ensures committed == if r.Pass? then old(working) else old(committed)
    {
      r := Issue();
      if r.Pass? {
        committed := working;
      }
    }

    /** `session.rollback()`: the uncommitted changes are discarded. */
    method Rollback()
      modifies this
      ensures working == old(committed) && committed == old(committed) && calls == old(calls) && pages == old(pages)
    {
      working := committed;
    }
  }

  /**
   * One row of a page: its statistics are computed and, when there are any, one stats row with
   * the group's key and those statistics is inserted.
   */
  method InsertRow(session: Session, row: QueryRow) returns (r: Outcome)
    modifies session
    ensures session.committed == old(session.committed) && old(session.calls) <= session.calls
    ensures session.pages == old(session.pages)
    ensures r.Pass? <==> session.Clean(old(session.calls), session.calls)
    ensures r.Pass? ==> session.working == old(session.working) + Inserted(row)
    ensures r.Fail? ==> r.error == StorageError && session.working == old(session.working)
  {
    ghost var calls0 := session.calls;
    var stats := CalculateStats(row.daysToHire);
    if stats.Ok? && stats.value.Some? {
      r := session.Insert(MakeRow(row, stats.value.value));
      session.CleanStep(calls0, calls0);
    } else {
      r := Pass;
    }
    session.CleanEmpty(calls0);
  }

  /** One more row processed: the table grows by the rows yielded for it. */
  lemma TableStep(after: seq<StatsRow>, before: seq<StatsRow>, base: seq<StatsRow>, rows: seq<QueryRow>, i: nat, each: QueryRow -> seq<StatsRow>)
    requires i < |rows|
    requires before == base + FlatMap(rows[..i], each) && after == before + each(rows[i])
    ensures after == base + FlatMap(rows[..i + 1], each)
  {
    FlatMapStep(rows, i, each);
    AppendAssociative(base, FlatMap(rows[..i], each), each(rows[i]));
  }

  /**
   * The loop over one page: its rows are processed in order. `done` counts the rows whose
   * inserts took effect.
   */
  method InsertRows(session: Session, rows: seq<QueryRow>, ghost each: QueryRow -> seq<StatsRow>) returns (r: Outcome, ghost done: nat)
    requires Computes(each)
    modifies session
    ensures done <= |rows| && session.working == old(session.working) + FlatMap(rows[..done], each)
    ensures session.committed == old(session.committed) && old(session.calls) <= session.calls
    ensures session.pages == old(session.pages)
    ensures r.Pass? <==> session.Clean(old(session.calls), session.calls)
    ensures r.Pass? ==> done == |rows|
    ensures r.Fail? ==> r.error == StorageError
  {
    ghost var calls0 := session.calls;
    session.CleanEmpty(calls0);
    var i := 0;
    while i < |rows|
      invariant i <= |rows|
      invariant session.working == old(session.working) + FlatMap(rows[..i], each)
      invariant session.committed == old(session.committed) && calls0 <= session.calls
      invariant session.pages == old(session.pages)
      invariant session.Clean(calls0, session.calls)
    {
      ghost var before, table := session.calls, session.working;
      var inserted := InsertRow(session, rows[i]);
      session.CleanJoin(calls0, before, session.calls);
      if inserted.Fail? {
        return inserted, i;
      }
      TableStep(session.working, table, old(session.working), rows, i, each);
      i := i + 1;
    }
    r, done := Pass, i;
  }

  /** The rows of one fetched page are processed in order, then the page is committed. */
  method ProcessPage(session: Session, chunk: seq<QueryRow>, ghost each: QueryRow -> seq<StatsRow>) returns (r: Outcome, ghost done: nat)
    requires Computes(each)
    modifies session
    ensures done <= |chunk| && session.working == old(session.working) + FlatMap(chunk[..done], each)
    ensures old(session.calls) <= session.calls && session.pages == old(session.pages)
    ensures r.Pass? <==> session.Clean(old(session.calls), session.calls)
    ensures r.Pass? ==> done == |chunk| && session.committed == session.working
    ensures r.Fail? ==> r.error == StorageError && session.committed == old(session.committed)
  {
    ghost var calls0 := session.calls;
    r, done := InsertRows(session, chunk, each);
    if r.Pass? {
      ghost var callsCommit := session.calls;
      r := session.Commit();
      session.CleanStep(calls0, callsCommit);
    }
  }

  /**
   * After the page at `offset` has had `done` of its rows processed, the table holds the rows of
   * the answer's first `offset + done` rows: a page continues the answer where the previous one
   * stopped.
   */
  lemma PageRows(after: seq<StatsRow>, before: seq<StatsRow>, base: seq<StatsRow>, query: seq<QueryRow>, limit: nat, offset: nat, done: nat, each: QueryRow -> seq<StatsRow>)
    requires offset < |query| && done <= |Page(query, limit, offset)|
    requires before == base + FlatMap(query[..offset], each)
    requires after == before + FlatMap(Page(query, limit, offset)[..done], each)
    ensures offset + done <= |query| && after == base + FlatMap(query[..offset + done], each)
  {
    var page := Page(query, limit, offset);
    PageElements(query, limit, offset);
    assert page[..done] == query[offset..offset + done];
    assert query[..offset + done] == query[..offset] + query[offset..offset + done];
    FlatMapAppend(query[..offset], query[offset..offset + done], each);
    AppendAssociative(base, FlatMap(query[..offset], each), FlatMap(page[..done], each));
  }

  /**
   * `process_chunk`: pages of `chunkSize` rows are fetched at offsets 0, chunkSize, 2 * chunkSize,
   * ... until the first empty page; the rows of each page are processed in order and the page
   * is committed. With a positive page size, the rows inserted are those of the whole answer in
   * one go, whatever the page size; LIMIT 0 fetches an empty first page and does nothing.
   */
  method ProcessChunk(session: Session, query: seq<QueryRow>, ghost each: QueryRow -> seq<StatsRow>, chunkSize: nat := 1000)
    returns (r: Outcome)
    requires Computes(each)
    modifies session
    ensures old(session.calls) <= session.calls
    ensures r.Pass? <==> session.Clean(old(session.calls), session.calls)
    ensures r.Fail? ==> r.error == StorageError
    ensures r.Pass? ==> session.pages == old(session.pages) + PageOffsets(query, chunkSize, 0)
    ensures r.Fail? ==> session.pages <= old(session.pages) + PageOffsets(query, chunkSize, 0)
    ensures r.Pass? && chunkSize > 0 ==> session.working == old(session.working) + FlatMap(query, each)
    ensures r.Pass? && chunkSize > 0 && query != [] ==> session.committed == session.working
    ensures r.Pass? && (chunkSize == 0 || query == []) ==>
      session.working == old(session.working) && session.committed == old(session.committed)
    ensures r.Fail? ==> HoldsPrefixOf(session.working, old(session.working), query, each)
    ensures r.Fail? ==>
      |old(session.pages)| < |session.pages| &&
      session.committed == DurableBeforePage(old(session.committed), old(session.working), query, Last(session.pages), each)
  {
    ghost var start, calls0 := session.working, session.calls;
    ghost var allPages := session.pages + PageOffsets(query, chunkSize, 0);
    session.CleanEmpty(calls0);
    var offset: nat := 0;
    ghost var seen: nat := 0;
    while true
      invariant chunkSize == 0 ==> offset == 0
      invariant offset > 0 ==> query != []
      invariant seen == Min(offset, |query|)
      invariant session.working == start + FlatMap(query[..seen], each)
      invariant offset == 0 ==> session.committed == old(session.committed) && session.working == start
      invariant offset > 0 ==> session.committed == session.working
      invariant calls0 <= session.calls && session.Clean(calls0, session.calls)
      invariant |old(session.pages)| <= |session.pages|
      invariant allPages == session.pages + PageOffsets(query, chunkSize, offset)
      decreases |query| + chunkSize - offset
    {
      ghost var callsPage := session.calls;
      var more;
      ghost var seenNext;
      r, more, seenNext := NextPage(session, query, chunkSize, offset, each, start, seen, allPages);
      session.CleanJoin(calls0, callsPage, session.calls);
      if r.Fail? {
        return;
      }
      if !more {
        break;
      }
      offset, seen := offset + chunkSize, seenNext;
    }
    assert query[..|query|] == query;
  }

  /**
   * One turn of the loop of `process_chunk`: the page at `offset` is fetched; an empty page ends
   * the loop (`more` is false); otherwise its rows are processed and the page is committed.
   * `seen` counts the rows of the answer processed before, `seenNext` after.
   */
  method NextPage(session: Session, query: seq<QueryRow>, chunkSize: nat, offset: nat,
                  ghost each: QueryRow -> seq<StatsRow>, ghost start: seq<StatsRow>, ghost seen: nat, ghost allPages: seq<nat>)
    returns (r: Outcome, more: bool, ghost seenNext: nat)
    requires Computes(each)
    requires seen == Min(offset, |query|) && session.working == start + FlatMap(query[..seen], each)
    requires allPages == session.pages + PageOffsets(query, chunkSize, offset)
    modifies session
    ensures old(session.calls) <= session.calls && |session.pages| == |old(session.pages)| + 1
    ensures r.Pass? <==> session.Clean(old(session.calls), session.calls)
    ensures r.Fail? ==> r.error == StorageError && session.committed == old(session.committed) && Last(session.pages) == offset
    ensures r.Fail? ==> session.pages <= allPages && HoldsPrefixOf(session.working, start, query, each)
    ensures r.Pass? && !more ==>
      (chunkSize == 0 || offset >= |query|) && session.pages == allPages &&
      session.working == old(session.working) && session.committed == old(session.committed)
    ensures r.Pass? && more ==>
      chunkSize > 0 && offset < |query| && seenNext == Min(offset + chunkSize, |query|) &&
      session.working == start + FlatMap(query[..seenNext], each) && session.committed == session.working &&
      allPages == session.pages + PageOffsets(query, chunkSize, offset + chunkSize)
  {
    ghost var calls0, pagesBefore := session.calls, session.pages;
    var fetched := session.Fetch(query, chunkSize, offset);
    ghost var logged := session.pages;
    assert |logged| == |pagesBefore| + 1 && Last(logged) == offset;
    session.CleanStep(calls0, calls0);
    session.CleanEmpty(calls0);
    PagesFetched(allPages, pagesBefore, session.pages, query, chunkSize, offset);
    if fetched.Err? {
      HoldsPrefixAt(session.working, start, query, each, seen);
      return Fail(fetched.error), false, seen;
    }
    var chunk := fetched.value;
    if chunk == [] {
      return Pass, false, seen;
    }
    ghost var callsRows, before := session.calls, session.working;
    ghost var done;
    r, done := ProcessPage(session, chunk, each);
    assert session.pages == logged;
    session.CleanJoin(calls0, callsRows, session.calls);
    PageRows(session.working, before, start, query, chunkSize, offset, done, each);
    HoldsPrefixAt(session.working, start, query, each, offset + done);
    more, seenNext := true, offset + done;
  }

  /**
   * `update_stats`: truncate and commit, process the country-level answer, then the global
   * answer; on a failure, roll back the open transaction and re-raise. A successful run leaves
   * exactly the snapshot of the two answers. `stage` tells where a failure happened. A failure
   * at the truncate or its commit leaves the old table; a failure in a pass leaves the pages
   * committed before the failing one, whose offset is the last one requested: the old table is
   * not restored.
   */
  method UpdateStats(session: Session, countryRows: seq<QueryRow>, globalRows: seq<QueryRow>, ghost each: QueryRow -> seq<StatsRow> := Inserted)
    returns (r: Outcome, ghost stage: Stage)
    requires Computes(each)
    modifies session
    ensures r.Pass? <==> session.Clean(old(session.calls), session.calls)
    ensures r.Pass? ==> session.committed == FlatMap(countryRows, each) + FlatMap(globalRows, each) && session.working == session.committed
    ensures r.Fail? ==> r.error == StorageError && session.working == session.committed
    ensures r.Pass? ==>
      session.pages == old(session.pages) + PageOffsets(countryRows, 1000, 0) + PageOffsets(globalRows, 1000, 0)
    ensures r.Fail? && stage == Truncating ==>
      session.calls <= old(session.calls) + 2 && session.committed == old(session.committed) &&
      session.pages == old(session.pages)
    ensures r.Fail? && stage == CountryPass ==>
      |old(session.pages)| < |session.pages| &&
      session.pages <= old(session.pages) + PageOffsets(countryRows, 1000, 0) &&
      session.committed == FlatMap(countryRows[..Min(Last(session.pages), |countryRows|)], each)
    ensures r.Fail? && stage == GlobalPass ==>
      |old(session.pages) + PageOffsets(countryRows, 1000, 0)| < |session.pages| &&
      session.pages <= old(session.pages) + PageOffsets(countryRows, 1000, 0) + PageOffsets(globalRows, 1000, 0) &&
      session.committed == FlatMap(countryRows, each) + FlatMap(globalRows[..Min(Last(session.pages), |globalRows|)], each)
  {
    stage := Truncating;
    ghost var calls0 := session.calls;
    r := session.Truncate();
    if r.Pass? {
      r := session.Commit();
    }
    if r.Fail? {
      session.Rollback();
      return;
    }
    assert session.committed == [] && session.working == [] && session.calls == calls0 + 2;
    stage := CountryPass;
    ghost var callsC := session.calls;
    r := ProcessChunk(session, countryRows, each);
    if r.Fail? {
      FirstPassFailure(session.committed, countryRows, Last(session.pages), each);
      session.Rollback();
      return;
    }
    assert session.committed == FlatMap(countryRows, each) == session.working;
    stage := GlobalPass;
    ghost var callsG := session.calls;
    r := ProcessChunk(session, globalRows, each);
    if r.Fail? {
      SecondPassFailure(session.committed, FlatMap(countryRows, each), globalRows, Last(session.pages), each);
      session.Rollback();
      return;
    }
    assert session.Clean(calls0, callsC) && session.Clean(callsC, callsG) && session.Clean(callsG, session.calls);
  }

  /** A pass over an empty table that fails at `offset` leaves the rows of the answer before `offset`. */
  lemma FirstPassFailure(committed: seq<StatsRow>, query: seq<QueryRow>, offset: nat, each: QueryRow -> seq<StatsRow>)
    requires committed == DurableBeforePage([], [], query, offset, each)
    ensures committed == FlatMap(query[..Min(offset, |query|)], each)
  {
    if offset == 0 {
      assert query[..0] == [];
    }
  }

  /** A pass after a committed `base` that fails at `offset` leaves `base` and the rows of the answer before `offset`. */
  lemma SecondPassFailure(committed: seq<StatsRow>, base: seq<StatsRow>, query: seq<QueryRow>, offset: nat, each: QueryRow -> seq<StatsRow>)
    requires committed == DurableBeforePage(base, base, query, offset, each)
    ensures committed == base + FlatMap(query[..Min(offset, |query|)], each)
  {
    if offset == 0 {
      assert query[..0] == [];
      assert base + [] == base;
    }
  }

  /** The two passes of a rebuild, seen through a function that `Computes`, insert the snapshot. */
  lemma SnapshotOf(countryRows: seq<QueryRow>, globalRows: seq<QueryRow>, each: QueryRow -> seq<StatsRow>)
    requires Computes(each)
    ensures FlatMap(countryRows, each) + FlatMap(globalRows, each) == Snapshot(countryRows, globalRows)
  {
    ComputesExpected(countryRows, each);
    ComputesExpected(globalRows, each);
  }

  /**
   * What a failed pass leaves durable opens what the whole pass would have left, when the pass
   * starts, as both of `update_stats`'s do, with nothing uncommitted.
   */
  lemma PassPrefix(base: seq<StatsRow>, query: seq<QueryRow>, offset: nat, each: QueryRow -> seq<StatsRow>)
    ensures DurableBeforePage(base, base, query, offset, each) <= base + FlatMap(query, each)
  {
    if offset == 0 {
      assert (base + FlatMap(query, each))[..|base|] == base;
    } else {
      var n := Min(offset, |query|);
      FlatMapPrefix(query, n, each);
      var done, all := FlatMap(query[..n], each), FlatMap(query, each);
      assert (base + all)[..|base + done|] == base + done by {
        assert all[..|done|] == done;
      }
    }
  }
}
