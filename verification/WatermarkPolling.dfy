/** Incremental polling under a saved watermark (queryPages in servicenow-connector.adapter.ts, searchPages in
    jira-connector.adapter.ts, acceptRecords and acceptIngestionPage in connector.service.ts, all under
    src/modules/connectors).

    The source does not change while it is polled and is listed in the order every query asks for. A provider may
    widen a query: the bound it applies is any instant no later than the watermark, which covers Jira's overlap of
    one minute and its minute precision as well as ServiceNow's exact bound. */
module WatermarkPolling {
  import opened Wrappers

  const PAGE_SIZE := 100

  const JQL_OVERLAP_MS := 60_000

  datatype Record = Record(stamp: nat, id: string)

  ghost predicate Listed(source: seq<Record>) {
    forall i, j | 0 <= i < j < |source| :: source[i].stamp <= source[j].stamp
  }

  // ---- The provider --------------------------------------------------------------------------------------------

  function Since(source: seq<Record>, bound: Option<int>): seq<Record> {
    if source == [] then []
    else (if bound.None? || source[0].stamp >= bound.value then [source[0]] else []) + Since(source[1..], bound)
  }

  datatype Page = Page(rows: seq<Record>, last: bool)

  /** A page continues where the previous one ended; only the end of the listing may be called the last page, and a
      page that is not the last makes progress. */
  ghost predicate Honest(all: seq<Record>, offset: nat, page: Page) {
    && |page.rows| <= PAGE_SIZE && offset + |page.rows| <= |all|
    && page.rows == all[offset..offset + |page.rows|]
    && (page.last ==> offset + |page.rows| == |all|)
    && (!page.last ==> page.rows != [])
  }

  /** ServiceNow: up to a page from the offset; a short page is the last one. */
  function ServiceNowPage(all: seq<Record>, offset: nat): (page: Page)
    requires offset <= |all|
    ensures Honest(all, offset, page)
  {
    var rows := if |all| - offset <= PAGE_SIZE then all[offset..] else all[offset..offset + PAGE_SIZE];
    Page(rows, |rows| < PAGE_SIZE)
  }

  /** The bound of a Jira query: one minute back, cut to the minute. */
  function JiraBound(watermark: nat): (bound: int)
    ensures bound % 60_000 == 0 && watermark - 120_000 < bound <= watermark - 60_000
  {
    (watermark - JQL_OVERLAP_MS) / 60_000 * 60_000
  }

  /** The bound of a ServiceNow query. */
  function ServiceNowBound(watermark: nat): (bound: int)
    ensures bound <= watermark
  {
    watermark
  }

  // ---- One poll --------------------------------------------------------------------------------------------------

  function Highest(base: nat, records: seq<Record>): nat
    decreases |records|
  {
    if records == [] then base
    else
      var stamp := records[|records| - 1].stamp;
      Highest(if stamp > base then stamp else base, records[..|records| - 1])
  }

  ghost predicate NewerThan(prior: Option<nat>, stamp: nat) {
    prior.None? || stamp > prior.value
  }

  ghost predicate SomeNewer(prior: Option<nat>, records: seq<Record>) {
    exists r | r in records :: NewerThan(prior, r.stamp)
  }

  lemma SomeNewerOfConcat(prior: Option<nat>, a: seq<Record>, b: seq<Record>)
    ensures SomeNewer(prior, a + b) <==> SomeNewer(prior, a) || SomeNewer(prior, b)
  {
    if SomeNewer(prior, a) {
      var r :| r in a && NewerThan(prior, r.stamp);
      assert r in a + b;
    }
    if SomeNewer(prior, b) {
      var r :| r in b && NewerThan(prior, r.stamp);
      assert r in a + b;
    }
  }

  /** What a finished poll hands to acceptance. */
  ghost predicate Outcome(all: seq<Record>, prior: Option<nat>, records: seq<Record>, hasMore: bool, next: nat) {
    && |records| <= |all| && records == all[..|records|]
    && (!hasMore ==> records == all)
    && next == Highest(if prior.Some? then prior.value else 0, records)
    && (hasMore ==> SomeNewer(prior, records))
  }

  /** Rows read before any newer record stay outside the last page. */
  lemma BudgetStep(prior: Option<nat>, records: seq<Record>, rows: seq<Record>)
    requires |rows| <= PAGE_SIZE
    ensures !SomeNewer(prior, records) ==>
              forall i | 0 <= i < |records + rows| - PAGE_SIZE :: !NewerThan(prior, (records + rows)[i].stamp)
  {
    if !SomeNewer(prior, records) {
      forall i | 0 <= i < |records + rows| - PAGE_SIZE ensures !NewerThan(prior, (records + rows)[i].stamp) {
        assert records[i] in records;
      }
    }
  }

  /** The do/while of both adapters: the page budget counts only once a newer record has been read. */
  method PollPages(ghost all: seq<Record>, fetch: nat -> Page, prior: Option<nat>, maxPages: nat)
    returns (records: seq<Record>, hasMore: bool, next: nat, pages: nat)
    requires 1 <= maxPages
    requires forall offset: nat | offset <= |all| :: Honest(all, offset, fetch(offset))
    ensures Outcome(all, prior, records, hasMore, next)
    ensures pages > maxPages ==> forall i | 0 <= i < |records| - PAGE_SIZE :: !NewerThan(prior, records[i].stamp)
    ensures hasMore ==> pages >= maxPages
  {
    records, pages := [], 0;
    var exhausted, advanced, again := false, false, true;
    while again
      invariant |records| <= |all| && records == all[..|records|]
      invariant exhausted ==> records == all
      invariant again ==> !exhausted
      invariant advanced <==> SomeNewer(prior, records)
      invariant !again && !exhausted ==> advanced && pages >= maxPages
      invariant again && pages >= maxPages ==> !advanced
      invariant pages > maxPages ==> forall i | 0 <= i < |records| - PAGE_SIZE :: !NewerThan(prior, records[i].stamp)
      decreases again, |all| - |records|
    {
      var page := fetch(|records|);
      var newer := AnyNewer(page.rows, prior);
      SomeNewerOfConcat(prior, records, page.rows);
      BudgetStep(prior, records, page.rows);
      records := records + page.rows;
      advanced := advanced || newer;
      exhausted := page.last;
      pages := pages + 1;
      again := !exhausted && (pages < maxPages || !advanced);
    }
    hasMore := !exhausted;
    next := Watermark(records, if prior.Some? then prior.value else 0);
  }

  method AnyNewer(rows: seq<Record>, prior: Option<nat>) returns (newer: bool)
    ensures newer <==> SomeNewer(prior, rows)
  {
    newer := false;
    for i := 0 to |rows|
      invariant newer <==> SomeNewer(prior, rows[..i])
    {
      assert rows[..i + 1] == rows[..i] + [rows[i]];
      SomeNewerOfConcat(prior, rows[..i], [rows[i]]);
      assert SomeNewer(prior, [rows[i]]) <==> NewerThan(prior, rows[i].stamp) by { assert rows[i] in [rows[i]]; }
      if prior.None? || rows[i].stamp > prior.value {
        newer := true;
      }
    }
    assert rows[..|rows|] == rows;
  }

  method Watermark(records: seq<Record>, base: nat) returns (watermark: nat)
    ensures watermark == Highest(base, records)
  {
    watermark := base;
    HighestIsMaximum(base, records);
    for i := 0 to |records|
      invariant watermark == base || exists r | r in records[..i] :: r.stamp == watermark
      invariant base <= watermark && forall r | r in records[..i] :: r.stamp <= watermark
    {
      assert records[..i + 1] == records[..i] + [records[i]];
      if records[i].stamp > watermark {
        watermark := records[i].stamp;
      }
    }
    assert records[..|records|] == records;
  }

  lemma {:induction false} HighestIsMaximum(base: nat, records: seq<Record>)
    ensures base <= Highest(base, records)
    ensures forall r | r in records :: r.stamp <= Highest(base, records)
    ensures Highest(base, records) == base || exists r | r in records :: r.stamp == Highest(base, records)
    decreases |records|
  {
    if records != [] {
      var init, last := records[..|records| - 1], records[|records| - 1];
      HighestIsMaximum(if last.stamp > base then last.stamp else base, init);
      assert records == init + [last];
    }
  }

  // ---- Acceptance -------------------------------------------------------------------------------------------------

  /** The queue after a page: records it already holds are recognised by their dedupe key. */
  function Enqueued(queue: seq<Record>, records: seq<Record>): seq<Record> {
    if records == [] then queue
    else
      var before := Enqueued(queue, records[..|records| - 1]);
      if records[|records| - 1] in before then before else before + [records[|records| - 1]]
  }

  ghost predicate NoRepeats(queue: seq<Record>) {
    forall i, j | 0 <= i < j < |queue| :: queue[i] != queue[j]
  }

  lemma {:induction false} EnqueuedHolds(queue: seq<Record>, records: seq<Record>)
    ensures queue <= Enqueued(queue, records)
    ensures forall r :: r in Enqueued(queue, records) <==> r in queue || r in records
    ensures NoRepeats(queue) ==> NoRepeats(Enqueued(queue, records))
  {
    if records != [] {
      var init, last := records[..|records| - 1], records[|records| - 1];
      EnqueuedHolds(queue, init);
      assert records == init + [last];
    }
  }

  /** The durable intake queue and cursor of one connector and entity type. */
  class IngestionStore {
    var queue: seq<Record>
    var cursor: Option<nat>

    constructor ()
      ensures queue == [] && cursor == None
    {
      queue, cursor := [], None;
    }

    /** acceptRecords with the cursor upsert of acceptIngestionPage: one transaction. */
    method AcceptPage(records: seq<Record>, next: nat) returns (inserted: nat)
      modifies this
      ensures queue == Enqueued(old(queue), records)
      ensures cursor == Some(next)
      ensures inserted == |queue| - |old(queue)|
    {
      inserted := 0;
      for i := 0 to |records|
        invariant queue == Enqueued(old(queue), records[..i])
        invariant inserted == |queue| - |old(queue)|
        invariant cursor == old(cursor)
      {
        assert records[..i + 1][..i] == records[..i];
        if records[i] !in queue {
          queue := queue + [records[i]];
          inserted := inserted + 1;
        }
      }
      assert records[..|records|] == records;
      cursor := Some(next);
    }
  }

  // ---- Repeated polls ---------------------------------------------------------------------------------------------

  datatype Db = Db(queue: seq<Record>, cursor: Option<nat>)

  function Query(source: seq<Record>, lower: nat -> int, cursor: Option<nat>): seq<Record> {
    Since(source, if cursor.None? then None else Some(lower(cursor.value)))
  }

  /** What one poll can do: commit anything the contract of `PollPages` allows, or crash before its transaction. */
  datatype Poll = Crashed | Committed(records: seq<Record>, hasMore: bool, next: nat)

  ghost predicate Allowed(source: seq<Record>, lower: nat -> int, db: Db, poll: Poll) {
    poll.Committed? ==> Outcome(Query(source, lower, db.cursor), db.cursor, poll.records, poll.hasMore, poll.next)
  }

  ghost function After(db: Db, poll: Poll): Db {
    if poll.Crashed? then db else Db(Enqueued(db.queue, poll.records), Some(poll.next))
  }

  ghost function RunPolls(polls: seq<Poll>): Db {
    if polls == [] then Db([], None) else After(RunPolls(polls[..|polls| - 1]), polls[|polls| - 1])
  }

  /** Every poll of the run is one the adapters can produce from the store it found. */
  ghost predicate IsRun(source: seq<Record>, lower: nat -> int, polls: seq<Poll>) {
    polls != [] ==>
      && IsRun(source, lower, polls[..|polls| - 1])
      && Allowed(source, lower, RunPolls(polls[..|polls| - 1]), polls[|polls| - 1])
  }

  ghost function Commits(polls: seq<Poll>): nat {
    if polls == [] then 0 else Commits(polls[..|polls| - 1]) + if polls[|polls| - 1].Committed? then 1 else 0
  }

  ghost predicate AllQueued(source: seq<Record>, queue: seq<Record>) {
    forall r | r in source :: r in queue
  }

  /** Nothing older than the cursor is missing from the queue, and the queue holds source records once each. */
  ghost predicate Safe(source: seq<Record>, db: Db) {
    && (forall r | r in source && db.cursor.Some? && r.stamp < db.cursor.value :: r in db.queue)
    && (forall r | r in db.queue :: r in source)
    && NoRepeats(db.queue)
  }

  ghost function Newer(source: seq<Record>, cursor: Option<nat>): nat {
    if source == [] then 0 else (if NewerThan(cursor, source[0].stamp) then 1 else 0) + Newer(source[1..], cursor)
  }

  lemma {:induction false} SinceMembers(source: seq<Record>, bound: Option<int>)
    ensures forall r :: r in Since(source, bound) <==> r in source && (bound.None? || r.stamp >= bound.value)
  {
    if source != [] {
      SinceMembers(source[1..], bound);
      assert source == [source[0]] + source[1..];
    }
  }

  lemma {:induction false} SinceIsListed(source: seq<Record>, bound: Option<int>)
    requires Listed(source)
    ensures Listed(Since(source, bound))
  {
    if source != [] {
      SinceIsListed(source[1..], bound);
      SinceMembers(source[1..], bound);
    }
  }

  /** Of a sorted listing, what is left unread is no older than what was read. */
  lemma UnreadIsNewer(all: seq<Record>, n: nat, r: Record)
    requires Listed(all) && n <= |all| && r in all && r !in all[..n]
    ensures forall s | s in all[..n] :: s.stamp <= r.stamp
  {
    var k :| 0 <= k < |all| && all[k] == r;
    assert forall i | 0 <= i < n :: all[i] == all[..n][i] && all[i] in all[..n];
  }

  lemma CommitIsSafe(source: seq<Record>, lower: nat -> int, db: Db, records: seq<Record>, hasMore: bool, next: nat)
    requires Listed(source) && Safe(source, db) && forall w: nat :: lower(w) <= w
    requires Outcome(Query(source, lower, db.cursor), db.cursor, records, hasMore, next)
    ensures Safe(source, Db(Enqueued(db.queue, records), Some(next)))
    ensures !hasMore ==> AllQueued(source, Enqueued(db.queue, records))
  {
    EnqueuedHolds(db.queue, records);
    forall r | r in records ensures r in source {
      ReadFromSource(source, lower, db.cursor, records, r);
    }
    forall r | r in source && r !in db.queue && r !in records ensures hasMore && next <= r.stamp {
      UnreadStaysAhead(source, lower, db, records, hasMore, next, r);
    }
  }

  lemma ReadFromSource(source: seq<Record>, lower: nat -> int, cursor: Option<nat>, records: seq<Record>, r: Record)
    requires |records| <= |Query(source, lower, cursor)| && records == Query(source, lower, cursor)[..|records|]
    requires r in records
    ensures r in source
  {
    SinceMembers(source, if cursor.None? then None else Some(lower(cursor.value)));
    var k :| 0 <= k < |records| && records[k] == r;
    assert Query(source, lower, cursor)[k] == r;
  }

  lemma UnreadStaysAhead(source: seq<Record>, lower: nat -> int, db: Db, records: seq<Record>, hasMore: bool, next: nat,
                         r: Record)
    requires Listed(source) && Safe(source, db) && forall w: nat :: lower(w) <= w
    requires Outcome(Query(source, lower, db.cursor), db.cursor, records, hasMore, next)
    requires r in source && r !in db.queue && r !in records
    ensures hasMore && next <= r.stamp
  {
    var bound := if db.cursor.None? then None else Some(lower(db.cursor.value));
    SinceMembers(source, bound);
    SinceIsListed(source, bound);
    UnreadIsNewer(Query(source, lower, db.cursor), |records|, r);
    HighestIsMaximum(if db.cursor.Some? then db.cursor.value else 0, records);
  }

  lemma {:induction false} NewerShrinks(source: seq<Record>, cursor: Option<nat>, next: nat)
    requires cursor.Some? ==> cursor.value <= next
    ensures Newer(source, Some(next)) <= Newer(source, cursor)
    ensures (exists r | r in source :: NewerThan(cursor, r.stamp) && r.stamp <= next) ==>
              Newer(source, Some(next)) < Newer(source, cursor)
  {
    if source != [] {
      NewerShrinks(source[1..], cursor, next);
      assert source == [source[0]] + source[1..];
    }
  }

  lemma {:induction false} NewerAtMostAll(source: seq<Record>, cursor: Option<nat>)
    ensures Newer(source, cursor) <= |source|
  {
    if source != [] {
      NewerAtMostAll(source[1..], cursor);
    }
  }

  /** A committed poll that does not exhaust the query strictly raises the watermark past some source record. */
  lemma CommitProgresses(source: seq<Record>, lower: nat -> int, db: Db, records: seq<Record>, next: nat)
    requires Outcome(Query(source, lower, db.cursor), db.cursor, records, true, next)
    ensures db.cursor.Some? ==> next > db.cursor.value
    ensures Newer(source, Some(next)) < Newer(source, db.cursor)
  {
    HighestIsMaximum(if db.cursor.Some? then db.cursor.value else 0, records);
    var r :| r in records && NewerThan(db.cursor, r.stamp);
    ReadFromSource(source, lower, db.cursor, records, r);
    NewerShrinks(source, db.cursor, next);
  }

  lemma NoOlderMissing(source: seq<Record>, lower: nat -> int, db: Db, poll: Poll)
    requires Listed(source) && Safe(source, db) && forall w: nat :: lower(w) <= w
    requires Allowed(source, lower, db, poll)
    ensures Safe(source, After(db, poll))
    ensures AllQueued(source, db.queue) ==> AllQueued(source, After(db, poll).queue)
    ensures poll.Committed? && !poll.hasMore ==> AllQueued(source, After(db, poll).queue)
  {
    if poll.Committed? {
      CommitIsSafe(source, lower, db, poll.records, poll.hasMore, poll.next);
      EnqueuedHolds(db.queue, poll.records);
    }
  }

  /** In every run of polls and crashes nothing older than the cursor is missing and nothing is queued twice; once
      more polls have committed than the source has records, every record is in the queue. */
  lemma {:induction false} PollingIsComplete(source: seq<Record>, lower: nat -> int, polls: seq<Poll>)
    requires Listed(source) && IsRun(source, lower, polls) && forall w: nat :: lower(w) <= w
    ensures Safe(source, RunPolls(polls))
    ensures AllQueued(source, RunPolls(polls).queue)
            || Commits(polls) + Newer(source, RunPolls(polls).cursor) <= |source|
    ensures Commits(polls) > |source| ==> AllQueued(source, RunPolls(polls).queue)
  {
    if polls == [] {
      NewerAtMostAll(source, None);
    } else {
      var db, poll := RunPolls(polls[..|polls| - 1]), polls[|polls| - 1];
      PollingIsComplete(source, lower, polls[..|polls| - 1]);
      NoOlderMissing(source, lower, db, poll);
      if poll.Committed? && poll.hasMore {
        CommitProgresses(source, lower, db, poll.records, poll.next);
      }
    }
  }

  /** The cursor never moves back, and moves only together with the queue. */
  lemma CursorMovesForward(source: seq<Record>, lower: nat -> int, db: Db, poll: Poll)
    requires Allowed(source, lower, db, poll)
    ensures db.cursor.Some? ==> After(db, poll).cursor.Some? && db.cursor.value <= After(db, poll).cursor.value
    ensures poll.Committed? ==> forall r | r in poll.records :: r in After(db, poll).queue
                                                             && r.stamp <= After(db, poll).cursor.value
  {
    if poll.Committed? {
      HighestIsMaximum(if db.cursor.Some? then db.cursor.value else 0, poll.records);
      EnqueuedHolds(db.queue, poll.records);
    }
  }

  /** Both adapters: a poll of ServiceNow pages has an allowed outcome, */
  method PollServiceNow(source: seq<Record>, cursor: Option<nat>, maxPages: nat)
    returns (records: seq<Record>, hasMore: bool, next: nat)
    requires 1 <= maxPages
    ensures Outcome(Query(source, ServiceNowBound, cursor), cursor, records, hasMore, next)
  {
    var all := Query(source, ServiceNowBound, cursor);
    var pages;
    var fetch := (offset: nat) => if offset <= |all| then ServiceNowPage(all, offset) else Page([], true);
    records, hasMore, next, pages := PollPages(all, fetch, cursor, maxPages);
  }

  /** and repeated polls under the bound of either provider miss nothing and end with every record queued. */
  lemma AdaptersPollCompletely(source: seq<Record>, lower: nat -> int, polls: seq<Poll>)
    requires lower == ServiceNowBound || lower == JiraBound
    requires Listed(source) && IsRun(source, lower, polls)
    ensures Safe(source, RunPolls(polls))
    ensures Commits(polls) > |source| ==> AllQueued(source, RunPolls(polls).queue)
  {
    forall w: nat ensures lower(w) <= w {
      assert ServiceNowBound(w) <= w && JiraBound(w) <= w;
    }
    PollingIsComplete(source, lower, polls);
  }
}
