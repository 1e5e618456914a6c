/** Backfill paging over a ServiceNow table (fetchBackfillPage in
    src/modules/connectors/servicenow-connector.adapter.ts). Timestamps are whole seconds, the precision the
    provider stores and filters by. The table is listed in the order every query asks for: timestamp, then id. */
module BackfillPaging {
  import opened Wrappers

  const PAGE_SIZE := 100

  datatype Row = Row(stamp: int, id: string)

  datatype Window = Window(from: int, until: int)

  /** What a caller may hand back: a token issued earlier, or a string that does not parse. */
  datatype PageToken = PageToken(stamp: int, consumed: nat) | MalformedToken

  datatype Page = Page(records: seq<Row>, next: Option<PageToken>)

  ghost predicate Listed(table: seq<Row>) {
    forall i, j | 0 <= i < j < |table| :: table[i].stamp <= table[j].stamp
  }

  // ---- The provider ----------------------------------------------------------------------------------

  /** Rows with from <= stamp < until, in table order. */
  function Matching(table: seq<Row>, from: int, until: int): seq<Row> {
    if table == [] then []
    else (if from <= table[0].stamp < until then [table[0]] else []) + Matching(table[1..], from, until)
  }

  /** Up to a page of rows past the first `done`. */
  function Slice(all: seq<Row>, done: nat): seq<Row>
    requires done <= |all|
  {
    if |all| <= done + PAGE_SIZE then all[done..] else all[done..done + PAGE_SIZE]
  }

  /** One request: the rows matching the bounds, past an offset, up to a page. */
  function Request(table: seq<Row>, from: int, until: int, offset: nat): seq<Row> {
    var rows := Matching(table, from, until);
    if |rows| <= offset then [] else Slice(rows, offset)
  }

  // ---- The adapter -----------------------------------------------------------------------------------

  function CountStamp(rows: seq<Row>, stamp: int): nat {
    if rows == [] then 0 else (if rows[0].stamp == stamp then 1 else 0) + CountStamp(rows[1..], stamp)
  }

  /** The token after a page: none after a short page, else the last timestamp and the rows read at it. */
  function NextToken(records: seq<Row>, token: Option<PageToken>): Option<PageToken>
    requires token.Some? ==> token.value.PageToken?
  {
    if |records| < PAGE_SIZE then None
    else
      var lastStamp := records[|records| - 1].stamp;
      var atLast := CountStamp(records, lastStamp);
      var carried := if token.Some? && atLast == |records| && token.value.stamp == lastStamp
                     then token.value.consumed else 0;
      Some(PageToken(lastStamp, atLast + carried))
  }

  function FetchBackfillPage(table: seq<Row>, window: Window, token: Option<PageToken>): (result: Result<Page, string>)
    ensures result.Err? <==> token == Some(MalformedToken)
    ensures result.Ok? ==> |result.value.records| <= PAGE_SIZE
    ensures result.Ok? ==> (result.value.next.Some? <==> |result.value.records| == PAGE_SIZE)
  {
    if token.Some? && token.value.MalformedToken? then Err("The backfill page token is malformed")
    else
      var start := if token.Some? then token.value.stamp else window.from;
      var skip := if token.Some? then token.value.consumed else 0;
      var records := Request(table, start, window.until, skip);
      Ok(Page(records, NextToken(records, token)))
  }

  // ---- What a token stands for -------------------------------------------------------------------------

  /** `token` resumes after exactly the first `done` rows of the window. */
  ghost predicate Resumes(all: seq<Row>, token: PageToken, done: nat) {
    && token.PageToken? && 0 < token.consumed <= done <= |all|
    && (forall i | 0 <= i < |all| :: all[i].stamp < token.stamp <==> i < done - token.consumed)
    && all[done - 1].stamp == token.stamp
  }

  lemma {:induction false} MatchingMembers(table: seq<Row>, from: int, until: int)
    ensures forall r | r in Matching(table, from, until) :: r in table && from <= r.stamp < until
  {
    if table != [] {
      MatchingMembers(table[1..], from, until);
      assert forall r | r in table[1..] :: r in table;
    }
  }

  lemma Prepended(head: seq<Row>, tail: seq<Row>)
    requires |head| <= 1 && Listed(tail)
    requires forall h, r | h in head && r in tail :: h.stamp <= r.stamp
    ensures Listed(head + tail)
  {
    var all := head + tail;
    forall i, j | 0 <= i < j < |all| ensures all[i].stamp <= all[j].stamp {
      assert all[j] == tail[j - |head|] && all[j] in tail;
      if i < |head| {
        assert all[i] in head;
      } else {
        assert all[i] == tail[i - |head|];
      }
    }
  }

  lemma {:induction false} MatchingIsListed(table: seq<Row>, from: int, until: int)
    requires Listed(table)
    ensures Listed(Matching(table, from, until))
  {
    if table != [] {
      var rest := table[1..];
      assert forall i | 0 <= i < |rest| :: rest[i] == table[i + 1];
      MatchingIsListed(rest, from, until);
      MatchingMembers(rest, from, until);
      Prepended(if from <= table[0].stamp < until then [table[0]] else [], Matching(rest, from, until));
    }
  }

  lemma {:induction false} MatchingTwice(table: seq<Row>, from: int, higher: int, until: int)
    requires from <= higher
    ensures Matching(table, higher, until) == Matching(Matching(table, from, until), higher, until)
  {
    if table != [] {
      MatchingTwice(table[1..], from, higher, until);
      var rest := Matching(table[1..], from, until);
      if from <= table[0].stamp < until {
        assert ([table[0]] + rest)[1..] == rest;
      } else {
        assert Matching(table, from, until) == rest;
      }
    }
  }

  /** Raising the lower bound drops a prefix of sorted rows. */
  lemma {:induction false} MatchingSuffix(rows: seq<Row>, higher: int, until: int, cut: nat)
    requires cut <= |rows| && forall i | 0 <= i < |rows| :: rows[i].stamp < until
    requires forall i | 0 <= i < |rows| :: rows[i].stamp < higher <==> i < cut
    ensures Matching(rows, higher, until) == rows[cut..]
  {
    if rows != [] {
      var rest := rows[1..];
      assert forall i | 0 <= i < |rest| :: rest[i] == rows[i + 1];
      MatchingSuffix(rest, higher, until, if cut == 0 then 0 else cut - 1);
      if cut == 0 {
        assert rows == [rows[0]] + rest;
      }
    }
  }

  lemma {:induction false} CountOfRun(rows: seq<Row>, stamp: int, first: nat)
    requires first <= |rows| && forall i | 0 <= i < |rows| :: rows[i].stamp == stamp <==> first <= i
    ensures CountStamp(rows, stamp) == |rows| - first
  {
    if rows != [] {
      assert forall i | 0 <= i < |rows[1..]| :: rows[1..][i] == rows[i + 1];
      CountOfRun(rows[1..], stamp, if first == 0 then 0 else first - 1);
    }
  }

  /** The first index of a sorted listing that carries at least `stamp`. */
  ghost function FirstAt(rows: seq<Row>, stamp: int): nat
    requires Listed(rows)
    ensures FirstAt(rows, stamp) <= |rows|
    ensures forall i | 0 <= i < |rows| :: rows[i].stamp < stamp <==> i < FirstAt(rows, stamp)
  {
    if rows == [] || rows[0].stamp >= stamp then 0
    else
      assert forall i | 0 <= i < |rows[1..]| :: rows[1..][i] == rows[i + 1];
      1 + FirstAt(rows[1..], stamp)
  }

  /** A position in the window: how many rows were read, and the token that says so. */
  ghost predicate Positioned(all: seq<Row>, token: Option<PageToken>, done: nat) {
    done <= |all| && if token.None? then done == 0 else Resumes(all, token.value, done)
  }

  /** The token left by a full page resumes right after that page. */
  lemma TokenResumes(all: seq<Row>, token: Option<PageToken>, done: nat)
    requires Listed(all) && Positioned(all, token, done) && done + PAGE_SIZE <= |all|
    ensures NextToken(Slice(all, done), token).Some?
    ensures Resumes(all, NextToken(Slice(all, done), token).value, done + PAGE_SIZE)
  {
    var records := all[done..done + PAGE_SIZE];
    assert Slice(all, done) == records;
    var lastStamp := records[PAGE_SIZE - 1].stamp;
    var first := FirstAt(all, lastStamp);
    var local := if first < done then 0 else first - done;
    forall i | 0 <= i < PAGE_SIZE
      ensures records[i].stamp == lastStamp <==> local <= i
    {
      assert records[i] == all[done + i];
    }
    CountOfRun(records, lastStamp, local);
    if first < done {
      assert all[done - 1].stamp == lastStamp;
    }
  }

  lemma SliceOfSuffix(all: seq<Row>, cut: nat, skip: nat)
    requires cut + skip <= |all|
    ensures Slice(all[cut..], skip) == Slice(all, cut + skip)
  {
  }

  lemma ResumedSlice(all: seq<Row>, token: PageToken, until: int, done: nat)
    requires Resumes(all, token, done) && forall i | 0 <= i < |all| :: all[i].stamp < until
    ensures var rows := Matching(all, token.stamp, until);
            token.consumed <= |rows| && Slice(rows, token.consumed) == Slice(all, done)
  {
    var cut := done - token.consumed;
    MatchingSuffix(all, token.stamp, until, cut);
    SliceOfSuffix(all, cut, token.consumed);
  }

  lemma WindowBounds(table: seq<Row>, window: Window)
    requires Listed(table)
    ensures var all := Matching(table, window.from, window.until);
            Listed(all) && forall i | 0 <= i < |all| :: window.from <= all[i].stamp < window.until
  {
    MatchingIsListed(table, window.from, window.until);
    MatchingMembers(table, window.from, window.until);
  }

  lemma FetchIsSlice(table: seq<Row>, window: Window, token: Option<PageToken>, done: nat)
    requires Listed(table) && Positioned(Matching(table, window.from, window.until), token, done)
    ensures var records := Slice(Matching(table, window.from, window.until), done);
            FetchBackfillPage(table, window, token) == Ok(Page(records, NextToken(records, token)))
  {
    var all := Matching(table, window.from, window.until);
    WindowBounds(table, window);
    if token.Some? {
      ResumedSlice(all, token.value, window.until, done);
      assert window.from <= token.value.stamp by { assert all[done - 1].stamp == token.value.stamp; }
      MatchingTwice(table, window.from, token.value.stamp, window.until);
    }
  }

  /** One page: it is the next slice of the window, and a next token exists exactly when the page was full. */
  lemma PageIsNextSlice(table: seq<Row>, window: Window, token: Option<PageToken>, done: nat)
    requires Listed(table) && Positioned(Matching(table, window.from, window.until), token, done)
    ensures var all := Matching(table, window.from, window.until);
            var result := FetchBackfillPage(table, window, token);
            && result.Ok?
            && result.value.records == Slice(all, done)
            && (result.value.next.Some? <==> |Slice(all, done)| == PAGE_SIZE)
            && (result.value.next.Some? ==> Positioned(all, result.value.next, done + PAGE_SIZE))
  {
    var all := Matching(table, window.from, window.until);
    FetchIsSlice(table, window, token, done);
    WindowBounds(table, window);
    if |Slice(all, done)| == PAGE_SIZE {
      TokenResumes(all, token, done);
    }
  }

  lemma AppendSlice(all: seq<Row>, done: nat)
    requires done <= |all|
    ensures all[..done] + Slice(all, done) == all[..done + |Slice(all, done)|]
    ensures |Slice(all, done)| < PAGE_SIZE ==> all[..done] + Slice(all, done) == all
  {
  }

  /** Where a reader stands after some pages: a prefix of the window's rows, all of them once no token is left. */
  ghost predicate Reading(all: seq<Row>, records: seq<Row>, token: Option<PageToken>, pages: nat, more: bool) {
    && |records| <= |all| && records == all[..|records|]
    && (more ==> Positioned(all, token, |records|) && |records| == pages * PAGE_SIZE)
    && (!more ==> records == all && (pages - 1) * PAGE_SIZE <= |records| < pages * PAGE_SIZE)
  }

  lemma ReadStep(table: seq<Row>, window: Window, records: seq<Row>, token: Option<PageToken>, pages: nat)
    requires Listed(table) && Reading(Matching(table, window.from, window.until), records, token, pages, true)
    ensures var result := FetchBackfillPage(table, window, token);
            && result.Ok?
            && Reading(Matching(table, window.from, window.until), records + result.value.records,
                       result.value.next, pages + 1, result.value.next.Some?)
            && (result.value.next.Some? ==> result.value.records != [])
  {
    PageIsNextSlice(table, window, token, |records|);
    AppendSlice(Matching(table, window.from, window.until), |records|);
  }

  /** Following the tokens to the end: exactly the window's rows, in order, each once, however many share one
      timestamp. The rows still to come are what decreases. */
  method ReadWindow(table: seq<Row>, window: Window) returns (records: seq<Row>, pages: nat)
    requires Listed(table)
    ensures records == Matching(table, window.from, window.until)
    ensures (pages - 1) * PAGE_SIZE <= |records| < pages * PAGE_SIZE
  {
    var token: Option<PageToken> := None;
    var more := true;
    records, pages := [], 0;
    while more
      invariant Reading(Matching(table, window.from, window.until), records, token, pages, more)
      decreases more, |Matching(table, window.from, window.until)| - |records|
    {
      ReadStep(table, window, records, token, pages);
      var page := FetchBackfillPage(table, window, token).value;
      records, token, pages := records + page.records, page.next, pages + 1;
      more := token.Some?;
    }
  }
}
