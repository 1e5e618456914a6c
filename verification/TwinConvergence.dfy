/** What a canonical twin (src/modules/connectors/connector.service.ts) and the work item projected from it
    (src/modules/connectors/twin-projection.service.ts) hold after the records of one artifact arrived in some order. */
module TwinConvergence {
  import opened Wrappers

  /** A provider record: its source timestamp and its content, of which the hash is taken to be injective. */
  datatype Rec = Rec(at: int, content: nat)

  datatype Outcome = Created | Updated | Unchanged

  /** processRecord: an older record is stale, and one with the same content is not stored, not even its timestamp. */
  predicate Accepts(stored: Rec, record: Rec) {
    stored.at <= record.at && record.content != stored.content
  }

  function Processed(twin: Option<Rec>, record: Rec): Option<Rec> {
    if twin.Some? && !Accepts(twin.value, record) then twin else Some(record)
  }

  /** A work item projected from the twin: the fields computed from a snapshot, and the timestamp applied last. */
  datatype Item = Item(at: int, fields: nat)

  function Max(a: int, b: int): int { if a < b then b else a }

  /** projectTwin: an older snapshot is dropped, any other overwrites the fields and raises the timestamp. */
  function Projected(desired: nat -> nat, item: Option<Item>, record: Rec): Option<Item> {
    if item.Some? && record.at < item.value.at then item
    else Some(Item(if item.Some? then Max(item.value.at, record.at) else record.at, desired(record.content)))
  }

  class Twin {
    var stored: Option<Rec>
    var item: Option<Item>

    constructor ()
      ensures stored == None && item == None
    {
      stored, item := None, None;
    }

    method ProcessRecord(record: Rec) returns (outcome: Outcome)
      modifies this`stored
      ensures stored == Processed(old(stored), record)
      ensures outcome.Created? <==> old(stored).None?
      ensures outcome.Unchanged? <==> old(stored).Some? && !Accepts(old(stored).value, record)
    {
      if stored.Some? {
        if record.at < stored.value.at {
          return Unchanged;
        }
        if record.content == stored.value.content {
          return Unchanged;
        }
        stored := Some(record);
        return Updated;
      }
      stored := Some(record);
      return Created;
    }

    method Project(desired: nat -> nat, record: Rec)
      modifies this`item
      ensures item == Projected(desired, old(item), record)
    {
      if item.None? {
        item := Some(Item(record.at, desired(record.content)));
      } else if record.at >= item.value.at {
        item := Some(Item(Max(item.value.at, record.at), desired(record.content)));
      }
    }
  }

  function Fold(records: seq<Rec>): (twin: Option<Rec>)
    ensures twin.None? <==> records == []
  {
    if records == [] then None else Processed(Fold(records[..|records| - 1]), records[|records| - 1])
  }

  function FoldItem(desired: nat -> nat, records: seq<Rec>): (item: Option<Item>)
    ensures item.None? <==> records == []
  {
    if records == [] then None
    else Projected(desired, FoldItem(desired, records[..|records| - 1]), records[|records| - 1])
  }

  /** Neither stored timestamp ever decreases. */
  lemma TimestampsNeverDecrease(twin: Option<Rec>, item: Option<Item>, desired: nat -> nat, record: Rec)
    ensures twin.Some? ==> Processed(twin, record).value.at >= twin.value.at
    ensures item.Some? ==> Projected(desired, item, record).value.at >= item.value.at
    ensures Projected(desired, item, record).value.at >= record.at
  {
  }

  // ---- Arrival orders ---------------------------------------------------------------------------------------------

  ghost predicate IsOrderOf(order: seq<Rec>, records: seq<Rec>) {
    multiset(order) == multiset(records)
  }

  ghost predicate IsNewest(records: seq<Rec>, newest: Rec) {
    newest in records && forall r | r in records :: r.at <= newest.at
  }

  /** Every record with the newest content is newer than every record with another content. */
  ghost predicate NewestContentLeads(records: seq<Rec>, newest: Rec) {
    forall a, b | a in records && b in records && a.content == newest.content && b.content != newest.content ::
      b.at < a.at
  }

  lemma {:induction false} FoldIsOneOfThem(records: seq<Rec>)
    requires records != []
    ensures Fold(records).value in records
  {
    if |records| > 1 {
      FoldIsOneOfThem(records[..|records| - 1]);
    }
  }

  /** Once a record with the newest content was processed, the content stays. */
  lemma {:induction false} LeadingContentStays(records: seq<Rec>, newest: Rec)
    requires NewestContentLeads(records, newest)
    ensures (exists r | r in records :: r.content == newest.content)
            ==> Fold(records).Some? && Fold(records).value.content == newest.content
    decreases |records|
  {
    if records != [] {
      var before := records[..|records| - 1];
      var last := records[|records| - 1];
      assert forall r | r in records :: r in before || r == last;
      LeadingContentStays(before, newest);
      if before != [] {
        FoldIsOneOfThem(before);
      }
    }
  }

  /** Of the records with the newest content, the first one processed stays stored while only these arrive. */
  lemma {:induction false} SameContentStays(first: Rec, records: seq<Rec>)
    requires forall r | r in records :: r.content == first.content
    ensures Fold([first] + records) == Some(first)
    decreases |records|
  {
    if records == [] {
      assert [first] + records == [first];
      assert [first][..0] == [];
    } else {
      var before := records[..|records| - 1];
      SameContentStays(first, before);
      assert ([first] + records)[..|records|] == [first] + before;
    }
  }

  /** Records of other contents that follow: one that is not older than the stored record takes over for good. */
  lemma {:induction false} OthersTakeOver(first: seq<Rec>, stored: Rec, others: seq<Rec>, content: nat)
    requires first != [] && Fold(first) == Some(stored) && stored.content == content
    requires forall r | r in others :: r.content != content
    ensures var twin := Fold(first + others).value;
      && (twin == stored || twin.content != content)
      && ((exists r | r in others :: stored.at <= r.at) ==> twin.content != content)
    decreases |others|
  {
    if others == [] {
      assert first + others == first;
    } else {
      var before := others[..|others| - 1];
      var last := others[|others| - 1];
      assert forall r | r in others :: r in before || r == last;
      OthersTakeOver(first, stored, before, content);
      assert (first + others)[..|first + others| - 1] == first + before;
    }
  }

  function WithContent(records: seq<Rec>, content: nat): seq<Rec> {
    if records == [] then []
    else WithContent(records[..|records| - 1], content)
         + if records[|records| - 1].content == content then [records[|records| - 1]] else []
  }

  function WithoutContent(records: seq<Rec>, content: nat): seq<Rec> {
    if records == [] then []
    else WithoutContent(records[..|records| - 1], content)
         + if records[|records| - 1].content != content then [records[|records| - 1]] else []
  }

  lemma {:induction false} SplitByContent(records: seq<Rec>, content: nat)
    ensures multiset(WithContent(records, content)) + multiset(WithoutContent(records, content)) == multiset(records)
    ensures forall r | r in WithContent(records, content) :: r.content == content
    ensures forall r | r in WithoutContent(records, content) :: r.content != content
  {
    if records != [] {
      SplitByContent(records[..|records| - 1], content);
      assert records == records[..|records| - 1] + [records[|records| - 1]];
    }
  }

  lemma {:induction false} MoveToFront(records: seq<Rec>, first: Rec) returns (rest: seq<Rec>)
    requires first in records
    ensures multiset([first] + rest) == multiset(records)
    decreases |records|
  {
    var last := records[|records| - 1];
    assert records == records[..|records| - 1] + [last];
    if last == first {
      rest := records[..|records| - 1];
    } else {
      var shorter := MoveToFront(records[..|records| - 1], first);
      rest := shorter + [last];
      assert [first] + rest == ([first] + shorter) + [last];
    }
  }

  lemma SameMembers(order: seq<Rec>, records: seq<Rec>, r: Rec)
    requires IsOrderOf(order, records)
    ensures r in order <==> r in records
  {
    assert r in multiset(order) <==> r in multiset(records);
  }

  /** The order that ends badly: `first` before everything else of its content, then the other contents. */
  lemma BadOrder(records: seq<Rec>, first: Rec) returns (order: seq<Rec>)
    requires first in records
    ensures IsOrderOf(order, records)
    ensures var twin := Fold(order);
      && twin.Some? && (twin.value == first || twin.value.content != first.content)
      && ((exists b | b in records :: b.content != first.content && first.at <= b.at)
          ==> twin.value.content != first.content)
  {
    var same := WithContent(records, first.content);
    var others := WithoutContent(records, first.content);
    SplitByContent(records, first.content);
    assert multiset(same + others) == multiset(records);
    SameMembers(same + others, records, first);
    assert first in same;
    var rest := MoveToFront(same, first);
    forall r | r in rest ensures r.content == first.content {
      SameMembers([first] + rest, same, r);
    }
    SameContentStays(first, rest);
    OthersTakeOver([first] + rest, first, others, first.content);
    order := ([first] + rest) + others;
    assert multiset(order) == multiset([first] + rest) + multiset(others);
    if b :| b in records && b.content != first.content && first.at <= b.at {
      SameMembers(same + others, records, b);
      assert b in others;
    }
  }

  lemma LeadIsOrderFree(order: seq<Rec>, records: seq<Rec>, newest: Rec)
    requires IsOrderOf(order, records) && NewestContentLeads(records, newest)
    ensures NewestContentLeads(order, newest)
  {
    forall r | r in order ensures r in records {
      SameMembers(order, records, r);
    }
  }

  /** Every arrival order ends on the newest record's content exactly when every record with that content is newer than
      every record with another one. (Records with equal timestamps are allowed.) */
  lemma ConvergesIff(records: seq<Rec>, newest: Rec)
    requires IsNewest(records, newest)
    ensures (forall order | IsOrderOf(order, records) ::
               Fold(order).Some? && Fold(order).value.content == newest.content)
            <==> NewestContentLeads(records, newest)
  {
    if NewestContentLeads(records, newest) {
      forall order | IsOrderOf(order, records)
        ensures Fold(order).Some? && Fold(order).value.content == newest.content
      {
        SameMembers(order, records, newest);
        LeadIsOrderFree(order, records, newest);
        LeadingContentStays(order, newest);
      }
    } else {
      var a, b :| a in records && b in records
                  && a.content == newest.content && b.content != newest.content && a.at <= b.at;
      var order := BadOrder(records, a);
      assert IsOrderOf(order, records);
    }
  }

  /** Every arrival order ends on the newest record itself exactly when, besides, no other record has its content. So
      pairwise distinct contents and timestamps suffice. */
  lemma EndsOnNewestIff(records: seq<Rec>, newest: Rec)
    requires IsNewest(records, newest)
    ensures (forall order | IsOrderOf(order, records) :: Fold(order) == Some(newest))
            <==> (forall r | r in records && r != newest :: r.content != newest.content && r.at < newest.at)
  {
    if forall r | r in records && r != newest :: r.content != newest.content && r.at < newest.at {
      forall order | IsOrderOf(order, records) ensures Fold(order) == Some(newest) {
        SameMembers(order, records, newest);
        LeadIsOrderFree(order, records, newest);
        LeadingContentStays(order, newest);
        FoldIsOneOfThem(order);
        SameMembers(order, records, Fold(order).value);
      }
    } else {
      var r :| r in records && r != newest && !(r.content != newest.content && r.at < newest.at);
      var order := BadOrder(records, if r.content == newest.content then r else newest);
      assert IsOrderOf(order, records) && Fold(order) != Some(newest);
    }
  }

  /** X at 1, X at 3, Y at 2 ends on Y, although X is the newest. */
  lemma EqualContentRefutes(x: nat, y: nat)
    requires x != y
    ensures Fold([Rec(1, x), Rec(3, x), Rec(2, y)]) == Some(Rec(2, y))
  {
    SameContentStays(Rec(1, x), [Rec(3, x)]);
    assert [Rec(1, x)] + [Rec(3, x)] == [Rec(1, x), Rec(3, x), Rec(2, y)][..2];
  }

  // ---- The projection ---------------------------------------------------------------------------------------------

  lemma {:induction false} ItemIsNewest(desired: nat -> nat, records: seq<Rec>)
    requires records != []
    ensures var item := FoldItem(desired, records).value;
      && (forall r | r in records :: r.at <= item.at)
      && exists r | r in records :: item == Item(r.at, desired(r.content))
  {
    var last := records[|records| - 1];
    if |records| > 1 {
      ItemIsNewest(desired, records[..|records| - 1]);
    }
    assert last in records;
  }

  /** Whatever the contents, every arrival order leaves the fields and the timestamp of the newest record, as long as
      no other record shares its timestamp. */
  lemma ProjectionConverges(desired: nat -> nat, records: seq<Rec>, newest: Rec, order: seq<Rec>)
    requires IsNewest(records, newest) && forall r | r in records && r.at == newest.at :: r == newest
    requires IsOrderOf(order, records)
    ensures FoldItem(desired, order) == Some(Item(newest.at, desired(newest.content)))
  {
    SameMembers(order, records, newest);
    ItemIsNewest(desired, order);
    var item := FoldItem(desired, order).value;
    var r :| r in order && item == Item(r.at, desired(r.content));
    SameMembers(order, records, r);
  }

  // ---- Both rules together ----------------------------------------------------------------------------------------

  /** The snapshots the projection gets: the records the twin accepted, in order. */
  function Accepted(records: seq<Rec>): seq<Rec> {
    if records == [] then []
    else
      var before, last := Fold(records[..|records| - 1]), records[|records| - 1];
      Accepted(records[..|records| - 1]) + if before.None? || Accepts(before.value, last) then [last] else []
  }

  /** The twin is the last accepted record, and none of them is newer. */
  lemma {:induction false} TwinIsLastAccepted(records: seq<Rec>)
    requires records != []
    ensures var accepted := Accepted(records);
      && accepted != [] && accepted[|accepted| - 1] == Fold(records).value && IsNewest(accepted, Fold(records).value)
      && forall r | r in accepted :: r in records
  {
    var before := records[..|records| - 1];
    if before != [] {
      TwinIsLastAccepted(before);
    }
    var accepted := Accepted(records);
    assert accepted[|accepted| - 1] in accepted;
  }

  /** Whatever the arrival order of the records was, and in whatever order the events of the accepted ones are
      delivered, the projection ends on the content and the timestamp of the twin, if no two records share a
      timestamp. */
  lemma ProjectionFollowsTwin(desired: nat -> nat, records: seq<Rec>, delivered: seq<Rec>)
    requires records != [] && forall r, s | r in records && s in records && r.at == s.at :: r == s
    requires IsOrderOf(delivered, Accepted(records))
    ensures var twin := Fold(records).value;
      FoldItem(desired, delivered) == Some(Item(twin.at, desired(twin.content)))
  {
    TwinIsLastAccepted(records);
    ProjectionConverges(desired, Accepted(records), Fold(records).value, delivered);
  }
}
