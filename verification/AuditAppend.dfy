/** Optimistic appending to the audit chain by any number of writers (appendAuditIntegrityEntry in
    src/modules/audit/audit-integrity.ts and the unique indexes of src/database/database.service.ts).

    Each SQL statement is one atomic step and a sequence number may be drawn before the row is inserted, so other
    writers may act between the read of the head, the drawing of the number and the insert. */
module AuditAppend {
  import opened Wrappers
  import opened CanonicalJson
  import opened CanonicalOrder
  import opened AuditProof
  import opened StoredIds

  const MAX_APPEND_ATTEMPTS := 8

  datatype Entry = Entry(sequence: nat, previousHash: Option<Text>, eventHash: Text, input: EventInput)

  datatype Writer =
    | Idle
    | Ready(input: EventInput, attempt: nat)
    | HeadRead(input: EventInput, attempt: nat, previous: Option<Text>)
    | Numbered(input: EventInput, attempt: nat, previous: Option<Text>, sequence: nat)
    | Done
    | Failed

  datatype Log = Log(entries: seq<Entry>, nextSequence: nat, writers: map<nat, Writer>) {
    function Phase(w: nat): Writer {
      if w in writers then writers[w] else Idle
    }

    function To(w: nat, writer: Writer): Log {
      this.(writers := writers[w := writer])
    }
  }

  datatype Step =
    | Begin(w: nat, input: EventInput)
    | ReadHead(w: nat)
    | DrawNumber(w: nat)
    | Insert(w: nat)
    | Crash(w: nat)

  /** What the columns take: the event and its tenant are UUIDs, */
  predicate ValidKeys(input: EventInput) {
    IsUuid(input.eventId) && IsUuid(input.orgId)
  }

  /** and so is the work item of an audit event. */
  predicate ValidIds(input: EventInput) {
    && ValidKeys(input)
    && (input.source.AuditEvents? ==> input.workItemId.Some? && IsUuid(input.workItemId.value))
  }

  ghost predicate Storable(input: EventInput) {
    ValidIds(input) && WellFormed(input.payload)
  }

  /** Rows are compared by UUID, however a caller wrote it. */
  function TenantOf(input: EventInput): Text {
    Stored(input.orgId)
  }

  predicate SameEvent(a: EventInput, b: EventInput) {
    a.source == b.source && Stored(a.eventId) == Stored(b.eventId)
  }

  /** UNIQUE (source, event_id), across tenants. */
  predicate Known(entries: seq<Entry>, input: EventInput) {
    exists e | e in entries :: SameEvent(e.input, input)
  }

  /** The unique indexes on (org_id, previous_hash) and on the genesis of a tenant. */
  predicate HasSuccessor(entries: seq<Entry>, orgId: Text, previous: Option<Text>) {
    exists e | e in entries :: TenantOf(e.input) == orgId && e.previousHash == previous
  }

  /** The unique index on (org_id, event_hash). */
  predicate HashTaken(entries: seq<Entry>, orgId: Text, hash: Text) {
    exists e | e in entries :: TenantOf(e.input) == orgId && e.eventHash == hash
  }

  /** ORDER BY sequence DESC LIMIT 1 within a tenant. */
  function Latest(entries: seq<Entry>, orgId: Text): Option<Entry> {
    if entries == [] then None
    else
      var last, before := entries[|entries| - 1], Latest(entries[..|entries| - 1], orgId);
      if TenantOf(last.input) == orgId && (before.None? || last.sequence > before.value.sequence) then Some(last)
      else before
  }

  function HeadHash(entries: seq<Entry>, orgId: Text): Option<Text> {
    var head := Latest(entries, orgId);
    if head.None? then None else OrNone(Some(head.value.eventHash))
  }

  function NewEntry(sha: Text -> Text, previous: Option<Text>, sequence: nat, input: EventInput): Entry {
    Entry(sequence, previous, AuditHash(sha, previous, CanonicalAuditEvent(input)), input)
  }

  function InsertEntry(sha: Text -> Text, log: Log, w: nat): Log
    requires log.Phase(w).Numbered?
  {
    var writer := log.Phase(w);
    var entry := NewEntry(sha, writer.previous, writer.sequence, writer.input);
    if Known(log.entries, writer.input) then log.To(w, Done)
    else if HasSuccessor(log.entries, TenantOf(writer.input), writer.previous) then
      log.To(w, if writer.attempt == MAX_APPEND_ATTEMPTS then Failed else Ready(writer.input, writer.attempt + 1))
    else if HashTaken(log.entries, TenantOf(writer.input), entry.eventHash) then log.To(w, Failed)
    else log.(entries := log.entries + [entry]).To(w, Done)
  }

  ghost function Next(sha: Text -> Text, log: Log, step: Step): Log {
    var writer := log.Phase(step.w);
    match step
    case Begin(w, input) =>
      if writer.Idle? && Storable(input)
      then log.To(w, if Known(log.entries, input) then Done else Ready(input, 1)) else log
    case ReadHead(w) =>
      if writer.Ready?
      then log.To(w, HeadRead(writer.input, writer.attempt, HeadHash(log.entries, TenantOf(writer.input)))) else log
    case DrawNumber(w) =>
      if writer.HeadRead?
      then log.(nextSequence := log.nextSequence + 1)
              .To(w, Numbered(writer.input, writer.attempt, writer.previous, log.nextSequence))
      else log
    case Insert(w) => if writer.Numbered? then InsertEntry(sha, log, w) else log
    case Crash(w) => log.To(w, Idle)
  }

  /** What the writers' statements do: the first one ends the call for a known event, an insert that loses its race
      starts over at most seven times, and only an insert that meets no constraint adds a row. */
  lemma WritersAct(sha: Text -> Text, log: Log, w: nat, input: EventInput)
    ensures log.Phase(w).Idle? && Storable(input) ==>
      Next(sha, log, Begin(w, input)) == log.To(w, if Known(log.entries, input) then Done else Ready(input, 1))
    ensures log.Phase(w).Ready? ==>
      Next(sha, log, ReadHead(w))
      == log.To(w, HeadRead(log.Phase(w).input, log.Phase(w).attempt,
                            HeadHash(log.entries, TenantOf(log.Phase(w).input))))
    ensures log.Phase(w).Numbered? ==>
      var writer, next := log.Phase(w), Next(sha, log, Insert(w));
      var hash := sha(LinkText(writer.previous, CanonicalAuditEvent(writer.input)));
      var lost := HasSuccessor(log.entries, TenantOf(writer.input), writer.previous);
      var taken := HashTaken(log.entries, TenantOf(writer.input), hash);
      && next.nextSequence == log.nextSequence
      && (if Known(log.entries, writer.input) then next == log.To(w, Done)
          else if lost && writer.attempt < 8 then next == log.To(w, Ready(writer.input, writer.attempt + 1))
          else if lost && writer.attempt == 8 then next == log.To(w, Failed)
          else if taken && !lost then next == log.To(w, Failed)
          else !lost ==> next == log.(entries := log.entries + [Entry(writer.sequence, writer.previous, hash,
                                                                      writer.input)]).To(w, Done))
  {
  }

  ghost function Run(sha: Text -> Text, steps: seq<Step>): Log {
    if steps == [] then Log([], 1, map[])
    else Next(sha, Run(sha, steps[..|steps| - 1]), steps[|steps| - 1])
  }

  // ---- The invariant -----------------------------------------------------------------------------------------

  ghost function Tenant(entries: seq<Entry>, orgId: Text): seq<Entry> {
    if entries == [] then []
    else
      var last := entries[|entries| - 1];
      Tenant(entries[..|entries| - 1], orgId) + (if TenantOf(last.input) == orgId then [last] else [])
  }

  ghost function Tip(chain: seq<Entry>): Option<Text> {
    if chain == [] then None else Some(chain[|chain| - 1].eventHash)
  }

  ghost predicate Linked(chain: seq<Entry>) {
    forall i | 0 <= i < |chain| :: chain[i].previousHash == Tip(chain[..i])
  }

  ghost predicate Increasing(chain: seq<Entry>) {
    forall i, j | 0 <= i < j < |chain| ::
      chain[i].sequence < chain[j].sequence && chain[i].eventHash != chain[j].eventHash
  }

  ghost predicate Hashed(sha: Text -> Text, chain: seq<Entry>) {
    forall e | e in chain ::
      && e.eventHash == AuditHash(sha, e.previousHash, CanonicalAuditEvent(e.input))
      && Storable(e.input)
  }

  /** A single unbranched path from genesis, in link order, with increasing sequence numbers. */
  ghost predicate IsPath(sha: Text -> Text, chain: seq<Entry>) {
    Linked(chain) && Increasing(chain) && Hashed(sha, chain)
  }

  ghost predicate EventsOnce(entries: seq<Entry>) {
    forall i, j | 0 <= i < j < |entries| ::
      !SameEvent(entries[i].input, entries[j].input)
  }

  /** What a writer remembers of the head was a hash of its tenant's chain, older than the number it drew. */
  ghost predicate Remembers(log: Log, writer: Writer) {
    && (!writer.Idle? && !writer.Done? && !writer.Failed? ==>
          Storable(writer.input) && 1 <= writer.attempt <= MAX_APPEND_ATTEMPTS)
    && ((writer.HeadRead? || writer.Numbered?) && writer.previous.Some? ==>
          exists e | e in log.entries ::
            && TenantOf(e.input) == TenantOf(writer.input) && e.eventHash == writer.previous.value
            && (writer.Numbered? ==> e.sequence < writer.sequence))
    && (writer.Numbered? ==> writer.sequence < log.nextSequence)
  }

  ghost predicate Inv(sha: Text -> Text, log: Log) {
    && (forall orgId :: IsPath(sha, Tenant(log.entries, orgId)))
    && EventsOnce(log.entries)
    && (forall e | e in log.entries :: e.sequence < log.nextSequence)
    && (forall w | w in log.writers :: Remembers(log, log.writers[w]))
  }

  lemma {:induction false} TenantMembers(entries: seq<Entry>, orgId: Text)
    ensures forall e :: e in Tenant(entries, orgId) <==> e in entries && TenantOf(e.input) == orgId
  {
    if entries != [] {
      TenantMembers(entries[..|entries| - 1], orgId);
      assert entries == entries[..|entries| - 1] + [entries[|entries| - 1]];
    }
  }

  lemma TenantOfAppend(entries: seq<Entry>, e: Entry, orgId: Text)
    ensures Tenant(entries + [e], orgId) == Tenant(entries, orgId) + (if TenantOf(e.input) == orgId then [e] else [])
  {
    assert (entries + [e])[..|entries|] == entries;
  }

  /** The row with the highest sequence number is the end of the path. */
  lemma {:induction false} LatestIsLast(entries: seq<Entry>, orgId: Text)
    requires Increasing(Tenant(entries, orgId))
    ensures var chain := Tenant(entries, orgId);
            Latest(entries, orgId) == if chain == [] then None else Some(chain[|chain| - 1])
  {
    hide TenantOf;
    if entries != [] {
      var before, last := entries[..|entries| - 1], entries[|entries| - 1];
      var chain, all := Tenant(before, orgId), Tenant(entries, orgId);
      forall i, j | 0 <= i < j < |chain|
        ensures chain[i].sequence < chain[j].sequence && chain[i].eventHash != chain[j].eventHash
      {
        assert all[i] == chain[i] && all[j] == chain[j];
      }
      LatestIsLast(before, orgId);
      if TenantOf(last.input) == orgId && chain != [] {
        assert all[|chain| - 1].sequence < all[|chain|].sequence;
      }
    }
  }

  lemma HeadIsTip(sha: Text -> Text, entries: seq<Entry>, orgId: Text)
    requires DigestShape(sha) && IsPath(sha, Tenant(entries, orgId))
    ensures HeadHash(entries, orgId) == Tip(Tenant(entries, orgId))
  {
    LatestIsLast(entries, orgId);
    var chain := Tenant(entries, orgId);
    if chain != [] {
      assert chain[|chain| - 1] in chain;
    }
  }

  lemma SuccessorMeansStale(chain: seq<Entry>, e: Entry)
    requires Linked(chain) && Increasing(chain) && e in chain
    ensures e.previousHash != Tip(chain)
  {
    var k :| 0 <= k < |chain| && chain[k] == e;
    assert e.previousHash == Tip(chain[..k]);
  }

  lemma StaleMeansSuccessor(chain: seq<Entry>, previous: Option<Text>)
    requires Linked(chain) && previous != Tip(chain)
    requires previous.Some? ==> exists e | e in chain :: e.eventHash == previous.value
    ensures exists e | e in chain :: e.previousHash == previous
  {
    if previous.None? {
      assert chain[0].previousHash == Tip(chain[..0]);
      assert chain[0] in chain;
    } else {
      var k :| 0 <= k < |chain| && chain[k].eventHash == previous.value;
      assert chain[k + 1].previousHash == Tip(chain[..k + 1]);
      assert chain[k + 1] in chain;
    }
  }

  /** The constraint rejects a remembered head exactly when the chain has grown past it. */
  lemma RejectedIffStale(sha: Text -> Text, entries: seq<Entry>, orgId: Text, previous: Option<Text>)
    requires IsPath(sha, Tenant(entries, orgId))
    requires previous.Some? ==> HashTaken(entries, orgId, previous.value)
    ensures HasSuccessor(entries, orgId, previous) <==> previous != Tip(Tenant(entries, orgId))
  {
    var chain := Tenant(entries, orgId);
    TenantMembers(entries, orgId);
    if HasSuccessor(entries, orgId, previous) {
      var e :| e in entries && TenantOf(e.input) == orgId && e.previousHash == previous;
      SuccessorMeansStale(chain, e);
    }
    if previous != Tip(chain) {
      StaleMeansSuccessor(chain, previous);
    }
  }

  lemma LinkedExtends(chain: seq<Entry>, e: Entry)
    requires Linked(chain) && e.previousHash == Tip(chain)
    ensures Linked(chain + [e])
  {
    var all := chain + [e];
    forall i | 0 <= i < |all| ensures all[i].previousHash == Tip(all[..i]) {
      assert all[..i] == if i < |chain| then chain[..i] else chain;
    }
  }

  lemma IncreasingExtends(chain: seq<Entry>, e: Entry)
    requires Increasing(chain) && forall c | c in chain :: c.sequence < e.sequence && c.eventHash != e.eventHash
    ensures Increasing(chain + [e])
  {
    assert forall i | 0 <= i < |chain| :: chain[i] in chain;
  }

  /** A number drawn after reading the end of the path is above every number on the path. */
  lemma NumberIsHighest(chain: seq<Entry>, hash: Text, sequence: nat)
    requires Increasing(chain) && Tip(chain) == Some(hash)
    requires exists e | e in chain :: e.eventHash == hash && e.sequence < sequence
    ensures forall c | c in chain :: c.sequence < sequence
  {
    var k :| 0 <= k < |chain| && chain[k].eventHash == hash && chain[k].sequence < sequence;
    assert k == |chain| - 1;
  }

  lemma AppendKeepsPath(sha: Text -> Text, log: Log, writer: Writer, hash: Text)
    requires writer.Numbered? && Remembers(log, writer) && IsPath(sha, Tenant(log.entries, TenantOf(writer.input)))
    requires hash == AuditHash(sha, writer.previous, CanonicalAuditEvent(writer.input))
    requires !HasSuccessor(log.entries, TenantOf(writer.input), writer.previous)
    requires !HashTaken(log.entries, TenantOf(writer.input), hash)
    ensures IsPath(sha, Tenant(log.entries, TenantOf(writer.input))
                        + [Entry(writer.sequence, writer.previous, hash, writer.input)])
  {
    var chain := Tenant(log.entries, TenantOf(writer.input));
    var e := Entry(writer.sequence, writer.previous, hash, writer.input);
    TenantMembers(log.entries, TenantOf(writer.input));
    RejectedIffStale(sha, log.entries, TenantOf(writer.input), writer.previous);
    if writer.previous.Some? {
      NumberIsHighest(chain, writer.previous.value, writer.sequence);
    }
    LinkedExtends(chain, e);
    IncreasingExtends(chain, e);
  }

  lemma PathExtends(sha: Text -> Text, log: Log, writer: Writer, hash: Text, orgId: Text)
    requires writer.Numbered? && Remembers(log, writer) && forall id :: IsPath(sha, Tenant(log.entries, id))
    requires hash == AuditHash(sha, writer.previous, CanonicalAuditEvent(writer.input))
    requires !HasSuccessor(log.entries, TenantOf(writer.input), writer.previous)
    requires !HashTaken(log.entries, TenantOf(writer.input), hash)
    ensures IsPath(sha, Tenant(log.entries + [Entry(writer.sequence, writer.previous, hash, writer.input)], orgId))
  {
    var e := Entry(writer.sequence, writer.previous, hash, writer.input);
    TenantOfAppend(log.entries, e, orgId);
    if orgId == TenantOf(writer.input) {
      AppendKeepsPath(sha, log, writer, hash);
    } else {
      assert Tenant(log.entries + [e], orgId) == Tenant(log.entries, orgId);
    }
  }

  lemma EventsOnceExtends(entries: seq<Entry>, e: Entry)
    requires EventsOnce(entries) && !Known(entries, e.input)
    ensures EventsOnce(entries + [e])
  {
    assert forall i | 0 <= i < |entries| :: entries[i] in entries;
  }

  /** The row that passes all constraints. */
  lemma EntryKeepsInv(sha: Text -> Text, log: Log, writer: Writer, e: Entry)
    requires Inv(sha, log) && writer.Numbered? && Remembers(log, writer) && !Known(log.entries, writer.input)
    requires e == NewEntry(sha, writer.previous, writer.sequence, writer.input)
    requires !HasSuccessor(log.entries, TenantOf(writer.input), writer.previous)
    requires !HashTaken(log.entries, TenantOf(writer.input), e.eventHash)
    ensures forall orgId :: IsPath(sha, Tenant(log.entries + [e], orgId))
    ensures EventsOnce(log.entries + [e])
  {
    EventsOnceExtends(log.entries, e);
    forall orgId ensures IsPath(sha, Tenant(log.entries + [e], orgId)) {
      PathExtends(sha, log, writer, e.eventHash, orgId);
    }
  }

  lemma InsertKeepsInv(sha: Text -> Text, log: Log, w: nat)
    requires DigestShape(sha) && Inv(sha, log) && log.Phase(w).Numbered?
    ensures Inv(sha, InsertEntry(sha, log, w))
  {
    var writer, next := log.Phase(w), InsertEntry(sha, log, w);
    assert Remembers(log, writer);
    if next.entries != log.entries {
      EntryKeepsInv(sha, log, writer, next.entries[|log.entries|]);
    }
    AllRemember(log, next, w);
  }

  /** Nothing but the writer's own phase changed, and that is one that remembers nothing. */
  lemma AllRemember(log: Log, next: Log, w: nat)
    requires forall v | v in log.writers :: Remembers(log, log.writers[v])
    requires log.entries <= next.entries && log.nextSequence == next.nextSequence && log.Phase(w).Numbered?
    requires var writer, phase := log.Phase(w), next.Phase(w);
      || phase == Done || phase == Failed
      || (phase == Ready(writer.input, writer.attempt + 1) && writer.attempt < MAX_APPEND_ATTEMPTS)
    requires next.writers == log.writers[w := next.Phase(w)]
    ensures forall v | v in next.writers :: Remembers(next, next.writers[v])
  {
    assert Remembers(log, log.Phase(w));
    OthersStillRemember(log, next);
  }

  lemma OthersStillRemember(log: Log, next: Log)
    requires forall v | v in log.writers :: Remembers(log, log.writers[v])
    requires forall e | e in log.entries :: e in next.entries
    requires log.nextSequence <= next.nextSequence
    ensures forall v | v in log.writers :: Remembers(next, log.writers[v])
  {
  }

  lemma HeadIsRemembered(sha: Text -> Text, log: Log, w: nat)
    requires DigestShape(sha) && Inv(sha, log) && log.Phase(w).Ready?
    ensures var writer := log.Phase(w);
      Remembers(Next(sha, log, ReadHead(w)),
                HeadRead(writer.input, writer.attempt, HeadHash(log.entries, TenantOf(writer.input))))
  {
    var writer := log.Phase(w);
    var chain := Tenant(log.entries, TenantOf(writer.input));
    HeadIsTip(sha, log.entries, TenantOf(writer.input));
    TenantMembers(log.entries, TenantOf(writer.input));
    assert Remembers(log, writer);
    if chain != [] {
      assert chain[|chain| - 1] in chain;
    }
  }

  lemma NextKeepsInv(sha: Text -> Text, log: Log, step: Step)
    requires DigestShape(sha) && Inv(sha, log)
    ensures Inv(sha, Next(sha, log, step))
  {
    var writer := log.Phase(step.w);
    if step.Insert? && writer.Numbered? {
      InsertKeepsInv(sha, log, step.w);
    } else {
      OthersStillRemember(log, Next(sha, log, step));
      if step.ReadHead? && writer.Ready? {
        HeadIsRemembered(sha, log, step.w);
      }
    }
  }

  lemma {:induction false} RunKeepsInv(sha: Text -> Text, steps: seq<Step>)
    requires DigestShape(sha)
    ensures Inv(sha, Run(sha, steps))
  {
    if steps != [] {
      RunKeepsInv(sha, steps[..|steps| - 1]);
      NextKeepsInv(sha, Run(sha, steps[..|steps| - 1]), steps[|steps| - 1]);
    }
  }

  // ---- The main results ----------------------------------------------------------------------------------------

  /** In every run each tenant's entries form one unbranched path whose sequence order is its link order, and each
      event is recorded at most once. */
  lemma OneUnbranchedPath(sha: Text -> Text, steps: seq<Step>, orgId: Text)
    requires DigestShape(sha)
    ensures var entries := Run(sha, steps).entries;
            && Linked(Tenant(entries, orgId)) && Increasing(Tenant(entries, orgId))
            && EventsOnce(entries)
    ensures var (entries, chain) := (Run(sha, steps).entries, Tenant(Run(sha, steps).entries, orgId));
            && (forall e :: e in chain <==> e in entries && Stored(e.input.orgId) == orgId)
            && (forall i | 0 <= i < |chain| ::
                  chain[i].previousHash == if i == 0 then None else Some(chain[i - 1].eventHash))
            && (forall i | 0 < i < |chain| :: chain[i - 1].sequence < chain[i].sequence)
            && (forall i, j | 0 <= i < j < |entries| && entries[i].input.source == entries[j].input.source ::
                  Stored(entries[i].input.eventId) != Stored(entries[j].input.eventId))
  {
    RunKeepsInv(sha, steps);
    var entries := Run(sha, steps).entries;
    TenantMembers(entries, orgId);
    PathInPlainTerms(Tenant(entries, orgId));
    EventsInPlainTerms(entries);
  }

  lemma PathInPlainTerms(chain: seq<Entry>)
    requires Linked(chain) && Increasing(chain)
    ensures forall i | 0 <= i < |chain| ::
      chain[i].previousHash == if i == 0 then None else Some(chain[i - 1].eventHash)
    ensures forall i | 0 < i < |chain| :: chain[i - 1].sequence < chain[i].sequence
  {
    forall i | 0 <= i < |chain|
      ensures chain[i].previousHash == if i == 0 then None else Some(chain[i - 1].eventHash)
    {
      assert chain[i].previousHash == Tip(chain[..i]);
    }
  }

  lemma EventsInPlainTerms(entries: seq<Entry>)
    requires EventsOnce(entries)
    ensures forall i, j | 0 <= i < j < |entries| && entries[i].input.source == entries[j].input.source ::
      Stored(entries[i].input.eventId) != Stored(entries[j].input.eventId)
  {
    forall i, j | 0 <= i < j < |entries| && entries[i].input.source == entries[j].input.source
      ensures Stored(entries[i].input.eventId) != Stored(entries[j].input.eventId)
    {
      assert !SameEvent(entries[i].input, entries[j].input);
    }
  }

  /** A writer can lose its race only because the chain grew after it read the head. */
  lemma LostRaceMeansProgress(sha: Text -> Text, steps: seq<Step>, w: nat)
    requires DigestShape(sha) && Run(sha, steps).Phase(w).Numbered?
    ensures var log, writer := Run(sha, steps), Run(sha, steps).Phase(w);
            HasSuccessor(log.entries, TenantOf(writer.input), writer.previous)
            <==> writer.previous != Tip(Tenant(log.entries, TenantOf(writer.input)))
  {
    var log := Run(sha, steps);
    var writer := log.Phase(w);
    RunKeepsInv(sha, steps);
    assert Remembers(log, writer);
    RejectedIffStale(sha, log.entries, TenantOf(writer.input), writer.previous);
  }

  // ---- Reading an honest chain back -------------------------------------------------------------------------------

  /** How the verification reads a source event: its UUIDs as the database spells them, and a domain event whose work
      item id is empty as having none. The work item of a domain event is text, that of an audit event a UUID. */
  function ReadBack(input: EventInput): EventInput {
    input.(eventId := Stored(input.eventId), orgId := Stored(input.orgId),
           workItemId := if input.source.DomainEvents? then OrNone(input.workItemId)
                         else if input.workItemId.Some? then Some(Stored(input.workItemId.value)) else None)
  }

  /** The caller spelled the UUIDs as the database does, and the work item of a domain event is not empty. */
  predicate SpelledAsStored(input: EventInput) {
    && InStoredForm(input.eventId) && InStoredForm(input.orgId)
    && (if input.source.DomainEvents? then input.workItemId != Some([])
        else input.workItemId.Some? && InStoredForm(input.workItemId.value))
  }

  /** An untouched entry joined with its untouched event: JSONB may have reordered keys, nothing else changed. */
  ghost predicate ReadsBack(e: Entry, row: ChainRow) {
    && row.previousHash == e.previousHash && row.eventHash == e.eventHash && row.proofVersion == PROOF_VERSION
    && WellFormed(row.canonical) && Equivalent(row.canonical, CanonicalAuditEvent(e.input))
    && row.current.Some? && WellFormed(row.current.value.payload)
    && Equivalent(row.current.value.payload, e.input.payload)
    && row.current.value == ReadBack(e.input).(payload := row.current.value.payload)
  }

  /** Exactly the events spelled as stored are read back unchanged. */
  lemma ReadBackIff(input: EventInput)
    requires ValidIds(input)
    ensures ReadBack(input) == input <==> SpelledAsStored(input)
  {
    StoredIff(input.eventId);
    StoredIff(input.orgId);
    if input.source.AuditEvents? {
      StoredIff(input.workItemId.value);
    }
  }

  lemma EventReadsBackIff(e: Entry, row: ChainRow)
    requires ReadsBack(e, row) && ValidIds(e.input)
    ensures Equivalent(CanonicalAuditEvent(row.current.value), CanonicalAuditEvent(e.input))
            <==> SpelledAsStored(e.input)
  {
    ReadBackIff(e.input);
    CanonicalEventIsFaithful(row.current.value, e.input);
  }

  lemma ReadBackRowIsCorrect(sha: Text -> Text, chain: seq<Entry>, rows: seq<ChainRow>, i: nat)
    requires DigestShape(sha) && IsPath(sha, chain) && |rows| == |chain| && i < |chain|
    requires forall k | 0 <= k < |chain| :: ReadsBack(chain[k], rows[k])
    requires SpelledAsStored(chain[i].input)
    ensures CorrectRow(sha, rows, i)
  {
    var e, row := chain[i], rows[i];
    assert e in chain && ReadsBack(e, row);
    EventReadsBackIff(e, row);
    CanonicalEventIsWellFormed(e.input);
    CanonicalEventIsWellFormed(row.current.value);
    SameTextIffEquivalent(row.canonical, CanonicalAuditEvent(e.input));
    SameTextIffEquivalent(CanonicalAuditEvent(row.current.value), CanonicalAuditEvent(e.input));
    assert e.previousHash == Tip(chain[..i]);
    if i > 0 {
      assert chain[i - 1] in chain && ReadsBack(chain[i - 1], rows[i - 1]);
      assert |chain[i - 1].eventHash| == 64;
    }
  }

  lemma SameTail(prefix: Text, a: Text, b: Text)
    requires prefix + a == prefix + b
    ensures a == b
  {
    assert (prefix + a)[|prefix|..] == a && (prefix + b)[|prefix|..] == b;
  }

  lemma CorrectRowHasOneText(sha: Text -> Text, rows: seq<ChainRow>, i: nat)
    requires i < |rows| && CorrectRow(sha, rows, i) && CollisionFree(sha, HashedTexts(rows))
    ensures StableStringify(rows[i].canonical) == StableStringify(CanonicalAuditEvent(rows[i].current.value))
  {
    var row := rows[i];
    var current := CanonicalAuditEvent(row.current.value);
    assert LinkText(row.previousHash, row.canonical) in HashedTexts(rows);
    assert LinkText(row.previousHash, current) in HashedTexts(rows);
    SameTail((if OrNone(row.previousHash).Some? then row.previousHash.value else GENESIS) + [NEWLINE],
             StableStringify(row.canonical), StableStringify(current));
  }

  lemma SameTextIsSpelled(e: Entry, row: ChainRow)
    requires ReadsBack(e, row) && Storable(e.input)
    ensures StableStringify(row.canonical) == StableStringify(CanonicalAuditEvent(row.current.value)) ==>
              SpelledAsStored(e.input)
  {
    var current := CanonicalAuditEvent(row.current.value);
    CanonicalEventIsWellFormed(e.input);
    CanonicalEventIsWellFormed(row.current.value);
    SameTextIffEquivalent(row.canonical, current);
    SameTextIffEquivalent(row.canonical, CanonicalAuditEvent(e.input));
    SameTextIffEquivalent(current, CanonicalAuditEvent(e.input));
    EventReadsBackIff(e, row);
  }

  /** The untouched entries of a run, whatever the races were and however JSONB reorders keys, verify if every event
      among them was spelled as it is stored; and, where the texts hashed do not collide, only then. */
  lemma HonestRunVerifies(sha: Text -> Text, steps: seq<Step>, orgId: Text, rows: seq<ChainRow>)
    requires DigestShape(sha) && |rows| == |Tenant(Run(sha, steps).entries, orgId)|
    requires var chain := Tenant(Run(sha, steps).entries, orgId);
             forall k | 0 <= k < |chain| :: ReadsBack(chain[k], rows[k])
    ensures var chain := Tenant(Run(sha, steps).entries, orgId);
      && ((forall k | 0 <= k < |chain| :: SpelledAsStored(chain[k].input)) ==> CorrectChain(sha, rows))
      && (CollisionFree(sha, HashedTexts(rows)) && CorrectChain(sha, rows) ==>
            forall k | 0 <= k < |chain| :: SpelledAsStored(chain[k].input))
  {
    RunKeepsInv(sha, steps);
    var chain := Tenant(Run(sha, steps).entries, orgId);
    if forall k | 0 <= k < |chain| :: SpelledAsStored(chain[k].input) {
      forall i | 0 <= i < |rows| ensures CorrectRow(sha, rows, i) {
        ReadBackRowIsCorrect(sha, chain, rows, i);
      }
    }
    if CollisionFree(sha, HashedTexts(rows)) && CorrectChain(sha, rows) {
      forall k | 0 <= k < |chain| ensures SpelledAsStored(chain[k].input) {
        assert chain[k] in chain;
        CorrectRowHasOneText(sha, rows, k);
        SameTextIsSpelled(chain[k], rows[k]);
      }
    }
  }

  /** An entry's row as the database gives it back. */
  function StoredRow(e: Entry): ChainRow {
    ChainRow(e.previousHash, e.eventHash, CanonicalAuditEvent(e.input), PROOF_VERSION, Some(ReadBack(e.input)))
  }

  lemma StoredRowReadsBack(e: Entry)
    requires Storable(e.input)
    ensures ReadsBack(e, StoredRow(e))
  {
    CanonicalEventIsWellFormed(e.input);
    SameTextIffEquivalent(CanonicalAuditEvent(e.input), CanonicalAuditEvent(e.input));
    SameTextIffEquivalent(e.input.payload, e.input.payload);
  }

  lemma FirstEntry(sha: Text -> Text, input: EventInput)
    requires Storable(input)
    ensures Run(sha, [Begin(0, input), ReadHead(0), DrawNumber(0), Insert(0)]).entries
         == [NewEntry(sha, None, 1, input)]
  {
    var steps := [Begin(0, input), ReadHead(0), DrawNumber(0), Insert(0)];
    assert steps[..3][..2] == steps[..2] && steps[..2][..1] == steps[..1] && steps[..1][..0] == [];
    assert Run(sha, steps[..1]) == Log([], 1, map[0 := Ready(input, 1)]);
    assert Run(sha, steps[..2]) == Log([], 1, map[0 := HeadRead(input, 1, None)]);
    assert Run(sha, steps[..3]) == Log([], 2, map[0 := Numbered(input, 1, None, 1)]);
  }

  /** A transition requested under the id of its work item in capitals is recorded, nobody touches anything, and the
      chain of its tenant no longer verifies: for any such id with a letter in it. */
  lemma CapitalsBreakChain(sha: Text -> Text, event: EventInput, item: Text)
    requires DigestShape(sha) && Storable(event) && event.source.AuditEvents? && event.workItemId == Some(item)
    requires InStoredForm(item) && exists i | 0 <= i < |item| :: 97 <= item[i]
    requires var e := NewEntry(sha, None, 1, event.(workItemId := Some(Capitals(item))));
             CollisionFree(sha, HashedTexts([StoredRow(e)]))
    ensures var input := event.(workItemId := Some(Capitals(item)));
      var e := NewEntry(sha, None, 1, input);
      && Stored(Capitals(item)) == item
      && Run(sha, [Begin(0, input), ReadHead(0), DrawNumber(0), Insert(0)]).entries == [e]
      && !CorrectChain(sha, [StoredRow(e)])
  {
    var input := event.(workItemId := Some(Capitals(item)));
    var e := NewEntry(sha, None, 1, input);
    var rows := [StoredRow(e)];
    CapitalsAreStoredSmall(item);
    FirstEntry(sha, input);
    StoredRowReadsBack(e);
    if CorrectChain(sha, rows) {
      CorrectRowHasOneText(sha, rows, 0);
      SameTextIsSpelled(e, rows[0]);
    }
  }

  // ---- The retry loop --------------------------------------------------------------------------------------------

  datatype Insertion = Inserted | AlreadyThere | LostRace | Refused

  /** The last entry was linked, when it was inserted, to the end of its tenant's chain if that was a path. */
  ghost predicate LinkedToTip(sha: Text -> Text, entries: seq<Entry>) {
    entries != [] && var before, last := entries[..|entries| - 1], entries[|entries| - 1];
      && last == NewEntry(sha, last.previousHash, last.sequence, last.input)
      && !HasSuccessor(before, TenantOf(last.input), last.previousHash)
      && (DigestShape(sha) && IsPath(sha, Tenant(before, TenantOf(last.input))) ==>
            last.previousHash == Tip(Tenant(before, TenantOf(last.input))))
  }

  /** What an answer says: an inserted event is last and linked to the end it met, a skipped one is there. */
  ghost predicate Fits(sha: Text -> Text, entries: seq<Entry>, input: EventInput, insertion: Insertion) {
    && (insertion.Inserted? ==> LinkedToTip(sha, entries) && entries[|entries| - 1].input == input)
    && (insertion.AlreadyThere? ==> Known(entries, input))
  }

  class AuditTable {
    var entries: seq<Entry>
    var nextSequence: nat

    /** The insert statement, with the three unique constraints it can meet. */
    method TryInsert(sha: Text -> Text, input: EventInput, previous: Option<Text>) returns (insertion: Insertion)
      modifies this
      ensures insertion.AlreadyThere? <==>
        exists e | e in old(entries) ::
          e.input.source == input.source && Stored(e.input.eventId) == Stored(input.eventId)
      ensures insertion.LostRace? <==>
        && !insertion.AlreadyThere?
        && exists e | e in old(entries) :: Stored(e.input.orgId) == Stored(input.orgId) && e.previousHash == previous
      ensures insertion.Refused? <==>
        && !insertion.AlreadyThere? && !insertion.LostRace?
        && exists e | e in old(entries) :: Stored(e.input.orgId) == Stored(input.orgId)
             && e.eventHash == sha(LinkText(previous, CanonicalAuditEvent(input)))
      ensures entries == if insertion.Inserted? then old(entries) + [
          Entry(old(nextSequence), previous, sha(LinkText(previous, CanonicalAuditEvent(input))), input)]
        else old(entries)
    {
      var entry := NewEntry(sha, previous, nextSequence, input);
      nextSequence := nextSequence + 1;
      if Known(entries, input) {
        return AlreadyThere;
      }
      if HasSuccessor(entries, TenantOf(input), previous) {
        return LostRace;
      }
      if HashTaken(entries, TenantOf(input), entry.eventHash) {
        return Refused;
      }
      entries := entries + [entry];
      return Inserted;
    }

    /** One attempt: read the head, let other writers commit `others`, insert. */
    method Attempt(sha: Text -> Text, input: EventInput, others: seq<Entry>) returns (insertion: Insertion)
      modifies this
      ensures old(entries) <= entries
      ensures Fits(sha, entries, input, insertion)
      ensures Free(sha, old(entries), input) && others == [] ==>
        insertion.Inserted? && entries == old(entries)
                         + [NewEntry(sha, HeadHash(old(entries), TenantOf(input)), old(nextSequence), input)]
    {
      var previous := HeadHash(entries, TenantOf(input));
      HeadIsFree(sha, entries, input);
      assert entries + [] == entries;
      entries := entries + others;
      ghost var met, sequence := entries, nextSequence;
      insertion := TryInsert(sha, input, previous);
      if insertion.Inserted? {
        InsertedAtTip(sha, old(entries), met, sequence, input);
      }
    }

    /** appendAuditIntegrityEntry. `others(k)` are the rows other writers commit between the read of the head and the
        insert of attempt k. An insertion is always linked to the end of the chain it meets, however often the race was
        lost before; undisturbed, the first attempt inserts. The first statement fails for keys that are not UUIDs. */
    method Append(sha: Text -> Text, input: EventInput, others: nat -> seq<Entry>) returns (insertion: Insertion)
      modifies this
      ensures old(entries) <= entries
      ensures !ValidKeys(input) ==> insertion.Refused? && entries == old(entries)
      ensures Fits(sha, entries, input, insertion)
      ensures Free(sha, old(entries), input) && others(1) == [] ==>
        insertion.Inserted? && entries == old(entries)
                         + [NewEntry(sha, HeadHash(old(entries), TenantOf(input)), old(nextSequence), input)]
    {
      if !ValidKeys(input) {
        return Refused;
      }
      if Known(entries, input) {
        return AlreadyThere;
      }
      insertion := Attempt(sha, input, others(1));
      ghost var undisturbed, first := Free(sha, old(entries), input) && others(1) == [], entries;
      var attempt := 2;
      while insertion.LostRace? && attempt <= MAX_APPEND_ATTEMPTS
        invariant old(entries) <= entries
        invariant Fits(sha, entries, input, insertion)
        invariant undisturbed ==> insertion.Inserted? && entries == first
      {
        insertion := Attempt(sha, input, others(attempt));
        attempt := attempt + 1;
      }
    }
  }

  lemma HeadIsStored(entries: seq<Entry>, orgId: Text)
    ensures HeadHash(entries, orgId).Some? ==> HashTaken(entries, orgId, HeadHash(entries, orgId).value)
  {
    LatestIsStored(entries, orgId);
  }

  lemma {:induction false} LatestIsStored(entries: seq<Entry>, orgId: Text)
    ensures Latest(entries, orgId).Some? ==>
      Latest(entries, orgId).value in entries && TenantOf(Latest(entries, orgId).value.input) == orgId
    decreases |entries|
  {
    if entries != [] {
      LatestIsStored(entries[..|entries| - 1], orgId);
    }
  }

  lemma InsertedAtTip(sha: Text -> Text, read: seq<Entry>, met: seq<Entry>, sequence: nat, input: EventInput)
    requires read <= met && !HasSuccessor(met, TenantOf(input), HeadHash(read, TenantOf(input)))
    ensures LinkedToTip(sha, met + [NewEntry(sha, HeadHash(read, TenantOf(input)), sequence, input)])
  {
    var previous := HeadHash(read, TenantOf(input));
    var after := met + [NewEntry(sha, previous, sequence, input)];
    assert after[..|after| - 1] == met;
    HeadIsStored(read, TenantOf(input));
    if previous.Some? {
      var e :| e in read && TenantOf(e.input) == TenantOf(input) && e.eventHash == previous.value;
      assert e in met;
    }
    if IsPath(sha, Tenant(met, TenantOf(input))) {
      RejectedIffStale(sha, met, TenantOf(input), previous);
    }
  }

  /** The event is new, its tenant's chain is a path, and no row of the tenant has the hash it will get. */
  ghost predicate Free(sha: Text -> Text, entries: seq<Entry>, input: EventInput) {
    && ValidKeys(input) && DigestShape(sha) && !Known(entries, input) && IsPath(sha, Tenant(entries, TenantOf(input)))
    && !HashTaken(entries, TenantOf(input),
                  AuditHash(sha, HeadHash(entries, TenantOf(input)), CanonicalAuditEvent(input)))
  }

  lemma HeadIsFree(sha: Text -> Text, entries: seq<Entry>, input: EventInput)
    ensures Free(sha, entries, input) ==>
      !HasSuccessor(entries, TenantOf(input), HeadHash(entries, TenantOf(input)))
  {
    if Free(sha, entries, input) {
      var chain := Tenant(entries, TenantOf(input));
      HeadIsTip(sha, entries, TenantOf(input));
      TenantMembers(entries, TenantOf(input));
      if chain != [] {
        assert chain[|chain| - 1] in chain;
      }
      RejectedIffStale(sha, entries, TenantOf(input), Tip(chain));
    }
  }
}
