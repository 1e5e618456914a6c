/** Hash links of the audit trail and their verification (src/modules/audit/audit-integrity.ts).

    The digest is a parameter: nothing is assumed of it beyond the shape of a SHA-256 hexadecimal digest, and
    where a result needs collision resistance it says for which texts. */
module AuditProof {
  import opened Wrappers
  import opened CanonicalJson
  import opened CanonicalOrder

  const PROOF_VERSION := 1
  const NEWLINE: CodeUnit := 10
  const GENESIS: Text := [71, 69, 78, 69, 83, 73, 83]

  datatype Source = DomainEvents | AuditEvents

  datatype EventInput = EventInput(
    source: Source, eventId: Text, orgId: Text, workItemId: Option<Text>, eventType: Text,
    actorType: Text, actorId: Text, payload: Json, occurredAt: Text)

  function Ascii(s: string): Text
    requires forall i | 0 <= i < |s| :: s[i] < '\U{80}'
  {
    seq(|s|, i requires 0 <= i < |s| => s[i] as int)
  }

  function SourceName(source: Source): Text {
    if source.DomainEvents? then Ascii("domain_events") else Ascii("audit_events")
  }

  function Zip(keys: seq<Text>, values: seq<Json>): (ms: seq<Member>)
    requires |keys| == |values|
    ensures |ms| == |keys|
    ensures forall i | 0 <= i < |keys| :: ms[i] == Member(keys[i], values[i])
  {
    seq(|keys|, i requires 0 <= i < |keys| => Member(keys[i], values[i]))
  }

  const EVENT_KEYS: seq<Text> := [
    Ascii("proof_version"), Ascii("source"), Ascii("event_id"), Ascii("org_id"), Ascii("work_item_id"),
    Ascii("event_type"), Ascii("actor"), Ascii("occurred_at"), Ascii("payload")]

  const ACTOR_KEYS: seq<Text> := [Ascii("type"), Ascii("id")]

  function EventValues(input: EventInput): (values: seq<Json>)
    ensures |values| == 9
  {
    [Number([49]), String(SourceName(input.source)), String(input.eventId), String(input.orgId),
     if input.workItemId.Some? then String(input.workItemId.value) else Null,
     String(input.eventType), Object(Zip(ACTOR_KEYS, [String(input.actorType), String(input.actorId)])),
     String(input.occurredAt), input.payload]
  }

  /** canonicalAuditEvent: the object whose canonical text is hashed. */
  function CanonicalAuditEvent(input: EventInput): Json {
    Object(Zip(EVENT_KEYS, EventValues(input)))
  }

  /** What is hashed of an event, under the names of EVENT_KEYS and ACTOR_KEYS in their order. */
  lemma CanonicalFields(input: EventInput)
    ensures CanonicalAuditEvent(input) == Object([
      Member(EVENT_KEYS[0], Number([49])),
      Member(EVENT_KEYS[1], String(if input.source.DomainEvents? then Ascii("domain_events")
                                   else Ascii("audit_events"))),
      Member(EVENT_KEYS[2], String(input.eventId)),
      Member(EVENT_KEYS[3], String(input.orgId)),
      Member(EVENT_KEYS[4], if input.workItemId.None? then Null else String(input.workItemId.value)),
      Member(EVENT_KEYS[5], String(input.eventType)),
      Member(EVENT_KEYS[6], Object([Member(ACTOR_KEYS[0], String(input.actorType)),
                                    Member(ACTOR_KEYS[1], String(input.actorId))])),
      Member(EVENT_KEYS[7], String(input.occurredAt)),
      Member(EVENT_KEYS[8], input.payload)])
  {
    var actor := [String(input.actorType), String(input.actorId)];
    assert Zip(ACTOR_KEYS, actor) == [Member(ACTOR_KEYS[0], actor[0]), Member(ACTOR_KEYS[1], actor[1])];
    var (keys, values) := (EVENT_KEYS, EventValues(input));
    assert Zip(keys, values)
        == [Member(keys[0], values[0]), Member(keys[1], values[1]), Member(keys[2], values[2]),
            Member(keys[3], values[3]), Member(keys[4], values[4]), Member(keys[5], values[5]),
            Member(keys[6], values[6]), Member(keys[7], values[7]), Member(keys[8], values[8])];
  }

  ghost predicate Distinct(keys: seq<Text>) {
    forall i, j | 0 <= i < j < |keys| :: keys[i] != keys[j]
  }

  lemma KeysAreDistinct()
    ensures Distinct(EVENT_KEYS) && Distinct(ACTOR_KEYS)
  {
    var k := EVENT_KEYS;
    assert |k[0]| == 13 && |k[1]| == 6 && |k[2]| == 8 && |k[3]| == 6 && |k[4]| == 12;
    assert |k[5]| == 10 && |k[6]| == 5 && |k[7]| == 11 && |k[8]| == 7;
    assert k[1][0] == 115 && k[3][0] == 111;
    assert |ACTOR_KEYS[0]| == 4 && |ACTOR_KEYS[1]| == 2;
  }

  lemma ZipIsWellFormed(keys: seq<Text>, values: seq<Json>)
    requires |keys| == |values| && Distinct(keys) && forall i | 0 <= i < |values| :: WellFormed(values[i])
    ensures WellFormed(Object(Zip(keys, values)))
  {
  }

  lemma CanonicalEventIsWellFormed(input: EventInput)
    requires WellFormed(input.payload)
    ensures WellFormed(CanonicalAuditEvent(input))
  {
    KeysAreDistinct();
    ZipIsWellFormed(ACTOR_KEYS, [String(input.actorType), String(input.actorId)]);
    var values := EventValues(input);
    assert IsNumber([49]);
    assert WellFormed(values[0]) && WellFormed(values[6]) && WellFormed(values[8]);
    ZipIsWellFormed(EVENT_KEYS, values);
  }

  lemma ZipEquivalent(keys: seq<Text>, vs: seq<Json>, ws: seq<Json>, i: nat)
    requires |keys| == |vs| == |ws| && i < |keys|
    requires Equivalent(Object(Zip(keys, vs)), Object(Zip(keys, ws)))
    ensures Equivalent(vs[i], ws[i])
  {
    assert Zip(keys, vs)[i].key == Zip(keys, ws)[i].key;
  }

  lemma SourcesDiffer()
    ensures SourceName(DomainEvents) != SourceName(AuditEvents)
  {
    assert |SourceName(DomainEvents)| != |SourceName(AuditEvents)|;
  }

  lemma SameActor(a: EventInput, b: EventInput)
    requires Equivalent(EventValues(a)[6], EventValues(b)[6])
    ensures a.actorType == b.actorType && a.actorId == b.actorId
  {
    var actorA, actorB := [String(a.actorType), String(a.actorId)], [String(b.actorType), String(b.actorId)];
    ZipEquivalent(ACTOR_KEYS, actorA, actorB, 0);
    ZipEquivalent(ACTOR_KEYS, actorA, actorB, 1);
  }

  lemma SameScalars(vs: seq<Json>, ws: seq<Json>, i: nat)
    requires |vs| == |ws| == 9 && i < 9 && (vs[i].String? || vs[i].Null?)
    requires Equivalent(Object(Zip(EVENT_KEYS, vs)), Object(Zip(EVENT_KEYS, ws)))
    ensures vs[i] == ws[i]
  {
    ZipEquivalent(EVENT_KEYS, vs, ws, i);
  }

  ghost predicate ScalarsAgree(vs: seq<Json>, ws: seq<Json>)
    requires |vs| == |ws| == 9
  {
    vs[1] == ws[1] && vs[2] == ws[2] && vs[3] == ws[3] && vs[4] == ws[4] && vs[5] == ws[5] && vs[7] == ws[7]
  }

  lemma SameFields(a: EventInput, b: EventInput)
    requires ScalarsAgree(EventValues(a), EventValues(b)) && a.actorType == b.actorType && a.actorId == b.actorId
    ensures a == b.(payload := a.payload)
  {
    SourcesDiffer();
  }

  lemma AllScalarsAgree(vs: seq<Json>, ws: seq<Json>)
    requires |vs| == |ws| == 9
    requires forall i | 1 <= i < 8 && i != 6 :: vs[i].String? || vs[i].Null?
    requires Equivalent(Object(Zip(EVENT_KEYS, vs)), Object(Zip(EVENT_KEYS, ws)))
    ensures ScalarsAgree(vs, ws)
  {
    SameScalars(vs, ws, 1);
    SameScalars(vs, ws, 2);
    SameScalars(vs, ws, 3);
    SameScalars(vs, ws, 4);
    SameScalars(vs, ws, 5);
    SameScalars(vs, ws, 7);
  }

  lemma ZipRespectsEquivalence(keys: seq<Text>, vs: seq<Json>, ws: seq<Json>)
    requires |keys| == |vs| == |ws| && Distinct(keys) && forall i | 0 <= i < |vs| :: Equivalent(vs[i], ws[i])
    ensures Equivalent(Object(Zip(keys, vs)), Object(Zip(keys, ws)))
  {
    var ms, ns := Zip(keys, vs), Zip(keys, ws);
    forall key ensures HasKey(ms, key) <==> HasKey(ns, key) {
      if i :| 0 <= i < |ms| && ms[i].key == key { assert ns[i].key == key; }
      if i :| 0 <= i < |ns| && ns[i].key == key { assert ms[i].key == key; }
    }
  }

  /** Two events have equivalent canonical forms exactly if they are the same event, up to key order inside the
      payload. */
  lemma CanonicalEventIsFaithful(a: EventInput, b: EventInput)
    ensures Equivalent(CanonicalAuditEvent(a), CanonicalAuditEvent(b))
            <==> a == b.(payload := a.payload) && Equivalent(a.payload, b.payload)
  {
    var vs, ws := EventValues(a), EventValues(b);
    KeysAreDistinct();
    if Equivalent(CanonicalAuditEvent(a), CanonicalAuditEvent(b)) {
      AllScalarsAgree(vs, ws);
      ZipEquivalent(EVENT_KEYS, vs, ws, 6);
      SameActor(a, b);
      SameFields(a, b);
      ZipEquivalent(EVENT_KEYS, vs, ws, 8);
    }
    if a == b.(payload := a.payload) && Equivalent(a.payload, b.payload) {
      var actor := [String(a.actorType), String(a.actorId)];
      ZipRespectsEquivalence(ACTOR_KEYS, actor, actor);
      forall i | 0 <= i < 9 ensures Equivalent(vs[i], ws[i]) {
        assert i < 8 ==> vs[i] == ws[i];
      }
      ZipRespectsEquivalence(EVENT_KEYS, vs, ws);
    }
  }

  // ---- Links -------------------------------------------------------------------------------------------------

  /** What the theorems use of a digest: 64 characters, none of them a newline. */
  ghost predicate DigestShape(sha: Text -> Text) {
    forall t :: |sha(t)| == 64 && forall i | 0 <= i < 64 :: sha(t)[i] != NEWLINE
  }

  /** The null and the empty previous hash both mean the start of the chain. */
  function OrNone(hash: Option<Text>): Option<Text> {
    if hash == Some([]) then None else hash
  }

  function LinkText(previous: Option<Text>, canonical: Json): Text {
    (if OrNone(previous).Some? then previous.value else GENESIS) + [NEWLINE] + StableStringify(canonical)
  }

  function AuditHash(sha: Text -> Text, previous: Option<Text>, canonical: Json): Text {
    sha(LinkText(previous, canonical))
  }

  /** A stored entry joined with the event it vouches for, if that still exists. */
  datatype ChainRow = ChainRow(previousHash: Option<Text>, eventHash: Text, canonical: Json, proofVersion: int,
                               current: Option<EventInput>)

  ghost predicate CorrectRow(sha: Text -> Text, rows: seq<ChainRow>, i: nat)
    requires i < |rows|
  {
    var row := rows[i];
    && OrNone(row.previousHash) == (if i == 0 then None else Some(rows[i - 1].eventHash))
    && row.eventHash == AuditHash(sha, row.previousHash, row.canonical)
    && row.current.Some?
    && row.eventHash == AuditHash(sha, row.previousHash, CanonicalAuditEvent(row.current.value))
    && row.proofVersion == PROOF_VERSION
  }

  ghost predicate CorrectChain(sha: Text -> Text, rows: seq<ChainRow>) {
    forall i | 0 <= i < |rows| :: CorrectRow(sha, rows, i)
  }

  /** The verifier: one pass that carries the previous hash and never recovers once a row is wrong. */
  method VerifyTenantAuditChain(sha: Text -> Text, rows: seq<ChainRow>)
    returns (verified: bool, head: Option<Text>, length: nat)
    ensures verified <==> CorrectChain(sha, rows)
    ensures head == if rows == [] then None else Some(rows[|rows| - 1].eventHash)
    ensures length == |rows|
  {
    verified, head, length := true, None, |rows|;
    for i := 0 to |rows|
      invariant head == if i == 0 then None else Some(rows[i - 1].eventHash)
      invariant verified <==> forall j | 0 <= j < i :: CorrectRow(sha, rows, j)
    {
      var row := rows[i];
      var linked := OrNone(row.previousHash) == head;
      var hashMatches := AuditHash(sha, row.previousHash, row.canonical) == row.eventHash;
      var sourceMatches := row.current.Some?
        && AuditHash(sha, row.previousHash, CanonicalAuditEvent(row.current.value)) == row.eventHash;
      assert CorrectRow(sha, rows, i)
        <==> linked && hashMatches && sourceMatches && row.proofVersion == PROOF_VERSION;
      if !linked || !hashMatches || !sourceMatches || row.proofVersion != PROOF_VERSION {
        verified := false;
      }
      head := Some(row.eventHash);
    }
  }

  // ---- What a verified head pins down --------------------------------------------------------------------------

  /** Every text the verification of `rows` hashes. */
  ghost function HashedTexts(rows: seq<ChainRow>): set<Text> {
    (set i | 0 <= i < |rows| :: LinkText(rows[i].previousHash, rows[i].canonical))
    + (set i | 0 <= i < |rows| && rows[i].current.Some? ::
         LinkText(rows[i].previousHash, CanonicalAuditEvent(rows[i].current.value)))
  }

  ghost predicate CollisionFree(sha: Text -> Text, texts: set<Text>) {
    forall a, b | a in texts && b in texts && sha(a) == sha(b) :: a == b
  }

  lemma NoShorterPrefix(a: Text, s: Text, b: Text, t: Text)
    requires forall i | 0 <= i < |b| :: b[i] != NEWLINE
    requires a + [NEWLINE] + s == b + [NEWLINE] + t
    ensures |a| >= |b|
  {
    assert (a + [NEWLINE] + s)[|a|] == NEWLINE;
    assert forall i | 0 <= i < |b| :: (b + [NEWLINE] + t)[i] == b[i];
  }

  /** The hashed text splits back into the previous hash and the canonical text. */
  lemma LinkTextIsUnambiguous(p: Option<Text>, v: Json, q: Option<Text>, w: Json)
    requires IsDigestOrNone(p) && IsDigestOrNone(q) && LinkText(p, v) == LinkText(q, w)
    ensures OrNone(p) == OrNone(q) && StableStringify(v) == StableStringify(w)
  {
    var a, b := (if OrNone(p).Some? then p.value else GENESIS), (if OrNone(q).Some? then q.value else GENESIS);
    var s, t := StableStringify(v), StableStringify(w);
    NoShorterPrefix(a, s, b, t);
    NoShorterPrefix(b, t, a, s);
    assert a == (a + [NEWLINE] + s)[..|a|] == (b + [NEWLINE] + t)[..|b|] == b;
    assert s == (a + [NEWLINE] + s)[|a| + 1..] == (b + [NEWLINE] + t)[|b| + 1..] == t;
  }

  ghost predicate IsDigestOrNone(hash: Option<Text>) {
    OrNone(hash).Some? ==> |hash.value| == 64 && forall i | 0 <= i < 64 :: hash.value[i] != NEWLINE
  }

  ghost predicate WellFormedRows(rows: seq<ChainRow>) {
    forall i | 0 <= i < |rows| ::
      WellFormed(rows[i].canonical) && (rows[i].current.Some? ==> WellFormed(rows[i].current.value.payload))
  }

  /** Two rows record the same event: every field, and the payload up to key order. */
  ghost predicate SameRecord(a: ChainRow, b: ChainRow) {
    && a.eventHash == b.eventHash && OrNone(a.previousHash) == OrNone(b.previousHash)
    && Equivalent(a.canonical, b.canonical)
    && a.current.Some? && b.current.Some?
    && a.current.value == b.current.value.(payload := a.current.value.payload)
    && Equivalent(a.current.value.payload, b.current.value.payload)
  }

  lemma PreviousIsDigest(sha: Text -> Text, rows: seq<ChainRow>, i: nat)
    requires DigestShape(sha) && i < |rows| && CorrectChain(sha, rows)
    ensures IsDigestOrNone(rows[i].previousHash)
  {
    assert CorrectRow(sha, rows, i);
    if i > 0 {
      assert CorrectRow(sha, rows, i - 1);
    }
  }

  /** Two verified chains whose verification meets no hash collision. */
  ghost predicate Comparable(sha: Text -> Text, xs: seq<ChainRow>, ys: seq<ChainRow>) {
    && DigestShape(sha)
    && CorrectChain(sha, xs) && CorrectChain(sha, ys)
    && WellFormedRows(xs) && WellFormedRows(ys)
    && CollisionFree(sha, HashedTexts(xs) + HashedTexts(ys))
  }

  lemma SameLink(sha: Text -> Text, xs: seq<ChainRow>, i: nat, ys: seq<ChainRow>, j: nat)
    requires Comparable(sha, xs, ys) && i < |xs| && j < |ys| && xs[i].eventHash == ys[j].eventHash
    ensures xs[i].current.Some? && ys[j].current.Some?
    ensures LinkText(xs[i].previousHash, xs[i].canonical) == LinkText(ys[j].previousHash, ys[j].canonical)
    ensures LinkText(xs[i].previousHash, CanonicalAuditEvent(xs[i].current.value))
         == LinkText(ys[j].previousHash, CanonicalAuditEvent(ys[j].current.value))
  {
    var x, y := xs[i], ys[j];
    assert CorrectRow(sha, xs, i) && CorrectRow(sha, ys, j);
    assert LinkText(x.previousHash, x.canonical) in HashedTexts(xs);
    assert LinkText(x.previousHash, CanonicalAuditEvent(x.current.value)) in HashedTexts(xs);
    assert LinkText(y.previousHash, y.canonical) in HashedTexts(ys);
    assert LinkText(y.previousHash, CanonicalAuditEvent(y.current.value)) in HashedTexts(ys);
  }

  lemma SameHashSameRecord(sha: Text -> Text, xs: seq<ChainRow>, i: nat, ys: seq<ChainRow>, j: nat)
    requires Comparable(sha, xs, ys) && i < |xs| && j < |ys| && xs[i].eventHash == ys[j].eventHash
    ensures SameRecord(xs[i], ys[j])
  {
    var x, y := xs[i], ys[j];
    SameLink(sha, xs, i, ys, j);
    PreviousIsDigest(sha, xs, i);
    PreviousIsDigest(sha, ys, j);
    var cx, cy := CanonicalAuditEvent(x.current.value), CanonicalAuditEvent(y.current.value);
    LinkTextIsUnambiguous(x.previousHash, x.canonical, y.previousHash, y.canonical);
    LinkTextIsUnambiguous(x.previousHash, cx, y.previousHash, cy);
    CanonicalEventIsWellFormed(x.current.value);
    CanonicalEventIsWellFormed(y.current.value);
    SameTextIffEquivalent(x.canonical, y.canonical);
    SameTextIffEquivalent(cx, cy);
    CanonicalEventIsFaithful(x.current.value, y.current.value);
  }

  /** Equal hashes: both entries start their chains, or both have predecessors of equal hash. */
  lemma SamePrevious(sha: Text -> Text, xs: seq<ChainRow>, i: nat, ys: seq<ChainRow>, j: nat)
    requires Comparable(sha, xs, ys) && i < |xs| && j < |ys| && xs[i].eventHash == ys[j].eventHash
    ensures (i == 0 <==> j == 0) && (i > 0 && j > 0 ==> xs[i - 1].eventHash == ys[j - 1].eventHash)
  {
    SameHashSameRecord(sha, xs, i, ys, j);
    assert CorrectRow(sha, xs, i) && CorrectRow(sha, ys, j);
  }

  /** Walking back from equal hashes, both chains reach their start together and agree on the way. */
  lemma {:induction false} SameHashes(sha: Text -> Text, xs: seq<ChainRow>, n: nat, ys: seq<ChainRow>, m: nat, i: nat)
    requires Comparable(sha, xs, ys)
    requires i < n <= |xs| && 0 < m <= |ys| && xs[n - 1].eventHash == ys[m - 1].eventHash
    ensures n == m && xs[i].eventHash == ys[i].eventHash
    decreases n
  {
    hide Comparable;
    SamePrevious(sha, xs, n - 1, ys, m - 1);
    if n > 1 {
      SameHashes(sha, xs, n - 1, ys, m - 1, if i < n - 1 then i else 0);
    }
  }

  /** A verified head fixes the whole history: same length, and the same record at every place. */
  lemma SameHeadSameHistory(sha: Text -> Text, xs: seq<ChainRow>, ys: seq<ChainRow>)
    requires Comparable(sha, xs, ys) && xs != [] && ys != []
    requires xs[|xs| - 1].eventHash == ys[|ys| - 1].eventHash
    ensures |xs| == |ys| && forall i | 0 <= i < |xs| :: SameRecord(xs[i], ys[i])
  {
    SameHashes(sha, xs, |xs|, ys, |ys|, 0);
    forall i | 0 <= i < |xs| ensures SameRecord(xs[i], ys[i]) {
      SameHashes(sha, xs, |xs|, ys, |ys|, i);
      SameHashSameRecord(sha, xs, i, ys, i);
    }
  }
}
