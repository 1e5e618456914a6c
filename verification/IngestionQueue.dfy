/** The durable ingestion queue of one connector (src/modules/connectors/connector.service.ts). `rows[i]` is the record
    at queue position i. A drain holds the connector's sync lease, queries a batch of due records, and claims and
    settles them one after the other; the query, the claims and the settling statements are separate steps, and neither
    the claim nor the settling statement asks about the order, the lease or (when settling) the claim. */
module IngestionQueue {
  import opened Wrappers

  const MAX_ATTEMPTS := 5
  const CLAIM_MS := 120_000
  const LEASE_MS := 300_000
  const BASE_BACKOFF_MS := 30_000
  const MAX_BACKOFF_MS := 3_600_000
  const BATCH := 50

  datatype Status = Pending | Retry | Processing | Dead | Completed

  /** What the payload says the record is; a malformed payload may leave either name out. */
  datatype Identity = Identity(artifact: Option<nat>, external: Option<nat>)

  /** The partition key: the names of the artifact type and of the record, one of which may be empty. */
  datatype Key = Key(artifact: nat, external: Option<nat>)

  datatype Row = Row(partition: Key, identity: Identity, status: Status, attempts: nat, nextAttempt: Option<int>,
                     claimedBy: Option<nat>, claimExpires: Option<int>)

  /** The key of an accepted record; the entity type polled stands in for a missing artifact type. */
  function KeyOf(entityType: nat, identity: Identity): Key {
    Key(if identity.artifact.Some? then identity.artifact.value else entityType, identity.external)
  }

  function NewRow(entityType: nat, identity: Identity): Row {
    Row(KeyOf(entityType, identity), identity, Pending, 0, None, None, None)
  }

  predicate Claimable(row: Row, now: int) {
    || row.status == Pending
    || row.status == Retry
    || (row.status == Processing && (row.claimExpires.None? || row.claimExpires.value <= now))
  }

  /** No earlier record of the partition is pending, in retry, in processing or dead. */
  predicate ClearBelow(rows: seq<Row>, i: nat)
    requires i < |rows|
  {
    forall j | 0 <= j < i :: rows[j].partition == rows[i].partition ==> rows[j].status == Completed
  }

  /** The condition of the query for due records. */
  predicate Due(rows: seq<Row>, i: nat, now: int)
    requires i < |rows|
  {
    && Claimable(rows[i], now)
    && (rows[i].nextAttempt.None? || rows[i].nextAttempt.value <= now)
    && ClearBelow(rows, i)
  }

  // ---- Specification of the statements ----------------------------------------------------------------------------

  function Released(row: Row, status: Status, nextAttempt: Option<int>): Row {
    row.(status := status, nextAttempt := nextAttempt, claimedBy := None, claimExpires := None)
  }

  function Taken(row: Row, claim: nat, now: int): Row {
    row.(status := Processing, attempts := row.attempts + 1, claimedBy := Some(claim),
         claimExpires := Some(now + CLAIM_MS))
  }

  function Backoff(attempt: nat): int {
    if attempt <= 1 then BASE_BACKOFF_MS
    else if 2 * Backoff(attempt - 1) < MAX_BACKOFF_MS then 2 * Backoff(attempt - 1) else MAX_BACKOFF_MS
  }

  /** A settled record, whoever holds the claim. */
  function Settled(row: Row, success: bool, attempt: nat, now: int): Row {
    if success then Released(row, Completed, None)
    else if attempt < MAX_ATTEMPTS then Released(row, Retry, Some(now + Backoff(attempt)))
    else Released(row, Dead, None)
  }

  /** Deferred: the attempt the claim counted is given back. */
  function Returned(row: Row, until: int): Row {
    Released(row, Retry, Some(until)).(attempts := if row.attempts == 0 then 0 else row.attempts - 1)
  }

  /** An expired claim found at start-up. */
  function ResetOne(row: Row, now: int): Row {
    if row.status == Processing && Claimable(row, now) then Released(row, Retry, Some(now)) else row
  }

  /** A corrected payload names both, and keeps a name the dead payload has. */
  predicate Corrects(identity: Identity, corrected: Identity) {
    && corrected.artifact.Some? && corrected.external.Some?
    && (identity.artifact.Some? ==> corrected.artifact == identity.artifact)
    && (identity.external.Some? ==> corrected.external == identity.external)
  }

  /** Re-injection writes the corrected payload and the partition it belongs to. */
  function Reinjected(row: Row, corrected: Identity): Row
    requires corrected.artifact.Some?
  {
    row.(partition := Key(corrected.artifact.value, corrected.external), identity := corrected, status := Pending,
         attempts := 0, nextAttempt := None)
  }

  // ---- The table --------------------------------------------------------------------------------------------------

  /** The positions of the due records below n, in order. */
  function DueBelow(rows: seq<Row>, n: nat, now: int): (due: seq<nat>)
    requires n <= |rows|
    ensures forall k | 0 <= k < |due| :: due[k] < n && Due(rows, due[k], now)
    ensures forall i: nat | i < n && Due(rows, i, now) :: i in due
    ensures forall j, k | 0 <= j < k < |due| :: due[j] < due[k]
  {
    if n == 0 then [] else DueBelow(rows, n - 1, now) + if Due(rows, n - 1, now) then [n - 1] else []
  }

  class Table {
    var rows: seq<Row>

    constructor ()
      ensures rows == []
    {
      rows := [];
    }

    method IsDue(i: nat, now: int) returns (due: bool)
      requires i < |rows|
      ensures due <==> Due(rows, i, now)
    {
      if !Claimable(rows[i], now) || (rows[i].nextAttempt.Some? && rows[i].nextAttempt.value > now) {
        return false;
      }
      for j := 0 to i
        invariant forall k | 0 <= k < j :: rows[k].partition == rows[i].partition ==> rows[k].status == Completed
      {
        if rows[j].partition == rows[i].partition && rows[j].status != Completed {
          return false;
        }
      }
      return true;
    }

    /** The query of a drain: the first due records in queue order, at most a batch. */
    method DueBatch(now: int) returns (batch: seq<nat>)
      ensures batch <= DueBelow(rows, |rows|, now)
      ensures |batch| == BATCH || batch == DueBelow(rows, |rows|, now)
    {
      batch := [];
      var i := 0;
      while i < |rows| && |batch| < BATCH
        invariant i <= |rows| && |batch| <= BATCH
        invariant batch == DueBelow(rows, i, now)
      {
        var due := IsDue(i, now);
        if due {
          batch := batch + [i];
        }
        i := i + 1;
      }
      DueGrows(rows, i, |rows|, now);
    }

    method Claim(i: nat, claim: nat, now: int) returns (attempt: Option<nat>)
      requires i < |rows|
      modifies this
      ensures attempt == if Claimable(old(rows[i]), now) then Some(old(rows[i].attempts) + 1) else None
      ensures rows == if attempt.Some? then old(rows)[i := Taken(old(rows[i]), claim, now)] else old(rows)
    {
      if !Claimable(rows[i], now) {
        return None;
      }
      rows := rows[i := Taken(rows[i], claim, now)];
      return Some(rows[i].attempts);
    }

    method Settle(i: nat, success: bool, attempt: nat, now: int)
      requires i < |rows|
      modifies this
      ensures rows == old(rows)[i := Settled(old(rows[i]), success, attempt, now)]
    {
      if success {
        rows := rows[i := Released(rows[i], Completed, None)];
      } else {
        var retry := attempt < MAX_ATTEMPTS;
        rows := rows[i := Released(rows[i], if retry then Retry else Dead,
                                   if retry then Some(now + Backoff(attempt)) else None)];
      }
    }

    method Defer(i: nat, claim: nat, until: int)
      requires i < |rows|
      modifies this
      ensures rows == if old(rows[i].claimedBy) == Some(claim)
                      then old(rows)[i := Returned(old(rows[i]), until)] else old(rows)
    {
      if rows[i].claimedBy == Some(claim) {
        rows := rows[i := Returned(rows[i], until)];
      }
    }

    /** A refused correction changes nothing. */
    method Reinject(i: nat, corrected: Identity) returns (accepted: bool)
      requires i < |rows|
      modifies this
      ensures accepted <==> old(rows[i].status) == Dead && Corrects(old(rows[i].identity), corrected)
      ensures rows == if accepted then old(rows)[i := Reinjected(old(rows[i]), corrected)] else old(rows)
    {
      accepted := rows[i].status == Dead && Corrects(rows[i].identity, corrected);
      if accepted {
        rows := rows[i := Reinjected(rows[i], corrected)];
      }
    }
  }

  lemma {:induction false} DueGrows(rows: seq<Row>, m: nat, n: nat, now: int)
    requires m <= n <= |rows|
    ensures DueBelow(rows, m, now) <= DueBelow(rows, n, now)
    decreases n
  {
    if m < n {
      DueGrows(rows, m, n - 1, now);
    }
  }

  // ---- Runs -------------------------------------------------------------------------------------------------------

  /** The sync lease row of the connector. */
  datatype Lease = Lease(owner: nat, expires: int)

  /** A worker, one call of a sync or a drain at a time: outside a call, between two records of its batch, or working on
      a record. `deadline` is the end of the claim it took, of which it keeps working on the rest of the batch. */
  datatype Phase =
    | Idle
    | Draining(batch: seq<nat>)
    | Working(batch: seq<nat>, row: nat, claim: nat, attempt: nat, deadline: int)

  /** `claimed[i]` remembers whether the record at i was ever claimed in its present partition. */
  datatype World = World(now: int, rows: seq<Row>, claimed: seq<bool>, lease: Option<Lease>, workers: map<nat, Phase>,
                         nextClaim: nat)

  datatype Step =
    | Tick(ms: nat)
    | Accept(entityType: nat, identity: Identity)
    | Acquire(worker: nat)
    | Renew(worker: nat)
    | Release(worker: nat)
    | Query(worker: nat, batch: seq<nat>)
    | Claim(worker: nat)
    | Settle(worker: nat, success: bool)
    | Defer(worker: nat, until: int)
    | Crash(worker: nat)
    | Restart
    | Reinject(row: nat, corrected: Identity)

  function PhaseOf(w: World, worker: nat): Phase {
    if worker in w.workers then w.workers[worker] else Idle
  }

  function GoTo(w: World, worker: nat, phase: Phase): World {
    w.(workers := w.workers[worker := phase])
  }

  predicate Owns(w: World, worker: nat) {
    w.lease.Some? && w.lease.value.owner == worker
  }

  predicate AllDue(w: World, batch: seq<nat>) {
    forall i | i in batch :: i < |w.rows| && Due(w.rows, i, w.now)
  }

  function AcquireStep(w: World, worker: nat): World {
    if w.lease.None? || w.lease.value.expires <= w.now
    then GoTo(w.(lease := Some(Lease(worker, w.now + LEASE_MS))), worker, Draining([]))
    else w
  }

  function ClaimStep(w: World, worker: nat, batch: seq<nat>): World
    requires |w.rows| == |w.claimed| && batch != []
  {
    var i := batch[0];
    if i < |w.rows| && Claimable(w.rows[i], w.now) then
      GoTo(w.(rows := w.rows[i := Taken(w.rows[i], w.nextClaim, w.now)], claimed := w.claimed[i := true],
              nextClaim := w.nextClaim + 1),
           worker, Working(batch[1..], i, w.nextClaim, w.rows[i].attempts + 1, w.now + CLAIM_MS))
    else GoTo(w, worker, Draining(batch[1..]))
  }

  function SettleStep(w: World, worker: nat, phase: Phase, success: bool): World
    requires phase.Working? && phase.row < |w.rows|
  {
    GoTo(w.(rows := w.rows[phase.row := Settled(w.rows[phase.row], success, phase.attempt, w.now)]), worker,
         Draining(phase.batch))
  }

  function DeferStep(w: World, worker: nat, phase: Phase, until: int): World
    requires phase.Working? && phase.row < |w.rows|
  {
    GoTo(if w.rows[phase.row].claimedBy == Some(phase.claim)
         then w.(rows := w.rows[phase.row := Returned(w.rows[phase.row], until)]) else w, worker, Draining(phase.batch))
  }

  /** Whether re-injection changes the row; it then waits for its turn in its new partition. */
  predicate Accepts(w: World, i: nat, corrected: Identity) {
    i < |w.rows| && w.rows[i].status == Dead && Corrects(w.rows[i].identity, corrected)
  }

  function ReinjectStep(w: World, i: nat, corrected: Identity): World
    requires |w.rows| == |w.claimed| && Accepts(w, i, corrected)
  {
    var row := Reinjected(w.rows[i], corrected);
    w.(rows := w.rows[i := row], claimed := w.claimed[i := w.claimed[i] && row.partition == w.rows[i].partition])
  }

  function Next(w: World, step: Step): (next: World)
    requires |w.rows| == |w.claimed|
    ensures |next.rows| == |next.claimed|
  {
    match step
    case Tick(ms) => w.(now := w.now + ms)
    case Accept(entityType, identity) =>
      w.(rows := w.rows + [NewRow(entityType, identity)], claimed := w.claimed + [false])
    case Acquire(worker) => if PhaseOf(w, worker).Idle? then AcquireStep(w, worker) else w
    case Renew(worker) =>
      if !PhaseOf(w, worker).Idle? && Owns(w, worker) then w.(lease := Some(Lease(worker, w.now + LEASE_MS))) else w
    case Release(worker) =>
      if PhaseOf(w, worker).Draining?
      then GoTo(if Owns(w, worker) then w.(lease := None) else w, worker, Idle) else w
    case Query(worker, batch) =>
      if PhaseOf(w, worker) == Draining([]) && AllDue(w, batch) then GoTo(w, worker, Draining(batch)) else w
    case Claim(worker) =>
      var phase := PhaseOf(w, worker);
      if phase.Draining? && phase.batch != [] then ClaimStep(w, worker, phase.batch) else w
    case Settle(worker, success) =>
      var phase := PhaseOf(w, worker);
      if phase.Working? && phase.row < |w.rows| then SettleStep(w, worker, phase, success) else w
    case Defer(worker, until) =>
      var phase := PhaseOf(w, worker);
      if phase.Working? && phase.row < |w.rows| then DeferStep(w, worker, phase, until) else w
    case Crash(worker) => GoTo(w, worker, Idle)
    case Restart => w.(rows := seq(|w.rows|, i requires 0 <= i < |w.rows| => ResetOne(w.rows[i], w.now)))
    case Reinject(i, corrected) => if Accepts(w, i, corrected) then ReinjectStep(w, i, corrected) else w
  }

  // ---- What becomes of a claimed record ---------------------------------------------------------------------------

  function Power(n: nat): nat {
    if n == 0 then 1 else 2 * Power(n - 1)
  }

  /** The delay starts at half a minute and doubles with every attempt, up to an hour. */
  lemma {:induction false} BackoffDoubles(attempt: nat)
    requires attempt >= 1
    ensures Backoff(attempt) == if 30_000 * Power(attempt - 1) < 3_600_000 then 30_000 * Power(attempt - 1)
                                else 3_600_000
  {
    if attempt > 1 {
      BackoffDoubles(attempt - 1);
    }
  }

  /** Settling completes a record, or puts it back until its delay is over, or, from the fifth attempt on, declares it
      dead; whoever holds its claim. */
  lemma SettlesAs(w: World, worker: nat, success: bool)
    requires |w.rows| == |w.claimed|
    requires PhaseOf(w, worker).Working? && PhaseOf(w, worker).row < |w.rows| && PhaseOf(w, worker).attempt >= 1
    ensures var i, attempt := PhaseOf(w, worker).row, PhaseOf(w, worker).attempt;
      var delay := if 30_000 * Power(attempt - 1) < 3_600_000 then 30_000 * Power(attempt - 1) else 3_600_000;
      Next(w, Settle(worker, success)).rows
      == w.rows[i := w.rows[i].(status := if success then Completed else if attempt < 5 then Retry else Dead,
                                nextAttempt := if !success && attempt < 5 then Some(w.now + delay) else None,
                                claimedBy := None, claimExpires := None)]
  {
    BackoffDoubles(PhaseOf(w, worker).attempt);
  }

  /** A record that its holder defers, because the provider sheds load, gives its attempt back and is due exactly from
      the given instant on, when everything before it in its partition is completed. */
  lemma DeferredUntil(w: World, worker: nat, until: int, now: int)
    requires |w.rows| == |w.claimed| && PhaseOf(w, worker).Working? && PhaseOf(w, worker).row < |w.rows|
    requires w.rows[PhaseOf(w, worker).row].claimedBy == Some(PhaseOf(w, worker).claim)
    ensures var i, after := PhaseOf(w, worker).row, Next(w, Defer(worker, until)).rows;
      && |after| == |w.rows| && (forall j | 0 <= j < |after| && j != i :: after[j] == w.rows[j])
      && after[i].partition == w.rows[i].partition && after[i].status == Retry && after[i].claimedBy == None
      && after[i].attempts == (if w.rows[i].attempts == 0 then 0 else w.rows[i].attempts - 1)
      && (Due(after, i, now) <==> until <= now && ClearBelow(after, i))
  {
  }

  /** The sync lease lasts five minutes, goes to nobody else before it has run out, is renewed and released only by the
      call that holds it, and no other step touches it. */
  lemma LeaseChangesAs(w: World, worker: nat, step: Step)
    requires |w.rows| == |w.claimed|
    ensures Next(w, Acquire(worker)).lease
         == if PhaseOf(w, worker) == Idle && (w.lease.None? || w.lease.value.expires <= w.now)
            then Some(Lease(worker, w.now + 300_000)) else w.lease
    ensures Next(w, Renew(worker)).lease
         == if PhaseOf(w, worker) != Idle && w.lease.Some? && w.lease.value.owner == worker
            then Some(Lease(worker, w.now + 300_000)) else w.lease
    ensures Next(w, Release(worker)).lease
         == if PhaseOf(w, worker).Draining? && w.lease.Some? && w.lease.value.owner == worker then None else w.lease
    ensures !step.Acquire? && !step.Renew? && !step.Release? ==> Next(w, step).lease == w.lease
  {
  }

  /** A drain begins with its lease, works through the records it queried one by one, and ends with the call; whoever
      loses a record, or fails on it, goes on with the next. */
  lemma PhasesChangeAs(w: World, worker: nat, batch: seq<nat>, success: bool, until: int)
    requires |w.rows| == |w.claimed|
    ensures PhaseOf(w, worker) == Idle ==>
      PhaseOf(Next(w, Acquire(worker)), worker)
      == if w.lease.None? || w.lease.value.expires <= w.now then Draining([]) else Idle
    ensures PhaseOf(w, worker) == Draining([]) && (forall i | i in batch :: i < |w.rows| && Due(w.rows, i, w.now)) ==>
      PhaseOf(Next(w, Query(worker, batch)), worker) == Draining(batch)
    ensures PhaseOf(w, worker).Draining? && PhaseOf(w, worker).batch != [] ==>
      var (i, rest, next) := (PhaseOf(w, worker).batch[0], PhaseOf(w, worker).batch[1..], Next(w, Claim(worker)));
      PhaseOf(next, worker)
      == if next.rows == w.rows then Draining(rest)
         else Working(rest, i, w.nextClaim, next.rows[i].attempts, w.now + 120_000)
    ensures PhaseOf(w, worker).Working? && PhaseOf(w, worker).row < |w.rows| ==>
      && PhaseOf(Next(w, Settle(worker, success)), worker) == Draining(PhaseOf(w, worker).batch)
      && PhaseOf(Next(w, Defer(worker, until)), worker) == Draining(PhaseOf(w, worker).batch)
    ensures PhaseOf(w, worker).Draining? ==> PhaseOf(Next(w, Release(worker)), worker) == Idle
    ensures PhaseOf(Next(w, Crash(worker)), worker) == Idle
  {
    if PhaseOf(w, worker).Draining? && PhaseOf(w, worker).batch != [] {
      ClaimsAs(w, worker);
    }
  }

  /** A claim takes a record that waits, or whose claim has run out, for two minutes, and counts an attempt; otherwise
      it changes no row. */
  lemma ClaimsAs(w: World, worker: nat)
    requires |w.rows| == |w.claimed| && PhaseOf(w, worker).Draining? && PhaseOf(w, worker).batch != []
    ensures var i, after := PhaseOf(w, worker).batch[0], Next(w, Claim(worker));
      var free := i < |w.rows|
        && (w.rows[i].status == Pending || w.rows[i].status == Retry
            || (w.rows[i].status == Processing
                && (w.rows[i].claimExpires.None? || w.rows[i].claimExpires.value <= w.now)));
      && (free ==> after.rows == w.rows[i := w.rows[i].(status := Processing, attempts := w.rows[i].attempts + 1,
                                                        claimedBy := Some(w.nextClaim),
                                                        claimExpires := Some(w.now + 120_000))])
      && (!free ==> after.rows == w.rows)
  {
  }

  /** Accepting, starting up and re-injecting in plain terms. */
  lemma RowsChangeAs(w: World, entityType: nat, identity: Identity, corrected: Identity, i: nat)
    requires |w.rows| == |w.claimed| && i < |w.rows|
    ensures Next(w, Accept(entityType, identity)).rows
         == w.rows + [Row(Key(if identity.artifact.Some? then identity.artifact.value else entityType,
                              identity.external), identity, Pending, 0, None, None, None)]
    ensures Next(w, Restart).rows[i]
         == if w.rows[i].status == Processing && (w.rows[i].claimExpires.None? || w.rows[i].claimExpires.value <= w.now)
            then w.rows[i].(status := Retry, nextAttempt := Some(w.now), claimedBy := None, claimExpires := None)
            else w.rows[i]
    ensures var names := corrected.artifact.Some? && corrected.external.Some?
                         && w.rows[i].identity.artifact in {None, corrected.artifact}
                         && w.rows[i].identity.external in {None, corrected.external};
      && (names && w.rows[i].status == Dead ==>
            Next(w, Reinject(i, corrected)).rows
            == w.rows[i := w.rows[i].(partition := Key(corrected.artifact.value, corrected.external),
                                      identity := corrected, status := Pending, attempts := 0, nextAttempt := None)])
      && (!names || w.rows[i].status != Dead ==> Next(w, Reinject(i, corrected)).rows == w.rows)
  {
  }

  // ---- Runs of steps ----------------------------------------------------------------------------------------------

  function RunOn(w: World, steps: seq<Step>): (next: World)
    requires |w.rows| == |w.claimed|
    ensures |next.rows| == |next.claimed|
    decreases |steps|
  {
    if steps == [] then w else Next(RunOn(w, steps[..|steps| - 1]), steps[|steps| - 1])
  }

  function Run(start: int, steps: seq<Step>): (w: World)
    ensures |w.rows| == |w.claimed|
  {
    RunOn(Empty(start), steps)
  }

  function Empty(start: int): World {
    World(start, [], [], None, map[], 0)
  }

  lemma {:induction false} RunOnJoins(w: World, first: seq<Step>, second: seq<Step>)
    requires |w.rows| == |w.claimed|
    ensures RunOn(w, first + second) == RunOn(RunOn(w, first), second)
    decreases |second|
  {
    if second == [] {
      assert first + second == first;
    } else {
      RunOnJoins(w, first, second[..|second| - 1]);
      assert (first + second)[..|first + second| - 1] == first + second[..|second| - 1];
    }
  }

  lemma ThreeSteps(w: World, a: Step, b: Step, c: Step)
    requires |w.rows| == |w.claimed|
    ensures RunOn(w, [a, b, c]) == Next(Next(Next(w, a), b), c)
  {
    var s := [a, b, c];
    assert s[..2] == [a, b] && s[..2][..1] == [a] && [a][..0] == [];
    assert RunOn(w, [a]) == Next(w, a);
    assert RunOn(w, s[..2]) == Next(RunOn(w, [a]), b);
  }
}
