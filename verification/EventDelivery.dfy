/** The transactional outbox, the consumption rows and the dead letters (src/modules/events). Each statement is a
    function on the stored rows; the class runs them in the program's order, `EventRuns` interrupts them anywhere. */
module EventDelivery {
  import opened Wrappers

  datatype OutboxStatus = Pending | Dispatched

  datatype Consumption = Processing | Processed | Failed

  datatype Letter = Dead | Replayed | Discarded

  /** The key of a consumption row and of a dead letter. */
  datatype Pair = Pair(consumer: nat, event: nat)

  /** Events are numbered in the order they were committed; `outbox[e]` is the marker of event e. */
  datatype Store = Store(outbox: seq<OutboxStatus>, consumption: map<Pair, Consumption>, letters: map<Pair, Letter>)

  datatype Outcome = DoneProcessed | SkippedDuplicate | DeadLettered

  datatype ReplayError = NotFound | WasDiscarded | NotRegistered

  /** The claim statement takes a new or failed pair; a forced one takes any. */
  predicate ClaimWins(s: Store, p: Pair, force: bool) {
    force || p !in s.consumption || s.consumption[p] == Failed
  }

  function Marked(s: Store, p: Pair, status: Consumption): Store {
    s.(consumption := s.consumption[p := status])
  }

  function Cleared(s: Store, p: Pair): Store {
    if p in s.letters && s.letters[p] == Dead then s.(letters := s.letters[p := Replayed]) else s
  }

  function Lettered(s: Store, p: Pair): Store {
    s.(letters := s.letters[p := Dead])
  }

  function Outboxed(s: Store, event: nat, status: OutboxStatus): Store
    requires event < |s.outbox|
  {
    s.(outbox := s.outbox[event := status])
  }

  /** Rows a stopped process left in processing are failed at the next start. */
  function Restarted(s: Store): Store {
    s.(consumption := map p | p in s.consumption ::
         if s.consumption[p] == Processing then Failed else s.consumption[p])
  }

  /** The consumer has processed the event or a dead letter records that it did not. */
  predicate Delivered(s: Store, p: Pair) {
    (p in s.consumption && s.consumption[p] == Processed) || p in s.letters
  }

  predicate NothingInFlight(s: Store) {
    forall p | p in s.consumption :: s.consumption[p] != Processing
  }

  /** What delivering to one consumer leaves behind, when it wins its claim. */
  function AfterHandling(s: Store, p: Pair, success: bool): Store {
    var claimed := Marked(s, p, Processing);
    if success then Cleared(Marked(claimed, p, Processed), p) else Lettered(Marked(claimed, p, Failed), p)
  }

  class EventStore {
    var outbox: seq<OutboxStatus>
    var consumption: map<Pair, Consumption>
    var letters: map<Pair, Letter>

    function Contents(): Store
      reads this
    {
      Store(outbox, consumption, letters)
    }

    constructor ()
      ensures Contents() == Store([], map[], map[])
    {
      outbox, consumption, letters := [], map[], map[];
    }

    method Enqueue() returns (event: nat)
      modifies this
      ensures event == |old(outbox)|
      ensures Contents() == old(Contents()).(outbox := old(outbox) + [Pending])
    {
      event := |outbox|;
      outbox := outbox + [Pending];
    }

    method Mark(p: Pair, status: Consumption)
      modifies this`consumption
      ensures Contents() == Marked(old(Contents()), p, status)
    {
      consumption := consumption[p := status];
    }

    method Claim(p: Pair, force: bool) returns (won: bool)
      modifies this`consumption
      ensures won <==> ClaimWins(old(Contents()), p, force)
      ensures Contents() == if won then Marked(old(Contents()), p, Processing) else old(Contents())
    {
      won := force || p !in consumption || consumption[p] == Failed;
      if won {
        Mark(p, Processing);
      }
    }

    method ClearDeadLetter(p: Pair)
      modifies this`letters
      ensures Contents() == Cleared(old(Contents()), p)
    {
      if p in letters && letters[p] == Dead {
        letters := letters[p := Replayed];
      }
    }

    method DeadLetter(p: Pair)
      modifies this`letters
      ensures Contents() == Lettered(old(Contents()), p)
    {
      letters := letters[p := Dead];
    }

    /** One consumer and one event: the handler is tried until it answers or its attempts are used up. `answer(n)` says
        whether attempt n returns. */
    method DispatchTo(p: Pair, force: bool, maxAttempts: nat, answer: nat -> bool)
      returns (outcome: Outcome, attempts: nat)
      modifies this`consumption, this`letters
      ensures outcome.SkippedDuplicate? <==> !ClaimWins(old(Contents()), p, force)
      ensures outcome.SkippedDuplicate? ==> Contents() == old(Contents()) && attempts == 0
      ensures outcome.DoneProcessed? ==> 1 <= attempts <= maxAttempts && answer(attempts)
      ensures outcome.DoneProcessed? ==> forall n | 1 <= n < attempts :: !answer(n)
      ensures outcome.DoneProcessed? ==> Contents() == AfterHandling(old(Contents()), p, true)
      ensures outcome.DeadLettered? ==> attempts == maxAttempts && forall n | 1 <= n <= maxAttempts :: !answer(n)
      ensures outcome.DeadLettered? ==> Contents() == AfterHandling(old(Contents()), p, false)
    {
      var won := Claim(p, force);
      if !won {
        return SkippedDuplicate, 0;
      }
      var attempt := 1;
      while attempt <= maxAttempts
        invariant 1 <= attempt <= maxAttempts + 1
        invariant forall n | 1 <= n < attempt :: !answer(n)
        invariant Contents() == Marked(old(Contents()), p, Processing)
      {
        if answer(attempt) {
          Mark(p, Processed);
          ClearDeadLetter(p);
          return DoneProcessed, attempt;
        }
        attempt := attempt + 1;
      }
      Mark(p, Failed);
      DeadLetter(p);
      return DeadLettered, maxAttempts;
    }

    /** An operator's replay of a dead letter: forced, whatever the consumption row says, unless it was discarded. The
        letter ends replayed exactly if the consumer processed the event. */
    method Replay(p: Pair, registered: bool, maxAttempts: nat, answer: nat -> bool)
      returns (result: Result<Outcome, ReplayError>)
      modifies this`consumption, this`letters
      ensures result == Err(NotFound) <==> p !in old(letters)
      ensures result == Err(WasDiscarded) <==> p in old(letters) && old(letters)[p] == Discarded
      ensures result == Err(NotRegistered) <==> p in old(letters) && old(letters)[p] != Discarded && !registered
      ensures result.Err? ==> Contents() == old(Contents())
      ensures result.Ok? ==> result.value.DoneProcessed? || result.value.DeadLettered?
      ensures result.Ok? ==> (result.value.DoneProcessed? <==> exists n :: 1 <= n <= maxAttempts && answer(n))
      ensures result.Ok? ==>
        consumption == old(consumption)[p := if result.value.DoneProcessed? then Processed else Failed]
      ensures result.Ok? ==> letters == old(letters)[p := if result.value.DoneProcessed? then Replayed else Dead]
    {
      if p !in letters {
        return Err(NotFound);
      }
      if letters[p] == Discarded {
        return Err(WasDiscarded);
      }
      if !registered {
        return Err(NotRegistered);
      }
      var outcome, _ := DispatchTo(p, true, maxAttempts, answer);
      letters := letters[p := if outcome.DoneProcessed? then Replayed else Dead];
      return Ok(outcome);
    }

    method Discard(p: Pair) returns (found: bool)
      modifies this`letters
      ensures found <==> p in old(letters)
      ensures letters == if found then old(letters)[p := Discarded] else old(letters)
    {
      found := p in letters;
      if found {
        letters := letters[p := Discarded];
      }
    }

    /** Publishing one event: the wildcard handlers first, then each subscriber in turn. Undisturbed, it delivers to
        every subscriber and settles the marker exactly if the wildcard handlers return. */
    method Dispatch(event: nat, subscribers: seq<nat>, wildcardsReturn: bool, maxAttempts: nat -> nat,
                    answer: (nat, nat) -> bool)
      returns (dispatched: bool)
      requires event < |outbox| && NothingInFlight(Contents())
      modifies this
      ensures dispatched <==> wildcardsReturn
      ensures outbox == old(outbox)[event := if dispatched then Dispatched else Pending]
      ensures NothingInFlight(Contents())
      ensures dispatched ==> forall k | 0 <= k < |subscribers| :: Delivered(Contents(), Pair(subscribers[k], event))
      ensures !dispatched ==> consumption == old(consumption) && letters == old(letters)
      ensures forall p | p in old(consumption) && old(consumption)[p] == Processed ::
                p in consumption && consumption[p] == Processed
      ensures old(letters).Keys <= letters.Keys
    {
      if !wildcardsReturn {
        outbox := outbox[event := Pending];
        return false;
      }
      var k := 0;
      while k < |subscribers|
        invariant k <= |subscribers| && outbox == old(outbox) && NothingInFlight(Contents())
        invariant forall j | 0 <= j < k :: Delivered(Contents(), Pair(subscribers[j], event))
        invariant forall p | p in old(consumption) && old(consumption)[p] == Processed ::
                    p in consumption && consumption[p] == Processed
        invariant old(letters).Keys <= letters.Keys
      {
        var p := Pair(subscribers[k], event);
        ghost var before := Contents();
        var outcome, _ := DispatchTo(p, false, maxAttempts(subscribers[k]), (n: nat) => answer(subscribers[k], n));
        HandlingDelivers(before, Contents(), p, outcome.DoneProcessed?);
        k := k + 1;
      }
      outbox := outbox[event := Dispatched];
      return true;
    }
  }

  /** Whether skipped, processed or dead-lettered, the pair is delivered, and what was delivered stays so. */
  lemma HandlingDelivers(s: Store, after: Store, p: Pair, success: bool)
    requires NothingInFlight(s)
    requires after == if ClaimWins(s, p, false) then AfterHandling(s, p, success) else s
    ensures Delivered(after, p) && NothingInFlight(after) && s.letters.Keys <= after.letters.Keys
    ensures forall q | Delivered(s, q) :: Delivered(after, q)
    ensures forall q | q in s.consumption && s.consumption[q] == Processed ::
              q in after.consumption && after.consumption[q] == Processed
  {
  }

  /** A success leaves no open letter for the pair; exhausted attempts leave an open letter and a failed row, which the
      next delivery may claim again. */
  lemma HandlingSettlesLetter(s: Store, p: Pair)
    ensures var done, failed := AfterHandling(s, p, true), AfterHandling(s, p, false);
      && (p in done.letters ==> done.letters[p] != Dead) && done.letters.Keys == s.letters.Keys
      && p in failed.letters && failed.letters[p] == Dead && ClaimWins(failed, p, false)
      && !ClaimWins(done, p, false)
  {
  }

  /** A skipped delivery is safe exactly if the pair was not in flight, or has a letter: this is why in
      `EventRuns` an event has one dispatcher at a time. */
  lemma SkipIsSafeIff(s: Store, p: Pair)
    requires !ClaimWins(s, p, false)
    ensures Delivered(s, p) <==> s.consumption[p] != Processing || p in s.letters
  {
  }
}
