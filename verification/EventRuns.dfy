/** Every crash-and-restart run of event delivery (src/modules/events), with any number of events being delivered at
    once: a handler may commit and dispatch further events before it returns. One event is delivered, or one of its dead
    letters replayed, by one dispatcher at a time. Between any two statements of a dispatcher others may act,
    transactions may commit events, an operator may discard letters, and the process may stop and start again. */
module EventRuns {
  import opened Wrappers
  import opened EventDelivery

  /** The subscribers of an event type, in order, and how often each consumer is tried. */
  datatype Registry = Registry(subscribers: map<nat, seq<nat>>, maxAttempts: map<nat, nat>)

  function SubscribersOf(r: Registry, eventType: nat): seq<nat> {
    if eventType in r.subscribers then r.subscribers[eventType] else []
  }

  function MaxAttempts(r: Registry, consumer: nat): nat {
    if consumer in r.maxAttempts then r.maxAttempts[consumer] else 3
  }

  /** What one consumer is being called for: delivery number `index` of the event, or a forced replay. */
  datatype Job = Delivery(index: nat) | Replay(consumer: nat)

  /** Where the dispatcher of an event stands; each constructor names the statement or call that comes next. */
  datatype Slot =
    | Wildcards
    | Claiming(job: Job)
    | Handling(job: Job, attempt: nat)
    | Marking(job: Job)
    | Clearing(job: Job)
    | Failing(job: Job)
    | Lettering(job: Job)
    | Resolving(consumer: nat, success: bool)
    | Settling

  /** The stored rows, the type of every committed event, the dispatchers by event, and how often each pair was marked
      processed and forced. */
  datatype World = World(store: Store, types: seq<nat>, slots: map<nat, Slot>, marks: multiset<Pair>,
                         forced: multiset<Pair>)

  datatype Step =
    | Commit(eventType: nat)
    | Begin(event: nat)
    | WildcardsReturn(event: nat, success: bool)
    | Claim(event: nat)
    | Handle(event: nat, success: bool)
    | Mark(event: nat)
    | Clear(event: nat)
    | Fail(event: nat)
    | Letter(event: nat)
    | Resolve(event: nat)
    | Settle(event: nat)
    | BeginReplay(pair: Pair)
    | Discard(pair: Pair)
    | Restart

  predicate Sized(w: World) {
    |w.types| == |w.store.outbox|
  }

  function Subscribers(r: Registry, w: World, event: nat): seq<nat> {
    if event < |w.types| then SubscribersOf(r, w.types[event]) else []
  }

  predicate JobOk(r: Registry, w: World, event: nat, job: Job) {
    match job
    case Delivery(index) => event < |w.types| && index < |Subscribers(r, w, event)|
    case Replay(consumer) => Pair(consumer, event) in w.store.letters
  }

  function PairOf(r: Registry, w: World, event: nat, job: Job): (p: Pair)
    requires JobOk(r, w, event, job)
    ensures p.event == event
  {
    match job
    case Delivery(index) => Pair(Subscribers(r, w, event)[index], event)
    case Replay(consumer) => Pair(consumer, event)
  }

  /** After delivery `index`: the next subscriber, or the marker when there is none left. */
  function Onward(r: Registry, w: World, event: nat, index: nat): Slot {
    if index < |Subscribers(r, w, event)| then Claiming(Delivery(index)) else Settling
  }

  function Done(r: Registry, w: World, event: nat, job: Job, success: bool): Slot {
    match job
    case Delivery(index) => Onward(r, w, event, index + 1)
    case Replay(consumer) => Resolving(consumer, success)
  }

  predicate SlotOk(r: Registry, w: World, event: nat, slot: Slot) {
    match slot
    case Wildcards => event < |w.types|
    case Resolving(consumer, _) => Pair(consumer, event) in w.store.letters
    case Settling => event < |w.types|
    case _ => JobOk(r, w, event, slot.job)
  }

  function Goes(w: World, event: nat, slot: Slot): World {
    w.(slots := w.slots[event := slot])
  }

  function Leaves(w: World, event: nat): World {
    w.(slots := w.slots - {event})
  }

  function ClaimStep(r: Registry, w: World, event: nat, job: Job): World
    requires JobOk(r, w, event, job)
  {
    var p := PairOf(r, w, event, job);
    if ClaimWins(w.store, p, job.Replay?) then
      Goes(w.(store := Marked(w.store, p, Processing),
              forced := if job.Replay? then w.forced + multiset{p} else w.forced), event, Handling(job, 1))
    else Goes(w, event, Done(r, w, event, job, false))
  }

  function HandleStep(r: Registry, w: World, event: nat, job: Job, attempt: nat, success: bool): World
    requires JobOk(r, w, event, job)
  {
    Goes(w, event, if attempt > MaxAttempts(r, PairOf(r, w, event, job).consumer) then Failing(job)
                   else if success then Marking(job) else Handling(job, attempt + 1))
  }

  function MarkStep(r: Registry, w: World, event: nat, job: Job): World
    requires JobOk(r, w, event, job)
  {
    var p := PairOf(r, w, event, job);
    Goes(w.(store := Marked(w.store, p, Processed), marks := w.marks + multiset{p}), event, Clearing(job))
  }

  function ClearStep(r: Registry, w: World, event: nat, job: Job): World
    requires JobOk(r, w, event, job)
  {
    Goes(w.(store := Cleared(w.store, PairOf(r, w, event, job))), event, Done(r, w, event, job, true))
  }

  function FailStep(r: Registry, w: World, event: nat, job: Job): World
    requires JobOk(r, w, event, job)
  {
    Goes(w.(store := Marked(w.store, PairOf(r, w, event, job), Failed)), event, Lettering(job))
  }

  function LetterStep(r: Registry, w: World, event: nat, job: Job): World
    requires JobOk(r, w, event, job)
  {
    Goes(w.(store := Lettered(w.store, PairOf(r, w, event, job))), event, Done(r, w, event, job, false))
  }

  function ResolveStep(w: World, event: nat, consumer: nat, success: bool): World {
    var letter := if success then Replayed else Dead;
    Leaves(w.(store := w.store.(letters := w.store.letters[Pair(consumer, event) := letter])), event)
  }

  function WildcardStep(r: Registry, w: World, event: nat, success: bool): World
    requires Sized(w) && event < |w.types|
  {
    if success then Goes(w, event, Onward(r, w, event, 0))
    else Leaves(w.(store := Outboxed(w.store, event, Pending)), event)
  }

  function SettleStep(w: World, event: nat): World
    requires Sized(w) && event < |w.types|
  {
    Leaves(w.(store := Outboxed(w.store, event, Dispatched)), event)
  }

  /** The next statement of the dispatcher of the step's event, if the step is the one that comes next. (A dispatcher
      that stands at a row that does not exist, as none in a run does, stays there.) */
  function Advance(r: Registry, w: World, event: nat, step: Step): World
    requires Sized(w)
  {
    if event !in w.slots || !SlotOk(r, w, event, w.slots[event]) then w else
    match w.slots[event]
    case Wildcards => if step.WildcardsReturn? then WildcardStep(r, w, event, step.success) else w
    case Claiming(job) => if step.Claim? then ClaimStep(r, w, event, job) else w
    case Handling(job, attempt) => if step.Handle? then HandleStep(r, w, event, job, attempt, step.success) else w
    case Marking(job) => if step.Mark? then MarkStep(r, w, event, job) else w
    case Clearing(job) => if step.Clear? then ClearStep(r, w, event, job) else w
    case Failing(job) => if step.Fail? then FailStep(r, w, event, job) else w
    case Lettering(job) => if step.Letter? then LetterStep(r, w, event, job) else w
    case Resolving(consumer, success) => if step.Resolve? then ResolveStep(w, event, consumer, success) else w
    case Settling => if step.Settle? then SettleStep(w, event) else w
  }

  function Next(r: Registry, w: World, step: Step): World {
    if !Sized(w) then w else
    match step
    case Commit(eventType) =>
      w.(store := w.store.(outbox := w.store.outbox + [Pending]), types := w.types + [eventType])
    case Begin(event) => if event < |w.types| && event !in w.slots then Goes(w, event, Wildcards) else w
    case BeginReplay(pair) =>
      if pair.event !in w.slots && pair in w.store.letters && w.store.letters[pair] != Discarded
      then Goes(w, pair.event, Claiming(Replay(pair.consumer))) else w
    case Discard(pair) =>
      if pair in w.store.letters then w.(store := w.store.(letters := w.store.letters[pair := Discarded])) else w
    case Restart => w.(store := Restarted(w.store), slots := map[])
    case _ => Advance(r, w, step.event, step)
  }

  // ---- The invariant ----------------------------------------------------------------------------------------------

  ghost predicate DeliveredTo(r: Registry, w: World, event: nat, count: nat) {
    event < |w.types| && count <= |Subscribers(r, w, event)|
    && forall k | 0 <= k < count :: Delivered(w.store, Pair(Subscribers(r, w, event)[k], event))
  }

  predicate Busy(s: Store, p: Pair) {
    p in s.consumption && s.consumption[p] == Processing
  }

  /** The pair a dispatcher holds between a won claim and the row that ends it. */
  function Held(r: Registry, w: World, event: nat): (p: Option<Pair>)
    ensures p.Some? ==> p.value.event == event
  {
    if event !in w.slots || !SlotOk(r, w, event, w.slots[event]) then None else
    match w.slots[event]
    case Handling(job, _) => Some(PairOf(r, w, event, job))
    case Marking(job) => Some(PairOf(r, w, event, job))
    case Failing(job) => Some(PairOf(r, w, event, job))
    case _ => None
  }

  ghost predicate JobReached(r: Registry, w: World, event: nat, job: Job) {
    job.Delivery? ==> DeliveredTo(r, w, event, job.index)
  }

  ghost predicate SlotReached(r: Registry, w: World, event: nat, slot: Slot)
    requires SlotOk(r, w, event, slot)
  {
    match slot
    case Wildcards => true
    case Resolving(_, _) => true
    case Settling => DeliveredTo(r, w, event, |Subscribers(r, w, event)|)
    case Clearing(job) => JobReached(r, w, event, job) && Delivered(w.store, PairOf(r, w, event, job))
    case _ => JobReached(r, w, event, slot.job)
  }

  /** The dispatcher of an event stands where its deliveries allow, and a row of the event is in processing exactly
      while it holds its pair. */
  ghost predicate Local(r: Registry, w: World, event: nat) {
    && (event in w.slots ==>
          SlotOk(r, w, event, w.slots[event]) && SlotReached(r, w, event, w.slots[event]))
    && forall p: Pair | p.event == event :: Busy(w.store, p) <==> Held(r, w, event) == Some(p)
  }

  /** A pair is marked processed at most once more than it was forced. */
  ghost predicate MarksOk(w: World) {
    forall p :: w.marks[p]
      <= w.forced[p] + if p in w.store.consumption && w.store.consumption[p] == Processed then 1 else 0
  }

  ghost predicate DispatchedAreDelivered(r: Registry, w: World) {
    forall e | 0 <= e < |w.store.outbox| :: w.store.outbox[e] == Dispatched
      ==> DeliveredTo(r, w, e, |Subscribers(r, w, e)|)
  }

  ghost predicate Inv(r: Registry, w: World) {
    Sized(w) && (forall event: nat :: Local(r, w, event)) && MarksOk(w) && DispatchedAreDelivered(r, w)
  }

  // ---- What a step leaves alone -----------------------------------------------------------------------------------

  /** What every step does to the deliveries: none is taken back. */
  ghost predicate Keeps(w: World, after: World) {
    && Sized(w) && Sized(after)
    && |w.types| <= |after.types| && (forall e | 0 <= e < |w.types| :: after.types[e] == w.types[e])
    && (forall p | Delivered(w.store, p) :: Delivered(after.store, p))
    && w.store.letters.Keys <= after.store.letters.Keys
  }

  /** Dispatcher and processing rows of one event stay as they are. */
  ghost predicate SameAt(w: World, after: World, event: nat) {
    && (event in w.slots <==> event in after.slots)
    && (event in w.slots ==> after.slots[event] == w.slots[event])
    && forall p: Pair | p.event == event :: Busy(after.store, p) <==> Busy(w.store, p)
  }

  lemma DeliveriesStay(r: Registry, w: World, after: World, event: nat, count: nat)
    requires Keeps(w, after) && DeliveredTo(r, w, event, count)
    ensures DeliveredTo(r, after, event, count)
  {
    assert Subscribers(r, after, event) == Subscribers(r, w, event);
    forall k | 0 <= k < count ensures Delivered(after.store, Pair(Subscribers(r, after, event)[k], event)) {
      assert Delivered(w.store, Pair(Subscribers(r, w, event)[k], event));
    }
  }

  lemma DispatchedStay(r: Registry, w: World, after: World)
    requires Keeps(w, after) && DispatchedAreDelivered(r, w)
    requires forall e | 0 <= e < |after.store.outbox| && after.store.outbox[e] == Dispatched ::
      e < |w.store.outbox| && (w.store.outbox[e] == Dispatched || DeliveredTo(r, w, e, |Subscribers(r, w, e)|))
    ensures DispatchedAreDelivered(r, after)
  {
    forall e | 0 <= e < |after.store.outbox| && after.store.outbox[e] == Dispatched
      ensures DeliveredTo(r, after, e, |Subscribers(r, after, e)|)
    {
      DeliveriesStay(r, w, after, e, |Subscribers(r, w, e)|);
    }
  }

  lemma JobStays(r: Registry, w: World, after: World, event: nat, job: Job)
    requires Keeps(w, after) && JobOk(r, w, event, job) && JobReached(r, w, event, job)
    ensures JobOk(r, after, event, job) && JobReached(r, after, event, job)
    ensures PairOf(r, after, event, job) == PairOf(r, w, event, job)
  {
    if job.Delivery? {
      DeliveriesStay(r, w, after, event, job.index);
    }
  }

  lemma SlotStays(r: Registry, w: World, after: World, event: nat, slot: Slot)
    requires Keeps(w, after) && SlotOk(r, w, event, slot) && SlotReached(r, w, event, slot)
    ensures SlotOk(r, after, event, slot) && SlotReached(r, after, event, slot)
  {
    match slot
    case Wildcards =>
    case Resolving(_, _) =>
    case Settling => DeliveriesStay(r, w, after, event, |Subscribers(r, w, event)|);
    case _ => JobStays(r, w, after, event, slot.job);
  }

  lemma HeldStays(r: Registry, w: World, after: World, event: nat)
    requires Keeps(w, after) && Local(r, w, event) && SameAt(w, after, event)
    ensures Held(r, after, event) == Held(r, w, event)
  {
    if event in w.slots {
      var slot := w.slots[event];
      SlotStays(r, w, after, event, slot);
      if slot.Handling? || slot.Marking? || slot.Failing? {
        JobStays(r, w, after, event, slot.job);
      }
    }
  }

  lemma LocalStays(r: Registry, w: World, after: World, event: nat)
    requires Keeps(w, after) && Local(r, w, event) && SameAt(w, after, event)
    ensures Local(r, after, event)
  {
    HeldStays(r, w, after, event);
    if event in w.slots {
      SlotStays(r, w, after, event, w.slots[event]);
    }
  }

  /** A step of one dispatcher: nothing changes for the other events. */
  ghost predicate Touches(r: Registry, w: World, after: World, event: nat) {
    && Keeps(w, after)
    && (forall other: nat | other != event :: SameAt(w, after, other))
    && (forall e | 0 <= e < |after.store.outbox| && after.store.outbox[e] == Dispatched ::
          e < |w.store.outbox| && (w.store.outbox[e] == Dispatched || DeliveredTo(r, w, e, |Subscribers(r, w, e)|)))
  }

  lemma TouchKeepsInv(r: Registry, w: World, after: World, event: nat)
    requires Inv(r, w) && Touches(r, w, after, event) && Local(r, after, event) && MarksOk(after)
    ensures Inv(r, after)
  {
    DispatchedStay(r, w, after);
    forall other: nat ensures Local(r, after, other) {
      if other != event {
        assert Local(r, w, other) && SameAt(w, after, other);
        LocalStays(r, w, after, other);
      }
    }
  }

  // ---- Every step keeps it ----------------------------------------------------------------------------------------

  /** What is left to show of a step at its own event. */
  ghost predicate Fine(r: Registry, w: World, after: World, event: nat) {
    Touches(r, w, after, event) && Local(r, after, event) && MarksOk(after)
  }

  /** Nobody else's pairs are affected by a change of a pair of this event. */
  lemma OnlyHere(w: World, after: World, event: nat, slot: Option<Slot>)
    requires after.slots == if slot.Some? then w.slots[event := slot.value] else w.slots - {event}
    requires forall p: Pair | p.event != event :: Busy(after.store, p) <==> Busy(w.store, p)
    ensures forall other: nat | other != event :: SameAt(w, after, other)
  {
  }

  lemma DoneIsReached(r: Registry, w: World, event: nat, job: Job, success: bool)
    requires JobOk(r, w, event, job) && JobReached(r, w, event, job)
    requires job.Delivery? ==> Delivered(w.store, PairOf(r, w, event, job))
    ensures var slot := Done(r, w, event, job, success);
      && SlotOk(r, w, event, slot) && SlotReached(r, w, event, slot)
      && !slot.Handling? && !slot.Marking? && !slot.Failing?
  {
    if job.Delivery? {
      assert DeliveredTo(r, w, event, job.index + 1);
    }
  }

  lemma ClaimWinsIsFine(r: Registry, w: World, event: nat, job: Job)
    requires Inv(r, w) && event in w.slots && w.slots[event] == Claiming(job) && JobOk(r, w, event, job)
    requires ClaimWins(w.store, PairOf(r, w, event, job), job.Replay?)
    ensures Fine(r, w, ClaimStep(r, w, event, job), event)
  {
    assert Local(r, w, event) && Held(r, w, event) == None;
    var after := ClaimStep(r, w, event, job);
    OnlyHere(w, after, event, Some(Handling(job, 1)));
    assert Keeps(w, after);
    JobStays(r, w, after, event, job);
    assert Held(r, after, event) == Some(PairOf(r, w, event, job));
  }

  lemma ClaimLosesIsFine(r: Registry, w: World, event: nat, job: Job)
    requires Inv(r, w) && event in w.slots && w.slots[event] == Claiming(job) && JobOk(r, w, event, job)
    requires !ClaimWins(w.store, PairOf(r, w, event, job), job.Replay?)
    ensures Fine(r, w, ClaimStep(r, w, event, job), event)
  {
    assert Local(r, w, event) && Held(r, w, event) == None;
    var after := ClaimStep(r, w, event, job);
    OnlyHere(w, after, event, Some(Done(r, w, event, job, false)));
    assert Keeps(w, after);
    assert !Busy(w.store, PairOf(r, w, event, job));
    DoneIsReached(r, w, event, job, false);
    SlotStays(r, w, after, event, Done(r, w, event, job, false));
    assert Held(r, after, event) == None;
  }

  lemma HandleIsFine(r: Registry, w: World, event: nat, job: Job, attempt: nat, success: bool)
    requires Inv(r, w) && event in w.slots && w.slots[event] == Handling(job, attempt) && JobOk(r, w, event, job)
    ensures Fine(r, w, HandleStep(r, w, event, job, attempt, success), event)
  {
    assert Local(r, w, event) && Held(r, w, event) == Some(PairOf(r, w, event, job));
    var after := HandleStep(r, w, event, job, attempt, success);
    OnlyHere(w, after, event, Some(after.slots[event]));
    assert Keeps(w, after);
    JobStays(r, w, after, event, job);
    assert Held(r, after, event) == Some(PairOf(r, w, event, job));
  }

  lemma MarkIsFine(r: Registry, w: World, event: nat, job: Job)
    requires Inv(r, w) && event in w.slots && w.slots[event] == Marking(job) && JobOk(r, w, event, job)
    ensures Fine(r, w, MarkStep(r, w, event, job), event)
  {
    var p := PairOf(r, w, event, job);
    assert Local(r, w, event) && Held(r, w, event) == Some(p);
    assert Busy(w.store, p);
    var after := MarkStep(r, w, event, job);
    OnlyHere(w, after, event, Some(Clearing(job)));
    assert Keeps(w, after);
    JobStays(r, w, after, event, job);
    assert Held(r, after, event) == None;
  }

  lemma ClearIsFine(r: Registry, w: World, event: nat, job: Job)
    requires Inv(r, w) && event in w.slots && w.slots[event] == Clearing(job) && JobOk(r, w, event, job)
    ensures Fine(r, w, ClearStep(r, w, event, job), event)
  {
    assert Local(r, w, event) && Held(r, w, event) == None;
    var after, slot := ClearStep(r, w, event, job), Done(r, w, event, job, true);
    OnlyHere(w, after, event, Some(slot));
    assert Keeps(w, after);
    DoneIsReached(r, w, event, job, true);
    SlotStays(r, w, after, event, slot);
    assert Held(r, after, event) == None;
  }

  lemma FailIsFine(r: Registry, w: World, event: nat, job: Job)
    requires Inv(r, w) && event in w.slots && w.slots[event] == Failing(job) && JobOk(r, w, event, job)
    ensures Fine(r, w, FailStep(r, w, event, job), event)
  {
    var p := PairOf(r, w, event, job);
    assert Local(r, w, event) && Held(r, w, event) == Some(p);
    assert Busy(w.store, p);
    var after := FailStep(r, w, event, job);
    OnlyHere(w, after, event, Some(Lettering(job)));
    assert Keeps(w, after);
    JobStays(r, w, after, event, job);
    assert Held(r, after, event) == None;
  }

  lemma LetterIsFine(r: Registry, w: World, event: nat, job: Job)
    requires Inv(r, w) && event in w.slots && w.slots[event] == Lettering(job) && JobOk(r, w, event, job)
    ensures Fine(r, w, LetterStep(r, w, event, job), event)
  {
    assert Local(r, w, event) && Held(r, w, event) == None;
    var after := LetterStep(r, w, event, job);
    OnlyHere(w, after, event, Some(Done(r, w, event, job, false)));
    assert Keeps(w, after);
    JobStays(r, w, after, event, job);
    assert Done(r, after, event, job, false) == Done(r, w, event, job, false);
    DoneIsReached(r, after, event, job, false);
    assert Held(r, after, event) == None;
  }

  lemma ResolveIsFine(r: Registry, w: World, event: nat, consumer: nat, success: bool)
    requires Inv(r, w) && event in w.slots && w.slots[event] == Resolving(consumer, success)
    requires Pair(consumer, event) in w.store.letters
    ensures Fine(r, w, ResolveStep(w, event, consumer, success), event)
  {
    assert Local(r, w, event) && Held(r, w, event) == None;
    var after := ResolveStep(w, event, consumer, success);
    OnlyHere(w, after, event, None);
    assert Keeps(w, after);
  }

  lemma WildcardIsFine(r: Registry, w: World, event: nat, success: bool)
    requires Inv(r, w) && event in w.slots && w.slots[event] == Wildcards && event < |w.types|
    ensures Fine(r, w, WildcardStep(r, w, event, success), event)
  {
    assert Local(r, w, event) && Held(r, w, event) == None;
    var after := WildcardStep(r, w, event, success);
    OnlyHere(w, after, event, if success then Some(Onward(r, w, event, 0)) else None);
    assert Keeps(w, after);
    assert DeliveredTo(r, after, event, 0);
    assert Held(r, after, event) == None;
  }

  lemma SettleIsFine(r: Registry, w: World, event: nat)
    requires Inv(r, w) && event in w.slots && w.slots[event] == Settling && event < |w.types|
    ensures Fine(r, w, SettleStep(w, event), event)
  {
    assert Local(r, w, event) && Held(r, w, event) == None;
    var after := SettleStep(w, event);
    OnlyHere(w, after, event, None);
    assert Keeps(w, after);
  }

  lemma SameIsFine(r: Registry, w: World, event: nat)
    requires Inv(r, w)
    ensures Fine(r, w, w, event)
  {
    assert Local(r, w, event);
  }

  lemma AdvanceIsFine(r: Registry, w: World, event: nat, step: Step)
    requires Inv(r, w)
    ensures Fine(r, w, Advance(r, w, event, step), event)
  {
    assert Local(r, w, event);
    if Advance(r, w, event, step) == w {
      SameIsFine(r, w, event);
    } else {
      match w.slots[event]
      case Wildcards => WildcardIsFine(r, w, event, step.success);
      case Claiming(job) =>
        if ClaimWins(w.store, PairOf(r, w, event, job), job.Replay?) {
          ClaimWinsIsFine(r, w, event, job);
        } else {
          ClaimLosesIsFine(r, w, event, job);
        }
      case Handling(job, attempt) => HandleIsFine(r, w, event, job, attempt, step.success);
      case Marking(job) => MarkIsFine(r, w, event, job);
      case Clearing(job) => ClearIsFine(r, w, event, job);
      case Failing(job) => FailIsFine(r, w, event, job);
      case Lettering(job) => LetterIsFine(r, w, event, job);
      case Resolving(consumer, success) => ResolveIsFine(r, w, event, consumer, success);
      case Settling => SettleIsFine(r, w, event);
    }
  }

  lemma BeginIsFine(r: Registry, w: World, event: nat, slot: Slot)
    requires Inv(r, w) && event !in w.slots && (slot == Wildcards || (slot.Claiming? && slot.job.Replay?))
    requires SlotOk(r, w, event, slot)
    ensures Fine(r, w, Goes(w, event, slot), event)
  {
    assert Local(r, w, event) && Held(r, w, event) == None;
    var after := Goes(w, event, slot);
    OnlyHere(w, after, event, Some(slot));
    assert Keeps(w, after);
    assert Held(r, after, event) == None;
  }

  /** Committing and discarding leave every dispatcher where it stands. */
  lemma OthersKeepInv(r: Registry, w: World, step: Step)
    requires Inv(r, w) && (step.Commit? || step.Discard?)
    ensures Inv(r, Next(r, w, step)) && Keeps(w, Next(r, w, step))
  {
    var after := Next(r, w, step);
    assert Keeps(w, after);
    DispatchedStay(r, w, after);
    forall event: nat ensures Local(r, after, event) {
      assert Local(r, w, event) && SameAt(w, after, event);
      LocalStays(r, w, after, event);
    }
  }

  lemma RestartKeepsInv(r: Registry, w: World)
    requires Inv(r, w)
    ensures Inv(r, Next(r, w, Restart)) && Keeps(w, Next(r, w, Restart))
  {
    var after := Next(r, w, Restart);
    assert Keeps(w, after);
    DispatchedStay(r, w, after);
    forall event: nat ensures Local(r, after, event) {
      assert Held(r, after, event) == None;
    }
  }

  lemma NextKeepsInv(r: Registry, w: World, step: Step)
    requires Inv(r, w)
    ensures Inv(r, Next(r, w, step)) && Keeps(w, Next(r, w, step))
  {
    var after := Next(r, w, step);
    match step
    case Commit(_) => OthersKeepInv(r, w, step);
    case Discard(_) => OthersKeepInv(r, w, step);
    case Restart => RestartKeepsInv(r, w);
    case Begin(event) =>
      if after != w {
        BeginIsFine(r, w, event, Wildcards);
        TouchKeepsInv(r, w, after, event);
      }
    case BeginReplay(pair) =>
      if after != w {
        BeginIsFine(r, w, pair.event, Claiming(Replay(pair.consumer)));
        TouchKeepsInv(r, w, after, pair.event);
      }
    case _ =>
      AdvanceIsFine(r, w, step.event, step);
      TouchKeepsInv(r, w, after, step.event);
  }

  // ---- What holds in every run ------------------------------------------------------------------------------------

  function Run(r: Registry, steps: seq<Step>): World {
    if steps == [] then World(Store([], map[], map[]), [], map[], multiset{}, multiset{})
    else Next(r, Run(r, steps[..|steps| - 1]), steps[|steps| - 1])
  }

  /** Which dispatches and replays begin, what an operator's discard does, and what a start-up leaves. */
  lemma BeginsAs(r: Registry, w: World, event: nat, pair: Pair)
    requires Sized(w)
    ensures var begun := Next(r, w, Begin(event));
      if event < |w.types| && event !in w.slots then begun == w.(slots := w.slots[event := Wildcards]) else begun == w
    ensures var begun := Next(r, w, BeginReplay(pair));
      if pair in w.store.letters && w.store.letters[pair] in {Dead, Replayed} && pair.event !in w.slots
      then begun == w.(slots := w.slots[pair.event := Claiming(Replay(pair.consumer))]) else begun == w
    ensures var after := Next(r, w, Discard(pair));
      if pair in w.store.letters then after == w.(store := w.store.(letters := w.store.letters[pair := Discarded]))
      else after == w
    ensures var after := Next(r, w, Restart);
      && after.slots == map[] && after.types == w.types && after.store.outbox == w.store.outbox
      && after.store.letters == w.store.letters && after.store.consumption.Keys == w.store.consumption.Keys
      && (forall p | p in w.store.consumption :: after.store.consumption[p]
            == if w.store.consumption[p] == Processing then Failed else w.store.consumption[p])
  {
  }

  lemma {:induction false} RunKeepsInv(r: Registry, steps: seq<Step>)
    ensures Inv(r, Run(r, steps))
  {
    if steps != [] {
      RunKeepsInv(r, steps[..|steps| - 1]);
      NextKeepsInv(r, Run(r, steps[..|steps| - 1]), steps[|steps| - 1]);
    }
  }

  /** Each committed event is still pending, or every subscriber has processed it or has a dead letter for it. */
  lemma NothingIsLost(r: Registry, steps: seq<Step>, event: nat, k: nat)
    requires event < |Run(r, steps).types| && k < |Subscribers(r, Run(r, steps), event)|
    ensures var w := Run(r, steps);
      && Sized(w)
      && (|| w.store.outbox[event] == Pending
          || Delivered(w.store, Pair(Subscribers(r, w, event)[k], event)))
  {
    RunKeepsInv(r, steps);
    var w := Run(r, steps);
    if w.store.outbox[event] == Dispatched {
      assert DeliveredTo(r, w, event, |Subscribers(r, w, event)|);
    }
  }

  // ---- What a letter stands for -----------------------------------------------------------------------------------

  /** The dispatcher of an event stands after marking a row only if it did. */
  ghost predicate SlotTells(r: Registry, w: World, event: nat) {
    event in w.slots && SlotOk(r, w, event, w.slots[event]) ==>
      match w.slots[event]
      case Clearing(job) => w.marks[PairOf(r, w, event, job)] > 0
      case Resolving(consumer, success) => success ==> w.marks[Pair(consumer, event)] > 0
      case _ => true
  }

  /** A processed row and a replayed letter both mean that the consumer finished the event. */
  ghost predicate RowsTell(w: World) {
    && (forall p | p in w.store.consumption && w.store.consumption[p] == Processed :: w.marks[p] > 0)
    && (forall p | p in w.store.letters && w.store.letters[p] == Replayed :: w.marks[p] > 0)
  }

  ghost predicate LettersTell(r: Registry, w: World) {
    RowsTell(w) && forall event: nat :: SlotTells(r, w, event)
  }

  lemma SlotStillTells(r: Registry, w: World, after: World, event: nat)
    requires Local(r, w, event) && Keeps(w, after) && SlotTells(r, w, event)
    requires event in after.slots ==> event in w.slots && after.slots[event] == w.slots[event]
    requires forall p :: w.marks[p] <= after.marks[p]
    ensures SlotTells(r, after, event)
  {
    if event in after.slots && w.slots[event].Clearing? {
      JobStays(r, w, after, event, w.slots[event].job);
    }
  }

  /** What a dispatcher's own step owes: the rows still tell, and so does its stand. */
  ghost predicate Tells(r: Registry, w: World, after: World, event: nat) {
    RowsTell(after) && SlotTells(r, after, event) && forall p :: w.marks[p] <= after.marks[p]
  }

  lemma MarkTells(r: Registry, w: World, event: nat, job: Job)
    requires LettersTell(r, w) && event in w.slots && w.slots[event] == Marking(job) && JobOk(r, w, event, job)
    ensures Tells(r, w, MarkStep(r, w, event, job), event)
  {
    var after := MarkStep(r, w, event, job);
    if JobOk(r, after, event, job) {
      assert PairOf(r, after, event, job) == PairOf(r, w, event, job);
    }
  }

  lemma ClearTells(r: Registry, w: World, event: nat, job: Job)
    requires LettersTell(r, w) && event in w.slots && w.slots[event] == Clearing(job) && JobOk(r, w, event, job)
    ensures Tells(r, w, ClearStep(r, w, event, job), event)
  {
    assert SlotTells(r, w, event);
    var p, after := PairOf(r, w, event, job), ClearStep(r, w, event, job);
    assert w.marks[p] > 0;
    assert job.Replay? ==> p == Pair(job.consumer, event);
    assert after.slots[event] == Done(r, w, event, job, true);
  }

  lemma ResolveTells(r: Registry, w: World, event: nat, consumer: nat, success: bool)
    requires LettersTell(r, w) && event in w.slots && w.slots[event] == Resolving(consumer, success)
    requires Pair(consumer, event) in w.store.letters
    ensures Tells(r, w, ResolveStep(w, event, consumer, success), event)
  {
    assert SlotTells(r, w, event);
  }

  /** The other statements neither finish a handler nor close a letter. */
  lemma OtherTells(r: Registry, w: World, event: nat, step: Step)
    requires Sized(w) && LettersTell(r, w) && event in w.slots && SlotOk(r, w, event, w.slots[event])
    requires !w.slots[event].Marking? && !w.slots[event].Clearing? && !w.slots[event].Resolving?
    requires Advance(r, w, event, step) != w
    ensures Tells(r, w, Advance(r, w, event, step), event)
  {
    var after := Advance(r, w, event, step);
    assert after.marks == w.marks;
    assert event in after.slots ==> !after.slots[event].Clearing?;
    assert event in after.slots && after.slots[event].Resolving? ==> !after.slots[event].success;
    assert RowsTell(after);
  }

  lemma AdvanceTells(r: Registry, w: World, event: nat, step: Step)
    requires Inv(r, w) && LettersTell(r, w)
    ensures Tells(r, w, Advance(r, w, event, step), event)
  {
    assert Local(r, w, event) && SlotTells(r, w, event);
    if Advance(r, w, event, step) != w {
      match w.slots[event]
      case Marking(job) => MarkTells(r, w, event, job);
      case Clearing(job) => ClearTells(r, w, event, job);
      case Resolving(consumer, success) => ResolveTells(r, w, event, consumer, success);
      case _ => OtherTells(r, w, event, step);
    }
  }

  /** The other dispatchers' stands still tell. */
  lemma OthersTell(r: Registry, w: World, after: World, event: nat)
    requires Inv(r, w) && LettersTell(r, w) && Keeps(w, after) && Tells(r, w, after, event)
    requires forall other: nat | other != event && other in after.slots ::
      other in w.slots && after.slots[other] == w.slots[other]
    ensures LettersTell(r, after)
  {
    forall other: nat ensures SlotTells(r, after, other) {
      if other != event {
        assert Local(r, w, other) && SlotTells(r, w, other);
        SlotStillTells(r, w, after, other);
      }
    }
  }

  lemma NextTells(r: Registry, w: World, step: Step)
    requires Inv(r, w) && LettersTell(r, w)
    ensures Inv(r, Next(r, w, step)) && LettersTell(r, Next(r, w, step))
  {
    var after := Next(r, w, step);
    NextKeepsInv(r, w, step);
    if step.Commit? || step.Discard? || step.Restart? || step.Begin? || step.BeginReplay? {
      QuietTells(r, w, step);
    } else {
      AdvanceTells(r, w, step.event, step);
      AdvanceIsFine(r, w, step.event, step);
      forall other: nat | other != step.event && other in after.slots
        ensures other in w.slots && after.slots[other] == w.slots[other]
      {
        assert SameAt(w, after, other);
      }
      OthersTell(r, w, after, step.event);
    }
  }

  lemma QuietTells(r: Registry, w: World, step: Step)
    requires Inv(r, w) && LettersTell(r, w) && Keeps(w, Next(r, w, step))
    requires step.Commit? || step.Discard? || step.Restart? || step.Begin? || step.BeginReplay?
    ensures LettersTell(r, Next(r, w, step))
  {
    var after := Next(r, w, step);
    var event := if step.Begin? then step.event else if step.BeginReplay? then step.pair.event else 0;
    assert Local(r, w, event) && SlotTells(r, w, event);
    if after.slots == w.slots || step.Restart? {
      SlotStillTells(r, w, after, event);
    }
    OthersTell(r, w, after, event);
  }

  lemma {:induction false} RunTells(r: Registry, steps: seq<Step>)
    ensures Inv(r, Run(r, steps)) && LettersTell(r, Run(r, steps))
  {
    if steps != [] {
      RunTells(r, steps[..|steps| - 1]);
      NextTells(r, Run(r, steps[..|steps| - 1]), steps[|steps| - 1]);
    }
  }

  /** Each committed event is still pending, or every subscriber has finished it at least once, or an open or discarded
      dead letter says that it did not: a letter is closed as replayed only for a consumer that finished. */
  lemma SettledMeansFinishedOrLettered(r: Registry, steps: seq<Step>, event: nat, k: nat)
    requires event < |Run(r, steps).types| && k < |Subscribers(r, Run(r, steps), event)|
    ensures var w := Run(r, steps);
      var p := Pair(Subscribers(r, w, event)[k], event);
      && Sized(w)
      && (|| w.store.outbox[event] == Pending
          || w.marks[p] > 0
          || (p in w.store.letters && (w.store.letters[p] == Dead || w.store.letters[p] == Discarded)))
  {
    RunTells(r, steps);
    NothingIsLost(r, steps, event, k);
  }

  /** No further step takes a delivery back. */
  lemma DeliveryIsFinal(r: Registry, steps: seq<Step>, step: Step, p: Pair)
    requires Delivered(Run(r, steps).store, p)
    ensures Delivered(Next(r, Run(r, steps), step).store, p)
  {
    RunKeepsInv(r, steps);
    NextKeepsInv(r, Run(r, steps), step);
  }

  /** A processed pair is claimed again only by a forced replay of its dead letter. */
  lemma ProcessedIsFinal(r: Registry, steps: seq<Step>, step: Step, p: Pair)
    requires p in Run(r, steps).store.consumption && Run(r, steps).store.consumption[p] == Processed
    ensures var w, after := Run(r, steps), Next(r, Run(r, steps), step);
      || (p in after.store.consumption && after.store.consumption[p] == Processed)
      || (step == Claim(p.event) && p.event in w.slots && w.slots[p.event] == Claiming(Replay(p.consumer))
          && p in w.store.letters)
  {
    RunKeepsInv(r, steps);
    var w := Run(r, steps);
    assert Local(r, w, p.event) && !Busy(w.store, p);
    if step.Begin? || step.Commit? || step.Discard? || step.BeginReplay? || step.Restart? {
    } else {
      AdvanceLeavesProcessed(r, w, step.event, step, p);
    }
  }

  lemma AdvanceLeavesProcessed(r: Registry, w: World, event: nat, step: Step, p: Pair)
    requires Inv(r, w) && p in w.store.consumption && w.store.consumption[p] == Processed
    ensures var after := Advance(r, w, event, step);
      || (p in after.store.consumption && after.store.consumption[p] == Processed)
      || (step.Claim? && p.event == event && event in w.slots && w.slots[event] == Claiming(Replay(p.consumer))
          && p in w.store.letters)
  {
    assert Local(r, w, event) && !Busy(w.store, p);
  }

  /** The handler of a pair runs only under a claim of that pair: never while the pair is processed or failed. */
  lemma HandlerRunsUnderClaim(r: Registry, steps: seq<Step>, event: nat)
    requires event in Run(r, steps).slots && Run(r, steps).slots[event].Handling?
    ensures var w := Run(r, steps);
      && JobOk(r, w, event, w.slots[event].job)
      && Busy(w.store, PairOf(r, w, event, w.slots[event].job))
  {
    RunKeepsInv(r, steps);
    var w := Run(r, steps);
    assert Local(r, w, event);
    assert Held(r, w, event) == Some(PairOf(r, w, event, w.slots[event].job));
  }

  /** A consumer finishes an event at most once more than a replay was forced on it. */
  lemma ProcessedAtMostOnce(r: Registry, steps: seq<Step>, p: Pair)
    ensures Run(r, steps).marks[p] <= Run(r, steps).forced[p] + 1
  {
    RunKeepsInv(r, steps);
  }
}
