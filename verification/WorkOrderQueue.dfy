/** The durable work-order queue of the connectors (src/modules/connectors/connector.service.ts). Orders are numbered by
    their queue position, which an insert allocates above all others, so `orders[i]` is the order at position i. Each
    SQL statement is one atomic step; everything between two statements interleaves with other workers. */
module WorkOrderQueue {
  import opened Wrappers

  const MAX_ATTEMPTS := 5
  const CLAIM_MS := 120_000

  datatype Status = Pending | Processing | Failed | Held | Dead | Executed | Noop

  datatype Order = Order(twin: nat, connector: nat, status: Status, attempts: nat, claimedBy: Option<nat>,
                         claimExpires: Option<int>)

  predicate IsSettled(status: Status) {
    status == Executed || status == Noop
  }

  /** Every other status blocks the later orders of the same twin. */
  predicate Blocks(status: Status) {
    status == Pending || status == Processing || status == Failed || status == Dead || status == Held
  }

  /** Waiting, or claimed with a lease that has run out. */
  predicate Claimable(order: Order, now: int) {
    || order.status == Pending
    || order.status == Failed
    || (order.status == Processing && (order.claimExpires.None? || order.claimExpires.value <= now))
  }

  // ---- Specification of the statements ----------------------------------------------------------------------------

  function Claimed(order: Order, claim: nat, now: int): Order {
    order.(status := Processing, attempts := order.attempts + 1, claimedBy := Some(claim),
           claimExpires := Some(now + CLAIM_MS))
  }

  function Released(order: Order, status: Status, attempts: nat): Order {
    order.(status := status, attempts := attempts, claimedBy := None, claimExpires := None)
  }

  /** The attempt the claim counted is given back. */
  function Deferred(order: Order): Order {
    Released(order, Pending, if order.attempts == 0 then 0 else order.attempts - 1)
  }

  /** An expired claim found at start-up. */
  function ResetOne(order: Order, now: int): Order {
    if order.status == Processing && Claimable(order, now) then Released(order, Failed, order.attempts) else order
  }

  function Reset(orders: seq<Order>, now: int): seq<Order> {
    seq(|orders|, i requires 0 <= i < |orders| => ResetOne(orders[i], now))
  }

  /** How the execution of a claimed order ends; a failure names whether it may be retried. */
  datatype Outcome = Succeeded | NothingToDo | NeedsOperator | Failure(retryable: bool)

  function StatusAfter(outcome: Outcome, attempts: nat): Status {
    match outcome
    case Succeeded => Executed
    case NothingToDo => Noop
    case NeedsOperator => Held
    case Failure(retryable) => if retryable && attempts < MAX_ATTEMPTS then Failed else Dead
  }

  ghost predicate BlockedAt(orders: seq<Order>, i: nat)
    requires i < |orders|
  {
    exists j | 0 <= j < i :: orders[j].twin == orders[i].twin && Blocks(orders[j].status)
  }

  /** The order is taken by a worker that nobody disturbs. */
  ghost predicate Takes(orders: seq<Order>, i: nat, ready: set<nat>, now: int)
    requires i < |orders|
  {
    var order := orders[i];
    && order.connector in ready
    && (order.status == Pending || order.status == Failed
        || (order.status == Processing && (order.claimExpires.None? || order.claimExpires.value <= now)))
    && forall j | 0 <= j < i && orders[j].twin == order.twin :: orders[j].status == Executed || orders[j].status == Noop
  }

  // ---- The table --------------------------------------------------------------------------------------------------

  class Table {
    var orders: seq<Order>

    constructor ()
      ensures orders == []
    {
      orders := [];
    }

    method Insert(twin: nat, connector: nat) returns (position: nat)
      modifies this
      ensures position == |old(orders)| && orders == old(orders) + [Order(twin, connector, Pending, 0, None, None)]
    {
      position := |orders|;
      orders := orders + [Order(twin, connector, Pending, 0, None, None)];
    }

    /** The blocked check: is an order of the same twin with a lower position still unsettled? */
    method IsBlocked(i: nat) returns (blocked: bool)
      requires i < |orders|
      ensures blocked <==> BlockedAt(orders, i)
    {
      var j := 0;
      while j < i
        invariant j <= i
        invariant forall k | 0 <= k < j :: !(orders[k].twin == orders[i].twin && Blocks(orders[k].status))
      {
        if orders[j].twin == orders[i].twin && Blocks(orders[j].status) {
          return true;
        }
        j := j + 1;
      }
      return false;
    }

    /** The claim succeeds only if the order is still claimable and has the number of attempts read before. */
    method Claim(i: nat, claim: nat, attempts: nat, now: int) returns (claimed: bool)
      requires i < |orders|
      modifies this
      ensures claimed <==> old(orders[i].attempts) == attempts && Claimable(old(orders[i]), now)
      ensures orders == if claimed then old(orders)[i := old(orders[i]).(
                          status := Processing, attempts := attempts + 1, claimedBy := Some(claim),
                          claimExpires := Some(now + 120_000))] else old(orders)
    {
      claimed := orders[i].attempts == attempts && Claimable(orders[i], now);
      if claimed {
        orders := orders[i := Claimed(orders[i], claim, now)];
      }
    }

    /** Any settling statement, guarded by the claim. */
    method Settle(i: nat, claim: nat, status: Status)
      requires i < |orders|
      modifies this
      ensures orders == if old(orders[i].claimedBy) == Some(claim)
                        then old(orders)[i := old(orders[i]).(status := status, claimedBy := None,
                                                              claimExpires := None)]
                        else old(orders)
    {
      if orders[i].claimedBy == Some(claim) {
        orders := orders[i := Released(orders[i], status, orders[i].attempts)];
      }
    }

    method Renew(i: nat, claim: nat, now: int)
      requires i < |orders|
      modifies this
      ensures orders == if old(orders[i].claimedBy) == Some(claim) && old(orders[i].status) == Processing
                        then old(orders)[i := old(orders[i]).(claimExpires := Some(now + CLAIM_MS))] else old(orders)
    {
      if orders[i].claimedBy == Some(claim) && orders[i].status == Processing {
        orders := orders[i := orders[i].(claimExpires := Some(now + CLAIM_MS))];
      }
    }

    method Defer(i: nat, claim: nat)
      requires i < |orders|
      modifies this
      ensures orders == if old(orders[i].claimedBy) == Some(claim)
                        then old(orders)[i := old(orders[i]).(
                          status := Pending, claimedBy := None, claimExpires := None,
                          attempts := if old(orders[i].attempts) == 0 then 0 else old(orders[i].attempts) - 1)]
                        else old(orders)
    {
      if orders[i].claimedBy == Some(claim) {
        orders := orders[i := Deferred(orders[i])];
      }
    }

    method Reinject(i: nat)
      requires i < |orders|
      modifies this
      ensures orders == if old(orders[i].status) == Dead || old(orders[i].status) == Held
                        then old(orders)[i := old(orders[i]).(status := Pending, attempts := 0, claimedBy := None,
                                                              claimExpires := None)] else old(orders)
    {
      if orders[i].status == Dead || orders[i].status == Held {
        orders := orders[i := Released(orders[i], Pending, 0)];
      }
    }

    /** One execution that no other worker interleaves with. It takes the order exactly if its connector is ready, it is
        claimable and every earlier order of its twin is executed or noop; then it counts an attempt, ends the claim and
        stores and answers what became of it. It is the four steps of the protocol below. */
    method ExecuteAlone(i: nat, outcome: Outcome, ready: set<nat>, ghost w: World, ghost worker: nat, now: int,
                        claim: nat)
      returns (status: Status)
      requires i < |orders|
      requires w.orders == orders && w.now == now && w.nextClaim == claim && |w.ledger| == |orders|
      requires PhaseOf(w, worker).Idle? && w.ready == ready
      modifies this
      ensures Takes(old(orders), i, ready, now) ==>
        && orders == old(orders)[i := old(orders[i]).(status := status, attempts := old(orders[i]).attempts + 1,
                                                      claimedBy := None, claimExpires := None)]
        && (status == Executed <==> outcome == Succeeded)
        && (status == Noop <==> outcome == NothingToDo)
        && (status == Held <==> outcome == NeedsOperator)
        && (status == Failed <==> outcome == Failure(true) && old(orders[i]).attempts + 1 < 5)
        && (status == Dead <==> outcome.Failure? && (outcome.retryable ==> old(orders[i]).attempts + 1 >= 5))
      ensures !Takes(old(orders), i, ready, now) ==> orders == old(orders)
      ensures orders == RunOn(w, [Step.Load(worker, i), Step.Check(worker), Step.Claim(worker),
                                  Step.Settle(worker, outcome)]).orders
      ensures |orders| == |old(orders)| && status == orders[i].status
    {
      AloneIsFourSteps(w, worker, i, outcome);
      TakesIff(orders, i, ready, now);
      if !Claimable(orders[i], now) || orders[i].connector !in ready {
        return orders[i].status;
      }
      var blocked := IsBlocked(i);
      if blocked {
        return orders[i].status;
      }
      var claimed := Claim(i, claim, orders[i].attempts, now);
      status := StatusAfter(outcome, orders[i].attempts);
      Settle(i, claim, status);
    }
  }

  // ---- Runs -------------------------------------------------------------------------------------------------------

  /** Where a worker stands between two statements of executeWorkOrder. */
  datatype Phase =
    | Idle
    | Loaded(order: nat, attempts: nat)
    | Checked(order: nat, attempts: nat)
    | Working(order: nat, claim: nat, attempts: nat)

  /** What happened to an order since it was last injected, and whether it was ever claimed. */
  datatype History = History(claims: nat, deferrals: nat, lapses: nat, everClaimed: bool)

  /** `ready` holds the connectors that are activated and not paused. */
  datatype World = World(now: int, orders: seq<Order>, ledger: seq<History>, workers: map<nat, Phase>, nextClaim: nat,
                         settled: seq<nat>, ready: set<nat>)

  datatype Step =
    | Tick(ms: nat)
    | InsertOrder(twin: nat, connector: nat)
    | Connect(connector: nat, ready: bool)
    | Load(worker: nat, order: nat)
    | Check(worker: nat)
    | Claim(worker: nat)
    | Renew(worker: nat)
    | Settle(worker: nat, outcome: Outcome)
    | Defer(worker: nat)
    | Crash(worker: nat)
    | Restart
    | Reinject(order: nat)

  function PhaseOf(w: World, worker: nat): Phase {
    if worker in w.workers then w.workers[worker] else Idle
  }

  function GoTo(w: World, worker: nat, phase: Phase): World {
    w.(workers := w.workers[worker := phase])
  }

  function WithRow(w: World, i: nat, order: Order, history: History): World
    requires i < |w.orders| == |w.ledger|
  {
    w.(orders := w.orders[i := order], ledger := w.ledger[i := history])
  }

  /** A claim of a processing order, and the reset of one, is a lapse of the claim before. */
  function Lapse(order: Order): nat { if order.status == Processing then 1 else 0 }

  function ClaimStep(w: World, worker: nat, i: nat, attempts: nat): World
    requires i < |w.orders| == |w.ledger|
  {
    var order := w.orders[i];
    if order.attempts == attempts && Claimable(order, w.now) then
      var h := w.ledger[i];
      GoTo(WithRow(w, i, Claimed(order, w.nextClaim, w.now),
                   h.(claims := h.claims + 1, lapses := h.lapses + Lapse(order), everClaimed := true)),
           worker, Working(i, w.nextClaim, order.attempts + 1)).(nextClaim := w.nextClaim + 1)
    else GoTo(w, worker, Idle)
  }

  function SettleStep(w: World, worker: nat, i: nat, claim: nat, status: Status): World
    requires i < |w.orders| == |w.ledger|
  {
    if w.orders[i].claimedBy == Some(claim) then
      GoTo(WithRow(w, i, Released(w.orders[i], status, w.orders[i].attempts), w.ledger[i]), worker, Idle)
        .(settled := if IsSettled(status) then w.settled + [i] else w.settled)
    else GoTo(w, worker, Idle)
  }

  function DeferStep(w: World, worker: nat, i: nat, claim: nat): World
    requires i < |w.orders| == |w.ledger|
  {
    if w.orders[i].claimedBy == Some(claim) then
      GoTo(WithRow(w, i, Deferred(w.orders[i]), w.ledger[i].(deferrals := w.ledger[i].deferrals + 1)), worker, Idle)
    else GoTo(w, worker, Idle)
  }

  function RenewStep(w: World, i: nat, claim: nat): World
    requires i < |w.orders| == |w.ledger|
  {
    if w.orders[i].claimedBy == Some(claim) && w.orders[i].status == Processing then
      WithRow(w, i, w.orders[i].(claimExpires := Some(w.now + CLAIM_MS)), w.ledger[i])
    else w
  }

  function ReinjectStep(w: World, i: nat): World
    requires i < |w.orders| == |w.ledger|
  {
    if w.orders[i].status == Dead || w.orders[i].status == Held then
      WithRow(w, i, Released(w.orders[i], Pending, 0), History(0, 0, 0, w.ledger[i].everClaimed))
    else w
  }

  function RestartStep(w: World): World
    requires |w.orders| == |w.ledger|
  {
    w.(orders := Reset(w.orders, w.now),
       ledger := seq(|w.ledger|, i requires 0 <= i < |w.ledger| =>
         w.ledger[i].(lapses := w.ledger[i].lapses
           + if w.orders[i].status == Processing && Claimable(w.orders[i], w.now) then 1 else 0)))
  }

  ghost function Next(w: World, step: Step): (next: World)
    requires |w.orders| == |w.ledger|
    ensures |next.orders| == |next.ledger|
  {
    match step
    case Tick(ms) => w.(now := w.now + ms)
    case InsertOrder(twin, connector) =>
      w.(orders := w.orders + [Order(twin, connector, Pending, 0, None, None)],
         ledger := w.ledger + [History(0, 0, 0, false)])
    case Connect(connector, ready) =>
      w.(ready := if ready then w.ready + {connector} else w.ready - {connector})
    case Load(worker, i) =>
      if PhaseOf(w, worker).Idle? && i < |w.orders| && Claimable(w.orders[i], w.now)
         && w.orders[i].connector in w.ready
      then GoTo(w, worker, Loaded(i, w.orders[i].attempts)) else w
    case Check(worker) =>
      (match PhaseOf(w, worker)
       case Loaded(i, attempts) =>
         if i < |w.orders| && !BlockedAt(w.orders, i) then GoTo(w, worker, Checked(i, attempts))
         else GoTo(w, worker, Idle)
       case _ => w)
    case Claim(worker) =>
      (match PhaseOf(w, worker)
       case Checked(i, attempts) => if i < |w.orders| then ClaimStep(w, worker, i, attempts) else w
       case _ => w)
    case Renew(worker) =>
      (match PhaseOf(w, worker)
       case Working(i, claim, _) => if i < |w.orders| then RenewStep(w, i, claim) else w
       case _ => w)
    case Settle(worker, outcome) =>
      (match PhaseOf(w, worker)
       case Working(i, claim, attempts) =>
         if i < |w.orders| then SettleStep(w, worker, i, claim, StatusAfter(outcome, attempts)) else w
       case _ => w)
    case Defer(worker) =>
      (match PhaseOf(w, worker)
       case Working(i, claim, _) => if i < |w.orders| then DeferStep(w, worker, i, claim) else w
       case _ => w)
    case Crash(worker) => GoTo(w, worker, Idle)
    case Restart => RestartStep(w)
    case Reinject(i) => if i < |w.orders| then ReinjectStep(w, i) else w
  }

  ghost function RunOn(w: World, steps: seq<Step>): (next: World)
    requires |w.orders| == |w.ledger|
    ensures |next.orders| == |next.ledger|
    decreases |steps|
  {
    if steps == [] then w else Next(RunOn(w, steps[..|steps| - 1]), steps[|steps| - 1])
  }

  function Empty(start: int): World {
    World(start, [], [], map[], 0, [], {})
  }

  ghost function Run(start: int, steps: seq<Step>): (w: World)
    ensures |w.orders| == |w.ledger|
  {
    RunOn(Empty(start), steps)
  }

  lemma ThreeSteps(w: World, s: seq<Step>)
    requires |s| == 3 && |w.orders| == |w.ledger|
    ensures RunOn(w, s) == Next(Next(Next(w, s[0]), s[1]), s[2])
  {
    assert s[..2][..1] == s[..1] && s[..1][..0] == [];
    assert RunOn(w, s[..1]) == Next(w, s[0]);
    assert RunOn(w, s[..2]) == Next(RunOn(w, s[..1]), s[1]);
  }

  lemma FourSteps(w: World, s: seq<Step>)
    requires |s| == 4 && |w.orders| == |w.ledger|
    ensures RunOn(w, s) == Next(Next(Next(Next(w, s[0]), s[1]), s[2]), s[3])
  {
    ThreeSteps(w, s[..3]);
  }

  lemma TakesIff(orders: seq<Order>, i: nat, ready: set<nat>, now: int)
    requires i < |orders|
    ensures Takes(orders, i, ready, now)
            <==> Claimable(orders[i], now) && orders[i].connector in ready && !BlockedAt(orders, i)
  {
    if !BlockedAt(orders, i) {
      forall j | 0 <= j < i && orders[j].twin == orders[i].twin
        ensures orders[j].status == Executed || orders[j].status == Noop
      {
        assert !Blocks(orders[j].status);
      }
    }
  }

  /** What an order is after it was taken and settled. */
  function Ended(order: Order, outcome: Outcome): Order {
    Released(order, StatusAfter(outcome, order.attempts + 1), order.attempts + 1)
  }

  lemma TakenIsSettled(w: World, worker: nat, i: nat, outcome: Outcome)
    requires i < |w.orders| == |w.ledger| && PhaseOf(w, worker) == Checked(i, w.orders[i].attempts)
    requires Claimable(w.orders[i], w.now)
    ensures Next(Next(w, Claim(worker)), Settle(worker, outcome)).orders
         == w.orders[i := Ended(w.orders[i], outcome)]
  {
    var claimed := Next(w, Claim(worker));
    assert claimed.orders == w.orders[i := Claimed(w.orders[i], w.nextClaim, w.now)];
    assert PhaseOf(claimed, worker) == Working(i, w.nextClaim, w.orders[i].attempts + 1);
  }

  lemma IdleDoesNothing(w: World, worker: nat, outcome: Outcome)
    requires |w.orders| == |w.ledger| && PhaseOf(w, worker).Idle?
    ensures Next(w, Check(worker)) == w && Next(w, Claim(worker)) == w && Next(w, Settle(worker, outcome)) == w
  {
  }

  lemma AloneIsFourSteps(w: World, worker: nat, i: nat, outcome: Outcome)
    requires i < |w.orders| == |w.ledger| && PhaseOf(w, worker).Idle?
    ensures RunOn(w, [Load(worker, i), Check(worker), Claim(worker), Settle(worker, outcome)]).orders
         == if Takes(w.orders, i, w.ready, w.now) then w.orders[i := Ended(w.orders[i], outcome)] else w.orders
  {
    FourSteps(w, [Load(worker, i), Check(worker), Claim(worker), Settle(worker, outcome)]);
    TakesIff(w.orders, i, w.ready, w.now);
    var loaded := Next(w, Load(worker, i));
    var checked := Next(loaded, Check(worker));
    if Claimable(w.orders[i], w.now) && w.orders[i].connector in w.ready {
      assert loaded == GoTo(w, worker, Loaded(i, w.orders[i].attempts));
      if BlockedAt(w.orders, i) {
        IdleDoesNothing(checked, worker, outcome);
      } else {
        TakenIsSettled(checked, worker, i, outcome);
      }
    } else {
      IdleDoesNothing(w, worker, outcome);
    }
  }
}
