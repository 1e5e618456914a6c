/** Safety of the work-order queue over every run of `WorkOrderQueue`: each twin's orders settle exactly in queue order,
    and the attempts of an order are bounded by its claims, deferrals and lapsed claims. */
module WorkOrderFifo {
  import opened Wrappers
  import opened WorkOrderQueue

  // ---- The invariant ----------------------------------------------------------------------------------------------

  /** The largest number of attempts an order may show in a status, when no claim of it ever lapsed. */
  function Ceiling(status: Status): nat {
    if status == Pending || status == Failed then MAX_ATTEMPTS - 1 else MAX_ATTEMPTS
  }

  ghost predicate RowOk(order: Order, h: History, nextClaim: nat) {
    && (order.claimedBy.Some? <==> order.status == Processing)
    && (order.claimedBy.Some? ==> order.claimedBy.value < nextClaim && order.attempts > 0)
    && (order.status != Pending ==> h.everClaimed)
    && order.attempts == h.claims - h.deferrals
    && order.attempts <= Ceiling(order.status) + h.lapses
  }

  ghost predicate RowsOk(w: World) {
    && |w.orders| == |w.ledger|
    && forall i | 0 <= i < |w.orders| :: RowOk(w.orders[i], w.ledger[i], w.nextClaim)
  }

  /** All orders of the same twin before position i are settled. */
  ghost predicate ClearBelow(orders: seq<Order>, i: nat)
    requires i < |orders|
  {
    forall j | 0 <= j < i :: orders[j].twin == orders[i].twin ==> IsSettled(orders[j].status)
  }

  ghost predicate Fifo(w: World) {
    && |w.orders| == |w.ledger|
    && forall i | 0 <= i < |w.orders| :: w.ledger[i].everClaimed ==> ClearBelow(w.orders, i)
  }

  ghost predicate PhaseOk(w: World, phase: Phase) {
    match phase
    case Idle => true
    case Loaded(i, _) => i < |w.orders|
    case Checked(i, _) => i < |w.orders| && ClearBelow(w.orders, i)
    case Working(i, claim, attempts) =>
      && i < |w.orders| && claim < w.nextClaim
      && (w.orders[i].claimedBy == Some(claim) ==> w.orders[i].attempts == attempts)
  }

  ghost predicate PhasesOk(w: World) {
    forall worker | worker in w.workers :: PhaseOk(w, w.workers[worker])
  }

  /** The positions of one twin in a list of positions. */
  function OfTwin(orders: seq<Order>, positions: seq<nat>, twin: nat): seq<nat>
    requires forall k | 0 <= k < |positions| :: positions[k] < |orders|
  {
    if positions == [] then []
    else
      var last := positions[|positions| - 1];
      OfTwin(orders, positions[..|positions| - 1], twin) + if orders[last].twin == twin then [last] else []
  }

  /** The queue of a twin: its positions in queue order; with `onlySettled`, the settled ones. */
  function Queue(orders: seq<Order>, twin: nat, onlySettled: bool): seq<nat> {
    if orders == [] then []
    else
      var i := |orders| - 1;
      Queue(orders[..i], twin, onlySettled)
      + if orders[i].twin == twin && (onlySettled ==> IsSettled(orders[i].status)) then [i] else []
  }

  ghost predicate LogOk(w: World) {
    && (forall k | 0 <= k < |w.settled| :: w.settled[k] < |w.orders|)
    && forall twin: nat :: OfTwin(w.orders, w.settled, twin) == Queue(w.orders, twin, true)
  }

  ghost predicate Inv(w: World) {
    RowsOk(w) && Fifo(w) && PhasesOk(w) && LogOk(w)
  }

  // ---- One row changes --------------------------------------------------------------------------------------------

  /** A row changes without its twin changing and without an order leaving executed or noop. */
  ghost predicate Advances(before: Order, after: Order) {
    after.twin == before.twin && (IsSettled(before.status) ==> IsSettled(after.status))
  }

  lemma ClearStays(orders: seq<Order>, after: seq<Order>, i: nat)
    requires i < |orders| <= |after|
    requires forall j | 0 <= j < |orders| :: Advances(orders[j], after[j])
    requires ClearBelow(orders, i)
    ensures ClearBelow(after, i)
  {
    forall j | 0 <= j < i && after[j].twin == after[i].twin ensures IsSettled(after[j].status) {
      assert Advances(orders[j], after[j]) && Advances(orders[i], after[i]);
    }
  }

  lemma RowChangeKeepsRows(w: World, i: nat, order: Order, h: History, nextClaim: nat)
    requires RowsOk(w) && i < |w.orders| && w.nextClaim <= nextClaim && RowOk(order, h, nextClaim)
    ensures RowsOk(WithRow(w, i, order, h).(nextClaim := nextClaim))
  {
    var after := WithRow(w, i, order, h).(nextClaim := nextClaim);
    forall j | 0 <= j < |after.orders| ensures RowOk(after.orders[j], after.ledger[j], nextClaim) {
      assert RowOk(w.orders[j], w.ledger[j], w.nextClaim);
    }
  }

  lemma RowChangeKeepsFifo(w: World, i: nat, order: Order, h: History)
    requires Fifo(w) && i < |w.orders| && Advances(w.orders[i], order)
    requires h.everClaimed ==> ClearBelow(w.orders, i)
    ensures Fifo(WithRow(w, i, order, h))
  {
    var after := WithRow(w, i, order, h);
    forall j | 0 <= j < |after.orders| && after.ledger[j].everClaimed ensures ClearBelow(after.orders, j) {
      assert ClearBelow(w.orders, j);
      ClearStays(w.orders, after.orders, j);
    }
  }

  /** A stale claim stays stale, and a live one still knows its attempts. */
  ghost predicate ClaimsAgree(before: Order, after: Order, nextClaim: nat) {
    forall claim | claim < nextClaim && after.claimedBy == Some(claim) ::
      before.claimedBy == Some(claim) && before.attempts == after.attempts
  }

  lemma PhaseStays(w: World, after: World, phase: Phase)
    requires PhaseOk(w, phase)
    requires |w.orders| <= |after.orders| && w.nextClaim <= after.nextClaim
    requires forall j | 0 <= j < |w.orders| ::
      Advances(w.orders[j], after.orders[j]) && ClaimsAgree(w.orders[j], after.orders[j], w.nextClaim)
    ensures PhaseOk(after, phase)
  {
    match phase
    case Idle =>
    case Loaded(_, _) =>
    case Checked(i, _) => ClearStays(w.orders, after.orders, i);
    case Working(i, claim, attempts) =>
      assert ClaimsAgree(w.orders[i], after.orders[i], w.nextClaim);
  }

  lemma PhasesStay(w: World, after: World, worker: nat, phase: Phase)
    requires PhasesOk(w) && after.workers == w.workers[worker := phase]
    requires |w.orders| <= |after.orders| && w.nextClaim <= after.nextClaim
    requires forall j | 0 <= j < |w.orders| ::
      Advances(w.orders[j], after.orders[j]) && ClaimsAgree(w.orders[j], after.orders[j], w.nextClaim)
    requires PhaseOk(after, phase)
    ensures PhasesOk(after)
  {
    forall other | other in after.workers ensures PhaseOk(after, after.workers[other]) {
      if other != worker {
        PhaseStays(w, after, w.workers[other]);
      }
    }
  }

  lemma PhasesStayAsTheyAre(w: World, after: World)
    requires PhasesOk(w) && after.workers == w.workers
    requires |w.orders| <= |after.orders| && w.nextClaim <= after.nextClaim
    requires forall j | 0 <= j < |w.orders| ::
      Advances(w.orders[j], after.orders[j]) && ClaimsAgree(w.orders[j], after.orders[j], w.nextClaim)
    ensures PhasesOk(after)
  {
    forall other | other in after.workers ensures PhaseOk(after, after.workers[other]) {
      PhaseStays(w, after, w.workers[other]);
    }
  }

  // ---- The log of settled orders ----------------------------------------------------------------------------------

  lemma {:induction false} OfTwinStays(orders: seq<Order>, after: seq<Order>, positions: seq<nat>, twin: nat)
    requires |orders| <= |after| && forall j | 0 <= j < |orders| :: after[j].twin == orders[j].twin
    requires forall k | 0 <= k < |positions| :: positions[k] < |orders|
    ensures OfTwin(after, positions, twin) == OfTwin(orders, positions, twin)
    decreases |positions|
  {
    if positions != [] {
      OfTwinStays(orders, after, positions[..|positions| - 1], twin);
    }
  }

  lemma {:induction false} QueueStays(orders: seq<Order>, after: seq<Order>, twin: nat, onlySettled: bool)
    requires |orders| == |after|
    requires forall j | 0 <= j < |orders| ::
      after[j].twin == orders[j].twin && (onlySettled ==> (IsSettled(after[j].status) <==> IsSettled(orders[j].status)))
    ensures Queue(after, twin, onlySettled) == Queue(orders, twin, onlySettled)
    decreases |orders|
  {
    if orders != [] {
      QueueStays(orders[..|orders| - 1], after[..|orders| - 1], twin, onlySettled);
    }
  }

  lemma {:induction false} NoneSettled(orders: seq<Order>, twin: nat, i: nat)
    requires i <= |orders|
    requires forall j | i <= j < |orders| :: orders[j].twin == twin ==> !IsSettled(orders[j].status)
    ensures Queue(orders, twin, true) == Queue(orders[..i], twin, true)
    decreases |orders|
  {
    if i < |orders| {
      NoneSettled(orders[..|orders| - 1], twin, i);
      assert orders[..|orders| - 1][..i] == orders[..i];
    } else {
      assert orders[..i] == orders;
    }
  }

  /** An unsettled order with no settled later one joins the settled queue at its end. */
  lemma SettlingAppends(orders: seq<Order>, i: nat, order: Order, twin: nat)
    requires i < |orders| && order.twin == orders[i].twin && IsSettled(order.status) && !IsSettled(orders[i].status)
    requires forall j | i < j < |orders| :: orders[j].twin == order.twin ==> !IsSettled(orders[j].status)
    ensures Queue(orders[i := order], twin, true)
         == Queue(orders, twin, true) + if twin == order.twin then [i] else []
  {
    var after := orders[i := order];
    if twin == order.twin {
      NoneSettled(after, twin, i + 1);
      NoneSettled(orders, twin, i);
      assert after[..i + 1][..i] == orders[..i];
    } else {
      OtherQueueStays(orders, after, i, twin);
    }
  }

  lemma {:induction false} OtherQueueStays(orders: seq<Order>, after: seq<Order>, i: nat, twin: nat)
    requires |orders| == |after| && forall j | 0 <= j < |orders| && j != i :: after[j] == orders[j]
    requires i < |orders| ==> orders[i].twin == after[i].twin != twin
    ensures Queue(after, twin, true) == Queue(orders, twin, true)
    decreases |orders|
  {
    if orders != [] {
      OtherQueueStays(orders[..|orders| - 1], after[..|orders| - 1], i, twin);
    }
  }

  /** With FIFO order the settled positions of a twin are a prefix of its queue. */
  lemma {:induction false} SettledIsPrefix(orders: seq<Order>, twin: nat)
    requires forall i | 0 <= i < |orders| :: IsSettled(orders[i].status) ==> ClearBelow(orders, i)
    ensures Queue(orders, twin, true) <= Queue(orders, twin, false)
    ensures (forall i | 0 <= i < |orders| :: orders[i].twin == twin ==> IsSettled(orders[i].status))
            ==> Queue(orders, twin, true) == Queue(orders, twin, false)
    decreases |orders|
  {
    if orders != [] {
      var n := |orders| - 1;
      forall i | 0 <= i < n && IsSettled(orders[..n][i].status) ensures ClearBelow(orders[..n], i) {
        assert ClearBelow(orders, i);
      }
      SettledIsPrefix(orders[..n], twin);
      if orders[n].twin == twin && IsSettled(orders[n].status) {
        assert ClearBelow(orders, n);
      }
    }
  }

  // ---- Every step keeps the invariant -----------------------------------------------------------------------------

  /** A row changes and stays settled or unsettled: the log is untouched. */
  lemma LogStays(w: World, after: World)
    requires LogOk(w) && after.settled == w.settled && |after.orders| == |w.orders|
    requires forall j | 0 <= j < |w.orders| ::
      after.orders[j].twin == w.orders[j].twin && (IsSettled(after.orders[j].status) <==> IsSettled(w.orders[j].status))
    ensures LogOk(after)
  {
    forall twin: nat ensures OfTwin(after.orders, after.settled, twin) == Queue(after.orders, twin, true) {
      OfTwinStays(w.orders, after.orders, w.settled, twin);
      QueueStays(w.orders, after.orders, twin, true);
    }
  }

  lemma InsertKeepsLog(w: World, after: World, order: Order)
    requires LogOk(w) && after.settled == w.settled && after.orders == w.orders + [order] && !IsSettled(order.status)
    ensures LogOk(after)
  {
    forall twin: nat ensures OfTwin(after.orders, after.settled, twin) == Queue(after.orders, twin, true) {
      OfTwinStays(w.orders, after.orders, w.settled, twin);
      assert after.orders[..|after.orders| - 1] == w.orders;
    }
  }

  lemma SettlingKeepsLog(w: World, after: World, i: nat, order: Order)
    requires LogOk(w) && i < |w.orders| && after.settled == w.settled + [i] && after.orders == w.orders[i := order]
    requires order.twin == w.orders[i].twin && IsSettled(order.status) && !IsSettled(w.orders[i].status)
    requires forall j | i < j < |w.orders| :: w.orders[j].twin == order.twin ==> !IsSettled(w.orders[j].status)
    ensures LogOk(after)
  {
    forall twin: nat ensures OfTwin(after.orders, after.settled, twin) == Queue(after.orders, twin, true) {
      OfTwinStays(w.orders, after.orders, w.settled, twin);
      assert after.settled[..|after.settled| - 1] == w.settled;
      SettlingAppends(w.orders, i, order, twin);
    }
  }

  /** An unsettled order has no settled later one of its twin. */
  lemma NoLaterSettled(w: World, i: nat)
    requires RowsOk(w) && Fifo(w) && i < |w.orders| && !IsSettled(w.orders[i].status)
    ensures forall j | i < j < |w.orders| :: w.orders[j].twin == w.orders[i].twin ==> !IsSettled(w.orders[j].status)
  {
    forall j | i < j < |w.orders| && IsSettled(w.orders[j].status) ensures w.orders[j].twin != w.orders[i].twin {
      assert RowOk(w.orders[j], w.ledger[j], w.nextClaim);
      assert ClearBelow(w.orders, j);
    }
  }

  lemma ClaimKeepsInv(w: World, worker: nat, i: nat, attempts: nat)
    requires Inv(w) && i < |w.orders| && ClearBelow(w.orders, i)
    ensures Inv(ClaimStep(w, worker, i, attempts))
  {
    var order, h := w.orders[i], w.ledger[i];
    var after := ClaimStep(w, worker, i, attempts);
    if order.attempts == attempts && Claimable(order, w.now) {
      assert RowOk(order, h, w.nextClaim);
      var order' := Claimed(order, w.nextClaim, w.now);
      var h' := h.(claims := h.claims + 1, lapses := h.lapses + Lapse(order), everClaimed := true);
      RowChangeKeepsRows(w, i, order', h', w.nextClaim + 1);
      RowChangeKeepsFifo(w, i, order', h');
      assert Fifo(after) by { SameTableSameFifo(WithRow(w, i, order', h'), after); }
      LogStays(w, after);
      PhasesStay(w, after, worker, Working(i, w.nextClaim, order.attempts + 1));
    } else {
      PhasesStay(w, after, worker, Idle);
    }
  }

  lemma SameTableSameFifo(w: World, after: World)
    requires Fifo(w) && after.orders == w.orders && after.ledger == w.ledger
    ensures Fifo(after)
  {
  }

  lemma SettleKeepsInv(w: World, worker: nat, i: nat, claim: nat, attempts: nat, outcome: Outcome)
    requires Inv(w) && i < |w.orders| && PhaseOk(w, Working(i, claim, attempts))
    ensures Inv(SettleStep(w, worker, i, claim, StatusAfter(outcome, attempts)))
  {
    var order, h, status := w.orders[i], w.ledger[i], StatusAfter(outcome, attempts);
    var after := SettleStep(w, worker, i, claim, status);
    if order.claimedBy == Some(claim) {
      assert RowOk(order, h, w.nextClaim);
      var order' := Released(order, status, order.attempts);
      RowChangeKeepsRows(w, i, order', h, w.nextClaim);
      RowChangeKeepsFifo(w, i, order', h);
      assert Fifo(after) by { SameTableSameFifo(WithRow(w, i, order', h), after); }
      if IsSettled(status) {
        NoLaterSettled(w, i);
        SettlingKeepsLog(w, after, i, order');
      } else {
        LogStays(w, after);
      }
    }
    PhasesStay(w, after, worker, Idle);
  }

  lemma DeferKeepsInv(w: World, worker: nat, i: nat, claim: nat)
    requires Inv(w) && i < |w.orders|
    ensures Inv(DeferStep(w, worker, i, claim))
  {
    var order, h := w.orders[i], w.ledger[i];
    var after := DeferStep(w, worker, i, claim);
    if order.claimedBy == Some(claim) {
      assert RowOk(order, h, w.nextClaim);
      var h' := h.(deferrals := h.deferrals + 1);
      RowChangeKeepsRows(w, i, Deferred(order), h', w.nextClaim);
      RowChangeKeepsFifo(w, i, Deferred(order), h');
      assert Fifo(after) by { SameTableSameFifo(WithRow(w, i, Deferred(order), h'), after); }
      LogStays(w, after);
    }
    PhasesStay(w, after, worker, Idle);
  }

  lemma RenewKeepsInv(w: World, i: nat, claim: nat)
    requires Inv(w) && i < |w.orders|
    ensures Inv(RenewStep(w, i, claim))
  {
    var order, h := w.orders[i], w.ledger[i];
    var after := RenewStep(w, i, claim);
    if after != w {
      assert RowOk(order, h, w.nextClaim);
      var order' := order.(claimExpires := Some(w.now + CLAIM_MS));
      RowChangeKeepsRows(w, i, order', h, w.nextClaim);
      RowChangeKeepsFifo(w, i, order', h);
      LogStays(w, after);
      PhasesStayAsTheyAre(w, after);
    }
  }

  lemma ReinjectKeepsInv(w: World, i: nat)
    requires Inv(w) && i < |w.orders|
    ensures Inv(ReinjectStep(w, i))
  {
    var order, h := w.orders[i], w.ledger[i];
    var after := ReinjectStep(w, i);
    if order.status == Dead || order.status == Held {
      assert RowOk(order, h, w.nextClaim);
      RowChangeKeepsRows(w, i, Released(order, Pending, 0), History(0, 0, 0, h.everClaimed), w.nextClaim);
      RowChangeKeepsFifo(w, i, Released(order, Pending, 0), History(0, 0, 0, h.everClaimed));
      LogStays(w, after);
      PhasesStayAsTheyAre(w, after);
    }
  }

  lemma InsertKeepsInv(w: World, twin: nat, connector: nat)
    requires Inv(w)
    ensures Inv(Next(w, InsertOrder(twin, connector)))
  {
    var after := Next(w, InsertOrder(twin, connector));
    forall i | 0 <= i < |after.orders| && after.ledger[i].everClaimed ensures ClearBelow(after.orders, i) {
      assert ClearBelow(w.orders, i);
      ClearStays(w.orders, after.orders, i);
    }
    forall i | 0 <= i < |after.orders| ensures RowOk(after.orders[i], after.ledger[i], after.nextClaim) {
      if i < |w.orders| {
        assert RowOk(w.orders[i], w.ledger[i], w.nextClaim);
      }
    }
    InsertKeepsLog(w, after, Order(twin, connector, Pending, 0, None, None));
    PhasesStayAsTheyAre(w, after);
  }

  lemma RestartKeepsInv(w: World)
    requires Inv(w)
    ensures Inv(RestartStep(w))
  {
    var after := RestartStep(w);
    forall i | 0 <= i < |w.orders|
      ensures RowOk(after.orders[i], after.ledger[i], w.nextClaim) && Advances(w.orders[i], after.orders[i])
      ensures ClaimsAgree(w.orders[i], after.orders[i], w.nextClaim)
      ensures IsSettled(after.orders[i].status) <==> IsSettled(w.orders[i].status)
    {
      assert RowOk(w.orders[i], w.ledger[i], w.nextClaim);
    }
    forall i | 0 <= i < |after.orders| && after.ledger[i].everClaimed ensures ClearBelow(after.orders, i) {
      assert ClearBelow(w.orders, i);
      ClearStays(w.orders, after.orders, i);
    }
    LogStays(w, after);
    PhasesStayAsTheyAre(w, after);
  }

  lemma UnblockedIsClear(orders: seq<Order>, i: nat)
    requires i < |orders|
    ensures !BlockedAt(orders, i) <==> ClearBelow(orders, i)
  {
    if !BlockedAt(orders, i) {
      forall j | 0 <= j < i && orders[j].twin == orders[i].twin ensures IsSettled(orders[j].status) {
        assert !Blocks(orders[j].status);
      }
    }
  }

  lemma MoveKeepsInv(w: World, worker: nat, phase: Phase)
    requires Inv(w) && PhaseOk(w, phase)
    ensures Inv(GoTo(w, worker, phase))
  {
    PhasesStay(w, GoTo(w, worker, phase), worker, phase);
  }

  lemma NextKeepsInv(w: World, step: Step)
    requires Inv(w)
    ensures Inv(Next(w, step))
  {
    match step
    case Tick(_) => PhasesStayAsTheyAre(w, Next(w, step));
    case Connect(_, _) => PhasesStayAsTheyAre(w, Next(w, step));
    case InsertOrder(twin, connector) => InsertKeepsInv(w, twin, connector);
    case Load(worker, i) => if i < |w.orders| { MoveKeepsInv(w, worker, Loaded(i, w.orders[i].attempts)); }
    case Check(worker) => CheckKeepsInv(w, worker);
    case Claim(worker) => ClaimsKeepInv(w, worker);
    case Renew(worker) => RenewsKeepInv(w, worker);
    case Settle(worker, outcome) => SettlesKeepInv(w, worker, outcome);
    case Defer(worker) => DefersKeepInv(w, worker);
    case Crash(worker) => MoveKeepsInv(w, worker, Idle);
    case Restart => RestartKeepsInv(w);
    case Reinject(i) => if i < |w.orders| { ReinjectKeepsInv(w, i); }
  }

  lemma CheckKeepsInv(w: World, worker: nat)
    requires Inv(w)
    ensures Inv(Next(w, Check(worker)))
  {
    if PhaseOf(w, worker).Loaded? {
      var i, attempts := PhaseOf(w, worker).order, PhaseOf(w, worker).attempts;
      assert PhaseOk(w, PhaseOf(w, worker));
      UnblockedIsClear(w.orders, i);
      MoveKeepsInv(w, worker, if BlockedAt(w.orders, i) then Idle else Checked(i, attempts));
    }
  }

  lemma ClaimsKeepInv(w: World, worker: nat)
    requires Inv(w)
    ensures Inv(Next(w, Claim(worker)))
  {
    if PhaseOf(w, worker).Checked? {
      assert PhaseOk(w, PhaseOf(w, worker));
      ClaimKeepsInv(w, worker, PhaseOf(w, worker).order, PhaseOf(w, worker).attempts);
    }
  }

  lemma RenewsKeepInv(w: World, worker: nat)
    requires Inv(w)
    ensures Inv(Next(w, Renew(worker)))
  {
    if PhaseOf(w, worker).Working? {
      assert PhaseOk(w, PhaseOf(w, worker));
      RenewKeepsInv(w, PhaseOf(w, worker).order, PhaseOf(w, worker).claim);
    }
  }

  lemma SettlesKeepInv(w: World, worker: nat, outcome: Outcome)
    requires Inv(w)
    ensures Inv(Next(w, Settle(worker, outcome)))
  {
    if PhaseOf(w, worker).Working? {
      var phase := PhaseOf(w, worker);
      assert PhaseOk(w, phase);
      SettleKeepsInv(w, worker, phase.order, phase.claim, phase.attempts, outcome);
    }
  }

  lemma DefersKeepInv(w: World, worker: nat)
    requires Inv(w)
    ensures Inv(Next(w, Defer(worker)))
  {
    if PhaseOf(w, worker).Working? {
      assert PhaseOk(w, PhaseOf(w, worker));
      DeferKeepsInv(w, worker, PhaseOf(w, worker).order, PhaseOf(w, worker).claim);
    }
  }

  lemma {:induction false} RunOnKeepsInv(w: World, steps: seq<Step>)
    requires Inv(w)
    ensures Inv(RunOn(w, steps))
    decreases |steps|
  {
    if steps != [] {
      RunOnKeepsInv(w, steps[..|steps| - 1]);
      NextKeepsInv(RunOn(w, steps[..|steps| - 1]), steps[|steps| - 1]);
    }
  }

  lemma RunKeepsInv(start: int, steps: seq<Step>)
    ensures Inv(Run(start, steps))
  {
    RunOnKeepsInv(Empty(start), steps);
  }

  // ---- What holds in every run ------------------------------------------------------------------------------------

  /** Each twin's orders settle exactly in queue order: the settlements of a twin, in the order they were committed, are
      a prefix of its queue, and its settled rows are exactly those. */
  lemma OrdersSettleInQueueOrder(start: int, steps: seq<Step>, twin: nat)
    ensures var w := Run(start, steps);
      && (forall k | 0 <= k < |w.settled| :: w.settled[k] < |w.orders|)
      && OfTwin(w.orders, w.settled, twin) == Queue(w.orders, twin, true) <= Queue(w.orders, twin, false)
  {
    RunKeepsInv(start, steps);
    var w := Run(start, steps);
    forall i | 0 <= i < |w.orders| && IsSettled(w.orders[i].status) ensures ClearBelow(w.orders, i) {
      assert RowOk(w.orders[i], w.ledger[i], w.nextClaim);
    }
    SettledIsPrefix(w.orders, twin);
  }

  /** No two orders of one twin are being executed at the same time, and the one that is has only settled orders
      before it. */
  lemma OneOrderInFlight(start: int, steps: seq<Step>, i: nat, j: nat)
    requires i < |Run(start, steps).orders| && j < |Run(start, steps).orders|
    requires Run(start, steps).orders[i].status == Run(start, steps).orders[j].status == Processing
    requires Run(start, steps).orders[i].twin == Run(start, steps).orders[j].twin
    ensures i == j && ClearBelow(Run(start, steps).orders, i)
  {
    RunKeepsInv(start, steps);
    var w := Run(start, steps);
    assert RowOk(w.orders[i], w.ledger[i], w.nextClaim) && RowOk(w.orders[j], w.ledger[j], w.nextClaim);
    assert ClearBelow(w.orders, i) && ClearBelow(w.orders, j);
  }

  /** Executed and noop are final, and no step changes the twin or the position of an order. */
  lemma SettledIsFinal(w: World, step: Step, i: nat)
    requires Inv(w) && i < |w.orders|
    ensures |w.orders| <= |Next(w, step).orders| && Next(w, step).orders[i].twin == w.orders[i].twin
    ensures IsSettled(w.orders[i].status) ==> Next(w, step).orders[i] == w.orders[i]
  {
    assert RowOk(w.orders[i], w.ledger[i], w.nextClaim);
  }

  /** A worker only ever claims an order whose predecessors of the same twin are all settled, at that very instant. */
  lemma ClaimsOnlyTheHead(w: World, worker: nat)
    requires Inv(w) && Next(w, Claim(worker)).nextClaim > w.nextClaim
    ensures PhaseOf(w, worker).Checked? && PhaseOf(w, worker).order < |w.orders|
    ensures ClearBelow(w.orders, PhaseOf(w, worker).order)
  {
    assert PhaseOk(w, PhaseOf(w, worker));
  }

  /** An order leaves its never-claimed state only by a claim, when every earlier order of its twin is settled. */
  lemma FirstClaimIsAtTheHead(w: World, step: Step, i: nat)
    requires Inv(w) && i < |w.orders|
    requires !w.ledger[i].everClaimed && Next(w, step).ledger[i].everClaimed
    ensures step.Claim? && w.orders[i].status == Pending && ClearBelow(w.orders, i)
  {
    assert RowOk(w.orders[i], w.ledger[i], w.nextClaim);
    if step.Claim? {
      ClaimsOnlyTheHead(w, step.worker);
    }
  }

  /** An order is declared dead only by the failure of the worker that holds its claim, and a retryable failure does so
      only from the fifth attempt on, deferred attempts not counted. */
  lemma DeadOnlyByFailure(w: World, step: Step, i: nat)
    requires Inv(w) && i < |w.orders|
    requires w.orders[i].status != Dead && Next(w, step).orders[i].status == Dead
    ensures step.Settle? && step.outcome.Failure?
    ensures PhaseOf(w, step.worker).Working? && w.orders[i].claimedBy == Some(PhaseOf(w, step.worker).claim)
    ensures step.outcome.retryable ==> w.ledger[i].claims - w.ledger[i].deferrals >= MAX_ATTEMPTS
  {
    assert RowOk(w.orders[i], w.ledger[i], w.nextClaim);
    if step.Settle? && PhaseOf(w, step.worker).Working? {
      assert PhaseOk(w, PhaseOf(w, step.worker));
    }
  }

  /** The worker holds the claim of order i. */
  predicate Holds(w: World, worker: nat, i: nat) {
    && i < |w.orders| && PhaseOf(w, worker).Working? && PhaseOf(w, worker).order == i
    && w.orders[i].claimedBy == Some(PhaseOf(w, worker).claim)
  }

  lemma HolderKnowsAttempts(w: World, worker: nat, i: nat)
    requires Inv(w) && Holds(w, worker, i)
    ensures PhaseOf(w, worker).attempts == w.orders[i].attempts && w.orders[i].status == Processing
  {
    assert PhaseOk(w, PhaseOf(w, worker)) && RowOk(w.orders[i], w.ledger[i], w.nextClaim);
  }

  /** Exactly which outcome of a held claim leaves which status: executed and noop stand for a change that was written
      or needs no writing, held for one an operator must look at, and a failure may be retried until the fifth
      attempt. */
  lemma SettlesAsIff(w: World, worker: nat, outcome: Outcome, i: nat)
    requires Inv(w) && Holds(w, worker, i)
    ensures var after := Next(w, Settle(worker, outcome)).orders[i];
      && after == w.orders[i].(status := after.status, claimedBy := None, claimExpires := None)
      && (after.status == Executed <==> outcome == Succeeded)
      && (after.status == Noop <==> outcome == NothingToDo)
      && (after.status == Held <==> outcome == NeedsOperator)
      && (after.status == Failed <==> outcome == Failure(true) && w.orders[i].attempts < 5)
      && (after.status == Dead <==> outcome.Failure? && (outcome.retryable ==> w.orders[i].attempts >= 5))
  {
    HolderKnowsAttempts(w, worker, i);
  }

  /** A step changes the status of an order exactly as follows: its holder settles it, defers it back to pending, the
      start-up fails an expired claim, an operator re-injects a dead or held one, or a worker claims it. */
  lemma StatusChangesIff(w: World, step: Step, i: nat)
    requires Inv(w) && i < |w.orders|
    ensures var before, after := w.orders[i], Next(w, step).orders[i];
      after.status != before.status <==>
        || (step.Settle? && Holds(w, step.worker, i))
        || (step.Defer? && Holds(w, step.worker, i))
        || (step == Restart && before.status == Processing
            && (before.claimExpires.None? || before.claimExpires.value <= w.now))
        || (step == Reinject(i) && (before.status == Dead || before.status == Held))
        || (step.Claim? && PhaseOf(w, step.worker) == Checked(i, before.attempts)
            && (before.status == Pending || before.status == Failed))
  {
    assert RowOk(w.orders[i], w.ledger[i], w.nextClaim);
    if step.Settle? && Holds(w, step.worker, i) {
      SettlesAsIff(w, step.worker, step.outcome, i);
      HolderKnowsAttempts(w, step.worker, i);
    }
  }

  lemma StatusChangesTo(w: World, step: Step, i: nat)
    requires Inv(w) && i < |w.orders|
    ensures var before, after := w.orders[i], Next(w, step).orders[i];
      && (step.Defer? && Holds(w, step.worker, i) ==>
            after == before.(status := Pending, attempts := before.attempts - 1, claimedBy := None,
                             claimExpires := None))
      && (step == Restart && before.status == Processing && after.status != Processing ==>
            after == before.(status := Failed, claimedBy := None, claimExpires := None))
      && (step == Reinject(i) && after.status != before.status ==>
            after == before.(status := Pending, attempts := 0, claimedBy := None, claimExpires := None))
      && (step.Claim? && after.claimedBy != before.claimedBy ==>
            after == before.(status := Processing, attempts := before.attempts + 1, claimedBy := Some(w.nextClaim),
                             claimExpires := Some(w.now + 120_000)))
  {
    assert RowOk(w.orders[i], w.ledger[i], w.nextClaim);
  }

  /** The heartbeat of the holder extends its claim by two minutes, and touches nothing else. */
  lemma RenewsAs(w: World, worker: nat, i: nat)
    requires Inv(w) && i < |w.orders|
    ensures Holds(w, worker, i) ==>
      Next(w, Renew(worker)) == w.(orders := w.orders[i := w.orders[i].(claimExpires := Some(w.now + 120_000))])
    ensures !Holds(w, worker, i) ==> Next(w, Renew(worker)).orders[i] == w.orders[i]
  {
    if Holds(w, worker, i) {
      HolderKnowsAttempts(w, worker, i);
      assert w.ledger[i := w.ledger[i]] == w.ledger;
    }
  }

  /** Pausing or activating a connector, and the passing of time, touch no order; a new one waits at the end. */
  lemma OtherStepsAs(w: World, connector: nat, ready: bool, twin: nat, ms: nat)
    requires |w.orders| == |w.ledger|
    ensures Next(w, Connect(connector, ready)) == w.(ready := Next(w, Connect(connector, ready)).ready)
    ensures forall c :: c in Next(w, Connect(connector, ready)).ready
                        <==> if c == connector then ready else c in w.ready
    ensures Next(w, Tick(ms)) == w.(now := w.now + ms)
    ensures Next(w, InsertOrder(twin, connector)).orders
         == w.orders + [Order(twin, connector, Pending, 0, None, None)]
  {
  }

  /** What the ledger counts: claims of the order, deferrals of it, and claims of it that another claim or a start-up
      found expired. Re-injection starts over. */
  lemma LedgerCounts(w: World, step: Step, i: nat)
    requires Inv(w) && i < |w.orders|
    ensures var next := Next(w, step);
      var h, after := w.ledger[i], next.ledger[i];
      var taken := step.Claim? && next.orders[i].claimedBy != w.orders[i].claimedBy;
      var failed := step == Restart && next.orders[i].status != w.orders[i].status;
      var reset := step == Reinject(i) && next.orders[i].status != w.orders[i].status;
      && (reset ==> after == History(0, 0, 0, h.everClaimed))
      && (!reset ==>
            && after.claims == h.claims + (if taken then 1 else 0)
            && after.deferrals == h.deferrals + (if step.Defer? && Holds(w, step.worker, i) then 1 else 0)
            && after.lapses == h.lapses + (if failed || (taken && w.orders[i].status == Processing) then 1 else 0)
            && (after.everClaimed <==> h.everClaimed || taken))
  {
    assert RowOk(w.orders[i], w.ledger[i], w.nextClaim);
  }

  /** In every run an order becomes executed or noop only when the worker that holds it settles a change that was
      written or had nothing to write. */
  lemma SettledOnlyByOutcome(start: int, steps: seq<Step>, step: Step, i: nat)
    requires i < |Run(start, steps).orders|
    ensures var w := Run(start, steps);
      var before, after := w.orders[i].status, Next(w, step).orders[i].status;
      && (before != Executed && after == Executed
          <==> step.Settle? && step.outcome == Succeeded && Holds(w, step.worker, i))
      && (before != Noop && after == Noop
          <==> step.Settle? && step.outcome == NothingToDo && Holds(w, step.worker, i))
      && (before != Held && after == Held
          <==> step.Settle? && step.outcome == NeedsOperator && Holds(w, step.worker, i))
  {
    RunKeepsInv(start, steps);
    var w := Run(start, steps);
    StatusChangesIff(w, step, i);
    StatusChangesTo(w, step, i);
    if step.Settle? && Holds(w, step.worker, i) {
      SettlesAsIff(w, step.worker, step.outcome, i);
      HolderKnowsAttempts(w, step.worker, i);
    }
  }

  /** In every run an order that is neither executed nor noop, held and dead ones included, keeps every later order of
      its twin blocked: none is in processing, and no step takes one. */
  lemma OpenOrderBlocksLater(start: int, steps: seq<Step>, step: Step, i: nat, j: nat)
    requires i < j < |Run(start, steps).orders|
    requires var orders := Run(start, steps).orders;
      orders[i].twin == orders[j].twin && orders[i].status != Executed && orders[i].status != Noop
    ensures var w := Run(start, steps);
      && BlockedAt(w.orders, j) && w.orders[j].status != Processing
      && Next(w, step).orders[j].status != Processing
  {
    RunKeepsInv(start, steps);
    var w := Run(start, steps);
    assert RowOk(w.orders[j], w.ledger[j], w.nextClaim) && !ClearBelow(w.orders, j);
    StatusChangesIff(w, step, j);
    UnblockedIsClear(w.orders, j);
    if step.Claim? {
      assert PhaseOk(w, PhaseOf(w, step.worker));
    }
    if step.Settle? || step.Defer? {
      assert !Holds(w, step.worker, j);
    }
  }

  /** While its lease runs, a claim ends only by the worker that holds it: nobody takes the order over. */
  lemma LiveClaimIsExclusive(w: World, step: Step, i: nat)
    requires Inv(w) && i < |w.orders| && w.orders[i].status == Processing
    requires w.orders[i].claimExpires.Some? && w.now < w.orders[i].claimExpires.value
    requires Next(w, step).orders[i].claimedBy != w.orders[i].claimedBy
    ensures step.Settle? || step.Defer?
    ensures PhaseOf(w, step.worker).Working? && PhaseOf(w, step.worker).order == i
    ensures w.orders[i].claimedBy == Some(PhaseOf(w, step.worker).claim)
  {
    assert RowOk(w.orders[i], w.ledger[i], w.nextClaim);
  }

  /** The attempts of an order are its claims less its deferrals since it was last injected. They exceed five by no
      more than the number of its claims that lapsed, and one that waits has an attempt left. */
  lemma AttemptsAreBounded(start: int, steps: seq<Step>, i: nat)
    requires i < |Run(start, steps).orders|
    ensures var w := Run(start, steps);
      var order, h := w.orders[i], w.ledger[i];
      && order.attempts == h.claims - h.deferrals
      && order.attempts <= MAX_ATTEMPTS + h.lapses
      && (order.status == Pending || order.status == Failed ==> order.attempts < MAX_ATTEMPTS + h.lapses)
  {
    RunKeepsInv(start, steps);
    var w := Run(start, steps);
    assert RowOk(w.orders[i], w.ledger[i], w.nextClaim);
  }

  lemma IdleStays(w: World, worker: nat)
    requires |w.orders| == |w.ledger| && PhaseOf(w, worker).Idle?
    ensures Next(w, Check(worker)) == w && Next(w, Claim(worker)) == w
  {
  }

  lemma LoadTakes(w: World, worker: nat, i: nat)
    requires |w.orders| == |w.ledger| && i < |w.orders| && PhaseOf(w, worker).Idle?
    ensures Next(w, Load(worker, i)) == if Claimable(w.orders[i], w.now) && w.orders[i].connector in w.ready
                                       then GoTo(w, worker, Loaded(i, w.orders[i].attempts)) else w
  {
  }

  lemma CheckPasses(w: World, worker: nat, i: nat)
    requires |w.orders| == |w.ledger| && i < |w.orders| && PhaseOf(w, worker) == Loaded(i, w.orders[i].attempts)
    ensures Next(w, Check(worker))
         == GoTo(w, worker, if BlockedAt(w.orders, i) then Idle else Checked(i, w.orders[i].attempts))
  {
  }

  lemma ClaimSucceeds(w: World, worker: nat, i: nat)
    requires |w.orders| == |w.ledger| && i < |w.orders| && PhaseOf(w, worker) == Checked(i, w.orders[i].attempts)
    requires Claimable(w.orders[i], w.now)
    ensures Next(w, Claim(worker)).nextClaim == w.nextClaim + 1
  {
  }

  /** An idle worker that runs undisturbed gets an order exactly when its connector is activated and not paused, it is
      claimable, and it is the head of its queue. */
  lemma HeadIsClaimedIff(w: World, worker: nat, i: nat)
    requires Inv(w) && i < |w.orders| && PhaseOf(w, worker).Idle?
    ensures RunOn(w, [Load(worker, i), Check(worker), Claim(worker)]).nextClaim > w.nextClaim
            <==> w.orders[i].connector in w.ready && Claimable(w.orders[i], w.now) && ClearBelow(w.orders, i)
  {
    ThreeSteps(w, [Load(worker, i), Check(worker), Claim(worker)]);
    UnblockedIsClear(w.orders, i);
    LoadTakes(w, worker, i);
    var loaded := Next(w, Load(worker, i));
    if Claimable(w.orders[i], w.now) && w.orders[i].connector in w.ready {
      CheckPasses(loaded, worker, i);
      var checked := Next(loaded, Check(worker));
      if BlockedAt(w.orders, i) {
        IdleStays(checked, worker);
      } else {
        ClaimSucceeds(checked, worker, i);
      }
    } else {
      IdleStays(w, worker);
    }
  }

  /** All step properties hold of every run. */
  lemma EveryStepIsSafe(start: int, steps: seq<Step>, step: Step, i: nat)
    requires i < |Run(start, steps).orders|
    ensures var w, next := Run(start, steps), Next(Run(start, steps), step);
      && |w.orders| <= |next.orders| && next.orders[i].twin == w.orders[i].twin
      && (IsSettled(w.orders[i].status) ==> next.orders[i] == w.orders[i])
      && (!w.ledger[i].everClaimed && next.ledger[i].everClaimed ==> ClearBelow(w.orders, i))
      && (w.orders[i].status != Dead && next.orders[i].status == Dead ==>
            && step.Settle? && step.outcome.Failure?
            && (step.outcome.retryable ==> w.ledger[i].claims - w.ledger[i].deferrals >= MAX_ATTEMPTS))
  {
    RunKeepsInv(start, steps);
    var w := Run(start, steps);
    SettledIsFinal(w, step, i);
    if !w.ledger[i].everClaimed && Next(w, step).ledger[i].everClaimed {
      FirstClaimIsAtTheHead(w, step, i);
    }
    if w.orders[i].status != Dead && Next(w, step).orders[i].status == Dead {
      DeadOnlyByFailure(w, step, i);
    }
  }
}
