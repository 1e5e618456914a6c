/** The order of the ingestion queue over every run of `IngestionQueue`: exactly which steps break it. */
module IngestionOrder {
  import opened Wrappers
  import opened IngestionQueue

  // ---- The order --------------------------------------------------------------------------------------------------

  ghost function ClaimedRows(w: World): set<nat> {
    set i: nat | i < |w.claimed| && w.claimed[i]
  }

  function BatchOf(phase: Phase): seq<nat> {
    if phase.Idle? then [] else phase.batch
  }

  /** The records some worker has queried and not reached yet. */
  ghost function Queried(w: World): set<nat> {
    set worker, i | worker in w.workers && i in BatchOf(w.workers[worker]) :: i
  }

  /** Every record of the set has only completed records of its partition before it. */
  ghost predicate InOrder(rows: seq<Row>, picked: set<nat>) {
    forall k | k in picked && k < |rows| :: ClearBelow(rows, k)
  }

  /** Records are claimed in the order of their partition. */
  ghost predicate Fifo(w: World) {
    InOrder(w.rows, ClaimedRows(w))
  }

  /** And so are the records about to be claimed: this is what a drain relies on between its query and its claims. */
  ghost predicate Ordered(w: World) {
    InOrder(w.rows, ClaimedRows(w) + Queried(w))
  }

  // ---- What always holds ------------------------------------------------------------------------------------------

  ghost predicate InRange(batch: seq<nat>, n: nat) {
    forall k | 0 <= k < |batch| :: batch[k] < n
  }

  ghost predicate PhaseOk(w: World, phase: Phase) {
    && (!phase.Idle? ==> InRange(phase.batch, |w.rows|))
    && (phase.Working? ==> phase.row < |w.rows| && phase.claim < w.nextClaim)
  }

  ghost predicate Sane(w: World) {
    && |w.rows| == |w.claimed|
    && (forall i | 0 <= i < |w.rows| :: w.rows[i].claimedBy.Some? <==> w.rows[i].status == Processing)
    && (forall i | 0 <= i < |w.rows| && w.rows[i].claimedBy.Some? :: w.rows[i].claimedBy.value < w.nextClaim)
    && (forall worker | worker in w.workers :: PhaseOk(w, w.workers[worker]))
  }

  lemma PhaseStays(w: World, after: World, phase: Phase)
    requires PhaseOk(w, phase) && |w.rows| <= |after.rows| && w.nextClaim <= after.nextClaim
    ensures PhaseOk(after, phase)
  {
  }

  lemma ClaimKeepsPhase(w: World, worker: nat, batch: seq<nat>)
    requires Sane(w) && batch != [] && PhaseOk(w, Draining(batch))
    ensures PhaseOk(ClaimStep(w, worker, batch), ClaimStep(w, worker, batch).workers[worker])
  {
    assert InRange(batch[1..], |w.rows|);
  }

  lemma NextKeepsPhase(w: World, step: Step, worker: nat)
    requires Sane(w) && worker in Next(w, step).workers
    ensures PhaseOk(Next(w, step), Next(w, step).workers[worker])
  {
    var phase := PhaseOf(w, worker);
    assert PhaseOk(w, phase);
    if Next(w, step).workers[worker] == phase {
      PhaseStays(w, Next(w, step), phase);
    } else if step.Claim? {
      ClaimKeepsPhase(w, worker, phase.batch);
    } else if step.Query? {
      forall k | 0 <= k < |step.batch| ensures step.batch[k] < |w.rows| {
        assert step.batch[k] in step.batch;
      }
    }
  }

  lemma NextKeepsRow(w: World, step: Step, i: nat)
    requires Sane(w) && i < |Next(w, step).rows|
    ensures var row := Next(w, step).rows[i];
      (row.claimedBy.Some? <==> row.status == Processing)
      && (row.claimedBy.Some? ==> row.claimedBy.value < Next(w, step).nextClaim)
  {
  }

  lemma NextKeepsSane(w: World, step: Step)
    requires Sane(w)
    ensures Sane(Next(w, step))
  {
    var after := Next(w, step);
    forall worker | worker in after.workers ensures PhaseOk(after, after.workers[worker]) {
      NextKeepsPhase(w, step, worker);
    }
    forall i | 0 <= i < |after.rows|
      ensures after.rows[i].claimedBy.Some? <==> after.rows[i].status == Processing
      ensures after.rows[i].claimedBy.Some? ==> after.rows[i].claimedBy.value < after.nextClaim
    {
      NextKeepsRow(w, step, i);
    }
  }

  lemma {:induction false} RunIsSane(w: World, steps: seq<Step>)
    requires Sane(w)
    ensures Sane(RunOn(w, steps))
    decreases |steps|
  {
    if steps != [] {
      RunIsSane(w, steps[..|steps| - 1]);
      NextKeepsSane(RunOn(w, steps[..|steps| - 1]), steps[|steps| - 1]);
    }
  }

  // ---- One row changes --------------------------------------------------------------------------------------------

  /** An open record `row` at place i stands before a picked one of its partition. */
  ghost predicate Blocked(rows: seq<Row>, i: nat, row: Row, picked: set<nat>) {
    row.status != Completed && exists k | k in picked && i < k < |rows| :: rows[k].partition == row.partition
  }

  /** `row`, picked, would stand at place i behind an open record of its partition. */
  ghost predicate Premature(rows: seq<Row>, i: nat, row: Row, picked: set<nat>)
    requires i < |rows|
  {
    i in picked
    && exists j | 0 <= j < i :: rows[j].partition == row.partition && rows[j].status != Completed
  }

  /** Exactly when a change of one row breaks the order of a set. */
  lemma RowChange(rows: seq<Row>, i: nat, row: Row, picked: set<nat>)
    requires i < |rows| && InOrder(rows, picked)
    ensures InOrder(rows[i := row], picked) <==> !Blocked(rows, i, row, picked) && !Premature(rows, i, row, picked)
  {
    var after := rows[i := row];
    if Blocked(rows, i, row, picked) {
      var k :| k in picked && i < k < |rows| && rows[k].partition == row.partition;
      assert after[i].partition == after[k].partition && !ClearBelow(after, k);
    }
    if Premature(rows, i, row, picked) {
      var j :| 0 <= j < i && rows[j].partition == row.partition && rows[j].status != Completed;
      assert after[j].partition == after[i].partition && !ClearBelow(after, i);
    }
    if !Blocked(rows, i, row, picked) && !Premature(rows, i, row, picked) {
      forall k | k in picked && k < |after| ensures ClearBelow(after, k) {
        assert ClearBelow(rows, k);
        forall j | 0 <= j < k && after[j].partition == after[k].partition ensures after[j].status == Completed {
          if j == i {
            assert rows[k].partition == row.partition;
          } else if k == i {
            assert rows[j].partition == row.partition;
          }
        }
      }
    }
  }

  lemma StaysBehindDone(rows: seq<Row>, i: nat, row: Row, picked: set<nat>)
    requires i < |rows| && InOrder(rows, picked) && row.partition == rows[i].partition
    ensures !Premature(rows, i, row, picked)
  {
    if i in picked {
      assert ClearBelow(rows, i);
    }
  }

  lemma OpenRowIsNotFollowed(rows: seq<Row>, i: nat, row: Row, picked: set<nat>)
    requires i < |rows| && InOrder(rows, picked) && row.partition == rows[i].partition && rows[i].status != Completed
    ensures !Blocked(rows, i, row, picked)
  {
    forall k | k in picked && i < k < |rows| ensures rows[k].partition != row.partition {
      assert ClearBelow(rows, k);
    }
  }

  /** A row that stays in its partition and was open before breaks nothing. */
  lemma OpenRowChange(rows: seq<Row>, i: nat, row: Row, picked: set<nat>)
    requires i < |rows| && InOrder(rows, picked) && row.partition == rows[i].partition
    requires row.status == Completed || rows[i].status != Completed
    ensures InOrder(rows[i := row], picked)
  {
    StaysBehindDone(rows, i, row, picked);
    if row.status != Completed {
      OpenRowIsNotFollowed(rows, i, row, picked);
    }
    RowChange(rows, i, row, picked);
  }

  // ---- The steps that break the order -----------------------------------------------------------------------------

  /** A worker fails on a record that has been completed meanwhile: its settling statement reopens the record. */
  predicate Reopens(w: World, step: Step) {
    && step.Settle? && !step.success
    && PhaseOf(w, step.worker).Working?
    && PhaseOf(w, step.worker).row < |w.rows|
    && w.rows[PhaseOf(w, step.worker).row].status == Completed
  }

  /** Which record leaves `completed`, exactly. */
  lemma CompletedIsLostIff(w: World, step: Step, i: nat)
    requires Sane(w) && i < |w.rows| && w.rows[i].status == Completed
    ensures Next(w, step).rows[i].status != Completed
            <==> Reopens(w, step) && PhaseOf(w, step.worker).row == i
  {
  }

  /** An operator corrects a dead record into another partition. */
  predicate Moves(w: World, step: Step) {
    && step.Reinject? && Accepts(w, step.row, step.corrected)
    && Reinjected(w.rows[step.row], step.corrected).partition != w.rows[step.row].partition
  }

  /** The two ways to break the order of a set of records: reopening one that a picked record of its partition follows,
      or moving one into a partition where a picked record follows it, or where it is picked itself too early. */
  ghost predicate Disturbs(w: World, step: Step, picked: set<nat>) {
    || (Reopens(w, step)
        && Blocked(w.rows, PhaseOf(w, step.worker).row,
                   Settled(w.rows[PhaseOf(w, step.worker).row], false, PhaseOf(w, step.worker).attempt, w.now), picked))
    || (Moves(w, step)
        && var row := Reinjected(w.rows[step.row], step.corrected);
           Blocked(w.rows, step.row, row, picked) || Premature(w.rows, step.row, row, picked))
  }

  lemma SettlesInOrderIff(w: World, worker: nat, success: bool, picked: set<nat>)
    requires Sane(w) && InOrder(w.rows, picked)
    ensures InOrder(Next(w, Settle(worker, success)).rows, picked)
            <==> !Disturbs(w, Settle(worker, success), picked)
  {
    var phase := PhaseOf(w, worker);
    if phase.Working? && phase.row < |w.rows| {
      var row := Settled(w.rows[phase.row], success, phase.attempt, w.now);
      if Reopens(w, Settle(worker, success)) {
        RowChange(w.rows, phase.row, row, picked);
        StaysBehindDone(w.rows, phase.row, row, picked);
      } else {
        OpenRowChange(w.rows, phase.row, row, picked);
      }
    }
  }

  /** Re-injection: a record that changes partition is no longer claimed there, unless it is queried. */
  lemma ReinjectsInOrderIff(w: World, i: nat, corrected: Identity, picked: set<nat>)
    requires Sane(w) && InOrder(w.rows, picked)
    ensures InOrder(Next(w, Reinject(i, corrected)).rows, picked)
            <==> !Disturbs(w, Reinject(i, corrected), picked)
  {
    if Accepts(w, i, corrected) {
      var row := Reinjected(w.rows[i], corrected);
      if Moves(w, Reinject(i, corrected)) {
        RowChange(w.rows, i, row, picked);
      } else {
        OpenRowChange(w.rows, i, row, picked);
      }
    }
  }

  /** All other steps keep the order of every set. */
  lemma OthersKeepOrder(w: World, step: Step, picked: set<nat>)
    requires Sane(w) && InOrder(w.rows, picked) && !step.Settle? && !step.Reinject?
    requires forall k | k in picked :: k < |w.rows|
    ensures InOrder(Next(w, step).rows, picked) && !Disturbs(w, step, picked)
  {
    match step
    case Claim(worker) =>
      var phase := PhaseOf(w, worker);
      if phase.Draining? && phase.batch != [] && phase.batch[0] < |w.rows|
         && Claimable(w.rows[phase.batch[0]], w.now) {
        OpenRowChange(w.rows, phase.batch[0], Taken(w.rows[phase.batch[0]], w.nextClaim, w.now), picked);
      }
    case Defer(worker, until) =>
      var phase := PhaseOf(w, worker);
      if phase.Working? && phase.row < |w.rows| && w.rows[phase.row].claimedBy == Some(phase.claim) {
        OpenRowChange(w.rows, phase.row, Returned(w.rows[phase.row], until), picked);
      }
    case Accept(entityType, identity) => AppendKeepsOrder(w.rows, NewRow(entityType, identity), picked);
    case Restart => ResetKeepsOrder(w, picked);
    case _ =>
  }

  lemma AppendKeepsOrder(rows: seq<Row>, row: Row, picked: set<nat>)
    requires InOrder(rows, picked) && forall k | k in picked :: k < |rows|
    ensures InOrder(rows + [row], picked)
  {
    forall k | k in picked ensures ClearBelow(rows + [row], k) {
      assert ClearBelow(rows, k);
    }
  }

  lemma ResetKeepsOrder(w: World, picked: set<nat>)
    requires |w.rows| == |w.claimed| && InOrder(w.rows, picked)
    ensures InOrder(Next(w, Restart).rows, picked)
  {
    var after := Next(w, Restart).rows;
    forall k | k in picked && k < |after| ensures ClearBelow(after, k) {
      assert ClearBelow(w.rows, k);
    }
  }

  /** A step keeps the order of a set of rows exactly if it does not disturb it. */
  lemma KeepsOrderIff(w: World, step: Step, picked: set<nat>)
    requires Sane(w) && InOrder(w.rows, picked) && forall k | k in picked :: k < |w.rows|
    ensures InOrder(Next(w, step).rows, picked) <==> !Disturbs(w, step, picked)
  {
    match step
    case Settle(worker, success) => SettlesInOrderIff(w, worker, success, picked);
    case Reinject(i, corrected) => ReinjectsInOrderIff(w, i, corrected, picked);
    case _ => OthersKeepOrder(w, step, picked);
  }

  // ---- What is picked ---------------------------------------------------------------------------------------------

  ghost predicate InBatch(w: World, worker: nat, i: nat) {
    worker in w.workers && i in BatchOf(w.workers[worker])
  }

  lemma QueriedIff(w: World, i: nat)
    ensures i in Queried(w) <==> exists worker :: InBatch(w, worker, i)
  {
    if worker :| InBatch(w, worker, i) {
      assert worker in w.workers && i in BatchOf(w.workers[worker]);
    }
    if i in Queried(w) {
      var worker :| worker in w.workers && i in BatchOf(w.workers[worker]);
      assert InBatch(w, worker, i);
    }
  }

  /** The records picked after a step: those picked before, less what a step drops, and what a query adds. */
  ghost predicate PickedIn(w: World, step: Step, i: nat) {
    i in ClaimedRows(w) + Queried(w) || (step.Query? && i in step.batch && AllDue(w, step.batch))
  }

  lemma BatchGrowsByQuery(w: World, step: Step, worker: nat, i: nat)
    requires Sane(w) && InBatch(Next(w, step), worker, i)
    ensures InBatch(w, worker, i) || (step.Query? && i in step.batch && AllDue(w, step.batch))
  {
    var phase := PhaseOf(w, worker);
    if step.Claim? && step.worker == worker && phase.Draining? && phase.batch != [] {
      assert i in phase.batch[1..];
      var k :| 0 <= k < |phase.batch[1..]| && phase.batch[1..][k] == i;
      assert phase.batch[k + 1] == i;
    }
  }

  lemma ClaimedWasPicked(w: World, step: Step, i: nat)
    requires Sane(w) && i in ClaimedRows(Next(w, step))
    ensures i in ClaimedRows(w) + Queried(w)
  {
    assert i < |w.claimed|;
    if w.claimed[i] {
      assert i in ClaimedRows(w);
    } else {
      assert InBatch(w, step.worker, i);
      QueriedIff(w, i);
    }
  }

  lemma PickedGrowsByQuery(w: World, step: Step, i: nat)
    requires Sane(w) && i in ClaimedRows(Next(w, step)) + Queried(Next(w, step))
    ensures PickedIn(w, step, i)
  {
    if i in ClaimedRows(Next(w, step)) {
      ClaimedWasPicked(w, step, i);
    } else {
      QueriedIff(Next(w, step), i);
      var worker :| InBatch(Next(w, step), worker, i);
      BatchGrowsByQuery(w, step, worker, i);
      QueriedIff(w, i);
    }
  }

  /** Only a claim adds to the claimed rows, and only a record that moves leaves them. */
  lemma ClaimsChange(w: World, step: Step, i: nat)
    requires Sane(w) && (step.Settle? || step.Reinject?)
    ensures i in ClaimedRows(Next(w, step)) <==> i in ClaimedRows(w) && !(Moves(w, step) && i == step.row)
  {
    assert i in ClaimedRows(Next(w, step)) <==> i < |Next(w, step).claimed| && Next(w, step).claimed[i];
    assert i in ClaimedRows(w) <==> i < |w.claimed| && w.claimed[i];
  }

  lemma QueriedStays(w: World, step: Step, i: nat)
    requires Sane(w) && (step.Settle? || step.Reinject?)
    ensures i in Queried(Next(w, step)) <==> i in Queried(w)
  {
    var after := Next(w, step);
    QueriedIff(w, i);
    QueriedIff(after, i);
    if worker :| InBatch(w, worker, i) {
      assert InBatch(after, worker, i);
    }
    if worker :| InBatch(after, worker, i) {
      assert InBatch(w, worker, i);
    }
  }

  // ---- Exactly which steps break the order ------------------------------------------------------------------------

  /** The open record a disturbing step leaves at its place. */
  function LeftOpen(w: World, step: Step): (nat, Row)
    requires Reopens(w, step) || Moves(w, step)
  {
    if step.Settle? then
      var phase := PhaseOf(w, step.worker);
      (phase.row, Settled(w.rows[phase.row], false, phase.attempt, w.now))
    else (step.row, Reinjected(w.rows[step.row], step.corrected))
  }

  /** A record is reopened, or moved into a partition, in front of a claimed record. */
  ghost predicate OvertakesClaimed(w: World, step: Step) {
    (Reopens(w, step) || Moves(w, step))
    && Blocked(w.rows, LeftOpen(w, step).0, LeftOpen(w, step).1, ClaimedRows(w))
  }

  /** The same in front of a claimed or queried record; or a queried record is moved behind an open one. */
  ghost predicate Overtakes(w: World, step: Step) {
    (Reopens(w, step) || Moves(w, step))
    && (Blocked(w.rows, LeftOpen(w, step).0, LeftOpen(w, step).1, ClaimedRows(w) + Queried(w))
        || (Moves(w, step) && LeftOpen(w, step).0 < |w.rows|
            && Premature(w.rows, LeftOpen(w, step).0, LeftOpen(w, step).1, Queried(w))))
  }

  lemma SubsetInOrder(rows: seq<Row>, all: set<nat>, some: set<nat>)
    requires InOrder(rows, all) && some <= all
    ensures InOrder(rows, some)
  {
  }

  lemma SameBlocked(rows: seq<Row>, i: nat, row: Row, a: set<nat>, b: set<nat>)
    requires forall k: nat | k > i :: k in a <==> k in b
    ensures Blocked(rows, i, row, a) <==> Blocked(rows, i, row, b)
  {
  }

  lemma PickedInRange(w: World, i: nat)
    requires Sane(w) && i in ClaimedRows(w) + Queried(w)
    ensures i < |w.rows|
  {
    if i in Queried(w) {
      QueriedIff(w, i);
      var worker :| InBatch(w, worker, i);
      assert PhaseOk(w, w.workers[worker]);
    }
  }

  /** While the queried records are in order, a step breaks the order of the claims exactly if it reopens a record, or
      moves one into a partition, in front of a claimed record of that partition. */
  lemma ClaimsInOrderIff(w: World, step: Step)
    requires Sane(w) && Ordered(w)
    ensures Fifo(Next(w, step)) <==> !OvertakesClaimed(w, step)
  {
    var claimed := ClaimedRows(Next(w, step));
    forall i | i in claimed ensures i in ClaimedRows(w) + Queried(w) && i < |w.rows| {
      ClaimedWasPicked(w, step, i);
      PickedInRange(w, i);
    }
    SubsetInOrder(w.rows, ClaimedRows(w) + Queried(w), claimed);
    KeepsOrderIff(w, step, claimed);
    if Reopens(w, step) || Moves(w, step) {
      forall i: nat ensures i in claimed <==> i in ClaimedRows(w) && !(Moves(w, step) && i == step.row) {
        ClaimsChange(w, step, i);
      }
      SameBlocked(w.rows, LeftOpen(w, step).0, LeftOpen(w, step).1, claimed, ClaimedRows(w));
    }
  }

  lemma QueryKeepsOrdered(w: World, worker: nat, batch: seq<nat>)
    requires Sane(w) && Ordered(w)
    ensures Ordered(Next(w, Query(worker, batch)))
  {
    var after := Next(w, Query(worker, batch));
    forall i | i in ClaimedRows(after) + Queried(after) && i < |after.rows| ensures ClearBelow(after.rows, i) {
      PickedGrowsByQuery(w, Query(worker, batch), i);
      if i !in ClaimedRows(w) + Queried(w) {
        assert Due(w.rows, i, w.now);
      }
    }
  }

  /** A step breaks the order exactly if it reopens a record, or moves one into a partition, in front of a record of
      that partition that is claimed or about to be claimed, or moves one that is about to be claimed behind an open
      record. */
  lemma OrderedIff(w: World, step: Step)
    requires Sane(w) && Ordered(w)
    ensures Ordered(Next(w, step)) <==> !Overtakes(w, step)
  {
    if step.Query? {
      QueryKeepsOrdered(w, step.worker, step.batch);
    } else {
      var after := Next(w, step);
      var picked := ClaimedRows(after) + Queried(after);
      forall i | i in picked ensures i in ClaimedRows(w) + Queried(w) && i < |w.rows| {
        PickedGrowsByQuery(w, step, i);
        PickedInRange(w, i);
      }
      SubsetInOrder(w.rows, ClaimedRows(w) + Queried(w), picked);
      KeepsOrderIff(w, step, picked);
      if Reopens(w, step) || Moves(w, step) {
        DisturbsIffOvertakes(w, step, picked);
      }
    }
  }

  lemma DisturbsIffOvertakes(w: World, step: Step, picked: set<nat>)
    requires Sane(w) && Ordered(w) && (Reopens(w, step) || Moves(w, step))
    requires picked == ClaimedRows(Next(w, step)) + Queried(Next(w, step))
    ensures Disturbs(w, step, picked) <==> Overtakes(w, step)
  {
    var i := LeftOpen(w, step).0;
    forall k: nat
      ensures k in picked <==> k in Queried(w) || (k in ClaimedRows(w) && !(Moves(w, step) && k == step.row))
    {
      ClaimsChange(w, step, k);
      QueriedStays(w, step, k);
    }
    SameBlocked(w.rows, i, LeftOpen(w, step).1, picked, ClaimedRows(w) + Queried(w));
  }

  // ---- Runs -------------------------------------------------------------------------------------------------------

  /** No step of the run overtakes. */
  ghost predicate NeverOvertakes(w: World, steps: seq<Step>)
    requires |w.rows| == |w.claimed|
    decreases |steps|
  {
    steps == [] || (NeverOvertakes(w, steps[..|steps| - 1])
                    && !Overtakes(RunOn(w, steps[..|steps| - 1]), steps[|steps| - 1]))
  }

  /** The order holds after every step. */
  ghost predicate AlwaysOrdered(w: World, steps: seq<Step>)
    requires |w.rows| == |w.claimed|
    decreases |steps|
  {
    Ordered(RunOn(w, steps)) && (steps != [] ==> AlwaysOrdered(w, steps[..|steps| - 1]))
  }

  lemma {:induction false} AlwaysOrderedIff(w: World, steps: seq<Step>)
    requires Sane(w) && Ordered(w)
    ensures AlwaysOrdered(w, steps) <==> NeverOvertakes(w, steps)
    decreases |steps|
  {
    if steps != [] {
      var before := steps[..|steps| - 1];
      AlwaysOrderedIff(w, before);
      RunIsSane(w, before);
      if AlwaysOrdered(w, before) {
        OrderedIff(RunOn(w, before), steps[|steps| - 1]);
      }
    }
  }

  lemma EmptyIsFine(start: int)
    ensures Sane(Empty(start)) && Ordered(Empty(start))
  {
  }

  /** From the empty queue, records are claimed and queried in the order of their partition all along exactly if no step
      of the run overtakes. */
  lemma IngestionIsFifoIff(start: int, steps: seq<Step>)
    ensures AlwaysOrdered(Empty(start), steps) <==> NeverOvertakes(Empty(start), steps)
    ensures NeverOvertakes(Empty(start), steps) ==> Fifo(Run(start, steps))
  {
    EmptyIsFine(start);
    AlwaysOrderedIff(Empty(start), steps);
  }
}
