/** When the order of `IngestionOrder` holds: a drain that settles its records within its sync lease, or within its
    claims, never reopens one, and re-injecting a record whose payload names its type and itself never moves it. */
module IngestionLeases {
  import opened Wrappers
  import opened IngestionQueue
  import opened IngestionOrder

  /** A worker settles while it holds the sync lease, and the lease has not run out. */
  predicate InLease(w: World, step: Step) {
    step.Settle? && PhaseOf(w, step.worker).Working? ==> Owns(w, step.worker) && w.now < w.lease.value.expires
  }

  /** A worker settles before its claim has run out. */
  predicate InClaim(w: World, step: Step) {
    step.Settle? && PhaseOf(w, step.worker).Working? ==> w.now < PhaseOf(w, step.worker).deadline
  }

  /** Only records whose dead payload names both the artifact type and the record are re-injected. */
  predicate NamesBoth(w: World, step: Step) {
    step.Reinject? && step.row < |w.rows| ==> IsNamed(w.rows[step.row].identity)
  }

  predicate IsNamed(identity: Identity) {
    identity.artifact.Some? && identity.external.Some?
  }

  /** A condition on every step of a run. */
  ghost predicate Throughout(w: World, steps: seq<Step>, ok: (World, Step) -> bool)
    requires |w.rows| == |w.claimed|
    decreases |steps|
  {
    steps == [] || (Throughout(w, steps[..|steps| - 1], ok)
                    && ok(RunOn(w, steps[..|steps| - 1]), steps[|steps| - 1]))
  }

  // ---- Corrections ------------------------------------------------------------------------------------------------

  /** A record that names both is in the partition of these names. */
  ghost predicate KeysMatch(w: World) {
    forall i | 0 <= i < |w.rows| && IsNamed(w.rows[i].identity) ::
      w.rows[i].partition == Key(w.rows[i].identity.artifact.value, w.rows[i].identity.external)
  }

  lemma NextKeepsKeys(w: World, step: Step)
    requires Sane(w) && KeysMatch(w)
    ensures KeysMatch(Next(w, step))
  {
    forall i | 0 <= i < |Next(w, step).rows| && IsNamed(Next(w, step).rows[i].identity)
      ensures var row := Next(w, step).rows[i]; row.partition == Key(row.identity.artifact.value, row.identity.external)
    {
      if i < |w.rows| && IsNamed(w.rows[i].identity) {
        assert w.rows[i].partition == Key(w.rows[i].identity.artifact.value, w.rows[i].identity.external);
      }
    }
  }

  lemma NamedStays(w: World, step: Step)
    requires KeysMatch(w) && NamesBoth(w, step)
    ensures !Moves(w, step)
  {
    if step.Reinject? && step.row < |w.rows| {
      assert IsNamed(w.rows[step.row].identity);
    }
  }

  lemma {:induction false} RunKeepsKeys(w: World, steps: seq<Step>)
    requires Sane(w) && KeysMatch(w)
    ensures KeysMatch(RunOn(w, steps))
    decreases |steps|
  {
    if steps != [] {
      RunKeepsKeys(w, steps[..|steps| - 1]);
      RunIsSane(w, steps[..|steps| - 1]);
      NextKeepsKeys(RunOn(w, steps[..|steps| - 1]), steps[|steps| - 1]);
    }
  }

  /** In every run re-injecting such a record leaves it in its partition, whatever the correction is. */
  lemma NamedNeverMoves(start: int, steps: seq<Step>, step: Step)
    requires NamesBoth(Run(start, steps), step)
    ensures !Moves(Run(start, steps), step)
  {
    RunKeepsKeys(Empty(start), steps);
    NamedStays(Run(start, steps), step);
  }

  // ---- Within the lease -------------------------------------------------------------------------------------------

  /** What the holder of the lease works on has not been completed by another worker. */
  ghost predicate HolderIsAlone(w: World) {
    forall worker | worker in w.workers && Owns(w, worker) && w.workers[worker].Working? ::
      w.workers[worker].row < |w.rows| ==> w.rows[w.workers[worker].row].status != Completed
  }

  lemma NextKeepsHolderAlone(w: World, step: Step)
    requires Sane(w) && HolderIsAlone(w) && InLease(w, step)
    ensures HolderIsAlone(Next(w, step)) && !Reopens(w, step)
  {
  }

  lemma {:induction false} LeaseRun(w: World, steps: seq<Step>)
    requires Sane(w) && KeysMatch(w) && HolderIsAlone(w)
    requires Throughout(w, steps, InLease) && Throughout(w, steps, NamesBoth)
    ensures HolderIsAlone(RunOn(w, steps)) && NeverOvertakes(w, steps)
    decreases |steps|
  {
    if steps != [] {
      var before := steps[..|steps| - 1];
      LeaseRun(w, before);
      RunIsSane(w, before);
      RunKeepsKeys(w, before);
      NamedStays(RunOn(w, before), steps[|steps| - 1]);
      NextKeepsHolderAlone(RunOn(w, before), steps[|steps| - 1]);
    }
  }

  /** As long as every record is settled within the sync lease of its drain, and only records that name both are
      re-injected, the order holds all along. */
  lemma OrderHoldsWithinLeases(start: int, steps: seq<Step>)
    requires Throughout(Empty(start), steps, InLease)
    requires Throughout(Empty(start), steps, NamesBoth)
    ensures AlwaysOrdered(Empty(start), steps) && Fifo(Run(start, steps))
  {
    LeaseRun(Empty(start), steps);
    IngestionIsFifoIff(start, steps);
  }

  // ---- Within the claims ------------------------------------------------------------------------------------------

  /** A claim that has not run out is the one stored with its record. */
  ghost predicate ClaimStored(w: World, phase: Phase) {
    phase.Working? && w.now < phase.deadline ==>
      && phase.row < |w.rows|
      && w.rows[phase.row].claimedBy == Some(phase.claim) && w.rows[phase.row].claimExpires == Some(phase.deadline)
  }

  ghost predicate ClaimsHold(w: World) {
    && (forall worker | worker in w.workers :: ClaimStored(w, w.workers[worker]))
    && forall a, b | a in w.workers && b in w.workers && a != b && w.workers[a].Working? && w.workers[b].Working? ::
         w.workers[a].claim != w.workers[b].claim
  }

  /** Who works after a step worked before under the same claim, or has just claimed. */
  lemma WorkBeginsWithClaim(w: World, step: Step, worker: nat)
    requires Sane(w) && worker in Next(w, step).workers && Next(w, step).workers[worker].Working?
    ensures (worker in w.workers && w.workers[worker] == Next(w, step).workers[worker])
            || (step.Claim? && step.worker == worker && Next(w, step).workers[worker].claim == w.nextClaim)
  {
  }

  lemma ClaimsStayApart(w: World, step: Step, a: nat, b: nat)
    requires Sane(w) && ClaimsHold(w) && a in Next(w, step).workers && b in Next(w, step).workers && a != b
    requires Next(w, step).workers[a].Working? && Next(w, step).workers[b].Working?
    ensures Next(w, step).workers[a].claim != Next(w, step).workers[b].claim
  {
    WorkBeginsWithClaim(w, step, a);
    WorkBeginsWithClaim(w, step, b);
    assert a in w.workers ==> PhaseOk(w, w.workers[a]);
    assert b in w.workers ==> PhaseOk(w, w.workers[b]);
  }

  /** Another worker's settling or deferral leaves a stored claim alone: it holds another claim, so another record. */
  lemma OthersLeaveClaim(w: World, step: Step, phase: Phase)
    requires Sane(w) && ClaimsHold(w) && InClaim(w, step) && (step.Settle? || step.Defer?)
    requires ClaimStored(w, phase) && phase.Working?
    requires PhaseOf(w, step.worker).Working? ==> PhaseOf(w, step.worker).claim != phase.claim
    ensures ClaimStored(Next(w, step), phase)
  {
    assert ClaimStored(w, PhaseOf(w, step.worker));
  }

  /** A claim takes no record whose stored claim has not run out, and stores the one it takes. */
  lemma ClaimsAreStored(w: World, claimer: nat, worker: nat)
    requires Sane(w) && ClaimsHold(w) && worker in Next(w, Claim(claimer)).workers
    ensures ClaimStored(Next(w, Claim(claimer)), Next(w, Claim(claimer)).workers[worker])
  {
    assert ClaimStored(w, PhaseOf(w, worker));
  }

  lemma OtherStepsLeaveClaim(w: World, step: Step, worker: nat)
    requires Sane(w) && ClaimsHold(w) && worker in Next(w, step).workers
    requires !step.Settle? && !step.Defer? && !step.Claim?
    ensures ClaimStored(Next(w, step), Next(w, step).workers[worker])
  {
    assert ClaimStored(w, PhaseOf(w, worker));
  }

  lemma ClaimStaysStored(w: World, step: Step, worker: nat)
    requires Sane(w) && ClaimsHold(w) && InClaim(w, step) && worker in Next(w, step).workers
    ensures ClaimStored(Next(w, step), Next(w, step).workers[worker])
  {
    if step.Claim? {
      ClaimsAreStored(w, step.worker, worker);
    } else if step.Settle? || step.Defer? {
      var phase := PhaseOf(w, worker);
      assert ClaimStored(w, phase);
      if step.worker != worker && phase.Working? {
        OthersLeaveClaim(w, step, phase);
      }
    } else {
      OtherStepsLeaveClaim(w, step, worker);
    }
  }

  lemma NextKeepsClaims(w: World, step: Step)
    requires Sane(w) && ClaimsHold(w) && InClaim(w, step)
    ensures ClaimsHold(Next(w, step)) && !Reopens(w, step)
  {
    var after := Next(w, step);
    forall worker | worker in after.workers ensures ClaimStored(after, after.workers[worker]) {
      ClaimStaysStored(w, step, worker);
    }
    forall a, b | a in after.workers && b in after.workers && a != b
                  && after.workers[a].Working? && after.workers[b].Working?
      ensures after.workers[a].claim != after.workers[b].claim
    {
      ClaimsStayApart(w, step, a, b);
    }
    if step.Settle? {
      assert ClaimStored(w, PhaseOf(w, step.worker));
    }
  }

  lemma {:induction false} ClaimRun(w: World, steps: seq<Step>)
    requires Sane(w) && KeysMatch(w) && ClaimsHold(w)
    requires Throughout(w, steps, InClaim) && Throughout(w, steps, NamesBoth)
    ensures ClaimsHold(RunOn(w, steps)) && NeverOvertakes(w, steps)
    decreases |steps|
  {
    if steps != [] {
      var before := steps[..|steps| - 1];
      ClaimRun(w, before);
      RunIsSane(w, before);
      RunKeepsKeys(w, before);
      NamedStays(RunOn(w, before), steps[|steps| - 1]);
      NextKeepsClaims(RunOn(w, before), steps[|steps| - 1]);
    }
  }

  /** The same for every record settled before its claim has run out. */
  lemma OrderHoldsWithinClaims(start: int, steps: seq<Step>)
    requires Throughout(Empty(start), steps, InClaim)
    requires Throughout(Empty(start), steps, NamesBoth)
    ensures AlwaysOrdered(Empty(start), steps) && Fifo(Run(start, steps))
  {
    ClaimRun(Empty(start), steps);
    IngestionIsFifoIff(start, steps);
  }
}
