/** Two runs of `IngestionQueue` in which the order of a partition breaks: a drain that outlives its sync lease, and a
    correction that names the record a malformed payload left out. */
module IngestionBreaks {
  import opened Wrappers
  import opened IngestionQueue
  import opened IngestionOrder

  function Named(): Identity { Identity(Some(9), Some(7)) }

  function At(status: Status, attempts: nat, next: Option<int>, claim: Option<nat>, expires: Option<int>): Row {
    Row(Key(9, Some(7)), Named(), status, attempts, next, claim, expires)
  }

  // ---- A drain outlives its lease ---------------------------------------------------------------------------------

  /** Two records of one partition are queued and the first worker starts to drain. */
  function Started(): World {
    World(0, [NewRow(9, Named()), NewRow(9, Named())], [false, false], Some(Lease(1, LEASE_MS)),
          map[1 := Draining([])], 0)
  }

  /** It claims the first record and does not answer until its lease and its claim have run out. */
  function Lapsed(): World {
    World(LEASE_MS, [At(Processing, 1, None, Some(0), Some(CLAIM_MS)), NewRow(9, Named())], [true, false],
          Some(Lease(1, LEASE_MS)), map[1 := Working([], 0, 0, 1, CLAIM_MS)], 1)
  }

  /** A second drain takes lease and record over. */
  function TakenOver(): World {
    World(LEASE_MS, [At(Processing, 2, None, Some(1), Some(LEASE_MS + CLAIM_MS)), NewRow(9, Named())], [true, false],
          Some(Lease(2, 2 * LEASE_MS)),
          map[1 := Working([], 0, 0, 1, CLAIM_MS), 2 := Working([], 0, 1, 2, LEASE_MS + CLAIM_MS)], 2)
  }

  /** It completes the first record and claims the second. */
  function Ahead(): World {
    World(LEASE_MS,
          [At(Completed, 2, None, None, None), At(Processing, 1, None, Some(2), Some(LEASE_MS + CLAIM_MS))],
          [true, true], Some(Lease(2, 2 * LEASE_MS)),
          map[1 := Working([], 0, 0, 1, CLAIM_MS), 2 := Working([], 1, 2, 1, LEASE_MS + CLAIM_MS)], 3)
  }

  lemma SameWorld(v: World, w: World)
    requires |v.rows| == |w.rows| == 2 && v.rows[0] == w.rows[0] && v.rows[1] == w.rows[1]
    requires |v.claimed| == |w.claimed| == 2 && v.claimed[0] == w.claimed[0] && v.claimed[1] == w.claimed[1]
    requires v.workers == w.workers && v.lease == w.lease && v.now == w.now && v.nextClaim == w.nextClaim
    ensures v == w
  {
    assert v.rows == w.rows && v.claimed == w.claimed;
  }

  lemma ReachesStarted()
    ensures Run(0, [Accept(9, Named()), Accept(9, Named()), Acquire(1)]) == Started()
  {
    ThreeSteps(Empty(0), Accept(9, Named()), Accept(9, Named()), Acquire(1));
  }

  lemma ReachesLapsed()
    ensures RunOn(Started(), [Query(1, [0]), Claim(1), Tick(LEASE_MS)]) == Lapsed()
  {
    ThreeSteps(Started(), Query(1, [0]), Claim(1), Tick(LEASE_MS));
    var queried := Next(Started(), Query(1, [0]));
    assert queried.workers == map[1 := Draining([0])];
    assert [0 as nat][1..] == [];
    SameWorld(Next(Next(queried, Claim(1)), Tick(LEASE_MS)), Lapsed());
  }

  lemma ReachesTakenOver()
    ensures RunOn(Lapsed(), [Acquire(2), Query(2, [0]), Claim(2)]) == TakenOver()
  {
    ThreeSteps(Lapsed(), Acquire(2), Query(2, [0]), Claim(2));
    var queried := Next(Next(Lapsed(), Acquire(2)), Query(2, [0]));
    assert queried.workers == map[1 := Working([], 0, 0, 1, CLAIM_MS), 2 := Draining([0])];
    assert [0 as nat][1..] == [];
    SameWorld(Next(queried, Claim(2)), TakenOver());
  }

  lemma ReachesAhead()
    ensures RunOn(TakenOver(), [Settle(2, true), Query(2, [1]), Claim(2)]) == Ahead()
  {
    ThreeSteps(TakenOver(), Settle(2, true), Query(2, [1]), Claim(2));
    var queried := Next(Next(TakenOver(), Settle(2, true)), Query(2, [1]));
    assert queried.workers == map[1 := Working([], 0, 0, 1, CLAIM_MS), 2 := Draining([1])];
    assert [1 as nat][1..] == [];
    SameWorld(Next(queried, Claim(2)), Ahead());
  }

  function LateSteps(): seq<Step> {
    [Accept(9, Named()), Accept(9, Named()), Acquire(1)] + [Query(1, [0]), Claim(1), Tick(LEASE_MS)]
    + [Acquire(2), Query(2, [0]), Claim(2)] + [Settle(2, true), Query(2, [1]), Claim(2)]
  }

  /** Then the first drain fails: the second record is in processing while the first is back in retry. */
  lemma LateFailureBreaksOrder()
    ensures var before, after := Run(0, LateSteps()), Run(0, LateSteps() + [Settle(1, false)]);
      && Reopens(before, Settle(1, false)) && !Owns(before, 1)
      && |after.rows| == 2 && after.rows[0].partition == after.rows[1].partition
      && after.rows[0].status == Retry && after.rows[1].status == Processing && !Fifo(after)
  {
    var a := [Accept(9, Named()), Accept(9, Named()), Acquire(1)];
    var b := [Query(1, [0]), Claim(1), Tick(LEASE_MS)];
    var c := [Acquire(2), Query(2, [0]), Claim(2)];
    var d := [Settle(2, true), Query(2, [1]), Claim(2)];
    ReachesStarted();
    ReachesLapsed();
    ReachesTakenOver();
    ReachesAhead();
    RunOnJoins(Empty(0), a, b);
    RunOnJoins(Empty(0), a + b, c);
    RunOnJoins(Empty(0), a + b + c, d);
    RunOnJoins(Empty(0), LateSteps(), [Settle(1, false)]);
    AheadBreaks();
  }

  lemma AheadBreaks()
    ensures var after := RunOn(Ahead(), [Settle(1, false)]);
      && Reopens(Ahead(), Settle(1, false))
      && |after.rows| == 2 && after.rows[0].partition == after.rows[1].partition
      && after.rows[0].status == Retry && after.rows[1].status == Processing && !Fifo(after)
  {
    assert [Settle(1, false)][..0] == [];
    var after := RunOn(Ahead(), [Settle(1, false)]);
    assert after == Next(Ahead(), Settle(1, false));
    assert after.claimed[1] && after.rows[0].status == Retry;
    assert 1 in ClaimedRows(after) && !ClearBelow(after.rows, 1);
  }

  // ---- A correction moves a record --------------------------------------------------------------------------------

  /** A record without a name of its own, then one that has it. */
  function Nameless(): Identity { Identity(Some(9), None) }

  /** The nameless record after n failures; the other one has not been looked at. */
  ghost predicate Failing(w: World, n: nat) {
    && |w.rows| == |w.claimed| == 2 && w.lease.None? && PhaseOf(w, 1).Idle?
    && w.rows[0].partition == Key(9, None) && w.rows[0].identity == Nameless() && w.rows[0].attempts == n
    && w.rows[0].status == (if n == 0 then Pending else if n < MAX_ATTEMPTS then Retry else Dead)
    && (w.rows[0].nextAttempt.Some? ==> w.rows[0].nextAttempt.value <= w.now)
    && w.rows[1] == NewRow(9, Named()) && !w.claimed[1]
  }

  /** One sync that tries the nameless record, and the wait for its next attempt. */
  function Sync(): seq<Step> {
    [Acquire(1), Query(1, [0]), Claim(1)] + [Settle(1, false), Release(1), Tick(MAX_BACKOFF_MS)]
  }

  /** The first half of a sync: the worker claims the one record it queries. */
  ghost predicate WorksOn(w: World, after: World, i: nat) {
    && |after.rows| == |after.claimed| == |w.rows| == |w.claimed| == 2 && i < 2
    && after.rows == w.rows[i := Taken(w.rows[i], w.nextClaim, w.now)] && after.claimed == w.claimed[i := true]
    && after.now == w.now && Owns(after, 1)
    && PhaseOf(after, 1) == Working([], i, w.nextClaim, w.rows[i].attempts + 1, w.now + CLAIM_MS)
  }

  lemma SyncClaims(w: World, i: nat)
    requires |w.rows| == |w.claimed| == 2 && i < 2 && w.lease.None? && PhaseOf(w, 1).Idle? && Due(w.rows, i, w.now)
    ensures WorksOn(w, RunOn(w, [Acquire(1), Query(1, [i]), Claim(1)]), i)
  {
    ThreeSteps(w, Acquire(1), Query(1, [i]), Claim(1));
    var acquired := Next(w, Acquire(1));
    assert AllDue(acquired, [i]);
    assert PhaseOf(Next(acquired, Query(1, [i])), 1) == Draining([i]);
    assert [i][1..] == [];
  }

  lemma SyncEnds(w: World, working: World, i: nat, success: bool, ms: nat)
    requires WorksOn(w, working, i)
    ensures var after := RunOn(working, [Settle(1, success), Release(1), Tick(ms)]);
      && after.rows
         == w.rows[i := Settled(Taken(w.rows[i], w.nextClaim, w.now), success, w.rows[i].attempts + 1, w.now)]
      && after.claimed == w.claimed[i := true] && after.now == w.now + ms
      && after.lease.None? && PhaseOf(after, 1).Idle?
  {
    ThreeSteps(working, Settle(1, success), Release(1), Tick(ms));
  }

  lemma SyncFails(w: World, n: nat)
    requires Failing(w, n) && n < MAX_ATTEMPTS
    ensures Failing(RunOn(w, Sync()), n + 1)
  {
    RunOnJoins(w, [Acquire(1), Query(1, [0]), Claim(1)], [Settle(1, false), Release(1), Tick(MAX_BACKOFF_MS)]);
    SyncClaims(w, 0);
    SyncEnds(w, RunOn(w, [Acquire(1), Query(1, [0]), Claim(1)]), 0, false, MAX_BACKOFF_MS);
    BackoffIsBounded(n + 1);
  }

  lemma {:induction false} BackoffIsBounded(attempt: nat)
    ensures BASE_BACKOFF_MS <= Backoff(attempt) <= MAX_BACKOFF_MS
  {
    if attempt > 1 {
      BackoffIsBounded(attempt - 1);
    }
  }

  function Syncs(n: nat): seq<Step> {
    if n == 0 then [Accept(9, Nameless()), Accept(9, Named())] else Syncs(n - 1) + Sync()
  }

  lemma {:induction false} SyncsFail(n: nat)
    requires n <= MAX_ATTEMPTS
    ensures Failing(Run(0, Syncs(n)), n)
  {
    if n == 0 {
      var s := Syncs(0);
      assert s[..1][..0] == [];
      assert RunOn(Empty(0), s[..1]) == Next(Empty(0), s[0]);
    } else {
      SyncsFail(n - 1);
      RunOnJoins(Empty(0), Syncs(n - 1), Sync());
      SyncFails(Run(0, Syncs(n - 1)), n - 1);
    }
  }

  /** One sync of the other record. */
  function OtherSync(): seq<Step> {
    [Acquire(1), Query(1, [1]), Claim(1)] + [Settle(1, true), Release(1), Tick(0)]
  }

  lemma OtherIsCompleted(w: World, n: nat)
    requires Failing(w, n)
    ensures var after := RunOn(w, OtherSync());
      && |after.rows| == 2 && after.rows[0] == w.rows[0]
      && after.rows[1].status == Completed && after.rows[1].partition == Key(9, Some(7)) && after.claimed[1]
  {
    RunOnJoins(w, [Acquire(1), Query(1, [1]), Claim(1)], [Settle(1, true), Release(1), Tick(0)]);
    SyncClaims(w, 1);
    SyncEnds(w, RunOn(w, [Acquire(1), Query(1, [1]), Claim(1)]), 1, true, 0);
  }

  /** A dead nameless record that gets the name of a later, completed one. */
  lemma NamingBreaksOrder(w: World)
    requires |w.rows| == |w.claimed| == 2 && w.rows[0].status == Dead
    requires w.rows[0].identity == Nameless() && w.rows[0].partition == Key(9, None)
    requires w.rows[1].status == Completed && w.rows[1].partition == Key(9, Some(7)) && w.claimed[1]
    ensures var after := Next(w, Reinject(0, Named()));
      && Moves(w, Reinject(0, Named()))
      && |after.rows| == 2 && after.rows[0].partition == after.rows[1].partition
      && after.rows[0].status == Pending && after.rows[1].status == Completed && !Fifo(after)
  {
    var after := Next(w, Reinject(0, Named()));
    assert after.claimed[1] && after.rows[0].partition == after.rows[1].partition;
    assert 1 in ClaimedRows(after) && !ClearBelow(after.rows, 1);
  }

  /** After `failures` syncs the nameless record is dead, and one more sync completes the other one; then an operator
      names the first. No worker is late, yet an earlier record of the partition is pending behind a completed one. */
  lemma CorrectionBreaksOrder(failures: nat)
    requires failures == MAX_ATTEMPTS
    ensures var steps := Syncs(failures) + OtherSync();
      var before, after := Run(0, steps), Run(0, steps + [Reinject(0, Named())]);
      && Moves(before, Reinject(0, Named()))
      && |after.rows| == 2 && after.rows[0].partition == after.rows[1].partition
      && after.rows[0].status == Pending && after.rows[1].status == Completed && !Fifo(after)
  {
    var steps := Syncs(failures) + OtherSync();
    SyncsFail(failures);
    OtherIsCompleted(Run(0, Syncs(failures)), failures);
    RunOnJoins(Empty(0), Syncs(failures), OtherSync());
    NamingBreaksOrder(Run(0, steps));
    OneMore(Empty(0), steps, Reinject(0, Named()));
  }

  lemma OneMore(w: World, steps: seq<Step>, step: Step)
    requires |w.rows| == |w.claimed|
    ensures RunOn(w, steps + [step]) == Next(RunOn(w, steps), step)
  {
    assert (steps + [step])[..|steps|] == steps;
  }
}
