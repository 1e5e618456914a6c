/** The durable governance row of one provider target (src/modules/connectors/rate-governor.ts): a quota window and
    the shedding and probing of an overloaded target. Every transaction is one atomic step; times are milliseconds. */
module RateGovernor {
  import opened Wrappers

  const WINDOW_MS := 60_000
  const PROBE_LEASE_MS := 30_000

  /** The part of a connector's policy the row depends on. */
  datatype Policy = Policy(requestsPerMinute: nat, headroomPercentage: nat, baseBackoffMs: nat, shedAfter: nat)

  datatype Row = Row(
    windowStart: int, used: nat, requestsPerMinute: nat, headroomPercentage: nat,
    sheddingSince: Option<int>, shedUntil: Option<int>, probeOwner: Option<nat>, probeExpires: Option<int>,
    pressureStreak: nat, shedEpisodes: nat, shedRequests: nat)

  datatype Admission = Shed(until: int) | Wait(ms: int) | Admitted(probe: Option<nat>)

  datatype Event = SheddingStarted(until: int) | SheddingEnded(since: int)

  /** The answer of the target, as far as the row is concerned; a retryable failure always carries a delay. */
  datatype Failure = Failure(pressure: bool, retryable: bool, delayMs: nat)

  function Min(a: int, b: int): int { if a < b then a else b }

  function Max(a: int, b: int): int { if a < b then b else a }

  /** A whole number of requests per window, never less than one. */
  function Effective(requestsPerMinute: nat, headroomPercentage: nat): nat {
    Max(1, requestsPerMinute * headroomPercentage / 100)
  }

  /** n requests are within the given percentage of the requests per minute; the first always is. */
  predicate Fits(n: nat, requests: nat, headroom: nat) {
    n <= 1 || 100 * n <= requests * headroom
  }

  lemma EffectiveIff(n: nat, requests: nat, headroom: nat)
    ensures n <= Effective(requests, headroom) <==> Fits(n, requests, headroom)
  {
  }

  datatype SheddingState = Normal | Shedding | Probing

  function StateOf(row: Row, now: int): SheddingState {
    if row.sheddingSince.None? then Normal
    else if row.shedUntil.Some? && row.shedUntil.value > now then Shedding
    else Probing
  }

  predicate ProbeHeld(row: Row, now: int) {
    row.probeOwner.Some? && row.probeExpires.Some? && row.probeExpires.value > now
  }

  // ---- Specification of the transactions ------------------------------------------------------------------------

  /** acquireQuota: what one admission transaction answers and leaves behind. `token` is a fresh probe token. */
  function Acquire(row: Row, now: int, policy: Policy, token: nat): (Row, Admission) {
    var state := StateOf(row, now);
    if state.Shedding? then (row.(shedRequests := row.shedRequests + 1), Shed(row.shedUntil.value))
    else if state.Probing? && ProbeHeld(row, now) then
      (row.(shedRequests := row.shedRequests + 1), Shed(Min(row.probeExpires.value, now + policy.baseBackoffMs)))
    else
      var expired := now >= row.windowStart + WINDOW_MS;
      var used := if expired then 0 else row.used;
      var tightened := row.(
        windowStart := if expired then now else row.windowStart,
        requestsPerMinute := Min(row.requestsPerMinute, policy.requestsPerMinute),
        headroomPercentage := Min(row.headroomPercentage, policy.headroomPercentage));
      if used >= Effective(tightened.requestsPerMinute, tightened.headroomPercentage) then
        (tightened.(used := used), Wait(Max(1, tightened.windowStart + WINDOW_MS - now)))
      else if state.Probing? then
        (tightened.(used := used + 1, probeOwner := Some(token), probeExpires := Some(now + PROBE_LEASE_MS)),
         Admitted(Some(token)))
      else (tightened.(used := used + 1), Admitted(None))
  }

  /** A call is admitted exactly if no episode runs, or one whose pressure has run out and no probe with a running lease
      is out, and the call is the first of its window or within the tightened quota. Otherwise it is shed, without any
      effect on the quota, or told to wait for the end of the window. */
  lemma AdmittedIff(row: Row, now: int, policy: Policy, token: nat)
    ensures var (after, admission) := Acquire(row, now, policy, token);
      var expired := now >= row.windowStart + 60_000;
      var used := if expired then 0 else row.used;
      var requests := if policy.requestsPerMinute < row.requestsPerMinute then policy.requestsPerMinute
                      else row.requestsPerMinute;
      var headroom := if policy.headroomPercentage < row.headroomPercentage then policy.headroomPercentage
                      else row.headroomPercentage;
      var shed := row.sheddingSince.Some?
        && ((row.shedUntil.Some? && now < row.shedUntil.value)
            || (row.probeOwner.Some? && row.probeExpires.Some? && now < row.probeExpires.value));
      && (admission.Shed? <==> shed)
      && (shed ==> after == row.(shedRequests := row.shedRequests + 1))
      && (admission.Admitted? <==> !shed && (used == 0 || 100 * (used + 1) <= requests * headroom))
      && (!shed ==> after.requestsPerMinute == requests && after.headroomPercentage == headroom
                    && after.windowStart == (if expired then now else row.windowStart)
                    && after.used == if admission.Admitted? then used + 1 else used)
      && (admission.Admitted? ==>
            if row.sheddingSince.Some? then
              admission.probe == Some(token) && after.probeOwner == Some(token)
              && after.probeExpires == Some(now + 30_000)
            else admission.probe == None && after.probeOwner == row.probeOwner
                 && after.probeExpires == row.probeExpires)
      && (admission.Wait? ==> admission.ms > 0 && now + admission.ms == row.windowStart + 60_000)
  {
    var expired := now >= row.windowStart + WINDOW_MS;
    var used := if expired then 0 else row.used;
    EffectiveIff(used + 1, Min(row.requestsPerMinute, policy.requestsPerMinute),
                 Min(row.headroomPercentage, policy.headroomPercentage));
  }

  /** recordSuccess, first statement: any success ends a pressure streak. */
  function NoteSuccess(row: Row): Row {
    row.(pressureStreak := 0)
  }

  /** recordSuccess, second transaction: the stored probe, and only it, ends the episode. */
  function ProbeSucceeded(row: Row, probe: nat): (Row, Option<Event>) {
    if row.probeOwner == Some(probe) && row.sheddingSince.Some? then
      (row.(sheddingSince := None, shedUntil := None, probeOwner := None, probeExpires := None),
       Some(SheddingEnded(row.sheddingSince.value)))
    else (row, None)
  }

  /** recordFailure. */
  function Failed(row: Row, now: int, failure: Failure, probe: Option<nat>, policy: Policy): (Row, Option<Event>) {
    var underPressure := failure.pressure && failure.retryable && failure.delayMs > 0;
    var streak := if underPressure then row.pressureStreak + 1 else 0;
    var noted := row.(pressureStreak := streak);
    if !underPressure || (row.sheddingSince.None? && streak < policy.shedAfter) then
      (if probe.Some? && row.probeOwner == probe then noted.(probeOwner := None, probeExpires := None) else noted, None)
    else
      var until := now + failure.delayMs;
      var opening := row.sheddingSince.None?;
      (noted.(
         sheddingSince := if opening then Some(now) else row.sheddingSince,
         shedUntil := if row.shedUntil.None? || row.shedUntil.value < until then Some(until) else row.shedUntil,
         shedEpisodes := row.shedEpisodes + if opening then 1 else 0,
         probeOwner := None, probeExpires := None),
       if opening then Some(SheddingStarted(until)) else None)
  }

  // ---- The row as it is stored ------------------------------------------------------------------------------------

  class GovernanceRow {
    var windowStart: int
    var used: nat
    var requestsPerMinute: nat
    var headroomPercentage: nat
    var sheddingSince: Option<int>
    var shedUntil: Option<int>
    var probeOwner: Option<nat>
    var probeExpires: Option<int>
    var pressureStreak: nat
    var shedEpisodes: nat
    var shedRequests: nat

    function Stored(): Row
      reads this
    {
      Row(windowStart, used, requestsPerMinute, headroomPercentage, sheddingSince, shedUntil, probeOwner, probeExpires,
          pressureStreak, shedEpisodes, shedRequests)
    }

    constructor (now: int, policy: Policy)
      ensures Stored() == Fresh(now, policy)
    {
      windowStart, used := now, 0;
      requestsPerMinute, headroomPercentage := policy.requestsPerMinute, policy.headroomPercentage;
      sheddingSince, shedUntil, probeOwner, probeExpires := None, None, None, None;
      pressureStreak, shedEpisodes, shedRequests := 0, 0, 0;
    }

    /** The UPDATE statements of one admission transaction, in the program's order. */
    method AcquireQuota(now: int, policy: Policy, token: nat) returns (admission: Admission)
      modifies this
      ensures (Stored(), admission) == Acquire(old(Stored()), now, policy, token)
    {
      var shedding := StateOf(Stored(), now);
      if shedding.Shedding? || (shedding.Probing? && ProbeHeld(Stored(), now)) {
        shedRequests := shedRequests + 1;
        return Shed(if shedding.Shedding? then shedUntil.value
                    else Min(probeExpires.value, now + policy.baseBackoffMs));
      }
      var expired := now >= windowStart + WINDOW_MS;
      var usedNow := if expired then 0 else used;
      var start := if expired then now else windowStart;
      var effective := Effective(Min(requestsPerMinute, policy.requestsPerMinute),
                                 Min(headroomPercentage, policy.headroomPercentage));
      var wait := if usedNow >= effective then Max(1, start + WINDOW_MS - now) else 0;
      requestsPerMinute := Min(requestsPerMinute, policy.requestsPerMinute);
      headroomPercentage := Min(headroomPercentage, policy.headroomPercentage);
      windowStart := start;
      used := if wait > 0 then usedNow else usedNow + 1;
      if wait > 0 {
        return Wait(wait);
      }
      if shedding.Probing? {
        probeOwner := Some(token);
        probeExpires := Some(now + PROBE_LEASE_MS);
        return Admitted(Some(token));
      }
      return Admitted(None);
    }

    /** The first statement of recordSuccess. */
    method RecordSuccess()
      modifies this`pressureStreak
      ensures Stored() == NoteSuccess(old(Stored()))
    {
      pressureStreak := 0;
    }

    method RecordProbeSuccess(probe: nat) returns (event: Option<Event>)
      modifies this
      ensures (Stored(), event) == ProbeSucceeded(old(Stored()), probe)
    {
      if probeOwner != Some(probe) || sheddingSince.None? {
        return None;
      }
      event := Some(SheddingEnded(sheddingSince.value));
      sheddingSince, shedUntil, probeOwner, probeExpires := None, None, None, None;
    }

    /** The UPDATE statements of one failure transaction: the streak first, then the probe or the episode. */
    method RecordFailure(now: int, failure: Failure, probe: Option<nat>, policy: Policy) returns (event: Option<Event>)
      modifies this
      ensures (Stored(), event) == Failed(old(Stored()), now, failure, probe, policy)
    {
      var alreadyShedding := sheddingSince.Some?;
      var blockedUntil := if failure.retryable && failure.delayMs > 0 then Some(now + failure.delayMs) else None;
      var underPressure := failure.pressure && blockedUntil.Some?;
      pressureStreak := if underPressure then pressureStreak + 1 else 0;
      if !underPressure || (!alreadyShedding && pressureStreak < policy.shedAfter) {
        if probe.Some? && probeOwner == probe {
          probeOwner, probeExpires := None, None;
        }
        return None;
      }
      if !alreadyShedding {
        sheddingSince := Some(now);
        shedEpisodes := shedEpisodes + 1;
      }
      if shedUntil.None? || shedUntil.value < blockedUntil.value {
        shedUntil := blockedUntil;
      }
      probeOwner, probeExpires := None, None;
      return if alreadyShedding then None else Some(SheddingStarted(blockedUntil.value));
    }
  }

  function Fresh(now: int, policy: Policy): Row {
    Row(now, 0, policy.requestsPerMinute, policy.headroomPercentage, None, None, None, None, 0, 0, 0)
  }

  // ---- Runs -----------------------------------------------------------------------------------------------------

  /** One stored quota window: the instants of its admissions, and the requests per minute and the percentage of them in
      force at the latest one. */
  datatype Window = Window(start: int, admitted: seq<int>, requests: nat, headroom: nat)

  /** An admitted call that has not been answered, or whose success has been noted but not yet credited to its probe. */
  datatype CallState = Sent(probe: bool) | Noted

  /** The row with the clock, the calls that are out, the events committed so far, the instants probes were granted for
      and the windows used. The number of a call is its probe token, if it gets one. */
  datatype World = World(row: Row, now: int, calls: map<nat, CallState>, events: seq<Event>, grants: map<nat, int>,
                         nextToken: nat, windows: seq<Window>)

  /** A transaction reads the clock before it gets the row: `lag` is how long ago. */
  datatype Action =
    | Tick(ms: nat)
    | Call(policy: Policy, lag: nat)
    | SuccessNoted(call: nat)
    | ProbeSuccess(call: nat)
    | CallFailed(call: nat, failure: Failure, policy: Policy, lag: nat)

  function WithEvent(events: seq<Event>, event: Option<Event>): seq<Event> {
    if event.Some? then events + [event.value] else events
  }

  /** The windows after an admission at `now`: a window ends, by the clock reading, WINDOW_MS after it
      started, not before. */
  function WithAdmission(windows: seq<Window>, reading: int, now: int, requests: nat, headroom: nat): seq<Window>
    requires windows != []
  {
    var last := windows[|windows| - 1];
    if reading >= last.start + WINDOW_MS then windows + [Window(reading, [now], requests, headroom)]
    else windows[..|windows| - 1] + [Window(last.start, last.admitted + [now], requests, headroom)]
  }

  function CallStep(w: World, policy: Policy, lag: nat): (next: World)
    requires w.windows != []
    ensures next.windows != []
  {
    var (row, admission) := Acquire(w.row, w.now - lag, policy, w.nextToken);
    if !admission.Admitted? then w.(row := row, nextToken := w.nextToken + 1)
    else
      w.(row := row, nextToken := w.nextToken + 1,
         windows := WithAdmission(w.windows, w.now - lag, w.now, row.requestsPerMinute, row.headroomPercentage),
         calls := w.calls[w.nextToken := Sent(admission.probe.Some?)],
         grants := if admission.probe.Some? then w.grants[w.nextToken := w.now - lag] else w.grants)
  }

  predicate IsSent(w: World, call: nat) {
    call in w.calls && w.calls[call].Sent?
  }

  function TokenOf(w: World, call: nat): Option<nat> {
    if call in w.calls && w.calls[call] == Sent(true) then Some(call) else None
  }

  function FailStep(w: World, call: nat, failure: Failure, policy: Policy, lag: nat): (next: World)
    requires IsSent(w, call)
    ensures next.windows == w.windows
  {
    var (row, event) := Failed(w.row, w.now - lag, failure, TokenOf(w, call), policy);
    w.(row := row, calls := w.calls - {call}, events := WithEvent(w.events, event))
  }

  /** Only a call that was admitted and is still out is answered, and only once. */
  function Next(w: World, action: Action): (next: World)
    requires w.windows != []
    ensures next.windows != []
  {
    match action
    case Tick(ms) => w.(now := w.now + ms)
    case Call(policy, lag) => CallStep(w, policy, lag)
    case SuccessNoted(call) =>
      if !IsSent(w, call) then w
      else w.(row := NoteSuccess(w.row),
              calls := if w.calls[call].probe then w.calls[call := Noted] else w.calls - {call})
    case ProbeSuccess(call) =>
      if call !in w.calls || !w.calls[call].Noted? then w
      else
        var (row, event) := ProbeSucceeded(w.row, call);
        w.(row := row, calls := w.calls - {call}, events := WithEvent(w.events, event))
    case CallFailed(call, failure, policy, lag) =>
      if IsSent(w, call) then FailStep(w, call, failure, policy, lag) else w
  }

  function RunOn(w: World, actions: seq<Action>): (next: World)
    requires w.windows != []
    ensures next.windows != []
    decreases |actions|
  {
    if actions == [] then w else Next(RunOn(w, actions[..|actions| - 1]), actions[|actions| - 1])
  }

  function Initial(start: int, policy: Policy): World {
    World(Fresh(start, policy), start, map[], [], map[], 0,
          [Window(start, [], policy.requestsPerMinute, policy.headroomPercentage)])
  }

  function Run(start: int, policy: Policy, actions: seq<Action>): (w: World)
    ensures w.windows != []
  {
    RunOn(Initial(start, policy), actions)
  }

  /** What each action stores: the row of its transaction, whatever the answer was; an admitted call is out, an answered
      one is not, and the success of a probe is noted before it is credited. */
  lemma ActionsStore(w: World, action: Action)
    requires w.windows != []
    ensures var next := Next(w, action);
      && (action.Tick? ==> next == w.(now := w.now + action.ms))
      && (action.Call? ==>
            var (row, admission) := Acquire(w.row, w.now - action.lag, action.policy, w.nextToken);
            && next.row == row && next.nextToken == w.nextToken + 1 && next.events == w.events && next.now == w.now
            && next.calls == (if admission.Admitted? then w.calls[w.nextToken := Sent(admission.probe.Some?)]
                              else w.calls))
      && (action.SuccessNoted? && IsSent(w, action.call) ==>
            && next.row == w.row.(pressureStreak := 0)
            && next.calls == (if w.calls[action.call] == Sent(true) then w.calls[action.call := Noted]
                              else w.calls - {action.call}))
      && (action.ProbeSuccess? && action.call in w.calls && w.calls[action.call] == Noted ==>
            && next.calls == w.calls - {action.call}
            && (w.row.probeOwner == Some(action.call) && w.row.sheddingSince.Some? ==>
                  next.row == w.row.(sheddingSince := None, shedUntil := None, probeOwner := None,
                                     probeExpires := None))
            && (w.row.probeOwner != Some(action.call) ==> next.row == w.row))
      && (action.CallFailed? && IsSent(w, action.call) ==> next.calls == w.calls - {action.call})
      && ((action.SuccessNoted? || action.CallFailed?) && !IsSent(w, action.call) ==> next == w)
  {
  }

  // ---- Shedding ---------------------------------------------------------------------------------------------------

  /** Started and Ended alternate, beginning with Started. */
  ghost predicate Alternate(events: seq<Event>) {
    forall i | 0 <= i < |events| :: events[i].SheddingStarted? <==> i % 2 == 0
  }

  /** Calls carry a token exactly if one was granted to them. */
  ghost predicate CallsOk(w: World) {
    forall call | call in w.calls ::
      call < w.nextToken && (w.calls[call] == Sent(false) <==> call !in w.grants)
  }

  ghost predicate SheddingInv(w: World) {
    && w.windows != [] && CallsOk(w)
    && (w.row.sheddingSince.Some? <==> w.row.shedUntil.Some?)
    && (w.row.probeOwner.Some? <==> w.row.probeExpires.Some?)
    && (w.row.probeOwner.Some? ==> w.row.sheddingSince.Some?)
    && (forall token | token in w.grants :: token < w.nextToken && w.grants[token] <= w.now)
    // The stored probe was granted after the latest pressure had run out.
    && (w.row.probeOwner.Some? ==>
          && w.row.probeOwner.value in w.grants
          && w.row.shedUntil.value <= w.grants[w.row.probeOwner.value]
          && w.row.probeExpires.value == w.grants[w.row.probeOwner.value] + PROBE_LEASE_MS)
    && Alternate(w.events)
    && (w.row.sheddingSince.Some? <==> |w.events| % 2 == 1)
    && w.row.shedEpisodes == (|w.events| + 1) / 2
  }

  lemma CallKeepsShedding(w: World, policy: Policy, lag: nat)
    requires SheddingInv(w)
    ensures SheddingInv(Next(w, Call(policy, lag)))
  {
  }

  lemma FailureKeepsShedding(w: World, call: nat, failure: Failure, policy: Policy, lag: nat)
    requires SheddingInv(w)
    ensures SheddingInv(Next(w, CallFailed(call, failure, policy, lag)))
  {
  }

  lemma SuccessKeepsShedding(w: World, call: nat)
    requires SheddingInv(w)
    ensures SheddingInv(Next(w, SuccessNoted(call))) && SheddingInv(Next(w, ProbeSuccess(call)))
  {
  }

  lemma NextKeepsShedding(w: World, action: Action)
    requires SheddingInv(w)
    ensures SheddingInv(Next(w, action))
  {
    match action
    case Tick(_) =>
    case Call(policy, lag) => CallKeepsShedding(w, policy, lag);
    case SuccessNoted(call) => SuccessKeepsShedding(w, call);
    case ProbeSuccess(call) => SuccessKeepsShedding(w, call);
    case CallFailed(call, failure, policy, lag) => FailureKeepsShedding(w, call, failure, policy, lag);
  }

  lemma {:induction false} RunOnKeepsShedding(w: World, actions: seq<Action>)
    requires SheddingInv(w)
    ensures SheddingInv(RunOn(w, actions))
    decreases |actions|
  {
    if actions != [] {
      RunOnKeepsShedding(w, actions[..|actions| - 1]);
      NextKeepsShedding(RunOn(w, actions[..|actions| - 1]), actions[|actions| - 1]);
    }
  }

  predicate UnderPressure(failure: Failure) {
    failure.pressure && failure.retryable && failure.delayMs > 0
  }

  /** A call admitted inside an episode is sent after shed_until, while no stored lease runs, with a token of its own
      that becomes the stored one. */
  ghost predicate AdmitsOnlyProbes(w: World, action: Action)
    requires SheddingInv(w)
  {
    action.Call? && w.row.sheddingSince.Some?
    && Acquire(w.row, w.now - action.lag, action.policy, w.nextToken).1.Admitted? ==>
      && w.row.shedUntil.value <= w.now - action.lag
      && !ProbeHeld(w.row, w.now - action.lag)
      && w.nextToken !in w.grants
      && Acquire(w.row, w.now - action.lag, action.policy, w.nextToken).1.probe == Some(w.nextToken)
      && Next(w, action).row.probeOwner == Some(w.nextToken)
  }

  /** The probe whose success is being credited. */
  predicate Succeeds(w: World, action: Action, probe: nat) {
    action.ProbeSuccess? && action.call == probe && probe in w.calls && w.calls[probe].Noted?
  }

  /** Only the success of the stored token ends an episode, and its call was sent after shed_until. */
  ghost predicate EndsOnlyByProbe(w: World, action: Action)
    requires SheddingInv(w)
  {
    w.row.sheddingSince.Some? ==>
      (Next(w, action).row.sheddingSince.None? <==>
         (w.row.probeOwner.Some? && Succeeds(w, action, w.row.probeOwner.value)))
      && (Next(w, action).row.sheddingSince.None? ==>
            && action.call in w.grants && w.row.shedUntil.value <= w.grants[action.call]
            && Next(w, action).events == w.events + [SheddingEnded(w.row.sheddingSince.value)])
  }

  /** While an episode lasts its start stays, its end never moves back, and no event is committed. */
  ghost predicate EpisodeIsSteady(w: World, action: Action)
    requires SheddingInv(w)
  {
    var next := Next(w, action);
    w.row.sheddingSince.Some? && next.row.sheddingSince.Some? ==>
      && next.row.sheddingSince == w.row.sheddingSince
      && next.row.shedUntil.Some? && w.row.shedUntil.value <= next.row.shedUntil.value
      && next.events == w.events
  }

  /** An episode starts exactly with the pressure failure of a call that completes the streak. */
  ghost predicate StartsByPressure(w: World, action: Action)
    requires SheddingInv(w)
  {
    var next := Next(w, action);
    w.row.sheddingSince.None? ==>
      && (next.row.sheddingSince.Some? <==>
            action.CallFailed? && IsSent(w, action.call) && UnderPressure(action.failure)
            && w.row.pressureStreak + 1 >= action.policy.shedAfter)
      && (next.row.sheddingSince.Some? ==>
            && next.row.shedUntil == Some(w.now - action.lag + action.failure.delayMs)
            && next.events == w.events + [SheddingStarted(next.row.shedUntil.value)])
  }

  lemma CallIsSafe(w: World, action: Action)
    requires SheddingInv(w)
    ensures AdmitsOnlyProbes(w, action)
  {
  }

  lemma EpisodeEnds(w: World, action: Action)
    requires SheddingInv(w)
    ensures EndsOnlyByProbe(w, action)
  {
  }

  lemma EpisodeLasts(w: World, action: Action)
    requires SheddingInv(w)
    ensures EpisodeIsSteady(w, action) && StartsByPressure(w, action)
  {
  }

  /** The protocol holds at every step of every run, and the episode counter counts the Started events. */
  lemma SheddingProtocol(start: int, policy: Policy, actions: seq<Action>, action: Action)
    ensures var w := Run(start, policy, actions);
      && SheddingInv(w)
      && AdmitsOnlyProbes(w, action) && EndsOnlyByProbe(w, action)
      && EpisodeIsSteady(w, action) && StartsByPressure(w, action)
      && Alternate(w.events) && w.row.shedEpisodes == (|w.events| + 1) / 2
  {
    RunOnKeepsShedding(Initial(start, policy), actions);
    CallIsSafe(Run(start, policy, actions), action);
    EpisodeEnds(Run(start, policy, actions), action);
    EpisodeLasts(Run(start, policy, actions), action);
  }

  /** How many calls in a row were answered with pressure: retryable, with a delay; any other answer starts over. */
  function Streak(start: int, policy: Policy, actions: seq<Action>): nat {
    if actions == [] then 0
    else
      var w := Run(start, policy, actions[..|actions| - 1]);
      var before := Streak(start, policy, actions[..|actions| - 1]);
      match actions[|actions| - 1]
      case SuccessNoted(call) => if IsSent(w, call) then 0 else before
      case CallFailed(call, failure, _, _) =>
        if !IsSent(w, call) then before
        else if failure.pressure && failure.retryable && failure.delayMs > 0 then before + 1
        else 0
      case _ => before
  }

  lemma {:induction false} StreakIsCounted(start: int, policy: Policy, actions: seq<Action>)
    ensures Run(start, policy, actions).row.pressureStreak == Streak(start, policy, actions)
  {
    if actions != [] {
      StreakIsCounted(start, policy, actions[..|actions| - 1]);
    }
  }

  /** In every run an episode starts exactly with the answer that makes as many pressure answers in a row as the policy
      says: a success in between, or a failure of another kind, starts the count over. */
  lemma ShedsAfterStreak(start: int, policy: Policy, actions: seq<Action>, action: Action)
    requires Run(start, policy, actions).row.sheddingSince.None?
    ensures var w := Run(start, policy, actions);
      Next(w, action).row.sheddingSince.Some? <==>
        && action.CallFailed? && IsSent(w, action.call)
        && action.failure.pressure && action.failure.retryable && action.failure.delayMs > 0
        && Streak(start, policy, actions + [action]) >= action.policy.shedAfter
  {
    SheddingProtocol(start, policy, actions, action);
    StreakIsCounted(start, policy, actions);
    assert (actions + [action])[..|actions|] == actions;
  }

  // ---- How long a probe is alone ----------------------------------------------------------------------------------

  /** The two clauses of recordFailure and the one of recordSuccess that clear the stored probe. */
  predicate Clears(w: World, action: Action, probe: nat) {
    || Succeeds(w, action, probe)
    || (action.CallFailed? && IsSent(w, action.call) && (action.call == probe || UnderPressure(action.failure)))
  }

  /** While its lease runs, the stored probe is dropped exactly by its own answer or by a pressure failure of any
      other call. */
  lemma ProbeIsDroppedIff(w: World, action: Action)
    requires SheddingInv(w) && ProbeHeld(w.row, w.now)
    ensures Next(w, action).row.probeOwner != w.row.probeOwner <==> Clears(w, action, w.row.probeOwner.value)
  {
  }

  /** No step of the run clears the probe. */
  ghost predicate NeverClears(w: World, actions: seq<Action>, probe: nat)
    requires w.windows != []
    decreases |actions|
  {
    actions == [] || (NeverClears(w, actions[..|actions| - 1], probe)
                      && !Clears(RunOn(w, actions[..|actions| - 1]), actions[|actions| - 1], probe))
  }

  /** Until a clearing step, or the lease's end, the probe stays stored and no other call is admitted. */
  lemma {:induction false} ProbeIsAlone(w: World, actions: seq<Action>)
    requires SheddingInv(w) && ProbeHeld(w.row, w.now)
    requires RunOn(w, actions).now < w.row.probeExpires.value
    requires NeverClears(w, actions, w.row.probeOwner.value)
    ensures var after := RunOn(w, actions);
      SheddingInv(after) && after.row.probeOwner == w.row.probeOwner && after.row.probeExpires == w.row.probeExpires
      && after.windows == w.windows && after.grants == w.grants
    decreases |actions|
  {
    if actions != [] {
      var before := RunOn(w, actions[..|actions| - 1]);
      assert before.now <= RunOn(w, actions).now;
      ProbeIsAlone(w, actions[..|actions| - 1]);
      ProbeStays(before, actions[|actions| - 1]);
    }
  }

  lemma ProbeStays(w: World, action: Action)
    requires SheddingInv(w) && ProbeHeld(w.row, w.now) && !Clears(w, action, w.row.probeOwner.value)
    ensures var next := Next(w, action);
      SheddingInv(next) && next.row.probeOwner == w.row.probeOwner && next.row.probeExpires == w.row.probeExpires
      && next.windows == w.windows && next.grants == w.grants
  {
    NextKeepsShedding(w, action);
    ProbeIsDroppedIff(w, action);
  }

  lemma RunStep(w: World, actions: seq<Action>, action: Action)
    requires w.windows != []
    ensures RunOn(w, actions + [action]) == Next(RunOn(w, actions), action)
  {
    assert (actions + [action])[..|actions|] == actions;
  }

  lemma OneAction(w: World, a: Action)
    requires w.windows != []
    ensures RunOn(w, [a]) == Next(w, a)
  {
    assert [a][..0] == [];
  }

  lemma TwoActions(w: World, a: Action, b: Action)
    requires w.windows != []
    ensures RunOn(w, [a, b]) == Next(Next(w, a), b)
  {
    OneAction(w, a);
    RunStep(w, [a], b);
    assert [a] + [b] == [a, b];
  }

  lemma ThreeActions(w: World, a: Action, b: Action, c: Action)
    requires w.windows != []
    ensures RunOn(w, [a, b, c]) == Next(Next(Next(w, a), b), c)
  {
    TwoActions(w, a, b);
    RunStep(w, [a, b], c);
    assert [a, b] + [c] == [a, b, c];
  }

  /** Whether the quota admits a call at an instant. */
  predicate HasQuota(row: Row, reading: int, policy: Policy) {
    || reading >= row.windowStart + WINDOW_MS
    || row.used < Effective(Min(row.requestsPerMinute, policy.requestsPerMinute),
                            Min(row.headroomPercentage, policy.headroomPercentage))
  }

  lemma HasQuotaIff(row: Row, reading: int, policy: Policy)
    ensures HasQuota(row, reading, policy) <==>
      || reading >= row.windowStart + 60_000
      || row.used == 0
      || 100 * (row.used + 1) <= (if policy.requestsPerMinute < row.requestsPerMinute then policy.requestsPerMinute
                                  else row.requestsPerMinute)
                                 * (if policy.headroomPercentage < row.headroomPercentage
                                    then policy.headroomPercentage else row.headroomPercentage)
  {
    EffectiveIff(row.used + 1, Min(row.requestsPerMinute, policy.requestsPerMinute),
                 Min(row.headroomPercentage, policy.headroomPercentage));
  }

  lemma PressureClears(w: World, call: nat, failure: Failure, policy: Policy)
    requires SheddingInv(w) && ProbeHeld(w.row, w.now) && IsSent(w, call) && UnderPressure(failure)
    ensures var row := Next(w, CallFailed(call, failure, policy, 0)).row;
      && row.probeOwner == None && row.sheddingSince.Some? && row.shedUntil == Some(w.now + failure.delayMs)
      && row.windowStart == w.row.windowStart && row.used == w.row.used
      && row.requestsPerMinute == w.row.requestsPerMinute && row.headroomPercentage == w.row.headroomPercentage
  {
  }

  lemma ProbeIsGranted(w: World, policy: Policy)
    requires w.windows != [] && w.row.probeOwner.None? && w.row.sheddingSince.Some?
    requires w.row.shedUntil.Some? && w.row.shedUntil.value <= w.now && HasQuota(w.row, w.now, policy)
    ensures var next := Next(w, Call(policy, 0));
      && next.row.probeOwner == Some(w.nextToken) && next.now == w.now
      && next.grants == w.grants[w.nextToken := w.now] && next.calls == w.calls[w.nextToken := Sent(true)]
  {
  }

  lemma PressureThenProbe(w: World, call: nat, failure: Failure, policy: Policy)
    requires SheddingInv(w) && ProbeHeld(w.row, w.now) && IsSent(w, call) && UnderPressure(failure)
    requires HasQuota(w.row, w.now + failure.delayMs, policy)
    ensures var failed := Next(w, CallFailed(call, failure, policy, 0));
      var after := Next(Next(failed, Tick(failure.delayMs)), Call(policy, 0));
      && after.row.probeOwner == Some(w.nextToken) && after.now == w.now + failure.delayMs
      && after.grants == w.grants[w.nextToken := after.now]
      && after.calls == (w.calls - {call})[w.nextToken := Sent(true)]
  {
    PressureClears(w, call, failure, policy);
    ProbeIsGranted(Next(Next(w, CallFailed(call, failure, policy, 0)), Tick(failure.delayMs)), policy);
  }

  /** The converse: whenever another call is out that fails under pressure with a delay that ends before the lease, and
      quota is left then, the next call gets a second token while the first probe is out and its lease still runs. */
  lemma PressureLetsASecondProbeOut(w: World, call: nat, failure: Failure, policy: Policy)
    requires SheddingInv(w) && ProbeHeld(w.row, w.now) && IsSent(w, call) && call != w.row.probeOwner.value
    requires UnderPressure(failure) && w.now + failure.delayMs < w.row.probeExpires.value
    requires HasQuota(w.row, w.now + failure.delayMs, policy)
    ensures var after := RunOn(w, [CallFailed(call, failure, policy, 0), Tick(failure.delayMs), Call(policy, 0)]);
      && after.row.probeOwner == Some(w.nextToken) && w.nextToken != w.row.probeOwner.value
      && after.now == w.now + failure.delayMs < w.grants[w.row.probeOwner.value] + PROBE_LEASE_MS
      && after.grants == w.grants[w.nextToken := after.now]
      && after.calls == (w.calls - {call})[w.nextToken := Sent(true)]
  {
    PressureThenProbe(w, call, failure, policy);
    ThreeActions(w, CallFailed(call, failure, policy, 0), Tick(failure.delayMs), Call(policy, 0));
  }

  /** A pressure response with a delay of 5 ms. */
  function Overloaded(): Failure {
    Failure(true, true, 5)
  }

  const POLICY := Policy(600, 100, 1000, 1)

  /** Two calls are out, */
  predicate TwoOut(w: World) {
    && w.row == Row(0, 2, 600, 100, None, None, None, None, 0, 0, 0) && w.now == 0
    && w.calls == map[0 := Sent(false), 1 := Sent(false)] && w.grants == map[] && w.nextToken == 2
  }

  /** the first one's failure opens an episode, */
  predicate Opened(w: World) {
    && w.row == Row(0, 2, 600, 100, Some(0), Some(5), None, None, 1, 1, 0) && w.now == 0
    && w.calls == map[1 := Sent(false)] && w.grants == map[] && w.nextToken == 2
  }

  /** and at its end a probe is granted. */
  predicate OneProbe(w: World) {
    && w.row == Row(0, 3, 600, 100, Some(0), Some(5), Some(2), Some(30_005), 1, 1, 0) && w.now == 5
    && w.calls == map[1 := Sent(false), 2 := Sent(true)] && w.grants == map[2 := 5] && w.nextToken == 3
  }

  lemma ReachesTwoOut()
    ensures TwoOut(Next(Next(Initial(0, POLICY), Call(POLICY, 0)), Call(POLICY, 0)))
  {
    var one := Next(Initial(0, POLICY), Call(POLICY, 0));
    assert one.row == Row(0, 1, 600, 100, None, None, None, None, 0, 0, 0) && one.calls == map[0 := Sent(false)];
  }

  lemma ReachesOpened(w: World)
    requires w.windows != [] && TwoOut(w)
    ensures Opened(Next(w, CallFailed(0, Overloaded(), POLICY, 0)))
  {
  }

  lemma ReachesOneProbe(w: World)
    requires w.windows != [] && Opened(w)
    ensures OneProbe(Next(Next(w, Tick(5)), Call(POLICY, 0)))
  {
    ProbeIsGranted(Next(w, Tick(5)), POLICY);
  }

  lemma FirstProbe()
    ensures OneProbe(Run(0, POLICY, [Call(POLICY, 0), Call(POLICY, 0), CallFailed(0, Overloaded(), POLICY, 0)]
                                    + [Tick(5), Call(POLICY, 0)]))
  {
    var start, fail := Initial(0, POLICY), CallFailed(0, Overloaded(), POLICY, 0);
    var shedding := RunOn(start, [Call(POLICY, 0), Call(POLICY, 0), fail]);
    RunJoins(start, [Call(POLICY, 0), Call(POLICY, 0), fail], [Tick(5), Call(POLICY, 0)]);
    ThreeActions(start, Call(POLICY, 0), Call(POLICY, 0), fail);
    ReachesTwoOut();
    ReachesOpened(Next(Next(start, Call(POLICY, 0)), Call(POLICY, 0)));
    TwoActions(shedding, Tick(5), Call(POLICY, 0));
    ReachesOneProbe(shedding);
  }

  lemma {:induction false} RunJoins(w: World, first: seq<Action>, second: seq<Action>)
    requires w.windows != []
    ensures RunOn(w, first + second) == RunOn(RunOn(w, first), second)
    decreases |second|
  {
    if second == [] {
      assert first + second == first;
    } else {
      RunJoins(w, first, second[..|second| - 1]);
      assert (first + second)[..|first + second| - 1] == first + second[..|second| - 1];
    }
  }

  lemma SecondProbe(w: World)
    requires SheddingInv(w) && OneProbe(w)
    ensures var after := RunOn(w, [CallFailed(1, Overloaded(), POLICY, 0), Tick(5), Call(POLICY, 0)]);
      && after.grants == map[2 := 5, 3 := 10] && after.now == 10
      && IsSent(after, 2) && IsSent(after, 3)
  {
    assert HasQuota(w.row, 10, POLICY);
    PressureLetsASecondProbeOut(w, 1, Overloaded(), POLICY);
  }

  /** Such a run: two calls are sent, the first one's failure opens an episode, a probe is granted at its end, the
      second one's failure clears the token, and another probe is granted while the first is still out. */
  lemma TwoProbesAtOnce()
    ensures var opening := [Call(POLICY, 0), Call(POLICY, 0), CallFailed(0, Overloaded(), POLICY, 0)];
      var w := Run(0, POLICY, opening + [Tick(5), Call(POLICY, 0)]
                              + [CallFailed(1, Overloaded(), POLICY, 0), Tick(5), Call(POLICY, 0)]);
      && w.grants == map[2 := 5, 3 := 10] && w.now == 10 < w.grants[2] + PROBE_LEASE_MS
      && IsSent(w, 2) && IsSent(w, 3)
  {
    var opening := [Call(POLICY, 0), Call(POLICY, 0), CallFailed(0, Overloaded(), POLICY, 0)];
    var granted := opening + [Tick(5), Call(POLICY, 0)];
    FirstProbe();
    RunOnKeepsShedding(Initial(0, POLICY), granted);
    RunJoins(Initial(0, POLICY), granted, [CallFailed(1, Overloaded(), POLICY, 0), Tick(5), Call(POLICY, 0)]);
    SecondProbe(Run(0, POLICY, granted));
  }
}
