/** How many calls the quota of the governance row admits over time (src/modules/connectors/rate-governor.ts), in every
    run of `RateGovernor` in which the policy is only ever tightened. */
module RateQuota {
  import opened Wrappers
  import opened RateGovernor

  function LimitIn(window: Window): nat {
    Effective(window.requests, window.headroom)
  }

  /** A window admitted at most the limit in force at its latest admission. It admits while a clock reading, at most
      `slack` old, lies within WINDOW_MS of its start. */
  ghost predicate Within(window: Window, limit: nat, slack: nat, now: int) {
    && |window.admitted| <= LimitIn(window) <= limit
    && window.start <= now
    && forall k | 0 <= k < |window.admitted| ::
         window.start <= window.admitted[k] < window.start + WINDOW_MS + slack && window.admitted[k] <= now
  }

  ghost predicate Spaced(windows: seq<Window>) {
    forall i, j | 0 <= i < j < |windows| :: windows[i].start + WINDOW_MS <= windows[j].start
  }

  /** No call of the run read the clock longer than `slack` before its transaction. */
  predicate LagAtMost(actions: seq<Action>, slack: nat) {
    forall i | 0 <= i < |actions| && actions[i].Call? :: actions[i].lag <= slack
  }

  function LimitOf(row: Row): nat {
    Effective(row.requestsPerMinute, row.headroomPercentage)
  }

  ghost predicate QuotaInv(w: World, limit: nat, slack: nat) {
    && w.windows != []
    && w.windows[|w.windows| - 1].start == w.row.windowStart
    && |w.windows[|w.windows| - 1].admitted| == w.row.used
    && LimitOf(w.row) <= limit
    && Spaced(w.windows)
    && forall i | 0 <= i < |w.windows| :: Within(w.windows[i], limit, slack, w.now)
  }

  lemma ProductGrows(a: nat, b: nat, c: nat, d: nat)
    requires a <= b && c <= d
    ensures a * c <= b * d
  {
    assert a * c <= b * c;
    assert b * c <= b * d;
  }

  /** Taking the smaller of two policies never raises the limit. */
  lemma TighteningLowers(requests: nat, headroom: nat, other: Policy)
    ensures Effective(Min(requests, other.requestsPerMinute), Min(headroom, other.headroomPercentage))
            <= Effective(requests, headroom)
  {
    ProductGrows(Min(requests, other.requestsPerMinute), requests, Min(headroom, other.headroomPercentage), headroom);
  }

  lemma AdmissionKeepsWithin(windows: seq<Window>, now: int, lag: nat, requests: nat, headroom: nat, limit: nat,
                             slack: nat)
    requires windows != [] && Spaced(windows) && Effective(requests, headroom) <= limit && lag <= slack
    requires forall i | 0 <= i < |windows| :: Within(windows[i], limit, slack, now)
    requires var last := windows[|windows| - 1];
      (if now - lag >= last.start + WINDOW_MS then 0 else |last.admitted|)
      < Effective(requests, headroom)
    ensures var after := WithAdmission(windows, now - lag, now, requests, headroom);
      Spaced(after) && forall i | 0 <= i < |after| :: Within(after[i], limit, slack, now)
  {
  }

  /** What one admission decision does to the quota of the row. */
  lemma AdmissionIsWithinLimit(row: Row, reading: int, policy: Policy, token: nat)
    ensures var (after, admission) := Acquire(row, reading, policy, token);
      && LimitOf(after) <= LimitOf(row)
      && (admission.Admitted? ==>
            after.used == (if reading >= row.windowStart + WINDOW_MS then 1 else row.used + 1) <= LimitOf(after))
      && (!admission.Admitted? ==> after.used == row.used && after.windowStart == row.windowStart)
  {
    TighteningLowers(row.requestsPerMinute, row.headroomPercentage, policy);
  }

  lemma AdmittedKeepsQuota(w: World, policy: Policy, lag: nat, limit: nat, slack: nat)
    requires QuotaInv(w, limit, slack) && lag <= slack
    requires Acquire(w.row, w.now - lag, policy, w.nextToken).1.Admitted?
    ensures QuotaInv(Next(w, Call(policy, lag)), limit, slack)
  {
    AdmissionIsWithinLimit(w.row, w.now - lag, policy, w.nextToken);
    var row := Acquire(w.row, w.now - lag, policy, w.nextToken).0;
    AdmissionKeepsWithin(w.windows, w.now, lag, row.requestsPerMinute, row.headroomPercentage, limit, slack);
  }

  lemma CallKeepsQuota(w: World, policy: Policy, lag: nat, limit: nat, slack: nat)
    requires QuotaInv(w, limit, slack) && lag <= slack
    ensures QuotaInv(Next(w, Call(policy, lag)), limit, slack)
  {
    if Acquire(w.row, w.now - lag, policy, w.nextToken).1.Admitted? {
      AdmittedKeepsQuota(w, policy, lag, limit, slack);
    } else {
      AdmissionIsWithinLimit(w.row, w.now - lag, policy, w.nextToken);
    }
  }

  lemma TickKeepsQuota(w: World, ms: nat, limit: nat, slack: nat)
    requires QuotaInv(w, limit, slack)
    ensures QuotaInv(Next(w, Tick(ms)), limit, slack)
  {
    forall i | 0 <= i < |w.windows| ensures Within(w.windows[i], limit, slack, w.now + ms) {
      assert Within(w.windows[i], limit, slack, w.now);
    }
  }

  lemma NextKeepsQuota(w: World, action: Action, limit: nat, slack: nat)
    requires QuotaInv(w, limit, slack) && LagAtMost([action], slack)
    ensures QuotaInv(Next(w, action), limit, slack)
  {
    match action
    case Tick(ms) => TickKeepsQuota(w, ms, limit, slack);
    case Call(policy, lag) =>
      assert [action][0].lag <= slack;
      CallKeepsQuota(w, policy, lag, limit, slack);
    case _ =>
  }

  lemma {:induction false} RunOnKeepsQuota(w: World, actions: seq<Action>, limit: nat, slack: nat)
    requires QuotaInv(w, limit, slack) && LagAtMost(actions, slack)
    ensures QuotaInv(RunOn(w, actions), limit, slack)
    decreases |actions|
  {
    if actions != [] {
      RunOnKeepsQuota(w, actions[..|actions| - 1], limit, slack);
      NextKeepsQuota(RunOn(w, actions[..|actions| - 1]), actions[|actions| - 1], limit, slack);
    }
  }

  /** A refused call is told when to come back: after the wait, which lasts to the end of the window, the quota no
      longer refuses it; a shed call is sent to a later instant, the end of the shedding window or a check on the
      probe. */
  lemma RefusalsAreHonest(row: Row, now: int, policy: Policy, token: nat, later: nat)
    requires policy.baseBackoffMs > 0
    ensures var (after, admission) := Acquire(row, now, policy, token);
      && (admission.Wait? ==> admission.ms > 0 && !Acquire(after, now + admission.ms, policy, later).1.Wait?)
      && (admission.Wait? ==> now + admission.ms == row.windowStart + WINDOW_MS)
      && (admission.Shed? ==> admission.until > now && after == row.(shedRequests := row.shedRequests + 1))
      && (admission.Shed? && StateOf(row, now).Shedding? ==> !StateOf(after, admission.until).Shedding?)
      && (admission.Shed? && !StateOf(row, now).Shedding? ==>
            ProbeHeld(row, now) && admission.until <= row.probeExpires.value
            && admission.until <= now + policy.baseBackoffMs)
  {
    var (after, admission) := Acquire(row, now, policy, token);
    if admission.Wait? {
      assert now < after.windowStart + WINDOW_MS <= now + admission.ms;
    }
  }

  // ---- Any span of one window's length ---------------------------------------------------------------------------

  /** The instants of `times` in [from, from + WINDOW_MS). */
  function CountIn(times: seq<int>, from: int): (n: nat)
    ensures n <= |times|
  {
    if times == [] then 0
    else CountIn(times[..|times| - 1], from) + if from <= times[|times| - 1] < from + WINDOW_MS then 1 else 0
  }

  /** All calls the windows admitted in [from, from + WINDOW_MS). */
  function Admissions(windows: seq<Window>, from: int): nat {
    if windows == [] then 0
    else Admissions(windows[..|windows| - 1], from) + CountIn(windows[|windows| - 1].admitted, from)
  }

  lemma {:induction false} NoneOutside(times: seq<int>, from: int)
    requires forall k | 0 <= k < |times| :: times[k] < from || from + WINDOW_MS <= times[k]
    ensures CountIn(times, from) == 0
  {
    if times != [] {
      NoneOutside(times[..|times| - 1], from);
    }
  }

  lemma {:induction false} NoneEarlier(windows: seq<Window>, from: int, limit: nat, slack: nat, now: int)
    requires forall i | 0 <= i < |windows| ::
      Within(windows[i], limit, slack, now) && windows[i].start + WINDOW_MS + slack <= from
    ensures Admissions(windows, from) == 0
    decreases |windows|
  {
    if windows != [] {
      assert Within(windows[|windows| - 1], limit, slack, now);
      NoneOutside(windows[|windows| - 1].admitted, from);
      NoneEarlier(windows[..|windows| - 1], from, limit, slack, now);
    }
  }

  /** As many windows as fit their starts between the earliest one that reaches `from` and `end`. */
  lemma {:induction false} WindowsFit(windows: seq<Window>, from: int, end: int, n: nat, limit: nat, slack: nat,
                                      now: int)
    requires Spaced(windows) && end - (from - WINDOW_MS - slack) <= n * WINDOW_MS
    requires forall i | 0 <= i < |windows| :: Within(windows[i], limit, slack, now) && windows[i].start < end
    ensures Admissions(windows, from) <= n * limit
    decreases |windows|
  {
    if windows != [] {
      var last := windows[|windows| - 1];
      var before := windows[..|windows| - 1];
      assert Within(last, limit, slack, now);
      if last.start + WINDOW_MS + slack <= from {
        assert forall i | 0 <= i < |windows| :: windows[i].start <= last.start;
        NoneEarlier(windows, from, limit, slack, now);
      } else {
        assert n >= 1;
        WindowsFit(before, from, end - WINDOW_MS, n - 1, limit, slack, now);
        assert (n - 1) * limit + limit == n * limit;
      }
    }
  }

  lemma {:induction false} LaterWindowsDoNotCount(windows: seq<Window>, from: int, n: nat, limit: nat, slack: nat,
                                                  now: int)
    requires Spaced(windows) && 2 * WINDOW_MS + slack <= n * WINDOW_MS
    requires forall i | 0 <= i < |windows| :: Within(windows[i], limit, slack, now)
    ensures Admissions(windows, from) <= n * limit
    decreases |windows|
  {
    if windows != [] {
      var last := windows[|windows| - 1];
      assert Within(last, limit, slack, now);
      if last.start >= from + WINDOW_MS {
        NoneOutside(last.admitted, from);
        LaterWindowsDoNotCount(windows[..|windows| - 1], from, n, limit, slack, now);
      } else {
        assert forall i | 0 <= i < |windows| :: windows[i].start <= last.start;
        WindowsFit(windows, from, from + WINDOW_MS, n, limit, slack, now);
      }
    }
  }

  /** How many windows a span of WINDOW_MS can reach: two, and one more for each started WINDOW_MS of slack. */
  function Reach(slack: nat): (n: nat)
    ensures 2 * WINDOW_MS + slack <= n * WINDOW_MS < 3 * WINDOW_MS + slack
    ensures slack == 0 ==> n == 2
  {
    2 + (slack + WINDOW_MS - 1) / WINDOW_MS
  }

  /** The most calls that fit a policy. */
  ghost predicate IsLimit(limit: nat, policy: Policy) {
    forall n: nat :: n <= limit <==> Fits(n, policy.requestsPerMinute, policy.headroomPercentage)
  }

  /** In every run a window admits n > 1 calls only if 100 n is at most the product of the requests per minute and the
      percentage in force at the latest of them, which are never above those the row was created with. Successive
      windows start at least a minute apart, and no minute, wherever it starts, sees more than twice the calls that fit
      the policy the row was created with, as long as clock readings are current; readings up to `slack` old let one
      more window reach the span for each started minute of slack. */
  lemma QuotaHolds(start: int, policy: Policy, actions: seq<Action>, slack: nat, from: int, limit: nat)
    requires IsLimit(limit, policy)
    requires forall i | 0 <= i < |actions| && actions[i].Call? :: actions[i].lag <= slack
    ensures var w := Run(start, policy, actions);
      && (forall i | 0 <= i < |w.windows| ::
            Fits(|w.windows[i].admitted|, w.windows[i].requests, w.windows[i].headroom))
      && (forall i | 0 <= i < |w.windows| :: |w.windows[i].admitted| <= limit)
      && Spaced(w.windows)
      && Admissions(w.windows, from) <= Reach(slack) * limit
      && (slack == 0 ==> Admissions(w.windows, from) <= 2 * limit)
  {
    LimitIsEffective(limit, policy);
    RunOnKeepsQuota(Initial(start, policy), actions, limit, slack);
    var w := Run(start, policy, actions);
    LaterWindowsDoNotCount(w.windows, from, Reach(slack), limit, slack, w.now);
    forall i | 0 <= i < |w.windows|
      ensures |w.windows[i].admitted| <= limit
      ensures Fits(|w.windows[i].admitted|, w.windows[i].requests, w.windows[i].headroom)
    {
      assert Within(w.windows[i], limit, slack, w.now);
      EffectiveIff(|w.windows[i].admitted|, w.windows[i].requests, w.windows[i].headroom);
    }
  }

  lemma LimitIsEffective(limit: nat, policy: Policy)
    requires IsLimit(limit, policy)
    ensures limit == Effective(policy.requestsPerMinute, policy.headroomPercentage)
  {
    var effective := Effective(policy.requestsPerMinute, policy.headroomPercentage);
    EffectiveIff(limit, policy.requestsPerMinute, policy.headroomPercentage);
    EffectiveIff(effective, policy.requestsPerMinute, policy.headroomPercentage);
  }

  /** Every policy has such a limit. */
  lemma LimitExists(policy: Policy) returns (limit: nat)
    ensures IsLimit(limit, policy)
  {
    limit := Effective(policy.requestsPerMinute, policy.headroomPercentage);
    forall n: nat ensures n <= limit <==> Fits(n, policy.requestsPerMinute, policy.headroomPercentage) {
      EffectiveIff(n, policy.requestsPerMinute, policy.headroomPercentage);
    }
  }

  /** A window never allows more than the policy of any call it admitted so far and of the row's creation. */
  lemma PolicyOnlyTightens(w: World, action: Action)
    requires w.windows != []
    ensures var next := Next(w, action);
      && next.row.requestsPerMinute <= w.row.requestsPerMinute
      && next.row.headroomPercentage <= w.row.headroomPercentage
      && (next.windows != w.windows ==>
            && action.Call? && next.windows[|next.windows| - 1].requests <= action.policy.requestsPerMinute
            && next.windows[|next.windows| - 1].headroom <= action.policy.headroomPercentage)
  {
  }

  /** The last instant of one window and the first of the next. */
  function FullWindows(): seq<Window> {
    [Window(0, [59_999], 1, 100), Window(60_000, [60_000], 1, 100)]
  }

  lemma TwoInOneSpan()
    ensures Admissions(FullWindows(), 59_999) == 2
  {
    var after := FullWindows();
    assert after[..1] == [Window(0, [59_999], 1, 100)] && after[..1][..0] == [];
    assert [59_999][..0] == [] && [60_000][..0] == [];
    assert CountIn([59_999], 59_999) == 1 && CountIn([60_000], 59_999) == 1;
    assert Admissions(after[..1], 59_999) == 1;
  }

  lemma FirstAdmitted(policy: Policy)
    requires policy == Policy(1, 100, 1000, 1)
    ensures var w := Next(Next(Initial(0, policy), Tick(59_999)), Call(policy, 0));
      && w.row == Fresh(0, policy).(used := 1) && w.now == 59_999 && w.windows == [Window(0, [59_999], 1, 100)]
  {
    assert [] + [59_999] == [59_999];
    var w := Next(Initial(0, policy), Tick(59_999));
    assert w.windows[..0] + [Window(0, [59_999], 1, 100)] == [Window(0, [59_999], 1, 100)];
  }

  lemma SecondAdmitted(w: World, policy: Policy)
    requires policy == Policy(1, 100, 1000, 1)
    requires w.row == Fresh(0, policy).(used := 1) && w.now == 59_999 && w.windows == [Window(0, [59_999], 1, 100)]
    ensures Next(Next(w, Tick(1)), Call(policy, 0)).windows == FullWindows()
  {
  }

  /** The factor two is needed: the last instant of one window and the first of the next each admit a full limit. */
  lemma TwiceTheLimitHappens(policy: Policy)
    requires policy == Policy(1, 100, 1000, 1)
    ensures Admissions(Run(0, policy, [Tick(59_999), Call(policy, 0), Tick(1)] + [Call(policy, 0)]).windows, 59_999)
            == 2
    ensures IsLimit(1, policy)
  {
    ThreeActions(Initial(0, policy), Tick(59_999), Call(policy, 0), Tick(1));
    RunStep(Initial(0, policy), [Tick(59_999), Call(policy, 0), Tick(1)], Call(policy, 0));
    FirstAdmitted(policy);
    SecondAdmitted(Next(Next(Initial(0, policy), Tick(59_999)), Call(policy, 0)), policy);
    TwoInOneSpan();
  }
}
