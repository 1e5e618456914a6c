/** State intervals of a work item and the time they hold (src/modules/flow/flow-profile.ts and
    FlowService.score in src/modules/flow/flow.service.ts). Instants are integer milliseconds. */
module FlowProfile {
  import opened Wrappers
  import opened BusinessTime

  datatype WaitReason = WaitReason(category: string, note: Option<string>)

  datatype StateChange = StateChange(at: int, from: Option<string>, entered: string, reason: Option<WaitReason>)

  datatype Interval = Interval(state: string, start: int, end: int, open: bool, reason: Option<WaitReason>)

  /** The state an item is in, with the reason recorded when it entered it. */
  datatype Situation = Situation(state: string, reason: Option<WaitReason>)

  function Entered(event: StateChange): Situation {
    Situation(event.entered, event.reason)
  }

  // ---- The event order -------------------------------------------------------------------------------

  ghost predicate Sorted(events: seq<StateChange>) {
    forall i, j | 0 <= i < j < |events| :: events[i].at <= events[j].at
  }

  function Insert(event: StateChange, events: seq<StateChange>): seq<StateChange> {
    if events == [] || event.at <= events[0].at then [event] + events
    else [events[0]] + Insert(event, events[1..])
  }

  /** Sorting by time, ties broken by the original position. */
  function SortByTime(events: seq<StateChange>): seq<StateChange> {
    if events == [] then [] else Insert(events[0], SortByTime(events[1..]))
  }

  /** The events recorded at one instant, in list order. */
  ghost function AtInstant(events: seq<StateChange>, at: int): seq<StateChange> {
    if events == [] then []
    else (if events[0].at == at then [events[0]] else []) + AtInstant(events[1..], at)
  }

  lemma {:induction false} InsertKeepsOrder(event: StateChange, events: seq<StateChange>)
    requires Sorted(events)
    ensures Sorted(Insert(event, events))
    ensures forall e :: e in Insert(event, events) <==> e == event || e in events
  {
    if events != [] && event.at > events[0].at {
      InsertKeepsOrder(event, events[1..]);
      var rest := Insert(event, events[1..]);
      assert events == [events[0]] + events[1..];
      assert forall e :: e in rest ==> events[0].at <= e.at;
    }
  }

  lemma {:induction false} InsertIsStable(event: StateChange, events: seq<StateChange>, at: int)
    ensures AtInstant(Insert(event, events), at) == AtInstant([event] + events, at)
  {
    if events != [] && event.at > events[0].at {
      InsertIsStable(event, events[1..], at);
      assert ([event] + events)[1..] == events;
      assert ([event] + events[1..])[1..] == events[1..];
      assert ([events[0]] + Insert(event, events[1..]))[1..] == Insert(event, events[1..]);
    }
  }

  /** The sort orders by time and never reorders, loses or invents events of one instant. */
  lemma {:induction false} SortIsStable(events: seq<StateChange>, at: int)
    ensures Sorted(SortByTime(events))
    ensures AtInstant(SortByTime(events), at) == AtInstant(events, at)
  {
    if events != [] {
      SortIsStable(events[1..], at);
      var rest := SortByTime(events[1..]);
      InsertKeepsOrder(events[0], rest);
      InsertIsStable(events[0], rest, at);
      assert ([events[0]] + rest)[1..] == rest;
    }
  }

  // ---- What an item was doing at an instant ----------------------------------------------------------

  /** The definition the intervals are held to: the item is where the last event no later than `t` put it. */
  ghost function SituationAt(sorted: seq<StateChange>, initial: Situation, t: int): Situation {
    if sorted == [] || t < sorted[0].at then initial
    else SituationAt(sorted[1..], Entered(sorted[0]), t)
  }

  function Horizon(sorted: seq<StateChange>, from: int, now: int): int {
    if sorted == [] then Max(from, now) else Horizon(sorted[1..], Max(from, sorted[0].at), now)
  }

  ghost predicate Holds(interval: Interval, t: int) {
    interval.start <= t < interval.end
  }

  ghost predicate Covered(intervals: seq<Interval>, t: int) {
    exists i | 0 <= i < |intervals| :: Holds(intervals[i], t)
  }

  /** Ordered, disjoint and non-empty. */
  ghost predicate Ordered(intervals: seq<Interval>) {
    && (forall i | 0 <= i < |intervals| :: intervals[i].start < intervals[i].end)
    && (forall i, j | 0 <= i < j < |intervals| :: intervals[i].end <= intervals[j].start)
  }

  /** The intervals hold exactly the instants of [from, horizon) outside terminal states, each labelled with
      the state and entry reason of that instant. */
  ghost predicate Accounts(intervals: seq<Interval>, sorted: seq<StateChange>, initial: Situation,
                           from: int, horizon: int, terminal: set<string>)
  {
    && Ordered(intervals)
    && (forall i | 0 <= i < |intervals| :: from <= intervals[i].start && intervals[i].end <= horizon)
    && (forall t | from <= t < horizon ::
          Covered(intervals, t) <==> SituationAt(sorted, initial, t).state !in terminal)
    && (forall i, t | 0 <= i < |intervals| && Holds(intervals[i], t) ::
          SituationAt(sorted, initial, t) == Situation(intervals[i].state, intervals[i].reason))
  }

  /** The item is in a non-terminal state now, which it entered strictly before now. */
  ghost predicate Running(sorted: seq<StateChange>, initial: Situation, from: int, now: int, terminal: set<string>) {
    && from < now
    && (forall e | e in sorted :: e.at < now)
    && SituationAt(sorted, initial, now - 1).state !in terminal
  }

  /** Only the last interval may be open, it then ends now, and it is open whenever the item is running. */
  ghost predicate OpenAtEnd(intervals: seq<Interval>, now: int, running: bool) {
    && (forall i | 0 <= i < |intervals| && intervals[i].open :: i == |intervals| - 1 && intervals[i].end == now)
    && (running ==> intervals != [] && intervals[|intervals| - 1].open)
  }

  // ---- Building the intervals --------------------------------------------------------------------------

  function Piece(from: int, until: int, now: Situation, open: bool, terminal: set<string>): seq<Interval> {
    if from < until && now.state !in terminal then [Interval(now.state, from, until, open, now.reason)] else []
  }

  function Timeline(sorted: seq<StateChange>, cursor: int, now: int, current: Situation, terminal: set<string>)
    : seq<Interval>
  {
    if sorted == [] then Piece(cursor, now, current, true, terminal)
    else if sorted[0].at < cursor then Timeline(sorted[1..], cursor, now, Entered(sorted[0]), terminal)
    else Piece(cursor, sorted[0].at, current, false, terminal)
         + Timeline(sorted[1..], sorted[0].at, now, Entered(sorted[0]), terminal)
  }

  /** The next event closes a piece (empty when the event lags behind the cursor) and moves on. */
  lemma TimelineStep(e: StateChange, rest: seq<StateChange>, cursor: int, now: int, current: Situation,
                     terminal: set<string>)
    ensures Timeline([e] + rest, cursor, now, current, terminal)
         == Piece(cursor, Max(cursor, e.at), current, false, terminal)
            + Timeline(rest, Max(cursor, e.at), now, Entered(e), terminal)
    ensures Horizon([e] + rest, cursor, now) == Horizon(rest, Max(cursor, e.at), now)
  {
    assert ([e] + rest)[1..] == rest;
  }

  lemma CoveredByConcat(left: seq<Interval>, right: seq<Interval>, t: int)
    ensures Covered(left + right, t) <==> Covered(left, t) || Covered(right, t)
  {
    var all := left + right;
    if Covered(left, t) {
      var i :| 0 <= i < |left| && Holds(left[i], t);
      assert all[i] == left[i];
    }
    if Covered(right, t) {
      var i :| 0 <= i < |right| && Holds(right[i], t);
      assert all[|left| + i] == right[i];
    }
  }

  lemma {:induction false} HorizonBounds(sorted: seq<StateChange>, from: int, now: int)
    ensures from <= Horizon(sorted, from, now)
    ensures forall e | e in sorted :: e.at <= Horizon(sorted, from, now)
    ensures now <= Horizon(sorted, from, now)
    ensures Horizon(sorted, from, now) in {from, now}
            || exists e | e in sorted :: e.at == Horizon(sorted, from, now)
  {
    if sorted != [] {
      HorizonBounds(sorted[1..], Max(from, sorted[0].at), now);
      assert sorted[0] in sorted;
    }
  }

  /** Where `e` splits time: before `next` the item is still in `current`, from `next` on `rest` decides. */
  ghost predicate Splits(e: StateChange, cursor: int, next: int) {
    next == Max(cursor, e.at)
  }

  lemma SituationSplits(e: StateChange, rest: seq<StateChange>, current: Situation, cursor: int, next: int, t: int)
    requires Splits(e, cursor, next) && cursor <= t
    ensures SituationAt([e] + rest, current, t)
         == if t < next then current else SituationAt(rest, Entered(e), t)
  {
    assert ([e] + rest)[1..] == rest;
  }

  lemma PrependAccounts(e: StateChange, rest: seq<StateChange>, current: Situation, cursor: int, next: int,
                        horizon: int, head: seq<Interval>, tail: seq<Interval>, terminal: set<string>)
    requires Splits(e, cursor, next) && next <= horizon
    requires head == Piece(cursor, next, current, false, terminal)
    requires Accounts(tail, rest, Entered(e), next, horizon, terminal)
    ensures Accounts(head + tail, [e] + rest, current, cursor, horizon, terminal)
  {
    var out, all := head + tail, [e] + rest;
    forall t | cursor <= t < horizon
      ensures Covered(out, t) <==> SituationAt(all, current, t).state !in terminal
    {
      SituationSplits(e, rest, current, cursor, next, t);
      CoveredByConcat(head, tail, t);
      if t < next && head != [] {
        assert Holds(head[0], t);
      }
    }
    forall i, t | 0 <= i < |out| && Holds(out[i], t)
      ensures SituationAt(all, current, t) == Situation(out[i].state, out[i].reason)
    {
      SituationSplits(e, rest, current, cursor, next, t);
      if i >= |head| {
        assert Holds(tail[i - |head|], t);
      }
    }
  }

  lemma FinalAccounts(cursor: int, now: int, current: Situation, terminal: set<string>)
    ensures Accounts(Piece(cursor, now, current, true, terminal), [], current, cursor, Max(cursor, now), terminal)
  {
    var out := Piece(cursor, now, current, true, terminal);
    if out != [] {
      assert forall t :: Holds(out[0], t) ==> Covered(out, t);
    }
  }

  lemma {:induction false} TimelineOpenAtEnd(sorted: seq<StateChange>, cursor: int, now: int, current: Situation,
                                             terminal: set<string>)
    ensures OpenAtEnd(Timeline(sorted, cursor, now, current, terminal), now,
                      Running(sorted, current, cursor, now, terminal))
  {
    if sorted != [] {
      var e, rest, next := sorted[0], sorted[1..], Max(cursor, sorted[0].at);
      TimelineOpenAtEnd(rest, next, now, Entered(e), terminal);
      assert Running(sorted, current, cursor, now, terminal) ==> Running(rest, Entered(e), next, now, terminal);
    }
  }

  lemma {:induction false} TimelineAccounts(sorted: seq<StateChange>, cursor: int, now: int, current: Situation,
                                            terminal: set<string>)
    ensures var out := Timeline(sorted, cursor, now, current, terminal);
            Accounts(out, sorted, current, cursor, Horizon(sorted, cursor, now), terminal)
  {
    if sorted == [] {
      FinalAccounts(cursor, now, current, terminal);
    } else {
      var e, rest, next := sorted[0], sorted[1..], Max(cursor, sorted[0].at);
      var head, tail := Piece(cursor, next, current, false, terminal), Timeline(rest, next, now, Entered(e), terminal);
      TimelineAccounts(rest, next, now, Entered(e), terminal);
      HorizonBounds(rest, next, now);
      PrependAccounts(e, rest, current, cursor, next, Horizon(rest, next, now), head, tail, terminal);
      assert sorted == [e] + rest;
      TimelineStep(e, rest, cursor, now, current, terminal);
    }
  }

  ghost function TerminalInstants(sorted: seq<StateChange>, initial: Situation, from: int, horizon: int,
                                  terminal: set<string>): set<int>
  {
    set t: int | from <= t < horizon && SituationAt(sorted, initial, t).state in terminal
  }

  ghost function Length(intervals: seq<Interval>): int {
    if intervals == [] then 0 else (intervals[0].end - intervals[0].start) + Length(intervals[1..])
  }

  lemma {:induction false} LengthOfConcat(left: seq<Interval>, right: seq<Interval>)
    ensures Length(left + right) == Length(left) + Length(right)
  {
    if left == [] {
      assert left + right == right;
    } else {
      LengthOfConcat(left[1..], right);
      assert (left + right)[1..] == left[1..] + right;
    }
  }

  lemma PrependTerminal(e: StateChange, rest: seq<StateChange>, current: Situation, cursor: int, next: int,
                        horizon: int, terminal: set<string>)
    requires Splits(e, cursor, next) && next <= horizon
    ensures |TerminalInstants([e] + rest, current, cursor, horizon, terminal)|
         == (if current.state in terminal then next - cursor else 0)
            + |TerminalInstants(rest, Entered(e), next, horizon, terminal)|
  {
    var gone := TerminalInstants([e] + rest, current, cursor, horizon, terminal);
    var later := TerminalInstants(rest, Entered(e), next, horizon, terminal);
    var here := if current.state in terminal then Range(cursor, next) else {};
    RangeSize(cursor, next);
    forall t | cursor <= t < horizon
      ensures t in gone <==> t in here || t in later
    {
      SituationSplits(e, rest, current, cursor, next, t);
    }
    assert gone == here + later;
    assert here !! later;
  }

  lemma PieceLength(from: int, until: int, current: Situation, open: bool, terminal: set<string>)
    requires from <= until
    ensures Length(Piece(from, until, current, open, terminal))
         == if current.state in terminal then 0 else until - from
  {
  }

  lemma FinalTerminal(current: Situation, cursor: int, horizon: int, terminal: set<string>)
    requires cursor <= horizon
    ensures |TerminalInstants([], current, cursor, horizon, terminal)|
         == if current.state in terminal then horizon - cursor else 0
  {
    RangeSize(cursor, horizon);
    assert TerminalInstants([], current, cursor, horizon, terminal)
        == if current.state in terminal then Range(cursor, horizon) else {};
  }

  /** No time is lost or counted twice: interval time and terminal time make up the whole span. */
  lemma {:induction false} TimelineConserves(sorted: seq<StateChange>, cursor: int, now: int, current: Situation,
                                             terminal: set<string>)
    ensures var horizon := Horizon(sorted, cursor, now);
            Length(Timeline(sorted, cursor, now, current, terminal))
            + |TerminalInstants(sorted, current, cursor, horizon, terminal)| == horizon - cursor
  {
    if sorted == [] {
      FinalTerminal(current, cursor, Max(cursor, now), terminal);
      PieceLength(cursor, Max(cursor, now), current, true, terminal);
    } else {
      var e, rest, next := sorted[0], sorted[1..], Max(cursor, sorted[0].at);
      var head, tail := Piece(cursor, next, current, false, terminal), Timeline(rest, next, now, Entered(e), terminal);
      TimelineConserves(rest, next, now, Entered(e), terminal);
      HorizonBounds(rest, next, now);
      PrependTerminal(e, rest, current, cursor, next, Horizon(rest, next, now), terminal);
      LengthOfConcat(head, tail);
      PieceLength(cursor, next, current, false, terminal);
      assert sorted == [e] + rest;
      TimelineStep(e, rest, cursor, now, current, terminal);
    }
  }

  /** Events whose recorded origin is not the state the item was in. */
  function Contradictions(sorted: seq<StateChange>, state: string): nat {
    if sorted == [] then 0
    else (if sorted[0].from.Some? && sorted[0].from.value != state then 1 else 0)
         + Contradictions(sorted[1..], sorted[0].entered)
  }

  function Predating(sorted: seq<StateChange>, createdAt: int): nat {
    if sorted == [] then 0
    else (if sorted[0].at < createdAt then 1 else 0) + Predating(sorted[1..], createdAt)
  }

  /** The events whose recorded origin is not where the event before left the item, by index. */
  ghost function Contradicting(sorted: seq<StateChange>, first: string): set<nat> {
    set i: nat | i < |sorted| && sorted[i].from.Some?
                 && sorted[i].from.value != if i == 0 then first else sorted[i - 1].entered
  }

  /** The events recorded for instants before the creation, by index. */
  ghost function Early(sorted: seq<StateChange>, createdAt: int): set<nat> {
    set i: nat | i < |sorted| && sorted[i].at < createdAt
  }

  lemma {:induction false} ContradictionsOfAppend(sorted: seq<StateChange>, last: StateChange, state: string)
    ensures Contradictions(sorted + [last], state)
         == Contradictions(sorted, state)
            + Contradictions([last], if sorted == [] then state else sorted[|sorted| - 1].entered)
  {
    if sorted == [] {
      assert sorted + [last] == [last];
    } else {
      assert (sorted + [last])[1..] == sorted[1..] + [last];
      ContradictionsOfAppend(sorted[1..], last, sorted[0].entered);
    }
  }

  lemma {:induction false} PredatingOfAppend(sorted: seq<StateChange>, last: StateChange, createdAt: int)
    ensures Predating(sorted + [last], createdAt) == Predating(sorted, createdAt) + Predating([last], createdAt)
  {
    if sorted == [] {
      assert sorted + [last] == [last];
    } else {
      assert (sorted + [last])[1..] == sorted[1..] + [last];
      PredatingOfAppend(sorted[1..], last, createdAt);
    }
  }

  lemma ContradictingGrows(sorted: seq<StateChange>, last: StateChange, first: string)
    ensures var state := if sorted == [] then first else sorted[|sorted| - 1].entered;
      Contradicting(sorted + [last], first)
      == Contradicting(sorted, first) + if last.from.Some? && last.from.value != state then {|sorted|} else {}
    ensures |sorted| !in Contradicting(sorted, first)
  {
    var all := sorted + [last];
    forall i: nat | i < |sorted| ensures i in Contradicting(all, first) <==> i in Contradicting(sorted, first) {
      assert all[i] == sorted[i] && (i > 0 ==> all[i - 1] == sorted[i - 1]);
    }
    assert all[|sorted|] == last && (sorted != [] ==> all[|sorted| - 1] == sorted[|sorted| - 1]);
  }

  lemma ContradictionsOfOne(event: StateChange, state: string)
    ensures Contradictions([event], state) == if event.from.Some? && event.from.value != state then 1 else 0
  {
    assert [event][1..] == [];
  }

  lemma {:induction false} ContradictionsAreCounted(sorted: seq<StateChange>, first: string)
    ensures Contradictions(sorted, first) == |Contradicting(sorted, first)|
  {
    if sorted == [] {
      assert Contradicting(sorted, first) == {};
    } else {
      var n := |sorted| - 1;
      var before, last := sorted[..n], sorted[n];
      hide Contradicting, Contradictions;
      ContradictionsAreCounted(before, first);
      ContradictionsOfAppend(before, last, first);
      ContradictionsOfOne(last, if before == [] then first else before[n - 1].entered);
      ContradictingGrows(before, last, first);
      assert sorted == before + [last];
    }
  }

  lemma EarlyGrows(sorted: seq<StateChange>, last: StateChange, createdAt: int)
    ensures Early(sorted + [last], createdAt)
         == Early(sorted, createdAt) + if last.at < createdAt then {|sorted|} else {}
    ensures |sorted| !in Early(sorted, createdAt)
  {
    var all := sorted + [last];
    forall i: nat | i < |sorted| ensures i in Early(all, createdAt) <==> i in Early(sorted, createdAt) {
      assert all[i] == sorted[i];
    }
    assert all[|sorted|] == last;
  }

  lemma {:induction false} EarlyAreCounted(sorted: seq<StateChange>, createdAt: int)
    ensures Predating(sorted, createdAt) == |Early(sorted, createdAt)|
  {
    if sorted == [] {
      assert Early(sorted, createdAt) == {};
    } else {
      var n := |sorted| - 1;
      var before, last := sorted[..n], sorted[n];
      EarlyAreCounted(before, createdAt);
      PredatingOfAppend(before, last, createdAt);
      EarlyGrows(before, last, createdAt);
      assert sorted == before + [last] && [last][1..] == [];
      hide Early;
    }
  }

  function FirstState(sorted: seq<StateChange>, currentState: string): string {
    if sorted != [] && sorted[0].from.Some? then sorted[0].from.value else currentState
  }

  /** The built history of an item as a function of its events. */
  function Built(createdAt: int, currentState: string, input: seq<StateChange>, now: int, terminal: set<string>)
    : seq<Interval>
  {
    var sorted := SortByTime(input);
    Timeline(sorted, createdAt, now, Situation(FirstState(sorted, currentState), None), terminal)
  }

  /** What is still to be built and still to be counted when event `i` is next. */
  lemma NextEvent(events: seq<StateChange>, i: nat, cursor: int, createdAt: int, now: int, current: Situation,
                  terminal: set<string>)
    requires i < |events|
    ensures Timeline(events[i..], cursor, now, current, terminal)
         == Piece(cursor, Max(cursor, events[i].at), current, false, terminal)
            + Timeline(events[i + 1..], Max(cursor, events[i].at), now, Entered(events[i]), terminal)
    ensures Contradictions(events[i..], current.state)
         == (if events[i].from.Some? && events[i].from.value != current.state then 1 else 0)
            + Contradictions(events[i + 1..], events[i].entered)
    ensures Predating(events[i..], createdAt)
         == (if events[i].at < createdAt then 1 else 0) + Predating(events[i + 1..], createdAt)
  {
    assert events[i..][1..] == events[i + 1..];
  }

  lemma NoEvents(cursor: int, createdAt: int, now: int, current: Situation, terminal: set<string>)
    ensures Timeline([], cursor, now, current, terminal) == Piece(cursor, now, current, true, terminal)
    ensures Contradictions([], current.state) == 0 && Predating([], createdAt) == 0
  {
  }

  /** The cursor never runs ahead of a sorted event, so only events before creation lag behind it. */
  ghost predicate CursorAt(events: seq<StateChange>, i: nat, cursor: int, createdAt: int)
    requires i <= |events|
  {
    createdAt <= cursor && forall j | i <= j < |events| :: events[j].at < cursor <==> events[j].at < createdAt
  }

  /** What the built history of an item promises. */
  ghost predicate IsHistory(intervals: seq<Interval>, sorted: seq<StateChange>, initial: Situation, createdAt: int,
                            now: int, terminal: set<string>)
  {
    var horizon := Horizon(sorted, createdAt, now);
    && Accounts(intervals, sorted, initial, createdAt, horizon, terminal)
    && OpenAtEnd(intervals, now, Running(sorted, initial, createdAt, now, terminal))
    && Length(intervals) + |TerminalInstants(sorted, initial, createdAt, horizon, terminal)| == horizon - createdAt
  }

  lemma TimelineIsHistory(sorted: seq<StateChange>, initial: Situation, createdAt: int, now: int, terminal: set<string>)
    ensures IsHistory(Timeline(sorted, createdAt, now, initial, terminal), sorted, initial, createdAt, now, terminal)
  {
    TimelineAccounts(sorted, createdAt, now, initial, terminal);
    TimelineOpenAtEnd(sorted, createdAt, now, initial, terminal);
    TimelineConserves(sorted, createdAt, now, initial, terminal);
  }

  /** buildIntervals: sorts the events, walks them with a cursor, and drops time in terminal states. */
  method BuildIntervals(createdAt: int, currentState: string, input: seq<StateChange>, now: int, terminal: set<string>)
    returns (intervals: seq<Interval>, anomalies: nat)
    ensures var sorted := SortByTime(input);
            var first := if sorted != [] && sorted[0].from.Some? then sorted[0].from.value else currentState;
            && IsHistory(intervals, sorted, Situation(first, None), createdAt, now, terminal)
            && anomalies == |Contradicting(sorted, first)| + |Early(sorted, createdAt)|
    ensures intervals == Built(createdAt, currentState, input, now, terminal)
  {
    hide IsHistory, Timeline, Contradictions, Predating, Contradicting, Early, SortByTime;
    var events := SortByTime(input);
    SortIsStable(input, 0);
    intervals, anomalies := [], 0;
    var cursor := createdAt;
    var state, entryReason := FirstState(events, currentState), None;
    ghost var first := Situation(state, entryReason);
    for i := 0 to |events|
      invariant CursorAt(events, i, cursor, createdAt)
      invariant intervals + Timeline(events[i..], cursor, now, Situation(state, entryReason), terminal)
             == Timeline(events, createdAt, now, first, terminal)
      invariant anomalies + Contradictions(events[i..], state) + Predating(events[i..], createdAt)
             == Contradictions(events, first.state) + Predating(events, createdAt)
    {
      NextEvent(events, i, cursor, createdAt, now, Situation(state, entryReason), terminal);
      var event := events[i];
      if event.from.Some? && event.from.value != state {
        anomalies := anomalies + 1;
      }
      if event.at < cursor {
        anomalies := anomalies + 1;
      } else {
        intervals := intervals + Piece(cursor, event.at, Situation(state, entryReason), false, terminal);
        cursor := event.at;
      }
      state, entryReason := event.entered, event.reason;
    }
    NoEvents(cursor, createdAt, now, Situation(state, entryReason), terminal);
    assert events[|events|..] == [];
    intervals := intervals + Piece(cursor, now, Situation(state, entryReason), true, terminal);
    TimelineIsHistory(events, first, createdAt, now, terminal);
    ContradictionsAreCounted(events, first.state);
    EarlyAreCounted(events, createdAt);
  }
}
