/** The search for a workflow path that monitoring automation may take (src/modules/integrations/monitoring.service.ts).
    States are numbered. */
module AutomationPath {
  import opened Wrappers
  import opened GraphLayers

  const MAX_PATH := 3

  datatype Transition = Transition(from: nat, next: nat)

  /** A state with the path that leads to it from the start. */
  datatype Entry = Entry(state: nat, path: seq<nat>)

  /** The transitions automation may follow: none into a forbidden state, except into the target. */
  ghost function ArcsOf(transitions: seq<Transition>, forbidden: set<nat>, target: nat): Arcs {
    set i | 0 <= i < |transitions| && (transitions[i].next == target || transitions[i].next !in forbidden)
      :: (transitions[i].from, transitions[i].next)
  }

  /** `path` leads from the start to `state` along the arcs. */
  ghost predicate Leads(arcs: Arcs, start: nat, path: seq<nat>, state: nat) {
    WalkTo(arcs, {start}, [start] + path, state)
  }

  lemma LeadsOn(arcs: Arcs, start: nat, path: seq<nat>, state: nat, next: nat)
    requires Leads(arcs, start, path, state) && (state, next) in arcs
    ensures Leads(arcs, start, path + [next], next)
  {
    var walk := [start] + path;
    assert [start] + (path + [next]) == walk + [next];
    forall i | 0 <= i < |walk| ensures ((walk + [next])[i], (walk + [next])[i + 1]) in arcs {
      if i < |walk| - 1 { assert (walk[i], walk[i + 1]) in arcs; }
    }
  }

  // ---- The search -------------------------------------------------------------------------------------------------

  ghost function StatesOf(queue: seq<Entry>): seq<nat> {
    seq(|queue|, i requires 0 <= i < |queue| => queue[i].state)
  }

  ghost predicate EntryOk(arcs: Arcs, start: nat, dist: map<nat, nat>, e: Entry) {
    e.state in dist && dist[e.state] == |e.path| && Leads(arcs, start, e.path, e.state)
  }

  ghost predicate EntriesOk(arcs: Arcs, start: nat, dist: map<nat, nat>, queue: seq<Entry>) {
    forall i {:trigger EntryOk(arcs, start, dist, queue[i])} | 0 <= i < |queue| :: EntryOk(arcs, start, dist, queue[i])
  }

  ghost predicate Inv(arcs: Arcs, start: nat, target: nat, visited: set<nat>, queue: seq<Entry>, dist: map<nat, nat>,
                      level: nat, open: set<nat>)
  {
    && visited == dist.Keys && (target in visited ==> target == start)
    && EntriesOk(arcs, start, dist, queue)
    && Searching(arcs, {start}, MAX_PATH, dist, StatesOf(queue), level, open)
  }

  lemma StateIsFound(arcs: Arcs, start: nat, target: nat, visited: set<nat>, queue: seq<Entry>, dist: map<nat, nat>,
                     current: Entry, e: Entry)
    requires Inv(arcs, start, target, visited, queue, dist, |current.path|, {current.state})
    requires EntryOk(arcs, start, dist, current) && |current.path| < MAX_PATH
    requires (current.state, e.state) in arcs && e.state !in visited && e.state != target
    requires e.path == current.path + [e.state]
    ensures var after := dist[e.state := |e.path|];
      && Inv(arcs, start, target, visited + {e.state}, queue + [e], after, |current.path|, {current.state})
      && EntryOk(arcs, start, after, current)
  {
    LeadsOn(arcs, start, current.path, current.state, e.state);
    NodeIsFound(arcs, {start}, MAX_PATH, dist, StatesOf(queue), |current.path|, current.state, e.state);
    assert StatesOf(queue + [e]) == StatesOf(queue) + [e.state];
    var after := dist[e.state := |e.path|];
    forall i | 0 <= i < |queue + [e]| ensures EntryOk(arcs, start, after, (queue + [e])[i]) {
      if i < |queue| { assert EntryOk(arcs, start, dist, queue[i]); }
    }
  }

  /** The target found from the current state is at the distance its path says. */
  lemma TargetIsFound(arcs: Arcs, start: nat, target: nat, visited: set<nat>, queue: seq<Entry>, dist: map<nat, nat>,
                      current: Entry)
    requires Inv(arcs, start, target, visited, queue, dist, |current.path|, {current.state})
    requires EntryOk(arcs, start, dist, current) && |current.path| < MAX_PATH
    requires (current.state, target) in arcs && target !in visited
    ensures Leads(arcs, start, current.path + [target], target)
    ensures IsAt(arcs, {start}, target, |current.path| + 1) && start != target
  {
    LeadsOn(arcs, start, current.path, current.state, target);
    assert NodeIsExact(arcs, {start}, MAX_PATH, current.state, dist[current.state]);
    ArcLeadsToNextLayer(arcs, {start}, current.state, target, |current.path|);
  }

  lemma ArcIsTransition(transitions: seq<Transition>, forbidden: set<nat>, target: nat, a: (nat, nat)) returns (i: nat)
    requires a in ArcsOf(transitions, forbidden, target)
    ensures i < |transitions| && transitions[i] == Transition(a.0, a.1) && (a.1 == target || a.1 !in forbidden)
  {
    i :| 0 <= i < |transitions| && (transitions[i].next == target || transitions[i].next !in forbidden)
         && (transitions[i].from, transitions[i].next) == a;
  }

  lemma TransitionIsArc(transitions: seq<Transition>, forbidden: set<nat>, target: nat, i: nat)
    requires i < |transitions|
    ensures transitions[i].next == target || transitions[i].next !in forbidden ==>
      (transitions[i].from, transitions[i].next) in ArcsOf(transitions, forbidden, target)
  {
  }

  /** The transitions of one state: stops at the target, otherwise queues every new state automation may enter. */
  method Expand(transitions: seq<Transition>, forbidden: set<nat>, start: nat, target: nat, current: Entry,
                visited: set<nat>, queue: seq<Entry>, ghost arcs: Arcs, ghost dist: map<nat, nat>)
    returns (found: Option<seq<nat>>, visited': set<nat>, queue': seq<Entry>, ghost dist': map<nat, nat>)
    requires arcs == ArcsOf(transitions, forbidden, target)
    requires Inv(arcs, start, target, visited, queue, dist, |current.path|, {current.state})
    requires EntryOk(arcs, start, dist, current) && |current.path| < MAX_PATH
    ensures found.Some? ==> start != target && Leads(arcs, start, found.value, target)
    ensures found.Some? ==> |found.value| <= MAX_PATH && IsAt(arcs, {start}, target, |found.value|)
    ensures found.None? ==> Inv(arcs, start, target, visited', queue', dist', |current.path|, {})
    ensures visited <= visited' && (visited' == visited ==> queue' == queue)
  {
    found, visited', queue', dist' := None, visited, queue, dist;
    for i := 0 to |transitions|
      invariant Inv(arcs, start, target, visited', queue', dist', |current.path|, {current.state})
      invariant EntryOk(arcs, start, dist', current)
      invariant visited <= visited' && (visited' == visited ==> queue' == queue)
      invariant Covered(transitions, forbidden, target, current.state, i, visited')
    {
      var next := transitions[i].next;
      TransitionIsArc(transitions, forbidden, target, i);
      if transitions[i].from == current.state && !(next != target && next in forbidden) && next !in visited' {
        if next == target {
          TargetIsFound(arcs, start, target, visited', queue', dist', current);
          return Some(current.path + [next]), visited', queue', dist';
        }
        StateIsFound(arcs, start, target, visited', queue', dist', current, Entry(next, current.path + [next]));
        visited', queue' := visited' + {next}, queue' + [Entry(next, current.path + [next])];
        dist' := dist'[next := |current.path| + 1];
      }
    }
    StateIsDone(transitions, forbidden, start, target, current, visited', queue', arcs, dist');
  }

  /** All states that the first n transitions lead to from a state are in the set. */
  ghost predicate Covered(transitions: seq<Transition>, forbidden: set<nat>, target: nat, state: nat, n: nat,
                          found: set<nat>)
  {
    forall k | 0 <= k < n && k < |transitions| && transitions[k].from == state
               && (transitions[k].next == target || transitions[k].next !in forbidden) :: transitions[k].next in found
  }

  lemma StateIsDone(transitions: seq<Transition>, forbidden: set<nat>, start: nat, target: nat, current: Entry,
                    visited: set<nat>, queue: seq<Entry>, arcs: Arcs, dist: map<nat, nat>)
    requires arcs == ArcsOf(transitions, forbidden, target)
    requires Inv(arcs, start, target, visited, queue, dist, |current.path|, {current.state})
    requires EntryOk(arcs, start, dist, current)
    requires |current.path| < MAX_PATH ==>
      Covered(transitions, forbidden, target, current.state, |transitions|, visited)
    ensures Inv(arcs, start, target, visited, queue, dist, |current.path|, {})
  {
    if |current.path| < MAX_PATH {
      forall a | a in arcs && a.0 == current.state ensures a.1 in dist {
        var i := ArcIsTransition(transitions, forbidden, target, a);
      }
    }
    NodeIsDone(arcs, {start}, MAX_PATH, dist, StatesOf(queue), |current.path|, current.state);
  }

  lemma EntryIsTaken(arcs: Arcs, start: nat, target: nat, visited: set<nat>, queue: seq<Entry>, dist: map<nat, nat>,
                     level: nat)
    requires Inv(arcs, start, target, visited, queue, dist, level, {}) && queue != []
    ensures EntryOk(arcs, start, dist, queue[0])
    ensures Inv(arcs, start, target, visited, queue[1..], dist, |queue[0].path|, {queue[0].state})
  {
    assert EntryOk(arcs, start, dist, queue[0]);
    HeadIsTaken(arcs, {start}, MAX_PATH, dist, StatesOf(queue), level);
    assert StatesOf(queue)[1..] == StatesOf(queue[1..]);
    forall i | 0 <= i < |queue[1..]| ensures EntryOk(arcs, start, dist, queue[1..][i]) {
      assert EntryOk(arcs, start, dist, queue[i + 1]);
    }
  }

  lemma Starts(arcs: Arcs, start: nat, target: nat)
    ensures Inv(arcs, start, target, {start}, [Entry(start, [])], map[start := 0], 0, {})
  {
    assert StatesOf([Entry(start, [])]) == [start];
    var roots := {start};
    assert map[start := 0] == map v | v in roots :: 0;
    SearchStarts(arcs, {start}, MAX_PATH, map[start := 0], [start]);
    assert [start] + [] == [start];
    assert Leads(arcs, start, [], start);
  }

  /** A shortest path of at most three transitions that enters no forbidden state but the target, or none exactly when
      there is no such path. (The caller excludes a start in the target, for which there is none either.) */
  method FindAutomationPath(transitions: seq<Transition>, forbidden: set<nat>, start: nat, target: nat)
    returns (found: Option<seq<nat>>)
    ensures found.Some? ==> Leads(ArcsOf(transitions, forbidden, target), start, found.value, target)
    ensures found.Some? ==> IsAt(ArcsOf(transitions, forbidden, target), {start}, target, |found.value|)
    ensures found.Some? ==> 1 <= |found.value| <= MAX_PATH
    ensures found.None? <==>
      start == target || target !in Reach(ArcsOf(transitions, forbidden, target), {start}, MAX_PATH)
  {
    ghost var arcs := ArcsOf(transitions, forbidden, target);
    ghost var dist: map<nat, nat>, level: nat := map[start := 0], 0;
    var visited, queue := {start}, [Entry(start, [])];
    Starts(arcs, start, target);
    while |queue| > 0
      invariant Inv(arcs, start, target, visited, queue, dist, level, {})
      decreases Universe(arcs, {start}) - visited, |queue|
    {
      var current, rest := queue[0], queue[1..];
      EntryIsTaken(arcs, start, target, visited, queue, dist, level);
      level := |current.path|;
      if |current.path| >= MAX_PATH {
        StateIsDone(transitions, forbidden, start, target, current, visited, rest, arcs, dist);
        queue := rest;
      } else {
        ghost var before := visited;
        found, visited, queue, dist :=
          Expand(transitions, forbidden, start, target, current, visited, rest, arcs, dist);
        if found.Some? {
          ReachGrows(arcs, {start}, |found.value|, MAX_PATH);
          NotAtTheStart(arcs, start, target, |found.value|);
          return;
        }
        FoundIsBounded(arcs, {start}, MAX_PATH, dist);
        Shrinks(Universe(arcs, {start}), before, visited);
      }
    }
    NoneIsRight(arcs, start, target, visited, dist, level);
    return None;
  }

  lemma NotAtTheStart(arcs: Arcs, start: nat, target: nat, k: nat)
    requires IsAt(arcs, {start}, target, k) && start != target
    ensures k > 0
  {
  }

  lemma NoneIsRight(arcs: Arcs, start: nat, target: nat, visited: set<nat>, dist: map<nat, nat>, level: nat)
    requires Inv(arcs, start, target, visited, [], dist, level, {})
    ensures start == target || target !in Reach(arcs, {start}, MAX_PATH)
  {
    assert StatesOf([]) == [];
    SearchIsComplete(arcs, {start}, MAX_PATH, dist, level);
  }

  /** No state on a path of allowed transitions is forbidden, except the target. */
  lemma PathIsAllowed(transitions: seq<Transition>, forbidden: set<nat>, start: nat, target: nat, path: seq<nat>,
                      state: nat, k: nat)
    requires Leads(ArcsOf(transitions, forbidden, target), start, path, state) && k < |path|
    ensures path[k] == target || path[k] !in forbidden
    ensures exists i | 0 <= i < |transitions| :: transitions[i] == Transition(([start] + path)[k], path[k])
  {
    var walk := [start] + path;
    assert (walk[k], walk[k + 1]) in ArcsOf(transitions, forbidden, target);
    var i := ArcIsTransition(transitions, forbidden, target, (walk[k], walk[k + 1]));
  }
}
