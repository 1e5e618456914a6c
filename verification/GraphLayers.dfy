/** Reachability by layers and by walks, and the invariant that a breadth-first queue search keeps. Shared by the three
    bounded searches. */
module GraphLayers {

  /** A directed graph as its arcs. */
  type Arcs = set<(nat, nat)>

  ghost function Targets(arcs: Arcs, nodes: set<nat>): set<nat> {
    set a | a in arcs && a.0 in nodes :: a.1
  }

  /** The nodes at most k steps from the roots. */
  ghost function Reach(arcs: Arcs, roots: set<nat>, k: nat): set<nat> {
    if k == 0 then roots else Reach(arcs, roots, k - 1) + Targets(arcs, Reach(arcs, roots, k - 1))
  }

  /** v is exactly k steps from the roots. */
  ghost predicate IsAt(arcs: Arcs, roots: set<nat>, v: nat, k: nat) {
    v in Reach(arcs, roots, k) && (k > 0 ==> v !in Reach(arcs, roots, k - 1))
  }

  ghost predicate IsWalk(arcs: Arcs, walk: seq<nat>) {
    walk != [] && forall i | 0 <= i < |walk| - 1 :: (walk[i], walk[i + 1]) in arcs
  }

  ghost predicate WalkTo(arcs: Arcs, roots: set<nat>, walk: seq<nat>, v: nat) {
    IsWalk(arcs, walk) && walk[0] in roots && walk[|walk| - 1] == v
  }

  lemma {:induction false} ReachGrows(arcs: Arcs, roots: set<nat>, j: nat, k: nat)
    requires j <= k
    ensures Reach(arcs, roots, j) <= Reach(arcs, roots, k)
    decreases k
  {
    if j < k {
      ReachGrows(arcs, roots, j, k - 1);
    }
  }

  lemma {:induction false} WalkIsReached(arcs: Arcs, roots: set<nat>, walk: seq<nat>, v: nat)
    requires WalkTo(arcs, roots, walk, v)
    ensures v in Reach(arcs, roots, |walk| - 1)
    decreases |walk|
  {
    if |walk| > 1 {
      var n := |walk| - 1;
      WalkIsReached(arcs, roots, walk[..n], walk[n - 1]);
      assert (walk[n - 1], walk[n - 1 + 1]) in arcs;
    }
  }

  lemma {:induction false} ReachedHasWalk(arcs: Arcs, roots: set<nat>, v: nat, k: nat) returns (walk: seq<nat>)
    requires v in Reach(arcs, roots, k)
    ensures WalkTo(arcs, roots, walk, v) && |walk| <= k + 1
    decreases k
  {
    if k == 0 {
      walk := [v];
    } else if v in Reach(arcs, roots, k - 1) {
      walk := ReachedHasWalk(arcs, roots, v, k - 1);
    } else {
      var a :| a in arcs && a.0 in Reach(arcs, roots, k - 1) && a.1 == v;
      var shorter := ReachedHasWalk(arcs, roots, a.0, k - 1);
      walk := shorter + [v];
    }
  }

  /** The layers are the shortest walks: v is in the layer k exactly if some walk of at most k steps ends in it. */
  lemma ReachIffWalk(arcs: Arcs, roots: set<nat>, v: nat, k: nat)
    ensures v in Reach(arcs, roots, k) <==> exists walk :: WalkTo(arcs, roots, walk, v) && |walk| <= k + 1
  {
    if v in Reach(arcs, roots, k) {
      var walk := ReachedHasWalk(arcs, roots, v, k);
    }
    if walk :| WalkTo(arcs, roots, walk, v) && |walk| <= k + 1 {
      WalkIsReached(arcs, roots, walk, v);
      ReachGrows(arcs, roots, |walk| - 1, k);
    }
  }

  /** A node has at most one distance. */
  lemma DistanceIsUnique(arcs: Arcs, roots: set<nat>, v: nat, j: nat, k: nat)
    requires IsAt(arcs, roots, v, j) && IsAt(arcs, roots, v, k)
    ensures j == k
  {
    if j < k { ReachGrows(arcs, roots, j, k - 1); }
    if k < j { ReachGrows(arcs, roots, k, j - 1); }
  }

  lemma SameNextLayer(arcs: Arcs, roots: set<nat>, j: nat, k: nat)
    requires Reach(arcs, roots, j) == Reach(arcs, roots, k)
    ensures Reach(arcs, roots, j + 1) == Reach(arcs, roots, k + 1)
  {
  }

  /** A layer that adds nothing is the last one. */
  lemma {:induction false} EmptyLayerIsLast(arcs: Arcs, roots: set<nat>, j: nat, next: nat, k: nat)
    requires next == j + 1 && Reach(arcs, roots, next) == Reach(arcs, roots, j) && j <= k
    ensures Reach(arcs, roots, k) == Reach(arcs, roots, j)
    decreases k - j
  {
    if j < k {
      SameNextLayer(arcs, roots, next, j);
      EmptyLayerIsLast(arcs, roots, next, next + 1, k);
    }
  }

  // ---- Breadth-first search ---------------------------------------------------------------------------------------

  /** Every node found so far has its distance, none beyond the bound. */
  ghost predicate Exact(arcs: Arcs, roots: set<nat>, bound: nat, dist: map<nat, nat>) {
    && roots <= dist.Keys
    && forall v {:trigger NodeIsExact(arcs, roots, bound, v, dist[v])} | v in dist ::
         NodeIsExact(arcs, roots, bound, v, dist[v])
  }

  ghost predicate NodeIsExact(arcs: Arcs, roots: set<nat>, bound: nat, v: nat, d: nat) {
    d <= bound && IsAt(arcs, roots, v, d)
  }

  /** The queue holds found nodes of one level, then nodes of the next. */
  ghost predicate Ordered(dist: map<nat, nat>, queue: seq<nat>, level: nat) {
    && (forall i | 0 <= i < |queue| :: queue[i] in dist && level <= dist[queue[i]] <= level + 1)
    && forall i, j | 0 <= i < j < |queue| :: queue[i] in dist && queue[j] in dist && dist[queue[i]] <= dist[queue[j]]
  }

  /** Nodes that are neither queued nor in `open` have been expanded, unless they lie on the bound. */
  ghost predicate Expanded(arcs: Arcs, bound: nat, dist: map<nat, nat>, queue: seq<nat>, open: set<nat>) {
    forall a {:trigger ArcExpanded(a, bound, dist, queue, open)} | a in arcs :: ArcExpanded(a, bound, dist, queue, open)
  }

  ghost predicate ArcExpanded(a: (nat, nat), bound: nat, dist: map<nat, nat>, queue: seq<nat>, open: set<nat>) {
    a.0 in dist && a.0 !in queue && a.0 !in open && dist[a.0] < bound ==> a.1 in dist
  }

  ghost predicate Searching(arcs: Arcs, roots: set<nat>, bound: nat, dist: map<nat, nat>, queue: seq<nat>, level: nat,
                            open: set<nat>) {
    && Exact(arcs, roots, bound, dist) && Ordered(dist, queue, level) && Expanded(arcs, bound, dist, queue, open)
    && Reach(arcs, roots, level) <= dist.Keys
  }

  lemma SearchStarts(arcs: Arcs, roots: set<nat>, bound: nat, dist: map<nat, nat>, queue: seq<nat>)
    requires dist == map v | v in roots :: 0
    requires forall v :: v in queue <==> v in roots
    ensures Searching(arcs, roots, bound, dist, queue, 0, {})
  {
  }

  lemma Predecessor(arcs: Arcs, roots: set<nat>, v: nat, k: nat) returns (u: nat)
    requires v in Reach(arcs, roots, k + 1) && v !in Reach(arcs, roots, k)
    ensures (u, v) in arcs && u in Reach(arcs, roots, k)
  {
    assert v in Targets(arcs, Reach(arcs, roots, k));
    var a :| a in arcs && a.0 in Reach(arcs, roots, k) && a.1 == v;
    u := a.0;
    assert a == (u, v);
  }

  lemma NoFarther(arcs: Arcs, roots: set<nat>, bound: nat, dist: map<nat, nat>, u: nat, k: nat)
    requires Exact(arcs, roots, bound, dist) && u in dist && u in Reach(arcs, roots, k)
    ensures dist[u] <= k
  {
    assert NodeIsExact(arcs, roots, bound, u, dist[u]);
    if dist[u] > k {
      ReachGrows(arcs, roots, k, dist[u] - 1);
    }
  }

  /** The next layer is complete once every queued node is beyond this one. */
  lemma NextLayerFound(arcs: Arcs, roots: set<nat>, bound: nat, dist: map<nat, nat>, queue: seq<nat>, level: nat)
    requires Exact(arcs, roots, bound, dist) && Expanded(arcs, bound, dist, queue, {}) && level < bound
    requires Reach(arcs, roots, level) <= dist.Keys
    requires forall u | u in queue :: u in dist && dist[u] == level + 1
    ensures Reach(arcs, roots, level + 1) <= dist.Keys
  {
    forall v | v in Reach(arcs, roots, level + 1) ensures v in dist {
      if v !in Reach(arcs, roots, level) {
        var u := Predecessor(arcs, roots, v, level);
        NoFarther(arcs, roots, bound, dist, u, level);
        assert ArcExpanded((u, v), bound, dist, queue, {});
      }
    }
  }

  lemma OrderedTail(dist: map<nat, nat>, queue: seq<nat>, level: nat)
    requires Ordered(dist, queue, level) && queue != []
    ensures Ordered(dist, queue[1..], dist[queue[0]])
    ensures dist[queue[0]] == level + 1 ==> forall u | u in queue :: u in dist && dist[u] == level + 1
  {
  }

  lemma ExpandedTail(arcs: Arcs, bound: nat, dist: map<nat, nat>, queue: seq<nat>)
    requires Expanded(arcs, bound, dist, queue, {}) && queue != []
    ensures Expanded(arcs, bound, dist, queue[1..], {queue[0]})
  {
    forall a | a in arcs ensures ArcExpanded(a, bound, dist, queue[1..], {queue[0]}) {
      assert ArcExpanded(a, bound, dist, queue, {});
      assert queue == [queue[0]] + queue[1..];
    }
  }

  /** Taking the head of the queue: its level is the search's level from now on. */
  lemma HeadIsTaken(arcs: Arcs, roots: set<nat>, bound: nat, dist: map<nat, nat>, queue: seq<nat>, level: nat)
    requires Searching(arcs, roots, bound, dist, queue, level, {}) && queue != []
    ensures queue[0] in dist && Searching(arcs, roots, bound, dist, queue[1..], dist[queue[0]], {queue[0]})
  {
    assert queue[0] in dist;
    OrderedTail(dist, queue, level);
    ExpandedTail(arcs, bound, dist, queue);
    assert NodeIsExact(arcs, roots, bound, queue[0], dist[queue[0]]);
    if dist[queue[0]] == level + 1 {
      NextLayerFound(arcs, roots, bound, dist, queue, level);
    }
  }

  lemma OrderedAppend(dist: map<nat, nat>, queue: seq<nat>, level: nat, v: nat)
    requires Ordered(dist, queue, level) && v !in dist
    ensures Ordered(dist[v := level + 1], queue + [v], level)
  {
  }

  lemma ExpandedAppend(arcs: Arcs, bound: nat, dist: map<nat, nat>, queue: seq<nat>, open: set<nat>, v: nat, d: nat)
    requires Expanded(arcs, bound, dist, queue, open) && v !in dist
    ensures Expanded(arcs, bound, dist[v := d], queue + [v], open)
  {
    forall a | a in arcs ensures ArcExpanded(a, bound, dist[v := d], queue + [v], open) {
      assert ArcExpanded(a, bound, dist, queue, open);
      assert (queue + [v])[|queue|] == v;
      assert a.0 in queue ==> a.0 in queue + [v];
    }
  }

  lemma ExactAppend(arcs: Arcs, roots: set<nat>, bound: nat, dist: map<nat, nat>, v: nat, d: nat)
    requires Exact(arcs, roots, bound, dist) && NodeIsExact(arcs, roots, bound, v, d)
    ensures Exact(arcs, roots, bound, dist[v := d])
  {
    var after := dist[v := d];
    forall u | u in after ensures NodeIsExact(arcs, roots, bound, u, after[u]) {
      if u != v { assert NodeIsExact(arcs, roots, bound, u, dist[u]); }
    }
  }

  lemma ArcLeadsToNextLayer(arcs: Arcs, roots: set<nat>, u: nat, v: nat, k: nat)
    requires u in Reach(arcs, roots, k) && v !in Reach(arcs, roots, k) && (u, v) in arcs
    ensures IsAt(arcs, roots, v, k + 1)
  {
    assert (u, v).0 in Reach(arcs, roots, k);
    assert v in Targets(arcs, Reach(arcs, roots, k));
  }

  /** Finding a new node from the one being expanded. */
  lemma NodeIsFound(arcs: Arcs, roots: set<nat>, bound: nat, dist: map<nat, nat>, queue: seq<nat>, level: nat,
                    current: nat, v: nat)
    requires Searching(arcs, roots, bound, dist, queue, level, {current})
    requires current in dist && dist[current] == level < bound && (current, v) in arcs && v !in dist
    ensures Searching(arcs, roots, bound, dist[v := level + 1], queue + [v], level, {current})
  {
    OrderedAppend(dist, queue, level, v);
    ExpandedAppend(arcs, bound, dist, queue, {current}, v, level + 1);
    assert NodeIsExact(arcs, roots, bound, current, dist[current]);
    ArcLeadsToNextLayer(arcs, roots, current, v, level);
    ExactAppend(arcs, roots, bound, dist, v, level + 1);
  }

  lemma NodeIsDone(arcs: Arcs, roots: set<nat>, bound: nat, dist: map<nat, nat>, queue: seq<nat>, level: nat,
                   current: nat)
    requires Searching(arcs, roots, bound, dist, queue, level, {current})
    requires current in dist && (dist[current] < bound ==> forall a | a in arcs && a.0 == current :: a.1 in dist)
    ensures Searching(arcs, roots, bound, dist, queue, level, {})
  {
    forall a | a in arcs ensures ArcExpanded(a, bound, dist, queue, {}) {
      assert ArcExpanded(a, bound, dist, queue, {current});
    }
  }

  /** When the queue is empty, exactly the nodes within the bound have been found. */
  lemma SearchIsComplete(arcs: Arcs, roots: set<nat>, bound: nat, dist: map<nat, nat>, level: nat)
    requires Searching(arcs, roots, bound, dist, [], level, {})
    ensures dist.Keys == Reach(arcs, roots, bound)
  {
    LayersAreFound(arcs, roots, bound, dist, level, bound);
    forall v | v in dist ensures v in Reach(arcs, roots, bound) {
      assert NodeIsExact(arcs, roots, bound, v, dist[v]);
      ReachGrows(arcs, roots, dist[v], bound);
    }
  }

  lemma {:induction false} LayersAreFound(arcs: Arcs, roots: set<nat>, bound: nat, dist: map<nat, nat>, level: nat,
                                          k: nat)
    requires Searching(arcs, roots, bound, dist, [], level, {}) && k <= bound
    ensures Reach(arcs, roots, k) <= dist.Keys
    decreases k
  {
    if k > 0 {
      LayersAreFound(arcs, roots, bound, dist, level, k - 1);
      NextLayerFound(arcs, roots, bound, dist, [], k - 1);
    }
  }

  // ---- Termination ------------------------------------------------------------------------------------------------

  /** All a search can find. */
  ghost function Universe(arcs: Arcs, roots: set<nat>): set<nat> {
    roots + set a | a in arcs :: a.1
  }

  lemma {:induction false} ReachIsBounded(arcs: Arcs, roots: set<nat>, k: nat)
    ensures Reach(arcs, roots, k) <= Universe(arcs, roots)
    decreases k
  {
    if k > 0 {
      ReachIsBounded(arcs, roots, k - 1);
    }
  }

  lemma FoundIsBounded(arcs: Arcs, roots: set<nat>, bound: nat, dist: map<nat, nat>)
    requires Exact(arcs, roots, bound, dist)
    ensures dist.Keys <= Universe(arcs, roots)
  {
    forall v | v in dist ensures v in Universe(arcs, roots) {
      assert NodeIsExact(arcs, roots, bound, v, dist[v]);
      ReachIsBounded(arcs, roots, dist[v]);
    }
  }

  lemma Shrinks(universe: set<nat>, before: set<nat>, after: set<nat>)
    requires before <= after
    ensures after <= universe && before != after ==> universe - after < universe - before
    ensures before == after ==> universe - after == universe - before
  {
  }

  // ---- Sequences as sets ------------------------------------------------------------------------------------------

  function Elements(s: seq<nat>): set<nat> {
    set i | 0 <= i < |s| :: s[i]
  }

  lemma ElementsGrow(s: seq<nat>, x: nat)
    ensures Elements(s + [x]) == Elements(s) + {x}
  {
    assert (s + [x])[|s|] == x;
    forall i | 0 <= i < |s| ensures s[i] in Elements(s + [x]) {
      assert (s + [x])[i] == s[i];
    }
  }
}
