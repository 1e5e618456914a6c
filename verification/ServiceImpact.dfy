/** The queue search for the work items a service outage implicates (src/modules/lineage/impact.service.ts). */
module ServiceImpact {
  import opened Wrappers
  import opened GraphLayers

  const DEFAULT_DEPTH := 3
  const MAX_DEPTH := 10

  datatype Link = Link(linkType: nat, source: nat, target: nat)

  /** One edge of the chain that implicates an item: the service's own link, then links between work items. */
  datatype Via = Affects(item: nat) | Along(link: Link)

  datatype State = State(item: nat, distance: nat, via: seq<Via>)

  function Distance(a: int, b: int): nat {
    if a < b then b - a else a - b
  }

  /** The allowed depth nearest to the one asked for. */
  function ClampDepth(depth: Option<int>): (clamped: nat)
    ensures 1 <= clamped <= 10 && (depth.None? ==> clamped == 3)
    ensures depth.Some? ==> forall k | 1 <= k <= 10 :: Distance(clamped, depth.value) <= Distance(k, depth.value)
  {
    if depth.None? then DEFAULT_DEPTH
    else if depth.value < 1 then 1
    else if depth.value > MAX_DEPTH then MAX_DEPTH
    else depth.value
  }

  /** No requested types, no filter. */
  predicate Allowed(types: set<nat>, link: Link) {
    types == {} || link.linkType in types
  }

  predicate Joins(link: Link, node: nat) {
    link.source == node || link.target == node
  }

  function Other(link: Link, node: nat): nat {
    if link.source == node then link.target else link.source
  }

  /** The allowed links, walked both ways. */
  ghost function ArcsOf(links: seq<Link>, types: set<nat>): Arcs {
    (set i | 0 <= i < |links| && Allowed(types, links[i]) :: (links[i].source, links[i].target))
    + (set i | 0 <= i < |links| && Allowed(types, links[i]) :: (links[i].target, links[i].source))
  }

  /** Two items are joined exactly by a link between them, in either direction, of a requested type; of any type, if no
      type was requested. */
  lemma JoinedIff(links: seq<Link>, types: set<nat>, a: nat, b: nat)
    ensures (a, b) in ArcsOf(links, types) <==>
      exists i | 0 <= i < |links| :: (types == {} || links[i].linkType in types)
        && ((links[i].source == a && links[i].target == b) || (links[i].source == b && links[i].target == a))
  {
  }

  /** The chain starts with the service's link to a seed, and each later link is an allowed one that joins the item
      before it to the item after it; the last item is `item`. */
  ghost predicate IsChain(links: seq<Link>, types: set<nat>, seeds: set<nat>, via: seq<Via>, item: nat) {
    if |via| == 0 then false
    else
      var last := via[|via| - 1];
      match last
      case Affects(seed) => |via| == 1 && seed == item && item in seeds
      case Along(link) =>
        link in links && Allowed(types, link) && Joins(link, item)
        && IsChain(links, types, seeds, via[..|via| - 1], Other(link, item))
  }

  lemma LinkIsArc(links: seq<Link>, types: set<nat>, i: nat, node: nat)
    requires i < |links| && Allowed(types, links[i]) && Joins(links[i], node)
    ensures (node, Other(links[i], node)) in ArcsOf(links, types)
  {
  }

  lemma ArcIsLink(links: seq<Link>, types: set<nat>, a: (nat, nat)) returns (i: nat)
    requires a in ArcsOf(links, types)
    ensures i < |links| && Allowed(types, links[i]) && Joins(links[i], a.0) && Other(links[i], a.0) == a.1
  {
    if a in (set k | 0 <= k < |links| && Allowed(types, links[k]) :: (links[k].source, links[k].target)) {
      i :| 0 <= i < |links| && Allowed(types, links[i]) && (links[i].source, links[i].target) == a;
    } else {
      i :| 0 <= i < |links| && Allowed(types, links[i]) && (links[i].target, links[i].source) == a;
    }
  }

  lemma ChainGrows(links: seq<Link>, types: set<nat>, seeds: set<nat>, via: seq<Via>, item: nat, i: nat)
    requires IsChain(links, types, seeds, via, item)
    requires i < |links| && Allowed(types, links[i]) && Joins(links[i], item)
    ensures IsChain(links, types, seeds, via + [Along(links[i])], Other(links[i], item))
  {
    var next := via + [Along(links[i])];
    assert next[..|next| - 1] == via;
  }

  /** A chain is a walk of the same number of items. */
  lemma {:induction false} ChainIsWalk(links: seq<Link>, types: set<nat>, seeds: set<nat>, via: seq<Via>, item: nat)
    returns (walk: seq<nat>)
    requires IsChain(links, types, seeds, via, item)
    ensures WalkTo(ArcsOf(links, types), seeds, walk, item) && |walk| == |via|
    decreases |via|
  {
    match via[|via| - 1]
    case Affects(_) => walk := [item];
    case Along(link) =>
      var i :| 0 <= i < |links| && links[i] == link;
      var shorter := ChainIsWalk(links, types, seeds, via[..|via| - 1], Other(link, item));
      LinkIsArc(links, types, i, Other(link, item));
      walk := shorter + [item];
  }

  // ---- The search -------------------------------------------------------------------------------------------------

  ghost predicate StateOk(links: seq<Link>, types: set<nat>, seeds: set<nat>, v: nat, s: State) {
    s.item == v && s.distance == |s.via| > 0 && IsChain(links, types, seeds, s.via, v)
  }

  ghost predicate Sound(links: seq<Link>, types: set<nat>, seeds: set<nat>, visited: map<nat, State>) {
    forall v {:trigger StateOk(links, types, seeds, v, visited[v])} | v in visited ::
      StateOk(links, types, seeds, v, visited[v])
  }

  ghost predicate Queued(visited: map<nat, State>, queue: seq<State>) {
    forall i | 0 <= i < |queue| :: queue[i].item in visited && visited[queue[i].item] == queue[i]
  }

  /** Distances counted from the seeds, which are one step from the service. */
  ghost function DistOf(visited: map<nat, State>): map<nat, nat> {
    map v | v in visited :: if visited[v].distance > 0 then visited[v].distance - 1 else 0
  }

  ghost function ItemsOf(queue: seq<State>): seq<nat> {
    seq(|queue|, i requires 0 <= i < |queue| => queue[i].item)
  }

  ghost predicate Inv(arcs: Arcs, seeds: set<nat>, bound: nat, visited: map<nat, State>, queue: seq<State>, level: nat,
                      open: set<nat>)
  {
    Queued(visited, queue) && Searching(arcs, seeds, bound, DistOf(visited), ItemsOf(queue), level, open)
  }

  ghost predicate IsCurrent(visited: map<nat, State>, current: State) {
    current.item in visited && visited[current.item] == current && current.distance > 0
  }

  /** The state of the search while the neighbours of the current item are being visited. */
  ghost predicate Expanding(links: seq<Link>, types: set<nat>, arcs: Arcs, seeds: set<nat>, bound: nat,
                            visited: map<nat, State>, queue: seq<State>, current: State)
  {
    && IsCurrent(visited, current) && current.distance <= bound && Sound(links, types, seeds, visited)
    && Inv(arcs, seeds, bound, visited, queue, current.distance - 1, {current.item})
  }

  /** A new item next to the current one keeps the invariant. */
  lemma ItemIsFound(arcs: Arcs, seeds: set<nat>, bound: nat, visited: map<nat, State>, queue: seq<State>,
                    current: State, s: State)
    requires IsCurrent(visited, current) && current.distance <= bound
    requires Inv(arcs, seeds, bound, visited, queue, current.distance - 1, {current.item})
    requires (current.item, s.item) in arcs && s.item !in visited && s.distance == current.distance + 1
    ensures Inv(arcs, seeds, bound, visited[s.item := s], queue + [s], current.distance - 1, {current.item})
  {
    NodeIsFound(arcs, seeds, bound, DistOf(visited), ItemsOf(queue), current.distance - 1, current.item, s.item);
    StateIsAdded(visited, queue, current, s);
    hide DistOf, ItemsOf, Searching;
  }

  lemma StateIsAdded(visited: map<nat, State>, queue: seq<State>, current: State, s: State)
    requires Queued(visited, queue) && s.item !in visited && s.distance == current.distance + 1
    ensures DistOf(visited[s.item := s]) == DistOf(visited)[s.item := current.distance]
    ensures ItemsOf(queue + [s]) == ItemsOf(queue) + [s.item]
    ensures Queued(visited[s.item := s], queue + [s])
  {
  }

  lemma ItemIsDone(arcs: Arcs, seeds: set<nat>, bound: nat, visited: map<nat, State>, queue: seq<State>, current: State)
    requires IsCurrent(visited, current)
    requires Inv(arcs, seeds, bound, visited, queue, current.distance - 1, {current.item})
    requires current.distance <= bound ==> forall a | a in arcs && a.0 == current.item :: a.1 in visited
    ensures Inv(arcs, seeds, bound, visited, queue, current.distance - 1, {})
  {
    NodeIsDone(arcs, seeds, bound, DistOf(visited), ItemsOf(queue), current.distance - 1, current.item);
  }

  lemma ItemIsTaken(arcs: Arcs, seeds: set<nat>, bound: nat, visited: map<nat, State>, queue: seq<State>, level: nat)
    requires Inv(arcs, seeds, bound, visited, queue, level, {}) && queue != [] && queue[0].distance > 0
    ensures IsCurrent(visited, queue[0])
    ensures Inv(arcs, seeds, bound, visited, queue[1..], queue[0].distance - 1, {queue[0].item})
  {
    HeadIsTaken(arcs, seeds, bound, DistOf(visited), ItemsOf(queue), level);
    assert ItemsOf(queue)[1..] == ItemsOf(queue[1..]);
  }

  lemma StateIsFound(links: seq<Link>, types: set<nat>, seeds: set<nat>, visited: map<nat, State>, current: State,
                     i: nat, s: State)
    requires Sound(links, types, seeds, visited) && IsCurrent(visited, current)
    requires i < |links| && Allowed(types, links[i]) && Joins(links[i], current.item)
    requires s == State(Other(links[i], current.item), current.distance + 1, current.via + [Along(links[i])])
    ensures Sound(links, types, seeds, visited[s.item := s])
  {
    assert StateOk(links, types, seeds, current.item, current);
    ChainGrows(links, types, seeds, current.via, current.item, i);
  }

  /** One neighbour of the current item. */
  method Visit(links: seq<Link>, types: set<nat>, current: State, i: nat, visited: map<nat, State>, queue: seq<State>,
               ghost arcs: Arcs, ghost seeds: set<nat>, ghost bound: nat)
    returns (visited': map<nat, State>, queue': seq<State>)
    requires i < |links| && Expanding(links, types, arcs, seeds, bound, visited, queue, current)
    requires Allowed(types, links[i]) && Joins(links[i], current.item) ==>
      (current.item, Other(links[i], current.item)) in arcs
    ensures Expanding(links, types, arcs, seeds, bound, visited', queue', current)
    ensures visited.Keys <= visited'.Keys && (visited'.Keys == visited.Keys ==> queue' == queue)
    ensures Allowed(types, links[i]) && Joins(links[i], current.item) ==> Other(links[i], current.item) in visited'
  {
    visited', queue' := visited, queue;
    if Joins(links[i], current.item) && Allowed(types, links[i]) && Other(links[i], current.item) !in visited {
      var s := State(Other(links[i], current.item), current.distance + 1, current.via + [Along(links[i])]);
      ItemIsFound(arcs, seeds, bound, visited, queue, current, s);
      StateIsFound(links, types, seeds, visited, current, i, s);
      visited', queue' := visited[s.item := s], queue + [s];
    }
  }

  /** All others at the links of one item, up to link n, are in the set. */
  ghost predicate Covered(links: seq<Link>, types: set<nat>, item: nat, n: nat, found: set<nat>) {
    forall k | 0 <= k < n && k < |links| && Allowed(types, links[k]) && Joins(links[k], item) ::
      Other(links[k], item) in found
  }

  lemma CoveredArcs(links: seq<Link>, types: set<nat>, item: nat, found: set<nat>)
    requires Covered(links, types, item, |links|, found)
    ensures forall a | a in ArcsOf(links, types) && a.0 == item :: a.1 in found
  {
    forall a | a in ArcsOf(links, types) && a.0 == item ensures a.1 in found {
      var k := ArcIsLink(links, types, a);
    }
  }

  lemma MaybeArc(links: seq<Link>, types: set<nat>, i: nat, node: nat)
    requires i < |links|
    ensures Allowed(types, links[i]) && Joins(links[i], node) ==> (node, Other(links[i], node)) in ArcsOf(links, types)
  {
    if Allowed(types, links[i]) && Joins(links[i], node) {
      LinkIsArc(links, types, i, node);
    }
  }

  /** All neighbours of the current item. */
  method Expand(links: seq<Link>, types: set<nat>, current: State, visited: map<nat, State>, queue: seq<State>,
                ghost arcs: Arcs, ghost seeds: set<nat>, ghost bound: nat)
    returns (visited': map<nat, State>, queue': seq<State>)
    requires arcs == ArcsOf(links, types)
    requires Expanding(links, types, arcs, seeds, bound, visited, queue, current)
    ensures Sound(links, types, seeds, visited')
    ensures Inv(arcs, seeds, bound, visited', queue', current.distance - 1, {})
    ensures visited.Keys <= visited'.Keys && (visited'.Keys == visited.Keys ==> queue' == queue)
  {
    visited', queue' := visited, queue;
    for i := 0 to |links|
      invariant Expanding(links, types, arcs, seeds, bound, visited', queue', current)
      invariant visited.Keys <= visited'.Keys && (visited'.Keys == visited.Keys ==> queue' == queue)
      invariant Covered(links, types, current.item, i, visited'.Keys)
    {
      MaybeArc(links, types, i, current.item);
      visited', queue' := Visit(links, types, current, i, visited', queue', arcs, seeds, bound);
    }
    CoveredArcs(links, types, current.item, visited'.Keys);
    ItemIsDone(arcs, seeds, bound, visited', queue', current);
  }

  /** The seeds, each one step from the service. */
  method Seed(seeds: seq<nat>) returns (visited: map<nat, State>, queue: seq<State>)
    ensures visited.Keys == Elements(seeds) && |queue| == |seeds|
    ensures forall v | v in visited :: visited[v] == State(v, 1, [Affects(v)])
    ensures forall k | 0 <= k < |seeds| :: queue[k] == State(seeds[k], 1, [Affects(seeds[k])])
  {
    visited, queue := map[], [];
    for i := 0 to |seeds|
      invariant |queue| == i && visited.Keys == Elements(seeds[..i])
      invariant forall v | v in visited :: visited[v] == State(v, 1, [Affects(v)])
      invariant forall k | 0 <= k < i :: queue[k] == State(seeds[k], 1, [Affects(seeds[k])])
    {
      var s := State(seeds[i], 1, [Affects(seeds[i])]);
      assert seeds[..i + 1] == seeds[..i] + [seeds[i]];
      ElementsGrow(seeds[..i], seeds[i]);
      visited, queue := visited[seeds[i] := s], queue + [s];
    }
    assert seeds[..|seeds|] == seeds;
  }

  lemma SeedsStart(arcs: Arcs, seeds: seq<nat>, bound: nat, visited: map<nat, State>, queue: seq<State>)
    requires visited.Keys == Elements(seeds) && |queue| == |seeds|
    requires forall v | v in visited :: visited[v] == State(v, 1, [Affects(v)])
    requires forall k | 0 <= k < |seeds| :: queue[k] == State(seeds[k], 1, [Affects(seeds[k])])
    ensures Inv(arcs, Elements(seeds), bound, visited, queue, 0, {})
  {
    assert ItemsOf(queue) == seeds;
    assert DistOf(visited) == map v | v in Elements(seeds) :: 0;
    SearchStarts(arcs, Elements(seeds), bound, DistOf(visited), seeds);
    forall k | 0 <= k < |queue| ensures queue[k].item in visited && visited[queue[k].item] == queue[k] {
      assert seeds[k] in Elements(seeds);
    }
  }

  /** The head of the queue is expanded unless it lies on the depth: an item is found, or the queue gets shorter. */
  method ExpandHead(links: seq<Link>, types: set<nat>, limit: nat, visited: map<nat, State>, queue: seq<State>,
                    ghost arcs: Arcs, ghost seeds: set<nat>, ghost level: nat)
    returns (visited': map<nat, State>, queue': seq<State>, ghost level': nat)
    requires limit > 0 && queue != [] && arcs == ArcsOf(links, types)
    requires Sound(links, types, seeds, visited) && Inv(arcs, seeds, limit - 1, visited, queue, level, {})
    ensures Sound(links, types, seeds, visited') && Inv(arcs, seeds, limit - 1, visited', queue', level', {})
    ensures Universe(arcs, seeds) - visited'.Keys < Universe(arcs, seeds) - visited.Keys
            || (Universe(arcs, seeds) - visited'.Keys == Universe(arcs, seeds) - visited.Keys && |queue'| < |queue|)
  {
    var current := queue[0];
    assert StateOk(links, types, seeds, current.item, visited[current.item]);
    ItemIsTaken(arcs, seeds, limit - 1, visited, queue, level);
    level' := current.distance - 1;
    if current.distance >= limit {
      visited', queue' := visited, queue[1..];
      ItemIsDone(arcs, seeds, limit - 1, visited, queue', current);
    } else {
      visited', queue' := Expand(links, types, current, visited, queue[1..], arcs, seeds, limit - 1);
      FoundIsBounded(arcs, seeds, limit - 1, DistOf(visited'));
      Shrinks(Universe(arcs, seeds), visited.Keys, visited'.Keys);
    }
  }

  /** The result holds precisely the items within the depth of the service over the allowed links, each with its
      shortest distance and a chain of that length that leads to it. */
  method GetServiceImpact(seeds: seq<nat>, links: seq<Link>, types: set<nat>, depth: Option<int>)
    returns (visited: map<nat, State>)
    ensures visited.Keys == Reach(ArcsOf(links, types), Elements(seeds), ClampDepth(depth) - 1)
    ensures forall v | v in visited :: visited[v].item == v && visited[v].distance == |visited[v].via| > 0
    ensures forall v | v in visited :: IsAt(ArcsOf(links, types), Elements(seeds), v, visited[v].distance - 1)
    ensures forall v | v in visited :: IsChain(links, types, Elements(seeds), visited[v].via, v)
  {
    var limit := ClampDepth(depth);
    ghost var arcs, roots := ArcsOf(links, types), Elements(seeds);
    ghost var level: nat := 0;
    var queue;
    visited, queue := Seed(seeds);
    SeedsStart(arcs, seeds, limit - 1, visited, queue);
    while |queue| > 0
      invariant Sound(links, types, roots, visited)
      invariant Inv(arcs, roots, limit - 1, visited, queue, level, {})
      decreases Universe(arcs, roots) - visited.Keys, |queue|
    {
      visited, queue, level := ExpandHead(links, types, limit, visited, queue, arcs, roots, level);
    }
    ResultIsExact(arcs, roots, limit - 1, visited, level);
    forall v | v in visited ensures StateOk(links, types, roots, v, visited[v]) {
    }
  }

  lemma ResultIsExact(arcs: Arcs, seeds: set<nat>, bound: nat, visited: map<nat, State>, level: nat)
    requires Inv(arcs, seeds, bound, visited, [], level, {})
    ensures visited.Keys == Reach(arcs, seeds, bound)
    ensures forall v | v in visited && visited[v].distance > 0 :: IsAt(arcs, seeds, v, visited[v].distance - 1)
  {
    assert ItemsOf([]) == [];
    SearchIsComplete(arcs, seeds, bound, DistOf(visited), level);
    forall v | v in visited && visited[v].distance > 0 ensures IsAt(arcs, seeds, v, visited[v].distance - 1) {
      assert v in DistOf(visited) && DistOf(visited)[v] == visited[v].distance - 1;
      assert NodeIsExact(arcs, seeds, bound, v, DistOf(visited)[v]);
    }
  }
}
