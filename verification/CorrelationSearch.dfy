/** The layered search for all identities correlated with one (src/modules/integrations/correlation.service.ts). */
module CorrelationSearch {
  import opened Wrappers
  import opened GraphLayers

  const MAX_DEPTH := 10

  datatype Link = Link(source: nat, target: nat)

  datatype Failure = InvalidDepth | NotFound

  /** The found nodes with their distances, and the indices of the found links. */
  datatype Graph = Graph(nodes: map<nat, nat>, links: set<nat>)

  /** Links are followed both ways. */
  ghost function ArcsOf(links: seq<Link>): Arcs {
    (set i | 0 <= i < |links| :: (links[i].source, links[i].target))
    + (set i | 0 <= i < |links| :: (links[i].target, links[i].source))
  }

  predicate Touches(link: Link, nodes: set<nat>) {
    link.source in nodes || link.target in nodes
  }

  ghost function Touching(links: seq<Link>, nodes: set<nat>): set<nat> {
    set i | 0 <= i < |links| && Touches(links[i], nodes)
  }

  /** Both ends of every link that touches the nodes. */
  ghost function Ends(links: seq<Link>, nodes: set<nat>): set<nat> {
    (set i | 0 <= i < |links| && Touches(links[i], nodes) :: links[i].source)
    + (set i | 0 <= i < |links| && Touches(links[i], nodes) :: links[i].target)
  }

  ghost function Layer(links: seq<Link>, root: nat, k: int): set<nat> {
    if k < 0 then {} else Reach(ArcsOf(links), {root}, k)
  }

  lemma EndsGrow(links: seq<Link>, i: nat, nodes: set<nat>)
    requires i < |links|
    ensures Ends(links[..i + 1], nodes)
         == Ends(links[..i], nodes) + if Touches(links[i], nodes) then {links[i].source, links[i].target} else {}
  {
    assert links[..i + 1] == links[..i] + [links[i]];
    if Touches(links[i], nodes) {
      assert links[..i + 1][i] == links[i];
    }
    forall k | 0 <= k < i && Touches(links[k], nodes)
      ensures links[k].source in Ends(links[..i + 1], nodes) && links[k].target in Ends(links[..i + 1], nodes)
    {
      assert links[..i + 1][k] == links[k];
    }
  }

  /** `after` is `nodes` with the ends added at the distance, and `next` lists what is new. */
  ghost predicate Added(nodes: map<nat, nat>, after: map<nat, nat>, next: seq<nat>, ends: set<nat>, distance: nat) {
    && after.Keys == nodes.Keys + ends
    && (forall v | v in after :: after[v] == if v in nodes then nodes[v] else distance)
    && Elements(next) == after.Keys - nodes.Keys
  }

  method Visit(ghost nodes: map<nat, nat>, after: map<nat, nat>, next: seq<nat>, ghost ends: set<nat>, distance: nat,
               v: nat)
    returns (after': map<nat, nat>, next': seq<nat>)
    requires Added(nodes, after, next, ends, distance)
    ensures Added(nodes, after', next', ends + {v}, distance)
  {
    ElementsGrow(next, v);
    after', next' := after, next;
    if v !in after {
      after' := after[v := distance];
      next' := next + [v];
    }
  }

  /** One round: the links of the frontier, and the nodes at their ends that are new. */
  method Expand(links: seq<Link>, nodes: map<nat, nat>, found: set<nat>, frontier: seq<nat>, distance: nat)
    returns (nodes': map<nat, nat>, found': set<nat>, next: seq<nat>)
    ensures Added(nodes, nodes', next, Ends(links, Elements(frontier)), distance)
    ensures found' == found + Touching(links, Elements(frontier))
  {
    nodes', found', next := nodes, found, [];
    var near := Elements(frontier);
    ghost var ends := {};
    for i := 0 to |links|
      invariant ends == Ends(links[..i], near)
      invariant Added(nodes, nodes', next, ends, distance)
      invariant found' == found + TouchingBelow(links, near, i)
    {
      EndsGrow(links, i, near);
      TouchingGrows(links, near, i);
      if Touches(links[i], near) {
        nodes', next := Visit(nodes, nodes', next, ends, distance, links[i].source);
        nodes', next := Visit(nodes, nodes', next, ends + {links[i].source}, distance, links[i].target);
        assert ends + {links[i].source} + {links[i].target} == ends + {links[i].source, links[i].target};
        found' := found' + {i};
        ends := ends + {links[i].source, links[i].target};
      }
    }
    assert links[..|links|] == links;
    assert TouchingBelow(links, near, |links|) == Touching(links, near);
  }

  ghost function TouchingBelow(links: seq<Link>, nodes: set<nat>, n: nat): set<nat>
    requires n <= |links|
  {
    set i | 0 <= i < n && Touches(links[i], nodes)
  }

  lemma TouchingGrows(links: seq<Link>, nodes: set<nat>, n: nat)
    requires n < |links|
    ensures TouchingBelow(links, nodes, n + 1)
         == TouchingBelow(links, nodes, n) + if Touches(links[n], nodes) then {n} else {}
  {
  }

  lemma ArcIsLink(links: seq<Link>, a: (nat, nat)) returns (i: nat)
    requires a in ArcsOf(links)
    ensures i < |links| && (links[i] == Link(a.0, a.1) || links[i] == Link(a.1, a.0))
  {
    if a in (set k | 0 <= k < |links| :: (links[k].source, links[k].target)) {
      i :| 0 <= i < |links| && (links[i].source, links[i].target) == a;
    } else {
      i :| 0 <= i < |links| && (links[i].target, links[i].source) == a;
    }
  }

  lemma ArcLeadsOn(links: seq<Link>, root: nat, k: nat, u: nat, v: nat)
    requires (u, v) in ArcsOf(links) && u in Layer(links, root, k)
    ensures v in Layer(links, root, k + 1)
  {
    assert (u, v).0 in Reach(ArcsOf(links), {root}, k);
    assert v in Targets(ArcsOf(links), Reach(ArcsOf(links), {root}, k));
  }

  lemma ArcFromBefore(links: seq<Link>, root: nat, k: nat, u: nat, v: nat)
    requires (u, v) in ArcsOf(links)
    ensures u in Layer(links, root, k - 1) ==> v in Layer(links, root, k)
  {
    if k > 0 && u in Layer(links, root, k - 1) {
      ArcLeadsOn(links, root, k - 1, u, v);
    }
  }

  /** A node of a new layer is the end of a link that touches the layer before it. */
  lemma NewNodeIsEnd(links: seq<Link>, root: nat, k: nat, v: nat)
    requires v in Layer(links, root, k + 1) && v !in Layer(links, root, k)
    ensures v in Ends(links, Layer(links, root, k) - Layer(links, root, k - 1))
  {
    var u := Predecessor(ArcsOf(links), {root}, v, k);
    var i := ArcIsLink(links, (u, v));
    ArcFromBefore(links, root, k, u, v);
  }

  /** The ends of the links of the newest layer complete the next one. */
  lemma EndsAreNextLayer(links: seq<Link>, root: nat, k: nat)
    ensures Layer(links, root, k) + Ends(links, Layer(links, root, k) - Layer(links, root, k - 1))
         == Layer(links, root, k + 1)
  {
    var frontier := Layer(links, root, k) - Layer(links, root, k - 1);
    forall v | v in Layer(links, root, k + 1) && v !in Layer(links, root, k) ensures v in Ends(links, frontier) {
      NewNodeIsEnd(links, root, k, v);
    }
    forall v | v in Ends(links, frontier) ensures v in Layer(links, root, k + 1) {
      EndIsNear(links, root, k, frontier, v);
    }
  }

  lemma EndIsNear(links: seq<Link>, root: nat, k: nat, frontier: set<nat>, v: nat)
    requires frontier <= Layer(links, root, k) && v in Ends(links, frontier)
    ensures v in Layer(links, root, k + 1)
  {
    var i :| 0 <= i < |links| && Touches(links[i], frontier) && (links[i].source == v || links[i].target == v);
    assert (links[i].source, links[i].target) in ArcsOf(links) && (links[i].target, links[i].source) in ArcsOf(links);
    var u := if links[i].source in frontier then links[i].source else links[i].target;
    if u != v {
      ArcLeadsOn(links, root, k, u, v);
    }
  }

  lemma TouchingJoins(links: seq<Link>, a: set<nat>, b: set<nat>)
    ensures Touching(links, a) + Touching(links, b) == Touching(links, a + b)
  {
  }

  lemma LayerGrows(links: seq<Link>, root: nat, k: int)
    ensures Layer(links, root, k - 1) <= Layer(links, root, k)
  {
    if k > 0 { ReachGrows(ArcsOf(links), {root}, k - 1, k); }
  }

  /** The result holds precisely the nodes within the depth, each with its shortest distance, and precisely the links
      that touch a node nearer than the depth. */
  method Resolve(known: set<nat>, links: seq<Link>, root: nat, depth: int) returns (r: Result<Graph, Failure>)
    ensures r == Err(InvalidDepth) <==> !(1 <= depth <= MAX_DEPTH)
    ensures r == Err(NotFound) <==> 1 <= depth <= MAX_DEPTH && root !in known
    ensures r.Ok? ==> r.value.nodes.Keys == Reach(ArcsOf(links), {root}, depth)
    ensures r.Ok? ==> forall v | v in r.value.nodes :: IsAt(ArcsOf(links), {root}, v, r.value.nodes[v])
    ensures r.Ok? ==> r.value.links == Touching(links, Reach(ArcsOf(links), {root}, depth - 1))
  {
    if depth < 1 || depth > MAX_DEPTH {
      return Err(InvalidDepth);
    }
    if root !in known {
      return Err(NotFound);
    }
    var nodes, found := Search(links, root, depth);
    DistancesAreExact(ArcsOf(links), {root}, depth, nodes);
    return Ok(Graph(nodes, found));
  }

  method Search(links: seq<Link>, root: nat, depth: nat) returns (nodes: map<nat, nat>, found: set<nat>)
    requires depth > 0
    ensures nodes.Keys == Reach(ArcsOf(links), {root}, depth) && Exact(ArcsOf(links), {root}, depth, nodes)
    ensures found == Touching(links, Reach(ArcsOf(links), {root}, depth - 1))
  {
    hide *;
    var frontier, distance := [root], 1;
    nodes, found := map[root := 0], {};
    FirstRound(links, root, depth);
    while distance <= depth && |frontier| > 0
      invariant 1 <= distance <= depth + 1 && (distance == 1 ==> frontier == [root])
      invariant Round(links, root, depth, nodes, found, Elements(frontier), distance)
    {
      nodes, found, frontier := Turn(links, root, depth, nodes, found, frontier, distance);
      distance := distance + 1;
    }
    RoundsEnd(links, root, depth, nodes, found, frontier, distance);
  }

  /** The loop stops after the last round, or when a round found nothing new. */
  lemma RoundsEnd(links: seq<Link>, root: nat, depth: nat, nodes: map<nat, nat>, found: set<nat>, frontier: seq<nat>,
                  distance: nat)
    requires Round(links, root, depth, nodes, found, Elements(frontier), distance)
    requires 0 < depth && (distance == depth + 1 || (2 <= distance <= depth && frontier == []))
    ensures nodes.Keys == Reach(ArcsOf(links), {root}, depth) && Exact(ArcsOf(links), {root}, depth, nodes)
    ensures found == Touching(links, Reach(ArcsOf(links), {root}, depth - 1))
  {
    assert frontier == [] ==> Elements(frontier) == {};
    RoundsEndNodes(links, root, depth, nodes, found, Elements(frontier), distance);
    RoundsEndLinks(links, root, depth, nodes, found, Elements(frontier), distance);
  }

  method Turn(links: seq<Link>, ghost root: nat, ghost depth: nat, nodes: map<nat, nat>, found: set<nat>,
              frontier: seq<nat>, distance: nat)
    returns (nodes': map<nat, nat>, found': set<nat>, next: seq<nat>)
    requires Round(links, root, depth, nodes, found, Elements(frontier), distance) && distance <= depth
    ensures Round(links, root, depth, nodes', found', Elements(next), distance + 1)
  {
    nodes', found', next := Expand(links, nodes, found, frontier, distance);
    NextRound(links, root, depth, nodes, found, Elements(frontier), distance, nodes', found', next);
  }

  lemma DistancesAreExact(arcs: Arcs, roots: set<nat>, bound: nat, nodes: map<nat, nat>)
    requires Exact(arcs, roots, bound, nodes)
    ensures forall v | v in nodes :: IsAt(arcs, roots, v, nodes[v])
  {
    forall v | v in nodes ensures IsAt(arcs, roots, v, nodes[v]) {
      assert NodeIsExact(arcs, roots, bound, v, nodes[v]);
    }
  }

  lemma NodesEnd(links: seq<Link>, root: nat, before: nat, here: nat, k: nat, keys: set<nat>)
    requires here == before + 1 && Layer(links, root, here) - Layer(links, root, before) == {} && here <= k
    requires keys == Layer(links, root, here)
    ensures keys == Layer(links, root, k)
  {
    assert keys == Layer(links, root, before) by { NothingMore(links, root, before, here, here); }
    NothingMore(links, root, before, here, k);
  }

  lemma LinksEnd(links: seq<Link>, root: nat, before: nat, here: nat, k: nat, found: set<nat>)
    requires here == before + 1 && Layer(links, root, here) - Layer(links, root, before) == {} && before <= k
    requires found == Touching(links, Layer(links, root, before))
    ensures found == Touching(links, Layer(links, root, k))
  {
    NothingMore(links, root, before, here, k);
  }

  lemma RoundsEndNodes(links: seq<Link>, root: nat, depth: nat, nodes: map<nat, nat>, found: set<nat>,
                       frontier: set<nat>, distance: nat)
    requires Round(links, root, depth, nodes, found, frontier, distance)
    requires distance == depth + 1 || (2 <= distance <= depth && frontier == {})
    ensures nodes.Keys == Layer(links, root, depth)
  {
    hide Layer, Touching, Exact;
    if distance <= depth {
      NodesEnd(links, root, distance - 2, distance - 1, depth, nodes.Keys);
    }
  }

  lemma RoundsEndLinks(links: seq<Link>, root: nat, depth: nat, nodes: map<nat, nat>, found: set<nat>,
                       frontier: set<nat>, distance: nat)
    requires Round(links, root, depth, nodes, found, frontier, distance)
    requires distance == depth + 1 || (2 <= distance <= depth && frontier == {})
    ensures found == Touching(links, Layer(links, root, depth - 1))
  {
    hide Layer, Touching, Exact;
    if distance <= depth {
      LinksEnd(links, root, distance - 2, distance - 1, depth - 1, found);
    }
  }

  /** What has been found before the round that adds the nodes at `distance`. */
  ghost predicate Round(links: seq<Link>, root: nat, depth: nat, nodes: map<nat, nat>, found: set<nat>,
                        frontier: set<nat>, distance: nat)
  {
    && distance > 0
    && nodes.Keys == Layer(links, root, distance - 1)
    && Exact(ArcsOf(links), {root}, depth, nodes)
    && frontier == Layer(links, root, distance - 1) - Layer(links, root, distance - 2)
    && found == Touching(links, Layer(links, root, distance - 2))
  }

  lemma FirstRound(links: seq<Link>, root: nat, depth: nat)
    ensures Round(links, root, depth, map[root := 0], {}, Elements([root]), 1)
  {
    ElementsGrow([], root);
    assert [] + [root] == [root];
    assert NodeIsExact(ArcsOf(links), {root}, depth, root, 0);
  }

  lemma NewNodesAreExact(links: seq<Link>, root: nat, distance: nat, v: nat)
    requires distance > 0
    requires v in Layer(links, root, distance) && v !in Layer(links, root, distance - 1)
    ensures IsAt(ArcsOf(links), {root}, v, distance)
  {
  }

  lemma FoundIsTouching(links: seq<Link>, root: nat, distance: nat, found: set<nat>, frontier: set<nat>)
    requires distance > 0 && frontier == Layer(links, root, distance - 1) - Layer(links, root, distance - 2)
    requires found == Touching(links, Layer(links, root, distance - 2))
    ensures found + Touching(links, frontier) == Touching(links, Layer(links, root, distance - 1))
  {
    LayerGrows(links, root, distance - 1);
    assert Layer(links, root, distance - 2) + frontier == Layer(links, root, distance - 1);
    TouchingJoins(links, Layer(links, root, distance - 2), frontier);
  }

  /** The sets of the next round, whatever the layers are. */
  lemma RoundSets(nodes: map<nat, nat>, nodes': map<nat, nat>, next: seq<nat>, ends: set<nat>, distance: nat,
                  here: set<nat>, there: set<nat>)
    requires Added(nodes, nodes', next, ends, distance) && nodes.Keys == here && here + ends == there
    ensures nodes'.Keys == there && Elements(next) == there - here
    ensures forall v | v in nodes' :: nodes'[v] == if v in here then nodes[v] else distance
  {
  }

  lemma NodesAreExact(links: seq<Link>, root: nat, depth: nat, distance: nat, nodes: map<nat, nat>,
                      nodes': map<nat, nat>)
    requires 0 < distance <= depth && Exact(ArcsOf(links), {root}, depth, nodes)
    requires nodes.Keys == Layer(links, root, distance - 1) && nodes'.Keys == Layer(links, root, distance)
    requires nodes.Keys <= nodes'.Keys
    requires forall v | v in nodes' :: nodes'[v] == if v in nodes then nodes[v] else distance
    ensures Exact(ArcsOf(links), {root}, depth, nodes')
  {
    forall v | v in nodes' ensures NodeIsExact(ArcsOf(links), {root}, depth, v, nodes'[v]) {
      if v in nodes {
        assert NodeIsExact(ArcsOf(links), {root}, depth, v, nodes[v]);
      } else {
        NewNodesAreExact(links, root, distance, v);
      }
    }
  }

  lemma NextRound(links: seq<Link>, root: nat, depth: nat, nodes: map<nat, nat>, found: set<nat>, frontier: set<nat>,
                  distance: nat, nodes': map<nat, nat>, found': set<nat>, next: seq<nat>)
    requires Round(links, root, depth, nodes, found, frontier, distance) && distance <= depth
    requires Added(nodes, nodes', next, Ends(links, frontier), distance)
    requires found' == found + Touching(links, frontier)
    ensures Round(links, root, depth, nodes', found', Elements(next), distance + 1)
  {
    var here, there := Layer(links, root, distance - 1), Layer(links, root, distance);
    assert found' == Touching(links, here) by { FoundIsTouching(links, root, distance, found, frontier); }
    assert here + Ends(links, frontier) == there by { EndsAreNextLayer(links, root, distance - 1); }
    RoundSets(nodes, nodes', next, Ends(links, frontier), distance, here, there);
    NodesAreExact(links, root, depth, distance, nodes, nodes');
  }

  lemma EmptyDifference(a: set<nat>, b: set<nat>)
    requires a - b == {} && b <= a
    ensures a == b
  {
    assert forall v | v in a :: v in b || v in a - b;
  }

  lemma NoNewLayer(arcs: Arcs, roots: set<nat>, j: nat, next: nat, k: nat)
    requires next == j + 1 && Reach(arcs, roots, next) - Reach(arcs, roots, j) == {} && j <= k
    ensures Reach(arcs, roots, k) == Reach(arcs, roots, j)
  {
    ReachGrows(arcs, roots, j, next);
    EmptyDifference(Reach(arcs, roots, next), Reach(arcs, roots, j));
    EmptyLayerIsLast(arcs, roots, j, next, k);
  }

  /** With an empty frontier the deeper layers are the ones already found. */
  lemma NothingMore(links: seq<Link>, root: nat, before: nat, here: nat, k: nat)
    requires here == before + 1 && Layer(links, root, here) - Layer(links, root, before) == {} && before <= k
    ensures Layer(links, root, k) == Layer(links, root, before)
  {
    NoNewLayer(ArcsOf(links), {root}, before, here, k);
  }
}
