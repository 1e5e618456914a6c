/** The in-process concurrency gate of one provider target (src/modules/connectors/rate-governor.ts). A caller that
    finds the gate full waits; a release resolves the first waiter's promise, whose continuation runs only later, so
    other callers can arrive in between. Every stretch of code between two awaits is one atomic step. */
module ConcurrencyGate {

  /** The gate's fields, and the resolved waiters whose continuations have not run yet, first to run first. */
  datatype State = State(inFlight: nat, queued: nat, limit: nat, waiters: seq<nat>, woken: seq<nat>)

  function Min(a: nat, b: nat): nat { if a < b then a else b }

  /** A call up to its first await: it enters unless the gate is full. */
  function Arrived(s: State, caller: nat, limit: nat): State {
    var tight := s.(limit := Min(s.limit, limit));
    if tight.inFlight >= tight.limit then tight.(queued := s.queued + 1, waiters := s.waiters + [caller])
    else tight.(inFlight := s.inFlight + 1)
  }

  /** The release function of a call that is in flight. */
  function Released(s: State): State {
    var after := s.(inFlight := if s.inFlight > 0 then s.inFlight - 1 else 0);
    if after.inFlight < s.limit && s.waiters != [] then
      after.(waiters := s.waiters[1..], woken := s.woken + [s.waiters[0]])
    else after
  }

  /** The continuation of the first woken call: it enters without looking at the limit again. */
  function Resumed(s: State): State
    requires s.woken != [] && s.queued > 0
  {
    s.(queued := s.queued - 1, inFlight := s.inFlight + 1, woken := s.woken[1..])
  }

  class Gate {
    var inFlight: nat
    var queued: nat
    var limit: nat
    var waiters: seq<nat>
    var woken: seq<nat>

    function Contents(): State
      reads this
    {
      State(inFlight, queued, limit, waiters, woken)
    }

    constructor (limit: nat)
      ensures Contents() == State(0, 0, limit, [], [])
    {
      this.limit := limit;
      inFlight, queued, waiters, woken := 0, 0, [], [];
    }

    method Arrive(caller: nat, limit: nat) returns (entered: bool)
      modifies this
      ensures Contents() == Arrived(old(Contents()), caller, limit)
      ensures entered <==> old(inFlight) < this.limit
    {
      this.limit := Min(this.limit, limit);
      if inFlight >= this.limit {
        queued := queued + 1;
        waiters := waiters + [caller];
        return false;
      }
      inFlight := inFlight + 1;
      return true;
    }

    method Release()
      modifies this
      ensures Contents() == Released(old(Contents()))
    {
      inFlight := if inFlight > 0 then inFlight - 1 else 0;
      if inFlight < limit && waiters != [] {
        woken := woken + [waiters[0]];
        waiters := waiters[1..];
      }
    }

    method Resume() returns (caller: nat)
      requires woken != [] && queued > 0
      modifies this
      ensures Contents() == Resumed(old(Contents())) && caller == old(woken[0])
    {
      caller := woken[0];
      woken := woken[1..];
      queued := queued - 1;
      inFlight := inFlight + 1;
    }
  }

  // ---- Runs -------------------------------------------------------------------------------------------------------

  datatype Step = Arrive(caller: nat, limit: nat) | Release | Resume

  /** The gate with the calls that had to wait and the calls that were resumed, both in order. */
  datatype World = World(gate: State, waited: seq<nat>, resumed: seq<nat>)

  /** Only a call in flight releases, and only a woken one resumes. */
  function Next(w: World, step: Step): World {
    match step
    case Arrive(caller, limit) =>
      var gate := Arrived(w.gate, caller, limit);
      w.(gate := gate, waited := if gate.queued > w.gate.queued then w.waited + [caller] else w.waited)
    case Release => if w.gate.inFlight == 0 then w else w.(gate := Released(w.gate))
    case Resume =>
      if w.gate.woken == [] || w.gate.queued == 0 then w
      else w.(gate := Resumed(w.gate), resumed := w.resumed + [w.gate.woken[0]])
  }

  function Run(limit: nat, steps: seq<Step>): World {
    if steps == [] then World(State(0, 0, limit, [], []), [], [])
    else Next(Run(limit, steps[..|steps| - 1]), steps[|steps| - 1])
  }

  /** An arrival that takes a place already promised to a woken call. */
  predicate Barges(gate: State, step: Step) {
    && step.Arrive?
    && gate.inFlight < Min(gate.limit, step.limit)
    && gate.inFlight + |gate.woken| >= Min(gate.limit, step.limit)
  }

  function BargesIn(limit: nat, steps: seq<Step>): (n: nat)
    ensures n <= |steps|
  {
    if steps == [] then 0
    else BargesIn(limit, steps[..|steps| - 1])
         + if Barges(Run(limit, steps[..|steps| - 1]).gate, steps[|steps| - 1]) then 1 else 0
  }

  /** The steps of a run that take a promised place, by index. */
  ghost function Barging(limit: nat, steps: seq<Step>): set<nat> {
    set i: nat | i < |steps| && Barges(Run(limit, steps[..i]).gate, steps[i])
  }

  lemma BargingGrows(limit: nat, steps: seq<Step>, last: Step)
    ensures Barging(limit, steps + [last])
         == Barging(limit, steps) + if Barges(Run(limit, steps).gate, last) then {|steps|} else {}
    ensures |steps| !in Barging(limit, steps)
  {
    var all := steps + [last];
    forall i: nat | i < |steps| ensures i in Barging(limit, all) <==> i in Barging(limit, steps) {
      assert all[..i] == steps[..i] && all[i] == steps[i];
    }
    assert all[..|steps|] == steps && all[|steps|] == last;
  }

  lemma {:induction false} BargesAreCounted(limit: nat, steps: seq<Step>)
    ensures BargesIn(limit, steps) == |Barging(limit, steps)|
  {
    if steps == [] {
      assert Barging(limit, steps) == {};
    } else {
      hide Barging;
      var before, last := steps[..|steps| - 1], steps[|steps| - 1];
      BargesAreCounted(limit, before);
      BargingGrows(limit, before, last);
      assert steps == before + [last];
    }
  }

  ghost predicate Inv(w: World, limit: nat, barges: nat) {
    && w.gate.limit <= limit
    && w.gate.queued == |w.gate.waiters| + |w.gate.woken|
    && w.gate.inFlight + |w.gate.woken| <= limit + barges
    && (w.gate.waiters != [] ==> w.gate.inFlight + |w.gate.woken| >= w.gate.limit)
    && w.waited == w.resumed + (w.gate.woken + w.gate.waiters)
  }

  lemma Appended<T>(r: seq<T>, a: seq<T>, b: seq<T>, x: T)
    ensures r + (a + b) + [x] == r + (a + (b + [x]))
  {
  }

  lemma HeadOfSecondMoves<T>(a: seq<T>, b: seq<T>)
    requires b != []
    ensures a + b == (a + [b[0]]) + b[1..]
  {
  }

  lemma HeadMoves<T>(r: seq<T>, a: seq<T>, b: seq<T>)
    requires a != []
    ensures r + (a + b) == (r + [a[0]]) + (a[1..] + b)
  {
  }

  lemma NextKeepsInv(w: World, step: Step, limit: nat, barges: nat)
    requires Inv(w, limit, barges)
    ensures Inv(Next(w, step), limit, barges + if Barges(w.gate, step) then 1 else 0)
  {
    var gate := w.gate;
    match step
    case Arrive(caller, _) => Appended(w.resumed, gate.woken, gate.waiters, caller);
    case Release => if gate.waiters != [] { HeadOfSecondMoves(gate.woken, gate.waiters); }
    case Resume => if gate.woken != [] { HeadMoves(w.resumed, gate.woken, gate.waiters); }
  }

  /** In every run: calls that had to wait are resumed in the order they arrived and none is lost; a call waits only
      while every place is taken or promised; and the calls in flight exceed the first limit by no more than the number
      of arrivals that took a promised place, so not at all when none did. */
  lemma {:induction false} GateHolds(limit: nat, steps: seq<Step>)
    ensures Inv(Run(limit, steps), limit, BargesIn(limit, steps))
    ensures Run(limit, steps).gate.inFlight <= limit + |Barging(limit, steps)|
  {
    BargesAreCounted(limit, steps);
    if steps != [] {
      GateHolds(limit, steps[..|steps| - 1]);
      NextKeepsInv(Run(limit, steps[..|steps| - 1]), steps[|steps| - 1], limit, BargesIn(limit, steps[..|steps| - 1]));
    }
  }

  /** An arrival whose limit is below the places taken or promised. */
  predicate Tightens(gate: State, step: Step) {
    step.Arrive? && gate.inFlight + |gate.woken| > Min(gate.limit, step.limit)
  }

  /** While all places taken or promised fit the limit, a step breaks that exactly if it is such an arrival, or one that
      takes a promised place. */
  lemma OverrunsIff(w: World, step: Step)
    requires w.gate.inFlight + |w.gate.woken| <= w.gate.limit
    ensures var after := Next(w, step).gate;
      after.inFlight + |after.woken| > after.limit <==> Barges(w.gate, step) || Tightens(w.gate, step)
  {
  }

  /** Whatever the gate looks like, the places taken or promised grow beyond the limit in force exactly by an arrival
      that takes a promised place: over a lowered limit, only such arrivals delay the return below it. */
  lemma ExcessGrowsIff(w: World, step: Step)
    ensures var before, after := w.gate, Next(w, step).gate;
      var places := after.inFlight + |after.woken|;
      places > before.inFlight + |before.woken| && places > after.limit <==> Barges(w.gate, step)
  {
  }

  /** What n continuations and nothing else make of a gate. */
  function Continued(w: World, n: nat): World {
    if n == 0 then w else Next(Continued(w, n - 1), Resume)
  }

  lemma {:induction false} ContinuationsEnter(w: World, n: nat)
    requires w.gate.queued == |w.gate.waiters| + |w.gate.woken|
    ensures var after, k := Continued(w, n).gate, if n < |w.gate.woken| then n else |w.gate.woken|;
      && after.inFlight == w.gate.inFlight + k && after.woken == w.gate.woken[k..]
      && after.queued == w.gate.queued - k && after.limit == w.gate.limit && after.waiters == w.gate.waiters
  {
    if n > 0 {
      ContinuationsEnter(w, n - 1);
    }
  }

  /** In every run: the continuations that are due anyway take the calls in flight over the limit exactly if the places
      taken and promised exceed it. */
  lemma LimitWillBeExceededIff(limit: nat, steps: seq<Step>)
    ensures var w := Run(limit, steps);
      (exists n :: Continued(w, n).gate.inFlight > w.gate.limit)
      <==> w.gate.inFlight + |w.gate.woken| > w.gate.limit
  {
    GateHolds(limit, steps);
    var w := Run(limit, steps);
    ContinuationsEnter(w, |w.gate.woken|);
    if n :| Continued(w, n).gate.inFlight > w.gate.limit {
      ContinuationsEnter(w, n);
    }
  }

  /** With a limit of one, two calls are in flight: the third arrives between the wake-up and the continuation. */
  lemma LimitIsExceeded(a: nat, b: nat, c: nat)
    ensures Run(1, [Arrive(a, 1), Arrive(b, 1), Release, Arrive(c, 1), Resume]).gate.inFlight == 2
  {
    var steps := [Arrive(a, 1), Arrive(b, 1), Release, Arrive(c, 1), Resume];
    assert steps[..4][..3] == steps[..3] && steps[..3][..2] == steps[..2] && steps[..2][..1] == steps[..1];
    assert Run(1, steps[..1]).gate == State(1, 0, 1, [], []) by {
      assert steps[..1][..0] == [];
    }
    assert Run(1, steps[..2]).gate == State(1, 1, 1, [b], []);
    assert Run(1, steps[..3]).gate == State(0, 1, 1, [], [b]);
    assert Run(1, steps[..4]).gate == State(1, 1, 1, [], [b]);
  }
}
