/** Calls that read a row, decide, and write it with a later statement: processRecord in
    src/modules/connectors/connector.service.ts on the twin, projectTwin in
    src/modules/connectors/twin-projection.service.ts on the work item. `TwinConvergence` takes each call as one step;
    here the statements of any number of calls on one row interleave, and the rule is exactly right to take them so as
    long as no write is made that the stored row would refuse by then. */
module TwinRuns {
  import opened Wrappers
  import opened TwinConvergence

  /** What a call that finds a row accepts, and what it stores. Neither UPDATE statement repeats the check. */
  datatype Rule<!S> = Rule(accepts: (S, Rec) -> bool, stores: (Option<S>, Rec) -> S)

  function TwinRule(): Rule<Rec> {
    Rule(Accepts, (cell: Option<Rec>, record: Rec) => record)
  }

  function ItemRule(desired: nat -> nat): Rule<Item> {
    Rule((item: Item, record: Rec) => item.at <= record.at,
         (cell: Option<Item>, record: Rec) =>
           Item(if cell.Some? then Max(cell.value.at, record.at) else record.at, desired(record.content)))
  }

  /** A call between its read and its write; `absent` if it found no row. */
  datatype Call = Call(record: Rec, absent: bool)

  /** The row, the calls under way, and the records of the finished calls in the order they finished. */
  datatype World<S> = World(cell: Option<S>, calls: map<nat, Call>, done: seq<Rec>)

  datatype Step = Read(call: nat, record: Rec) | Write(call: nat)

  /** A refused record finishes its call; an insert that meets a row starts over with another read. */
  function Next<S>(rule: Rule<S>, w: World<S>, step: Step): World<S> {
    match step
    case Read(call, record) =>
      if call in w.calls then w
      else if w.cell.Some? && !rule.accepts(w.cell.value, record) then w.(done := w.done + [record])
      else w.(calls := w.calls[call := Call(record, w.cell.None?)])
    case Write(call) =>
      if call !in w.calls then w
      else if w.calls[call].absent && w.cell.Some? then w.(calls := w.calls - {call})
      else
        var record := w.calls[call].record;
        World(Some(rule.stores(w.cell, record)), w.calls - {call}, w.done + [record])
  }

  /** A read of a refused record, and every write that is not an insert that meets a row, finishes a call; no other step
      does, and only a write touches the row. */
  lemma CallsEndAs<S>(rule: Rule<S>, w: World<S>, step: Step)
    ensures var after := Next(rule, w, step);
      match step
      case Read(call, record) =>
        var refused := call !in w.calls && w.cell.Some? && !rule.accepts(w.cell.value, record);
        && after.cell == w.cell && after.done == (if refused then w.done + [record] else w.done)
        && after.calls == (if call in w.calls || refused then w.calls
                           else w.calls[call := Call(record, w.cell == None)])
      case Write(call) =>
        && after.calls == w.calls - {call}
        && (call in w.calls && (w.calls[call].absent ==> w.cell == None) ==>
              && after.done == w.done + [w.calls[call].record]
              && after.cell == Some(rule.stores(w.cell, w.calls[call].record)))
        && (call !in w.calls || (w.calls[call].absent && w.cell != None) ==>
              after.cell == w.cell && after.done == w.done)
  {
    if step.Write? && step.call !in w.calls {
      assert w.calls - {step.call} == w.calls;
    }
  }

  function Run<S>(rule: Rule<S>, steps: seq<Step>): World<S> {
    if steps == [] then World(None, map[], [])
    else Next(rule, Run(rule, steps[..|steps| - 1]), steps[|steps| - 1])
  }

  /** The calls one after the other. */
  function Applied<S>(rule: Rule<S>, cell: Option<S>, record: Rec): Option<S> {
    if cell.Some? && !rule.accepts(cell.value, record) then cell else Some(rule.stores(cell, record))
  }

  function Folded<S>(rule: Rule<S>, records: seq<Rec>): Option<S> {
    if records == [] then None
    else Applied(rule, Folded(rule, records[..|records| - 1]), records[|records| - 1])
  }

  lemma {:induction false} TwinIsFold(records: seq<Rec>)
    ensures Folded(TwinRule(), records) == Fold(records)
  {
    if records != [] {
      TwinIsFold(records[..|records| - 1]);
    }
  }

  lemma {:induction false} ItemIsFold(desired: nat -> nat, records: seq<Rec>)
    ensures Folded(ItemRule(desired), records) == FoldItem(desired, records)
  {
    if records != [] {
      ItemIsFold(desired, records[..|records| - 1]);
    }
  }

  // ---- Exactly when interleaved calls act like calls in turn ------------------------------------------------------

  /** The row is what the finished calls would have left in turn. */
  ghost predicate InTurn<S>(rule: Rule<S>, w: World<S>) {
    w.cell == Folded(rule, w.done)
  }

  /** A write whose record the row refuses by now, and that changes it. */
  ghost predicate Stale<S>(rule: Rule<S>, w: World<S>, step: Step) {
    && step.Write? && step.call in w.calls && w.cell.Some? && !w.calls[step.call].absent
    && !rule.accepts(w.cell.value, w.calls[step.call].record)
    && rule.stores(w.cell, w.calls[step.call].record) != w.cell.value
  }

  lemma StepInTurnIff<S>(rule: Rule<S>, w: World<S>, step: Step)
    requires InTurn(rule, w)
    ensures InTurn(rule, Next(rule, w, step)) <==> !Stale(rule, w, step)
  {
    var after := Next(rule, w, step);
    if after.done != w.done {
      assert after.done[..|after.done| - 1] == w.done;
    }
  }

  ghost predicate NeverStale<S>(rule: Rule<S>, steps: seq<Step>) {
    steps != [] ==> NeverStale(rule, steps[..|steps| - 1])
                    && !Stale(rule, Run(rule, steps[..|steps| - 1]), steps[|steps| - 1])
  }

  ghost predicate AlwaysInTurn<S>(rule: Rule<S>, steps: seq<Step>) {
    InTurn(rule, Run(rule, steps)) && (steps != [] ==> AlwaysInTurn(rule, steps[..|steps| - 1]))
  }

  /** The row is always what calls in turn would have left exactly if no write is stale. */
  lemma {:induction false} InTurnIff<S>(rule: Rule<S>, steps: seq<Step>)
    ensures AlwaysInTurn(rule, steps) <==> NeverStale(rule, steps)
  {
    if steps != [] {
      var before := steps[..|steps| - 1];
      InTurnIff(rule, before);
      if AlwaysInTurn(rule, before) {
        assert InTurn(rule, Run(rule, before));
        StepInTurnIff(rule, Run(rule, before), steps[|steps| - 1]);
      }
    }
  }

  // ---- Calls that do not overlap ----------------------------------------------------------------------------------

  /** A call reads the row only while no other is under way. */
  ghost predicate OneAtATime<S>(rule: Rule<S>, steps: seq<Step>) {
    steps != [] ==> OneAtATime(rule, steps[..|steps| - 1])
                    && (steps[|steps| - 1].Read? ==> Run(rule, steps[..|steps| - 1]).calls == map[])
  }

  /** The call under way decided on the row as it is. */
  ghost predicate UpToDate<S>(rule: Rule<S>, w: World<S>) {
    && (forall j, k | j in w.calls && k in w.calls :: j == k)
    && forall k | k in w.calls ::
         if w.calls[k].absent then w.cell.None? else w.cell.Some? && rule.accepts(w.cell.value, w.calls[k].record)
  }

  lemma {:induction false} OneAtATimeIsNeverStale<S>(rule: Rule<S>, steps: seq<Step>)
    requires OneAtATime(rule, steps)
    ensures UpToDate(rule, Run(rule, steps)) && NeverStale(rule, steps)
  {
    if steps != [] {
      OneAtATimeIsNeverStale(rule, steps[..|steps| - 1]);
    }
  }

  /** Records processed without overlap: however they arrived, the twin ends on the newest content under the condition
      of `ConvergesIff`. */
  lemma TwinsConvergeInTurn(steps: seq<Step>, records: seq<Rec>, newest: Rec)
    requires OneAtATime(TwinRule(), steps) && IsOrderOf(Run(TwinRule(), steps).done, records)
    requires IsNewest(records, newest) && NewestContentLeads(records, newest)
    ensures var twin := Run(TwinRule(), steps).cell; twin.Some? && twin.value.content == newest.content
  {
    OneAtATimeIsNeverStale(TwinRule(), steps);
    InTurnIff(TwinRule(), steps);
    TwinIsFold(Run(TwinRule(), steps).done);
    ConvergesIff(records, newest);
  }

  /** Snapshots projected without overlap: the work item ends on the newest one. */
  lemma ProjectionsConvergeInTurn(desired: nat -> nat, steps: seq<Step>, records: seq<Rec>, newest: Rec)
    requires OneAtATime(ItemRule(desired), steps) && IsOrderOf(Run(ItemRule(desired), steps).done, records)
    requires IsNewest(records, newest) && forall r | r in records && r.at == newest.at :: r == newest
    ensures Run(ItemRule(desired), steps).cell == Some(Item(newest.at, desired(newest.content)))
  {
    OneAtATimeIsNeverStale(ItemRule(desired), steps);
    InTurnIff(ItemRule(desired), steps);
    ItemIsFold(desired, Run(ItemRule(desired), steps).done);
    ProjectionConverges(desired, records, newest, Run(ItemRule(desired), steps).done);
  }

  /** Both: the work item ends on what the twin ends on, if no two records share a timestamp. */
  lemma ProjectionFollowsTwinInTurn(desired: nat -> nat, twinSteps: seq<Step>, itemSteps: seq<Step>)
    requires OneAtATime(TwinRule(), twinSteps) && OneAtATime(ItemRule(desired), itemSteps)
    requires var records := Run(TwinRule(), twinSteps).done;
      && records != [] && (forall r, s | r in records && s in records && r.at == s.at :: r == s)
      && IsOrderOf(Run(ItemRule(desired), itemSteps).done, Accepted(records))
    ensures var twin := Run(TwinRule(), twinSteps).cell;
      twin.Some? && Run(ItemRule(desired), itemSteps).cell == Some(Item(twin.value.at, desired(twin.value.content)))
  {
    var records, projected := Run(TwinRule(), twinSteps).done, Run(ItemRule(desired), itemSteps).done;
    OneAtATimeIsNeverStale(TwinRule(), twinSteps);
    InTurnIff(TwinRule(), twinSteps);
    TwinIsFold(records);
    OneAtATimeIsNeverStale(ItemRule(desired), itemSteps);
    InTurnIff(ItemRule(desired), itemSteps);
    ItemIsFold(desired, projected);
    ProjectionFollowsTwin(desired, records, projected);
  }

  // ---- Calls that do ----------------------------------------------------------------------------------------------

  /** Three calls for records of the instants 0, 1 and 2; the one for 1 reads before the one for 2 and writes after
      it. */
  function Overlapping(x: nat, y: nat, z: nat): seq<Step> {
    [Read(0, Rec(0, x)), Write(0), Read(1, Rec(1, y)), Read(2, Rec(2, z)), Write(2), Write(1)]
  }

  lemma SixSteps<S>(rule: Rule<S>, s: seq<Step>)
    requires |s| == 6
    ensures Run(rule, s) == Next(rule, Next(rule, Next(rule, Next(rule, Next(rule, Next(rule,
              World(None, map[], []), s[0]), s[1]), s[2]), s[3]), s[4]), s[5])
  {
    assert s[..5][..4] == s[..4] && s[..4][..3] == s[..3] && s[..3][..2] == s[..2] && s[..2][..1] == s[..1];
    assert Run(rule, s[..1]) == Next(rule, World(None, map[], []), s[0]) by {
      assert s[..1][..0] == [];
    }
    assert Run(rule, s[..2]) == Next(rule, Run(rule, s[..1]), s[1]);
    assert Run(rule, s[..3]) == Next(rule, Run(rule, s[..2]), s[2]);
    assert Run(rule, s[..4]) == Next(rule, Run(rule, s[..3]), s[3]);
    assert Run(rule, s[..5]) == Next(rule, Run(rule, s[..4]), s[4]);
  }

  /** The work item shows the older snapshot under the newer one's timestamp, and the twin goes back to the older
      record, timestamp and all. */
  lemma OverlapDiverges(desired: nat -> nat, x: nat, y: nat, z: nat)
    requires x != y && x != z
    ensures Run(ItemRule(desired), Overlapping(x, y, z)).cell == Some(Item(2, desired(y)))
    ensures Run(TwinRule(), Overlapping(x, y, z)).cell == Some(Rec(1, y))
  {
    SixSteps(ItemRule(desired), Overlapping(x, y, z));
    SixSteps(TwinRule(), Overlapping(x, y, z));
  }
}
