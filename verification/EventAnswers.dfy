/** What the handlers answered in a run of `EventRuns`, told from the steps of the run alone, and what is recorded of
    it: a consumer is marked as having processed an event only after its handler returned, and a dead letter is written
    only after every attempt failed (dispatch in src/modules/events/consumer-registry.service.ts). */
module EventAnswers {
  import opened Wrappers
  import opened EventDelivery
  import opened EventRuns

  /** The handler is called by this step: the event's dispatcher has an attempt left. */
  predicate Calls(r: Registry, w: World, event: nat) {
    && event in w.slots && w.slots[event].Handling? && JobOk(r, w, event, w.slots[event].job)
    && w.slots[event].attempt <= MaxAttempts(r, PairOf(r, w, event, w.slots[event].job).consumer)
  }

  /** What the handler answered under the latest claim of the event's dispatcher, in order, after a step. */
  function Answered(r: Registry, w: World, step: Step, event: nat, answers: seq<bool>): seq<bool> {
    if step == Claim(event) && event in w.slots && w.slots[event].Claiming? then []
    else if step.Handle? && step.event == event && Calls(r, w, event) then answers + [step.success]
    else answers
  }

  function Answers(r: Registry, steps: seq<Step>, event: nat): seq<bool> {
    if steps == [] then []
    else
      var before := steps[..|steps| - 1];
      Answered(r, Run(r, before), steps[|steps| - 1], event, Answers(r, before, event))
  }

  /** Whether a step is a return of the pair's handler. */
  function Return(r: Registry, w: World, step: Step, p: Pair): nat {
    if step == Handle(p.event, true) && Calls(r, w, p.event) && PairOf(r, w, p.event, w.slots[p.event].job) == p
    then 1 else 0
  }

  /** How often it returned. */
  function Returned(r: Registry, steps: seq<Step>, p: Pair): nat {
    if steps == [] then 0
    else
      var before := steps[..|steps| - 1];
      Returned(r, before, p) + Return(r, Run(r, before), steps[|steps| - 1], p)
  }

  ghost predicate AllFailed(answers: seq<bool>) {
    forall i | 0 <= i < |answers| :: !answers[i]
  }

  /** Where a dispatcher stands says what its handler answered. */
  ghost predicate Fits(r: Registry, w: World, event: nat, answers: seq<bool>) {
    event in w.slots && SlotOk(r, w, event, w.slots[event]) ==>
      match w.slots[event]
      case Handling(job, attempt) =>
        AllFailed(answers) && 1 <= attempt == |answers| + 1
        && |answers| <= MaxAttempts(r, PairOf(r, w, event, job).consumer)
      case Marking(job) =>
        answers != [] && answers[|answers| - 1] && AllFailed(answers[..|answers| - 1])
        && |answers| <= MaxAttempts(r, PairOf(r, w, event, job).consumer)
      case Failing(job) => AllFailed(answers) && |answers| == MaxAttempts(r, PairOf(r, w, event, job).consumer)
      case Lettering(job) => AllFailed(answers) && |answers| == MaxAttempts(r, PairOf(r, w, event, job).consumer)
      case _ => true
  }

  /** The pair a dispatcher is about to mark. */
  function Unmarked(r: Registry, w: World, p: Pair): nat {
    if p.event in w.slots && w.slots[p.event].Marking? && JobOk(r, w, p.event, w.slots[p.event].job)
       && PairOf(r, w, p.event, w.slots[p.event].job) == p
    then 1 else 0
  }

  // ---- A step of the event's own dispatcher -----------------------------------------------------------------------

  lemma HandleFits(r: Registry, w: World, event: nat, step: Step, answers: seq<bool>)
    requires Inv(r, w) && Fits(r, w, event, answers) && event in w.slots
    requires w.slots[event].Handling?
    requires !step.Commit? && !step.Discard? && !step.Restart? && !step.Begin? && !step.BeginReplay?
    requires step.event == event
    ensures Fits(r, Next(r, w, step), event, Answered(r, w, step, event, answers))
  {
    assert Local(r, w, event);
    var after, job := Next(r, w, step), w.slots[event].job;
    if after != w {
      assert JobOk(r, after, event, job) && PairOf(r, after, event, job) == PairOf(r, w, event, job);
      var all := answers + [step.success];
      assert all[..|all| - 1] == answers;
    }
  }

  lemma ClaimFits(r: Registry, w: World, event: nat, step: Step, answers: seq<bool>)
    requires Inv(r, w) && Fits(r, w, event, answers) && event in w.slots
    requires w.slots[event].Claiming? || w.slots[event].Failing?
    requires !step.Commit? && !step.Discard? && !step.Restart? && !step.Begin? && !step.BeginReplay?
    requires step.event == event
    ensures Fits(r, Next(r, w, step), event, Answered(r, w, step, event, answers))
  {
    assert Local(r, w, event);
    var after, job := Next(r, w, step), w.slots[event].job;
    if after != w {
      assert JobOk(r, after, event, job) && PairOf(r, after, event, job) == PairOf(r, w, event, job);
    }
  }

  lemma OtherStandsFit(r: Registry, w: World, event: nat, step: Step, answers: seq<bool>)
    requires Inv(r, w) && Fits(r, w, event, answers) && event in w.slots
    requires !w.slots[event].Handling? && !w.slots[event].Claiming? && !w.slots[event].Failing?
    requires !step.Commit? && !step.Discard? && !step.Restart? && !step.Begin? && !step.BeginReplay?
    requires step.event == event
    ensures Fits(r, Next(r, w, step), event, Answered(r, w, step, event, answers))
  {
    assert Local(r, w, event);
  }

  lemma OwnStepFits(r: Registry, w: World, event: nat, step: Step, answers: seq<bool>)
    requires Inv(r, w) && Fits(r, w, event, answers) && event in w.slots
    requires !step.Commit? && !step.Discard? && !step.Restart? && !step.Begin? && !step.BeginReplay?
    requires step.event == event
    ensures Fits(r, Next(r, w, step), event, Answered(r, w, step, event, answers))
  {
    if w.slots[event].Handling? {
      HandleFits(r, w, event, step, answers);
    } else if w.slots[event].Claiming? || w.slots[event].Failing? {
      ClaimFits(r, w, event, step, answers);
    } else {
      OtherStandsFit(r, w, event, step, answers);
    }
  }

  /** Other steps leave the slot and its pair alone. */
  lemma OtherStepFits(r: Registry, w: World, after: World, event: nat, answers: seq<bool>)
    requires Inv(r, w) && Keeps(w, after) && Fits(r, w, event, answers)
    requires event in after.slots ==>
      (event in w.slots && after.slots[event] == w.slots[event])
      || after.slots[event].Wildcards? || after.slots[event].Claiming?
    ensures Fits(r, after, event, answers)
  {
    assert Local(r, w, event);
    if event in w.slots && event in after.slots && after.slots[event] == w.slots[event] {
      var slot := w.slots[event];
      if slot.Handling? || slot.Marking? || slot.Failing? || slot.Lettering? {
        JobStays(r, w, after, event, slot.job);
      }
    }
  }

  lemma StepFits(r: Registry, w: World, event: nat, step: Step, answers: seq<bool>)
    requires Inv(r, w) && Fits(r, w, event, answers)
    ensures Fits(r, Next(r, w, step), event, Answered(r, w, step, event, answers))
  {
    NextKeepsInv(r, w, step);
    if step.Commit? || step.Discard? || step.Restart? || step.Begin? || step.BeginReplay? {
      OtherStepFits(r, w, Next(r, w, step), event, answers);
    } else if step.event != event {
      AdvanceIsFine(r, w, step.event, step);
      assert SameAt(w, Next(r, w, step), event);
      OtherStepFits(r, w, Next(r, w, step), event, answers);
    } else if event in w.slots {
      OwnStepFits(r, w, event, step, answers);
    }
  }

  lemma {:induction false} RunFits(r: Registry, steps: seq<Step>, event: nat)
    ensures Inv(r, Run(r, steps)) && Fits(r, Run(r, steps), event, Answers(r, steps, event))
  {
    RunKeepsInv(r, steps);
    if steps != [] {
      RunFits(r, steps[..|steps| - 1], event);
      StepFits(r, Run(r, steps[..|steps| - 1]), event, steps[|steps| - 1], Answers(r, steps[..|steps| - 1], event));
    }
  }

  // ---- Marks ------------------------------------------------------------------------------------------------------

  lemma StepCounts(r: Registry, w: World, step: Step, p: Pair, returned: nat)
    requires Inv(r, w) && w.marks[p] + Unmarked(r, w, p) <= returned
    ensures var after := Next(r, w, step);
      after.marks[p] + Unmarked(r, after, p) <= returned + Return(r, w, step, p)
  {
    var after := Next(r, w, step);
    assert Local(r, w, p.event);
    NextKeepsInv(r, w, step);
    if step.Commit? || step.Discard? || step.Restart? || step.Begin? || step.BeginReplay? {
      UnmarkedStays(r, w, after, p);
    } else if step.event != p.event {
      AdvanceIsFine(r, w, step.event, step);
      assert SameAt(w, after, p.event);
      UnmarkedStays(r, w, after, p);
      OtherMarksStay(r, w, step, p);
    } else if p.event in w.slots {
      OwnStepCounts(r, w, step, p);
    }
  }

  lemma UnmarkedStays(r: Registry, w: World, after: World, p: Pair)
    requires Inv(r, w) && Keeps(w, after)
    requires p.event in after.slots && after.slots[p.event].Marking? ==>
      p.event in w.slots && after.slots[p.event] == w.slots[p.event]
    ensures Unmarked(r, after, p) <= Unmarked(r, w, p)
  {
    assert Local(r, w, p.event);
    if p.event in after.slots && after.slots[p.event].Marking? {
      JobStays(r, w, after, p.event, w.slots[p.event].job);
    }
  }

  lemma OtherMarksStay(r: Registry, w: World, step: Step, p: Pair)
    requires Inv(r, w) && !step.Commit? && !step.Discard? && !step.Restart? && !step.Begin? && !step.BeginReplay?
    requires step.event != p.event
    ensures Next(r, w, step).marks[p] == w.marks[p]
  {
    assert Local(r, w, step.event);
  }

  lemma OwnStepCounts(r: Registry, w: World, step: Step, p: Pair)
    requires Inv(r, w) && !step.Commit? && !step.Discard? && !step.Restart? && !step.Begin? && !step.BeginReplay?
    requires step.event == p.event && p.event in w.slots
    ensures var after := Next(r, w, step);
      after.marks[p] + Unmarked(r, after, p) <= w.marks[p] + Unmarked(r, w, p) + Return(r, w, step, p)
  {
    assert Local(r, w, p.event);
    var after, slot := Next(r, w, step), w.slots[p.event];
    if after != w && (slot.Handling? || slot.Marking?) {
      AdvanceIsFine(r, w, p.event, step);
      JobStays(r, w, after, p.event, slot.job);
    }
  }

  lemma {:induction false} MarksAreReturns(r: Registry, steps: seq<Step>, p: Pair)
    ensures Run(r, steps).marks[p] + Unmarked(r, Run(r, steps), p) <= Returned(r, steps, p)
  {
    if steps != [] {
      MarksAreReturns(r, steps[..|steps| - 1], p);
      RunKeepsInv(r, steps[..|steps| - 1]);
      StepCounts(r, Run(r, steps[..|steps| - 1]), steps[|steps| - 1], p, Returned(r, steps[..|steps| - 1], p));
    }
  }

  // ---- What is recorded of an answer ------------------------------------------------------------------------------

  /** In every run: a processed row, and a letter closed as replayed, stand for a handler that returned; and no more
      completions are recorded than handlers returned. */
  lemma ProcessedMeansReturned(r: Registry, steps: seq<Step>, p: Pair)
    ensures var w := Run(r, steps);
      && w.marks[p] <= Returned(r, steps, p)
      && (p in w.store.consumption && w.store.consumption[p] == Processed ==> Returned(r, steps, p) > 0)
      && (p in w.store.letters && w.store.letters[p] == Replayed ==> Returned(r, steps, p) > 0)
  {
    MarksAreReturns(r, steps, p);
    RunTells(r, steps);
  }

  /** In every run each committed event is still pending, or the handler of every subscriber returned at least once, or
      an open or discarded dead letter says that it did not. */
  lemma SettledMeansReturnedOrLettered(r: Registry, steps: seq<Step>, event: nat, k: nat)
    requires event < |Run(r, steps).types| && k < |Subscribers(r, Run(r, steps), event)|
    ensures var w := Run(r, steps);
      var p := Pair(Subscribers(r, w, event)[k], event);
      && Sized(w)
      && (|| w.store.outbox[event] == Pending
          || Returned(r, steps, p) > 0
          || (p in w.store.letters && (w.store.letters[p] == Dead || w.store.letters[p] == Discarded)))
  {
    SettledMeansFinishedOrLettered(r, steps, event, k);
    ProcessedMeansReturned(r, steps, Pair(Subscribers(r, Run(r, steps), event)[k], event));
  }

  /** In every run a row is marked processed only when the latest answer under its claim was a return, and all before it
      failed; a letter is written only when all attempts were made and failed. */
  lemma RecordsAreAnswers(r: Registry, steps: seq<Step>, event: nat)
    ensures var w, answers := Run(r, steps), Answers(r, steps, event);
      && (Next(r, w, Mark(event)) != w ==>
            answers != [] && answers[|answers| - 1] && AllFailed(answers[..|answers| - 1]))
      && (Next(r, w, Letter(event)) != w ==>
            event in w.slots && w.slots[event].Lettering? && JobOk(r, w, event, w.slots[event].job)
            && AllFailed(answers)
            && |answers| == MaxAttempts(r, PairOf(r, w, event, w.slots[event].job).consumer))
  {
    hide *;
    RunFits(r, steps, event);
    StandsTell(r, Run(r, steps), event, Answers(r, steps, event));
  }

  lemma StandsTell(r: Registry, w: World, event: nat, answers: seq<bool>)
    requires Inv(r, w) && Fits(r, w, event, answers)
    ensures Next(r, w, Mark(event)) != w ==>
      answers != [] && answers[|answers| - 1] && AllFailed(answers[..|answers| - 1])
    ensures Next(r, w, Letter(event)) != w ==>
      event in w.slots && w.slots[event].Lettering? && JobOk(r, w, event, w.slots[event].job)
      && AllFailed(answers) && |answers| == MaxAttempts(r, PairOf(r, w, event, w.slots[event].job).consumer)
  {
    assert Local(r, w, event);
  }

  /** And the other way round: when the handler is called and returns, the row is marked next and ends processed; when
      it throws, it is called again, or after the last attempt the row fails and the letter is written. */
  lemma AnswersAreRecorded(r: Registry, steps: seq<Step>, event: nat, success: bool)
    requires Calls(r, Run(r, steps), event)
    ensures var w := Run(r, steps);
      var p, attempt := PairOf(r, w, event, w.slots[event].job), w.slots[event].attempt;
      var next := Next(r, w, Handle(event, success));
      var ended := Next(r, Next(r, Next(r, next, Handle(event, success)), Fail(event)), Letter(event));
      && (success ==> p in Next(r, next, Mark(event)).store.consumption
                      && Next(r, next, Mark(event)).store.consumption[p] == Processed)
      && (!success && attempt < MaxAttempts(r, p.consumer) ==> Calls(r, next, event))
      && (!success && attempt == MaxAttempts(r, p.consumer) ==>
            && p in ended.store.consumption && ended.store.consumption[p] == Failed
            && p in ended.store.letters && ended.store.letters[p] == Dead)
  {
    RunKeepsInv(r, steps);
    var w := Run(r, steps);
    assert Local(r, w, event);
    var job := w.slots[event].job;
    var next := Next(r, w, Handle(event, success));
    assert JobOk(r, next, event, job) && PairOf(r, next, event, job) == PairOf(r, w, event, job);
    if !success && w.slots[event].attempt == MaxAttempts(r, PairOf(r, w, event, job).consumer) {
      LastFailureIsRecorded(r, next, event, job, success);
    }
  }

  lemma LastFailureIsRecorded(r: Registry, w: World, event: nat, job: Job, success: bool)
    requires Sized(w) && event in w.slots && JobOk(r, w, event, job)
    requires w.slots[event].Handling? && w.slots[event].job == job
    requires w.slots[event].attempt > MaxAttempts(r, PairOf(r, w, event, job).consumer)
    ensures var p := PairOf(r, w, event, job);
      var ended := Next(r, Next(r, Next(r, w, Handle(event, success)), Fail(event)), Letter(event));
      && p in ended.store.consumption && ended.store.consumption[p] == Failed
      && p in ended.store.letters && ended.store.letters[p] == Dead
  {
    var failing := Next(r, w, Handle(event, success));
    assert failing.slots[event] == Failing(job) && JobOk(r, failing, event, job);
    assert PairOf(r, failing, event, job) == PairOf(r, w, event, job);
    var lettering := Next(r, failing, Fail(event));
    assert lettering.slots[event] == Lettering(job) && JobOk(r, lettering, event, job);
    assert PairOf(r, lettering, event, job) == PairOf(r, w, event, job);
  }

  // ---- One delivery undisturbed -----------------------------------------------------------------------------------

  /** The world after the handler failed n times in a row. */
  function AfterFailures(r: Registry, w: World, event: nat, n: nat): World {
    if n == 0 then w else Next(r, AfterFailures(r, w, event, n - 1), Handle(event, false))
  }

  lemma OneFailure(r: Registry, w: World, event: nat, job: Job, n: nat)
    requires Sized(w) && event in w.slots && w.slots[event] == Handling(job, n) && JobOk(r, w, event, job)
    requires n <= MaxAttempts(r, PairOf(r, w, event, job).consumer)
    ensures var next := Next(r, w, Handle(event, false));
      && next == w.(slots := w.slots[event := Handling(job, n + 1)])
      && JobOk(r, next, event, job) && PairOf(r, next, event, job) == PairOf(r, w, event, job)
  {
  }

  lemma {:induction false} FailuresAreTried(r: Registry, w: World, event: nat, job: Job, n: nat)
    requires Sized(w) && event in w.slots && w.slots[event] == Handling(job, 1) && JobOk(r, w, event, job)
    requires n <= MaxAttempts(r, PairOf(r, w, event, job).consumer)
    ensures var after := AfterFailures(r, w, event, n);
      && after == w.(slots := w.slots[event := Handling(job, n + 1)])
      && JobOk(r, after, event, job) && PairOf(r, after, event, job) == PairOf(r, w, event, job)
  {
    if n == 0 {
      assert w.slots[event := Handling(job, 1)] == w.slots;
    } else {
      FailuresAreTried(r, w, event, job, n - 1);
      hide Next, JobOk, PairOf, MaxAttempts;
      var before := AfterFailures(r, w, event, n - 1);
      OneFailure(r, before, event, job, n);
      assert before.slots[event := Handling(job, n + 1)] == w.slots[event := Handling(job, n + 1)];
    }
  }

  lemma SameDone(r: Registry, w: World, v: World, event: nat, job: Job)
    requires v.types == w.types
    ensures forall success :: Done(r, v, event, job, success) == Done(r, w, event, job, success)
  {
  }

  lemma ClaimStarts(r: Registry, w: World, event: nat, job: Job)
    requires Sized(w) && event in w.slots && w.slots[event] == Claiming(job) && JobOk(r, w, event, job)
    requires ClaimWins(w.store, PairOf(r, w, event, job), job.Replay?)
    ensures var next := Next(r, w, Claim(event));
      && next.store == Marked(w.store, PairOf(r, w, event, job), Processing) && next.types == w.types
      && next.slots == w.slots[event := Handling(job, 1)] && Sized(next)
      && JobOk(r, next, event, job) && PairOf(r, next, event, job) == PairOf(r, w, event, job)
      && forall success :: Done(r, next, event, job, success) == Done(r, w, event, job, success)
  {
  }

  /** A delivery or replay that wins its claim leaves, undisturbed, the rows that `EventStore.DispatchTo` leaves: after
      n failures the handler returns, */
  lemma UndisturbedSuccess(r: Registry, w: World, event: nat, job: Job, n: nat)
    requires Sized(w) && event in w.slots && w.slots[event] == Claiming(job) && JobOk(r, w, event, job)
    requires ClaimWins(w.store, PairOf(r, w, event, job), job.Replay?)
    requires n < MaxAttempts(r, PairOf(r, w, event, job).consumer)
    ensures var tried := AfterFailures(r, Next(r, w, Claim(event)), event, n);
      var ended := Next(r, Next(r, Next(r, tried, Handle(event, true)), Mark(event)), Clear(event));
      ended.store == AfterHandling(w.store, PairOf(r, w, event, job), true)
      && ended.slots == w.slots[event := Done(r, w, event, job, true)]
  {
    hide Next, JobOk, PairOf, MaxAttempts, Done, AfterFailures;
    var claimed := Next(r, w, Claim(event));
    ClaimStarts(r, w, event, job);
    FailuresAreTried(r, claimed, event, job, n);
    SameDone(r, claimed, AfterFailures(r, claimed, event, n), event, job);
    SuccessEnds(r, AfterFailures(r, claimed, event, n), event, job, n + 1);
  }

  lemma SuccessEnds(r: Registry, w: World, event: nat, job: Job, attempt: nat)
    requires Sized(w) && event in w.slots && w.slots[event] == Handling(job, attempt) && JobOk(r, w, event, job)
    requires attempt <= MaxAttempts(r, PairOf(r, w, event, job).consumer)
    ensures var ended := Next(r, Next(r, Next(r, w, Handle(event, true)), Mark(event)), Clear(event));
      var p := PairOf(r, w, event, job);
      ended.store == Cleared(Marked(w.store, p, Processed), p)
      && ended.slots == w.slots[event := Done(r, w, event, job, true)]
  {
    var p := PairOf(r, w, event, job);
    var marking := Next(r, w, Handle(event, true));
    assert JobOk(r, marking, event, job) && PairOf(r, marking, event, job) == p;
    var clearing := Next(r, marking, Mark(event));
    assert clearing.slots[event] == Clearing(job) && clearing.store == Marked(w.store, p, Processed);
    assert JobOk(r, clearing, event, job) && PairOf(r, clearing, event, job) == p;
    assert Done(r, clearing, event, job, true) == Done(r, w, event, job, true);
  }

  /** or after all attempts failed, the letter is written. */
  lemma UndisturbedExhaustion(r: Registry, w: World, event: nat, job: Job, answer: bool)
    requires Sized(w) && event in w.slots && w.slots[event] == Claiming(job) && JobOk(r, w, event, job)
    requires ClaimWins(w.store, PairOf(r, w, event, job), job.Replay?)
    ensures var n := MaxAttempts(r, PairOf(r, w, event, job).consumer);
      var tried := AfterFailures(r, Next(r, w, Claim(event)), event, n);
      var ended := Next(r, Next(r, Next(r, tried, Handle(event, answer)), Fail(event)), Letter(event));
      ended.store == AfterHandling(w.store, PairOf(r, w, event, job), false)
      && ended.slots == w.slots[event := Done(r, w, event, job, false)]
  {
    var p := PairOf(r, w, event, job);
    hide Next, JobOk, PairOf, MaxAttempts, Done, AfterFailures;
    var claimed := Next(r, w, Claim(event));
    ClaimStarts(r, w, event, job);
    FailuresAreTried(r, claimed, event, job, MaxAttempts(r, p.consumer));
    SameDone(r, claimed, AfterFailures(r, claimed, event, MaxAttempts(r, p.consumer)), event, job);
    ExhaustionEnds(r, AfterFailures(r, claimed, event, MaxAttempts(r, p.consumer)), event, job, answer);
  }

  lemma ExhaustionEnds(r: Registry, w: World, event: nat, job: Job, answer: bool)
    requires Sized(w) && event in w.slots && JobOk(r, w, event, job)
    requires w.slots[event] == Handling(job, MaxAttempts(r, PairOf(r, w, event, job).consumer) + 1)
    ensures var ended := Next(r, Next(r, Next(r, w, Handle(event, answer)), Fail(event)), Letter(event));
      var p := PairOf(r, w, event, job);
      ended.store == Lettered(Marked(w.store, p, Failed), p)
      && ended.slots == w.slots[event := Done(r, w, event, job, false)]
  {
    var p := PairOf(r, w, event, job);
    var failing := Next(r, w, Handle(event, answer));
    assert failing.slots[event] == Failing(job) && JobOk(r, failing, event, job);
    assert PairOf(r, failing, event, job) == p;
    var lettering := Next(r, failing, Fail(event));
    assert lettering.slots[event] == Lettering(job) && lettering.store == Marked(w.store, p, Failed);
    assert JobOk(r, lettering, event, job) && PairOf(r, lettering, event, job) == p;
    assert Done(r, lettering, event, job, false) == Done(r, w, event, job, false);
  }

  /** Around the deliveries: the wildcard handlers decide whether an event is delivered at all, the subscribers are
      called one after the other, and the marker is settled after the last. A replay ends by setting its letter. */
  lemma DispatchesAs(r: Registry, w: World, event: nat, success: bool, index: nat, consumer: nat)
    requires Sized(w) && event < |w.types| && event in w.slots
    ensures MaxAttempts(r, consumer) == if consumer in r.maxAttempts then r.maxAttempts[consumer] else 3
    ensures w.slots[event] == Wildcards ==>
      var after := Next(r, w, WildcardsReturn(event, success));
      if success then
        after == w.(slots := w.slots[event := if Subscribers(r, w, event) == [] then Settling
                                              else Claiming(Delivery(0))])
      else after.slots == w.slots - {event} && after.store == w.store.(outbox := w.store.outbox[event := Pending])
    ensures index < |Subscribers(r, w, event)| ==>
      Done(r, w, event, Delivery(index), success)
      == if index + 1 == |Subscribers(r, w, event)| then Settling else Claiming(Delivery(index + 1))
    ensures Done(r, w, event, Replay(consumer), success) == Resolving(consumer, success)
    ensures w.slots[event] == Settling ==>
      var after := Next(r, w, Settle(event));
      after.slots == w.slots - {event} && after.store == w.store.(outbox := w.store.outbox[event := Dispatched])
    ensures w.slots[event] == Resolving(consumer, success) && Pair(consumer, event) in w.store.letters ==>
      var after := Next(r, w, Resolve(event));
      && after.slots == w.slots - {event}
      && after.store.outbox == w.store.outbox && after.store.consumption == w.store.consumption
      && after.store.letters == w.store.letters[Pair(consumer, event) := if success then Replayed else Dead]
  {
  }
}
