/** Report windows over state intervals (clipIntervals in src/modules/flow/flow-profile.ts; report and score in
    src/modules/flow/flow.service.ts): totals per flow class, and who or what a wait is attributed to. */
module FlowReport {
  import opened Wrappers
  import opened BusinessTime
  import opened FlowProfile

  datatype Bucket = Active | Waiting | Blocked | Unclassified

  /** Per-state configuration: the flow class, the calendar and the default wait reason. */
  datatype Profile = Profile(classOf: string -> Bucket, calendarOf: string -> Calendar,
                             defaultReasonOf: string -> Option<string>)

  // ---- Clipping --------------------------------------------------------------------------------------

  function Clip(interval: Interval, from: Option<int>, until: Option<int>): seq<Interval> {
    var start := if from.Some? && from.value > interval.start then from.value else interval.start;
    var clippedEnd := until.Some? && until.value < interval.end;
    var end := if clippedEnd then until.value else interval.end;
    if end > start then [interval.(start := start, end := end, open := interval.open && !clippedEnd)] else []
  }

  function ClipAll(intervals: seq<Interval>, from: Option<int>, until: Option<int>): seq<Interval> {
    if intervals == [] then [] else Clip(intervals[0], from, until) + ClipAll(intervals[1..], from, until)
  }

  ghost predicate InWindow(from: Option<int>, until: Option<int>, t: int) {
    (from.None? || from.value <= t) && (until.None? || t < until.value)
  }

  /** A clipped interval holds exactly the instants of the window that the interval held, under its own label. */
  lemma ClipIsExact(interval: Interval, from: Option<int>, until: Option<int>, t: int)
    ensures Covered(Clip(interval, from, until), t) <==> Holds(interval, t) && InWindow(from, until, t)
    ensures forall piece | piece in Clip(interval, from, until) ::
              && piece.start < piece.end && interval.start <= piece.start && piece.end <= interval.end
              && piece.state == interval.state && piece.reason == interval.reason
              && (piece.open <==> interval.open && piece.end == interval.end)
  {
    var out := Clip(interval, from, until);
    if Holds(interval, t) && InWindow(from, until, t) {
      assert Holds(out[0], t);
    }
  }

  method ClipIntervals(intervals: seq<Interval>, from: Option<int>, until: Option<int>) returns (out: seq<Interval>)
    ensures out == ClipAll(intervals, from, until)
    ensures Ordered(intervals) ==> Ordered(out)
    ensures forall t :: Covered(out, t) <==> Covered(intervals, t) && InWindow(from, until, t)
  {
    hide Ordered, Covered, InWindow, Clip;
    out := [];
    for i := 0 to |intervals|
      invariant out + ClipAll(intervals[i..], from, until) == ClipAll(intervals, from, until)
    {
      assert intervals[i..][1..] == intervals[i + 1..];
      out := out + Clip(intervals[i], from, until);
    }
    ClippedExactly(intervals, from, until);
  }

  lemma ClippedExactly(intervals: seq<Interval>, from: Option<int>, until: Option<int>)
    ensures Ordered(intervals) ==> Ordered(ClipAll(intervals, from, until))
    ensures forall t :: Covered(ClipAll(intervals, from, until), t)
                        <==> Covered(intervals, t) && InWindow(from, until, t)
  {
    hide *;
    forall t
      ensures Covered(ClipAll(intervals, from, until), t) <==> Covered(intervals, t) && InWindow(from, until, t)
    {
      ClipAllIsExact(intervals, from, until, t);
    }
    if Ordered(intervals) {
      ClipAllKeepsOrder(intervals, from, until);
    }
  }

  lemma {:induction false} ClipAllIsExact(intervals: seq<Interval>, from: Option<int>, until: Option<int>, t: int)
    ensures Covered(ClipAll(intervals, from, until), t) <==> Covered(intervals, t) && InWindow(from, until, t)
  {
    if intervals != [] {
      ClipIsExact(intervals[0], from, until, t);
      ClipAllIsExact(intervals[1..], from, until, t);
      CoveredByConcat(Clip(intervals[0], from, until), ClipAll(intervals[1..], from, until), t);
      CoveredByConcat([intervals[0]], intervals[1..], t);
      assert intervals == [intervals[0]] + intervals[1..];
      assert Covered([intervals[0]], t) <==> Holds([intervals[0]][0], t);
    }
  }

  lemma {:induction false} ClipAllKeepsOrder(intervals: seq<Interval>, from: Option<int>, until: Option<int>)
    requires Ordered(intervals)
    ensures Ordered(ClipAll(intervals, from, until))
    ensures intervals != [] ==>
      forall piece | piece in ClipAll(intervals, from, until) :: intervals[0].start <= piece.start
  {
    if intervals != [] {
      var rest := intervals[1..];
      assert Ordered(rest);
      ClipAllKeepsOrder(rest, from, until);
      ClipIsExact(intervals[0], from, until, 0);
    }
  }

  // ---- Totals ----------------------------------------------------------------------------------------

  ghost function Measure(profile: Profile, interval: Interval): nat {
    OpenMs(profile.calendarOf(interval.state), interval.start, interval.end)
  }

  /** Business milliseconds of one flow class. */
  ghost function TotalMs(intervals: seq<Interval>, profile: Profile, bucket: Bucket): nat {
    if intervals == [] then 0
    else (if profile.classOf(intervals[0].state) == bucket then Measure(profile, intervals[0]) else 0)
         + TotalMs(intervals[1..], profile, bucket)
  }

  lemma {:induction false} TotalOfConcat(left: seq<Interval>, right: seq<Interval>, profile: Profile, bucket: Bucket)
    ensures TotalMs(left + right, profile, bucket) == TotalMs(left, profile, bucket) + TotalMs(right, profile, bucket)
  {
    if left == [] {
      assert left + right == right;
    } else {
      TotalOfConcat(left[1..], right, profile, bucket);
      assert (left + right)[1..] == left[1..] + right;
    }
  }

  ghost predicate SplitsWindow(from: Option<int>, mid: int, until: Option<int>) {
    (from.None? || from.value <= mid) && (until.None? || mid <= until.value)
  }

  lemma ClipSplits(interval: Interval, from: Option<int>, mid: int, until: Option<int>, profile: Profile,
                   bucket: Bucket)
    requires SplitsWindow(from, mid, until)
    ensures TotalMs(Clip(interval, from, until), profile, bucket)
         == TotalMs(Clip(interval, from, Some(mid)), profile, bucket)
            + TotalMs(Clip(interval, Some(mid), until), profile, bucket)
  {
    var whole := Clip(interval, from, until);
    if whole != [] {
      var lo, hi := whole[0].start, whole[0].end;
      var cut := Min(Max(mid, lo), hi);
      OpenMsIsAdditive(profile.calendarOf(interval.state), lo, cut, hi);
    }
  }

  /** Splitting a report window at any instant splits every total exactly. */
  lemma {:induction false} WindowSplits(intervals: seq<Interval>, from: Option<int>, mid: int, until: Option<int>,
                                        profile: Profile, bucket: Bucket)
    requires SplitsWindow(from, mid, until)
    ensures TotalMs(ClipAll(intervals, from, until), profile, bucket)
         == TotalMs(ClipAll(intervals, from, Some(mid)), profile, bucket)
            + TotalMs(ClipAll(intervals, Some(mid), until), profile, bucket)
  {
    if intervals != [] {
      var rest := intervals[1..];
      WindowSplits(rest, from, mid, until, profile, bucket);
      ClipSplits(intervals[0], from, mid, until, profile, bucket);
      TotalOfConcat(Clip(intervals[0], from, until), ClipAll(rest, from, until), profile, bucket);
      TotalOfConcat(Clip(intervals[0], from, Some(mid)), ClipAll(rest, from, Some(mid)), profile, bucket);
      TotalOfConcat(Clip(intervals[0], Some(mid), until), ClipAll(rest, Some(mid), until), profile, bucket);
    }
  }

  datatype BucketMs = BucketMs(active: int, waiting: int, blocked: int, unclassified: int) {
    function Of(bucket: Bucket): int {
      match bucket
      case Active => active
      case Waiting => waiting
      case Blocked => blocked
      case Unclassified => unclassified
    }

    function Plus(bucket: Bucket, ms: int): BucketMs {
      match bucket
      case Active => this.(active := active + ms)
      case Waiting => this.(waiting := waiting + ms)
      case Blocked => this.(blocked := blocked + ms)
      case Unclassified => this.(unclassified := unclassified + ms)
    }
  }

  /** The accumulation of one item's scored intervals into bucket totals. */
  method ItemTotals(intervals: seq<Interval>, from: Option<int>, until: Option<int>, profile: Profile)
    returns (itemMs: BucketMs)
    ensures forall bucket :: itemMs.Of(bucket) == TotalMs(ClipAll(intervals, from, until), profile, bucket)
  {
    var clipped := ClipIntervals(intervals, from, until);
    itemMs := BucketMs(0, 0, 0, 0);
    for i := 0 to |clipped|
      invariant forall bucket ::
        itemMs.Of(bucket) + TotalMs(clipped[i..], profile, bucket) == TotalMs(clipped, profile, bucket)
    {
      assert clipped[i..][1..] == clipped[i + 1..];
      var ms := BusinessMs(clipped[i].start, clipped[i].end, profile.calendarOf(clipped[i].state));
      itemMs := itemMs.Plus(profile.classOf(clipped[i].state), ms);
    }
  }

  // ---- Attribution -----------------------------------------------------------------------------------

  datatype Blocker = Blocker(id: string, linkedAt: int, closedAt: Option<int>)

  datatype Source = FromTransition | FromBlockingLink | FromStateDefault | Unattributed

  datatype Attribution = Attribution(reason: Option<string>, source: Source, note: Option<string>,
                                     blockingItem: Option<string>, ambiguousBlockers: nat)

  /** The first built interval of the same state that contains `piece`. */
  function EnteredInterval(built: seq<Interval>, piece: Interval): Option<Interval> {
    if built == [] then None
    else if built[0].state == piece.state && built[0].start <= piece.start && built[0].end >= piece.end
    then Some(built[0])
    else EnteredInterval(built[1..], piece)
  }

  function Applicable(blockers: seq<Blocker>, at: int): seq<Blocker> {
    if blockers == [] then []
    else (if blockers[0].linkedAt <= at && (blockers[0].closedAt.None? || blockers[0].closedAt.value > at)
          then [blockers[0]] else [])
         + Applicable(blockers[1..], at)
  }

  /** What a wait is put down to, judged when the wait began. */
  function Attribute(built: seq<Interval>, piece: Interval, blockers: seq<Blocker>, profile: Profile): Attribution {
    var entered := EnteredInterval(built, piece);
    var applicable := Applicable(blockers, if entered.Some? then entered.value.start else piece.start);
    var fallback := profile.defaultReasonOf(piece.state);
    Attribution(
      if piece.reason.Some? then Some(piece.reason.value.category)
      else if applicable != [] then Some("dependency")
      else fallback,
      if piece.reason.Some? then FromTransition
      else if applicable != [] then FromBlockingLink
      else if fallback.Some? then FromStateDefault
      else Unattributed,
      if piece.reason.Some? then piece.reason.value.note else None,
      if applicable != [] then Some(applicable[0].id) else None,
      if applicable != [] then |applicable| - 1 else 0)
  }

  /** Disjointness makes the search find the very interval a piece was cut from. */
  lemma {:induction false} EnteredIsOrigin(built: seq<Interval>, k: nat, piece: Interval)
    requires Ordered(built) && k < |built|
    requires piece.state == built[k].state && built[k].start <= piece.start < piece.end <= built[k].end
    ensures EnteredInterval(built, piece) == Some(built[k])
  {
    if k > 0 {
      assert built[0].end <= built[k].start;
      EnteredIsOrigin(built[1..], k - 1, piece);
    }
  }

  // ---- Whom a wait is put down to --------------------------------------------------------------------------------

  /** The blockers that were linked and not closed at an instant, by index. */
  ghost function Standing(blockers: seq<Blocker>, at: int): set<nat> {
    set i: nat | i < |blockers| && blockers[i].linkedAt <= at
                 && (blockers[i].closedAt.None? || at < blockers[i].closedAt.value)
  }

  /** The first standing blocker. */
  ghost predicate IsFirst(i: nat, blockers: seq<Blocker>, at: int) {
    i in Standing(blockers, at) && forall j | j in Standing(blockers, at) :: i <= j
  }

  /** What is said of a piece of a wait that began at `at`: the first standing blocker, how many more there are, and the
      reason: of the transition if it recorded one, else the blocker, else the default of the state. */
  ghost predicate Explains(a: Attribution, piece: Interval, at: int, blockers: seq<Blocker>, profile: Profile) {
    var standing := Standing(blockers, at);
    && (a.blockingItem.None? <==> standing == {})
    && (a.blockingItem.Some? ==>
          exists i: nat :: IsFirst(i, blockers, at) && i < |blockers| && a.blockingItem.value == blockers[i].id)
    && a.ambiguousBlockers == (if standing == {} then 0 else |standing| - 1)
    && (a.source == FromTransition <==> piece.reason.Some?)
    && (a.source == FromBlockingLink <==> piece.reason.None? && standing != {})
    && (a.source == FromStateDefault <==>
          piece.reason.None? && standing == {} && profile.defaultReasonOf(piece.state).Some?)
    && (match a.source
        case FromTransition => a.reason == Some(piece.reason.value.category)
        case FromBlockingLink => a.reason == Some("dependency")
        case FromStateDefault => a.reason == profile.defaultReasonOf(piece.state)
        case Unattributed => a.reason == None)
    && a.note == (if piece.reason.Some? then piece.reason.value.note else None)
  }

  lemma {:induction false} ApplicableOfAppend(blockers: seq<Blocker>, last: Blocker, at: int)
    ensures Applicable(blockers + [last], at) == Applicable(blockers, at) + Applicable([last], at)
  {
    if blockers == [] {
      assert blockers + [last] == [last];
    } else {
      assert (blockers + [last])[1..] == blockers[1..] + [last];
      ApplicableOfAppend(blockers[1..], last, at);
    }
  }

  lemma StandingGrows(blockers: seq<Blocker>, last: Blocker, at: int)
    ensures Standing(blockers + [last], at)
         == Standing(blockers, at) + if Applicable([last], at) == [] then {} else {|blockers|}
    ensures |blockers| !in Standing(blockers, at)
  {
    var all := blockers + [last];
    assert [last][1..] == [];
    forall i: nat | i < |blockers| ensures i in Standing(all, at) <==> i in Standing(blockers, at) {
      assert all[i] == blockers[i];
    }
    assert all[|blockers|] == last;
  }

  lemma FirstStays(i: nat, blockers: seq<Blocker>, last: Blocker, at: int)
    requires IsFirst(i, blockers, at)
    ensures i < |blockers| && IsFirst(i, blockers + [last], at)
  {
    StandingGrows(blockers, last, at);
  }

  /** The applicable blockers are the standing ones: as many, and the first is the first. */
  lemma {:induction false} ApplicableAreStanding(blockers: seq<Blocker>, at: int)
    ensures |Applicable(blockers, at)| == |Standing(blockers, at)|
    ensures Applicable(blockers, at) != [] ==>
      exists i: nat :: IsFirst(i, blockers, at) && i < |blockers| && Applicable(blockers, at)[0] == blockers[i]
  {
    if blockers == [] {
      assert Standing(blockers, at) == {};
    } else {
      var n := |blockers| - 1;
      var before, last := blockers[..n], blockers[n];
      ApplicableAreStanding(before, at);
      ApplicableOfAppend(before, last, at);
      StandingGrows(before, last, at);
      assert blockers == before + [last] && [last][1..] == [];
      if Applicable(before, at) != [] {
        var i: nat :| IsFirst(i, before, at) && i < |before| && Applicable(before, at)[0] == before[i];
        FirstStays(i, before, last, at);
        assert blockers[i] == before[i];
      } else if Applicable(blockers, at) != [] {
        assert Standing(before, at) == {} && Standing(blockers, at) == {n};
        assert IsFirst(n, blockers, at);
      }
    }
  }

  lemma AttributeExplains(built: seq<Interval>, k: nat, piece: Interval, blockers: seq<Blocker>, profile: Profile)
    requires Ordered(built) && k < |built|
    requires piece.state == built[k].state && built[k].start <= piece.start < piece.end <= built[k].end
    ensures Explains(Attribute(built, piece, blockers, profile), piece, built[k].start, blockers, profile)
  {
    EnteredIsOrigin(built, k, piece);
    ApplicableAreStanding(blockers, built[k].start);
    assert |Standing(blockers, built[k].start)| == 0 <==> Standing(blockers, built[k].start) == {};
  }

  /** No report window changes the reason, its source, its note or the blocking item of a wait. */
  lemma WindowKeepsAttribution(built: seq<Interval>, k: nat, from: Option<int>, until: Option<int>, piece: Interval,
                               blockers: seq<Blocker>, profile: Profile)
    requires Ordered(built) && k < |built| && piece in Clip(built[k], from, until)
    ensures Attribute(built, piece, blockers, profile) == Attribute(built, built[k], blockers, profile)
    ensures Explains(Attribute(built, piece, blockers, profile), piece, built[k].start, blockers, profile)
  {
    EnteredIsOrigin(built, k, piece);
    EnteredIsOrigin(built, k, built[k]);
    AttributeExplains(built, k, piece, blockers, profile);
  }

  ghost predicate CutFrom(built: seq<Interval>, k: nat, from: Option<int>, until: Option<int>, piece: Interval) {
    k < |built| && piece in Clip(built[k], from, until)
  }

  lemma {:induction false} PiecesAreCut(built: seq<Interval>, from: Option<int>, until: Option<int>, piece: Interval)
    returns (k: nat)
    requires piece in ClipAll(built, from, until)
    ensures CutFrom(built, k, from, until, piece)
  {
    if piece in Clip(built[0], from, until) {
      k := 0;
    } else {
      var rest := PiecesAreCut(built[1..], from, until, piece);
      k := rest + 1;
    }
  }

  /** For any item and any window: every piece in the report is cut from a built interval, has its attribution, and that
      says whom and what the wait was put down to when it began. */
  lemma ReportKeepsAttribution(createdAt: int, currentState: string, input: seq<StateChange>, now: int,
                               terminal: set<string>, from: Option<int>, until: Option<int>, piece: Interval,
                               blockers: seq<Blocker>, profile: Profile)
    requires piece in ClipAll(Built(createdAt, currentState, input, now, terminal), from, until)
    ensures var built := Built(createdAt, currentState, input, now, terminal);
      exists k: nat :: CutFrom(built, k, from, until, piece)
                       && Attribute(built, piece, blockers, profile) == Attribute(built, built[k], blockers, profile)
                       && Explains(Attribute(built, piece, blockers, profile), piece, built[k].start, blockers, profile)
  {
    var built := Built(createdAt, currentState, input, now, terminal);
    var sorted := SortByTime(input);
    TimelineIsHistory(sorted, Situation(FirstState(sorted, currentState), None), createdAt, now, terminal);
    var k := PiecesAreCut(built, from, until, piece);
    WindowKeepsAttribution(built, k, from, until, piece, blockers, profile);
  }

  /** The disjointness is needed: with overlapping waits a window can change the blocking item of a piece. */
  lemma OverlapBreaksAttribution()
    ensures var built := [Interval("waiting", 0, 9, false, None), Interval("waiting", 4, 10, false, None)];
            var piece := Interval("waiting", 5, 8, false, None);
            var blockers := [Blocker("B", 2, None)];
            var profile := Profile(s => Waiting, s => AllHours, s => None);
            && piece in Clip(built[1], Some(5), Some(8))
            && Attribute(built, built[1], blockers, profile).blockingItem == Some("B")
            && Attribute(built, piece, blockers, profile).blockingItem == None
  {
    var built := [Interval("waiting", 0, 9, false, None), Interval("waiting", 4, 10, false, None)];
    assert EnteredInterval(built, built[1]) == Some(built[1]) by {
      assert built[1..] == [built[1]];
    }
    assert Applicable([Blocker("B", 2, None)], 4) == [Blocker("B", 2, None)];
  }
}
