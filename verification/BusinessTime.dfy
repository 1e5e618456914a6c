/** Business-time measurement (src/modules/flow/flow-profile.ts).

    Instants are integer milliseconds since 1970-01-01T00:00Z, before it as well as after it. The day loop of
    the program is proved equal until the number of milliseconds that lie in business hours, and everything the
    reports rely on (additivity, monotonicity, the bound by wall-clock time) follows from that count. */
module BusinessTime {
  const HOUR_MS := 3_600_000
  const DAY_MS := 86_400_000

  datatype Calendar = FiveByEight | AllHours

  /** 0 is Sunday and 6 is Saturday; day 0 of the epoch was a Thursday. */
  function Weekday(t: int): int {
    (t / DAY_MS + 4) % 7
  }

  /** Whether the millisecond starting at `t` is business time. */
  predicate Counted(calendar: Calendar, t: int) {
    calendar.AllHours? || (1 <= Weekday(t) <= 5 && 9 * HOUR_MS <= t % DAY_MS < 17 * HOUR_MS)
  }

  ghost function Instants(calendar: Calendar, from: int, until: int): set<int> {
    set t: int | from <= t < until && Counted(calendar, t)
  }

  /** The definition the loop is held to: how many milliseconds of [from, until) are business time. */
  ghost function OpenMs(calendar: Calendar, from: int, until: int): nat {
    |Instants(calendar, from, until)|
  }

  predicate Within(t: int, from: int, until: int) {
    from <= t < until
  }

  ghost function Range(from: int, until: int): set<int> {
    set t: int | from <= t < until && Within(t, from, until)
  }

  lemma {:induction false} RangeSize(from: int, until: int)
    ensures |Range(from, until)| == if from < until then until - from else 0
    decreases until - from
  {
    if from < until {
      RangeSize(from, until - 1);
      assert Range(from, until) == Range(from, until - 1) + {until - 1};
    } else {
      assert Range(from, until) == {};
    }
  }

  /** Time spent in adjacent ranges adds up exactly. */
  lemma OpenMsIsAdditive(calendar: Calendar, from: int, mid: int, until: int)
    requires from <= mid <= until
    ensures OpenMs(calendar, from, until) == OpenMs(calendar, from, mid) + OpenMs(calendar, mid, until)
  {
    var left, right := Instants(calendar, from, mid), Instants(calendar, mid, until);
    assert Instants(calendar, from, until) == left + right;
    assert left !! right;
  }

  /** Business time never exceeds wall-clock time, equals it around the clock, and vanishes on an empty range. */
  lemma OpenMsIsBounded(calendar: Calendar, from: int, until: int)
    ensures from < until ==> OpenMs(calendar, from, until) <= until - from
    ensures from < until && calendar.AllHours? ==> OpenMs(calendar, from, until) == until - from
    ensures until <= from ==> OpenMs(calendar, from, until) == 0
  {
    var open, all := Instants(calendar, from, until), Range(from, until);
    RangeSize(from, until);
    assert open <= all;
    SubsetSize(open, all);
    if calendar.AllHours? {
      assert open == all;
    }
  }

  lemma OpenMsIsMonotone(calendar: Calendar, outerFrom: int, from: int, until: int, outerTo: int)
    requires outerFrom <= from <= until <= outerTo
    ensures OpenMs(calendar, from, until) <= OpenMs(calendar, outerFrom, outerTo)
  {
    OpenMsIsAdditive(calendar, outerFrom, from, outerTo);
    OpenMsIsAdditive(calendar, from, until, outerTo);
  }

  lemma {:induction false} SubsetSize<T>(inner: set<T>, outer: set<T>)
    requires inner <= outer
    ensures |inner| <= |outer|
  {
    assert outer == inner + (outer - inner);
  }

  /** Every instant of the day that starts at midnight number `n`. */
  lemma SameDay(t: int, n: int)
    requires n * DAY_MS <= t < n * DAY_MS + DAY_MS
    ensures t / DAY_MS == n && t % DAY_MS == t - n * DAY_MS
  {
  }

  predicate BusinessDay(n: int) {
    1 <= (n + 4) % 7 <= 5
  }

  /** What one calendar day contributes to a range that stays inside it. */
  lemma DayShare(n: int, from: int, until: int)
    requires n * DAY_MS <= from <= until <= n * DAY_MS + DAY_MS
    ensures OpenMs(FiveByEight, from, until)
         == if BusinessDay(n)
            then Max(0, Min(n * DAY_MS + 17 * HOUR_MS, until) - Max(n * DAY_MS + 9 * HOUR_MS, from))
            else 0
  {
    forall t | from <= t < until
      ensures t / DAY_MS == n && t % DAY_MS == t - n * DAY_MS
    {
      SameDay(t, n);
    }
    var inside := Instants(FiveByEight, from, until);
    if BusinessDay(n) {
      var opens, closes := Max(n * DAY_MS + 9 * HOUR_MS, from), Min(n * DAY_MS + 17 * HOUR_MS, until);
      assert inside == Range(opens, closes);
      RangeSize(opens, closes);
    } else {
      assert inside == {};
    }
  }

  function Max(a: int, b: int): int { if a < b then b else a }

  function Min(a: int, b: int): int { if a < b then a else b }

  /** One turn of the day walk, from what was measured before day `n` to what is measured after it. */
  lemma DayStep(from: int, until: int, n: int)
    requires from - DAY_MS < n * DAY_MS < until && from < until
    ensures OpenMs(FiveByEight, from, Min(Max(n * DAY_MS + DAY_MS, from), until))
         == OpenMs(FiveByEight, from, Min(Max(n * DAY_MS, from), until))
            + if BusinessDay(n)
              then Max(0, Min(n * DAY_MS + 17 * HOUR_MS, until) - Max(n * DAY_MS + 9 * HOUR_MS, from))
              else 0
  {
    var lo, hi := Max(n * DAY_MS, from), Min(n * DAY_MS + DAY_MS, until);
    OpenMsIsAdditive(FiveByEight, from, lo, hi);
    DayShare(n, lo, hi);
  }

  lemma FirstDay(from: int)
    ensures from - DAY_MS < from / DAY_MS * DAY_MS <= from
  {
  }

  lemma Midnight(day: int, n: int)
    requires day == n * DAY_MS
    ensures 1 <= Weekday(day) <= 5 <==> BusinessDay(n)
  {
    SameDay(day, n);
  }

  /** The program's day walk, with its skipped weekends and its per-day clipping. */
  method BusinessMs(from: int, until: int, calendar: Calendar) returns (total: int)
    ensures total == OpenMs(calendar, from, until)
  {
    OpenMsIsBounded(calendar, from, until);
    if until <= from {
      return 0;
    }
    if calendar.AllHours? {
      return until - from;
    }
    total := 0;
    var day := from / DAY_MS * DAY_MS;
    ghost var n := from / DAY_MS;
    FirstDay(from);
    OpenMsIsBounded(calendar, from, from);
    while day < until
      invariant day == n * DAY_MS && from - DAY_MS < day
      invariant total == OpenMs(FiveByEight, from, Min(Max(day, from), until))
      decreases until - day
    {
      DayStep(from, until, n);
      Midnight(day, n);
      var weekday := Weekday(day);
      if weekday != 0 && weekday != 6 {
        var opens := Max(day + 9 * HOUR_MS, from);
        var closes := Min(day + 17 * HOUR_MS, until);
        if closes > opens {
          total := total + (closes - opens);
        }
      }
      day, n := day + DAY_MS, n + 1;
    }
  }
}
