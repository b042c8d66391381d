/** When a schedule keeps a device off the internet, and when that next changes
    (internal/core/schedule.go). A moment is a day of the week (0 is Monday)
    and a minute of that day. */
module OffTimes {
  import opened Outcomes
  import opened Schedules

  predicate Moment(day: int, minute: int) { 0 <= day < 7 && 0 <= minute < DAY }

  /** One window starting on day `i`. */
  predicate WindowAt(i: int, f: nat, t: nat, day: int, minute: int) {
    if t > f then day == i && f <= minute < t
    else (day == i && minute >= f) || (t != 0 && day == (i + 1) % 7 && minute < t)
  }

  predicate OffOn(days: seq<string>, f: nat, t: nat, day: int, minute: int) {
    days != [] && (WindowAt(DayIndex(days[0]), f, t, day, minute) || OffOn(days[1..], f, t, day, minute))
  }

  predicate OffAt(s: Schedule, day: int, minute: int) {
    OffOn(s.days, Minutes(s.from), Minutes(s.to), day, minute)
  }

  lemma {:induction false} OffOnSomeDay(days: seq<string>, f: nat, t: nat, day: int, minute: int)
    ensures OffOn(days, f, t, day, minute) <==> exists d :: d in days && WindowAt(DayIndex(d), f, t, day, minute)
  {
    if days != [] {
      OffOnSomeDay(days[1..], f, t, day, minute);
      assert days == [days[0]] + days[1..];
    }
  }

  /** The week as a circle of minutes: the window of day `i` is the arc of
      `Length` minutes that starts at its beginning. */
  function Length(f: nat, t: nat): (n: nat) { (t - f) % DAY }

  predicate OnArc(i: int, f: nat, t: nat, day: int, minute: int) {
    (day * DAY + minute - (i * DAY + f)) % WEEK < Length(f, t)
  }

  lemma WindowIsArc(i: int, f: nat, t: nat, day: int, minute: int)
    requires 0 <= i < 7 && f < DAY && t < DAY && f != t && Moment(day, minute)
    ensures WindowAt(i, f, t, day, minute) <==> OnArc(i, f, t, day, minute)
  {
    var gap := day * DAY + minute - (i * DAY + f);
    assert Length(f, t) == if t > f then t - f else t - f + DAY;
    assert gap % WEEK == if gap < 0 then gap + WEEK else gap;
  }

  lemma CleanDays(s: Schedule)
    requires Clean(s)
    ensures forall d :: d in s.days ==> DayIndex(d) >= 0
  {
    forall d | d in s.days ensures DayIndex(d) >= 0 {
      assert d in InOrder(set x | x in s.days, 0);
    }
  }

  /** A device is off exactly on the arcs of its days, across midnight and
      across the end of the week alike. */
  lemma OffAtIsCircular(s: Schedule, day: int, minute: int)
    requires Clean(s) && Moment(day, minute)
    ensures OffAt(s, day, minute) <==> exists d :: d in s.days && OnArc(DayIndex(d), Minutes(s.from), Minutes(s.to), day, minute)
  {
    hide Clean, WindowAt, OnArc, ClockMinutes;
    var f, t := Minutes(s.from), Minutes(s.to);
    CleanTimes(s);
    CleanDays(s);
    OffOnSomeDay(s.days, f, t, day, minute);
    forall d | d in s.days
      ensures WindowAt(DayIndex(d), f, t, day, minute) <==> OnArc(DayIndex(d), f, t, day, minute)
    {
      WindowIsArc(DayIndex(d), f, t, day, minute);
    }
  }

  lemma CleanTimes(s: Schedule)
    requires Clean(s)
    ensures s.days != [] && Minutes(s.from) < DAY && Minutes(s.to) < DAY && Minutes(s.from) != Minutes(s.to)
  {
    hide ClockMinutes;
  }

  // ---- The next change ----

  /** Off or on `step` minutes after a moment. */
  predicate Later(s: Schedule, day: nat, minute: nat, step: nat) {
    OffAt(s, (day + (minute + step) / DAY) % 7, (minute + step) % DAY)
  }

  /** How many minutes until a moment comes round again, at least one. */
  function StepsTo(day: nat, minute: nat, day': nat, minute': nat): (step: nat)
    requires Moment(day, minute) && Moment(day', minute')
    ensures 1 <= step <= WEEK
    ensures (day + (minute + step) / DAY) % 7 == day' && (minute + step) % DAY == minute'
  {
    var gap := day' * DAY + minute' - (day * DAY + minute);
    var step := if gap > 0 then gap else gap + WEEK;
    var m := day * DAY + minute + step;
    assert m == day' * DAY + minute' || m == (day' + 7) * DAY + minute';
    assert m == day * DAY + (minute + step);
    assert m / DAY == day + (minute + step) / DAY && m % DAY == (minute + step) % DAY;
    step
  }

  /** Every schedule is off at the start of its windows and on at their end, so
      within a week it changes. */
  lemma ChangesWithinAWeek(s: Schedule, day: nat, minute: nat) returns (step: nat)
    requires Clean(s) && Moment(day, minute)
    ensures 1 <= step <= WEEK && Later(s, day, minute, step) != OffAt(s, day, minute)
  {
    hide Clean, ClockMinutes;
    CleanTimes(s);
    CleanDays(s);
    var f, t, i := Minutes(s.from), Minutes(s.to), DayIndex(s.days[0]);
    if OffAt(s, day, minute) {
      step := StepsTo(day, minute, i, t);
      OffOnSomeDay(s.days, f, t, i, t);
    } else {
      step := StepsTo(day, minute, i, f);
      OffOnSomeDay(s.days, f, t, i, f);
      assert WindowAt(DayIndex(s.days[0]), f, t, i, f);
    }
  }

  /** The time of the first change, and how far away it is; empty when a whole
      week has none. */
  method NextChange(s: Schedule, day: nat, minute: nat) returns (r: string, ghost step: nat)
    requires Moment(day, minute)
    ensures r == "" <==> forall k :: 1 <= k <= WEEK ==> Later(s, day, minute, k) == OffAt(s, day, minute)
    ensures r != "" ==> 1 <= step <= WEEK && r == HHMM((minute + step) % DAY)
    ensures r != "" ==> Later(s, day, minute, step) != OffAt(s, day, minute)
    ensures r != "" ==> forall k :: 1 <= k < step ==> Later(s, day, minute, k) == OffAt(s, day, minute)
    ensures Clean(s) ==> r != ""
  {
    hide Clean, OffAt, HHMM;
    if Clean(s) {
      ghost var at := ChangesWithinAWeek(s, day, minute);
    }
    var now := OffAt(s, day, minute);
    for k := 1 to WEEK + 1
      invariant forall j :: 1 <= j < k ==> Later(s, day, minute, j) == now
    {
      var m := minute + k;
      if OffAt(s, (day + m / DAY) % 7, m % DAY) != now {
        step := k;
        r := HHMM(m % DAY);
        TimeIsNotEmpty(m % DAY);
        assert Later(s, day, minute, k) != now;
        return;
      }
    }
    step := 0;
    return "", 0;
  }

  lemma TimeIsNotEmpty(minutes: nat)
    requires minutes < DAY
    ensures HHMM(minutes) != ""
  {
  }
}
