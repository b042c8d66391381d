/** A weekly internet schedule (internal/core/schedule.go) and the firewall
    sections it becomes (internal/adapters/openwrt/devices_schedule.go). */
module Schedules {
  import opened Outcomes
  import opened Text

  const DAY: nat := 1440
  const WEEK: nat := 10080

  function Weekdays(): (r: seq<string>)
    ensures |r| == 7
  {
    ["mon", "tue", "wed", "thu", "fri", "sat", "sun"]
  }

  function FirewallDays(): (r: seq<string>)
    ensures |r| == 7
  {
    ["Mon", "Tue", "Wed", "Thu", "Fri", "Sat", "Sun"]
  }

  /** Days are those the window starts on; times are HH:MM, and an end earlier
      than the start is on the next day. */
  datatype Schedule = Schedule(days: seq<string>, from: string, to: string)

  datatype Field = Days | From | To

  function DayIndex(d: string): (i: int)
    ensures -1 <= i < 7
    ensures i >= 0 ==> Weekdays()[i] == d
    ensures i == -1 ==> d !in Weekdays()
  {
    if d == "mon" then 0 else if d == "tue" then 1 else if d == "wed" then 2 else if d == "thu" then 3
    else if d == "fri" then 4 else if d == "sat" then 5 else if d == "sun" then 6 else -1
  }

  // ---- Clock times ----

  function Expect(o: Option<(int, string)>, c: char): Option<(int, string)> {
    if o.Some? && o.value.1 != "" && o.value.1[0] == c then Some((o.value.0, o.value.1[1..])) else None
  }

  /** The hours, minutes and seconds of "HH:MM" or "HH:MM:SS", read as loosely
      as the scanner reads them: only the length is fixed. */
  function Clock(v: string): Option<(int, int, int)> {
    var t := TrimSpace(v);
    var colons := CountChar(t, ':');
    if colons != 1 && colons != 2 then None
    else
      var h := Expect(ScanInt(t), ':');
      if h.None? then None
      else if colons == 1 then
        var m := ScanInt(h.value.1);
        if m.None? || |t| != 5 then None else Some((h.value.0, m.value.0, 0))
      else
        var m := Expect(ScanInt(h.value.1), ':');
        if m.None? then None
        else
          var s := ScanInt(m.value.1);
          if s.None? || |t| != 8 then None else Some((h.value.0, m.value.0, s.value.0))
  }

  function ClockMinutes(v: string): (r: Option<nat>)
    ensures r.Some? ==> r.value < DAY
  {
    var c := Clock(v);
    if c.None? then None
    else
      var (h, m, s) := c.value;
      if h < 0 || h > 23 || m < 0 || m > 59 || s < 0 || s > 59 then None else Some(h * 60 + m)
  }

  /** Minutes after midnight of a time already checked. */
  function Minutes(v: string): nat {
    var r := ClockMinutes(v);
    if r.None? then 0 else r.value
  }

  function TwoDigits(n: nat): string
    requires n < 100
  {
    [Digit(n / 10), Digit(n % 10)]
  }

  function HHMM(minutes: nat): string
    requires minutes < DAY
  {
    TwoDigits(minutes / 60) + ":" + TwoDigits(minutes % 60)
  }

  lemma ScanTwoDigits(n: nat, rest: string)
    requires n < 100 && (rest == "" || !IsDigit(rest[0]))
    ensures ScanInt(TwoDigits(n) + rest) == Some((n, rest))
  {
    var s := TwoDigits(n) + rest;
    assert SkipBlanks(s) == s;
    assert s[1..] == [Digit(n % 10)] + rest && s[1..][1..] == rest;
    assert CountDigits(rest) == 0;
    assert CountDigits(s[1..]) == 1 && CountDigits(s) == 2;
    assert s[..2] == TwoDigits(n) && s[2..] == rest;
    assert TwoDigits(n)[..1] == [Digit(n / 10)] && [Digit(n / 10)][..0] == "";
    assert DecValue([Digit(n / 10)]) == n / 10;
    assert DecValue(TwoDigits(n)) == n;
  }

  lemma ColonsIn(n: nat, rest: string)
    requires n < 100
    ensures CountChar(TwoDigits(n) + rest, ':') == CountChar(rest, ':')
  {
    var s := TwoDigits(n) + rest;
    assert s[1..] == [Digit(n % 10)] + rest && s[1..][1..] == rest;
  }

  lemma TrimDigits(s: string)
    requires s != "" && IsDigit(s[0]) && IsDigit(s[|s|-1])
    ensures TrimSpace(s) == s
  {
  }

  lemma HHMMParts(x: nat, tail: string)
    requires x < DAY
    ensures var s := HHMM(x) + tail; var m := TwoDigits(x % 60) + tail;
      s == TwoDigits(x / 60) + (":" + m) && |s| == 5 + |tail| && (":" + m)[1..] == m
      && CountChar(s, ':') == 1 + CountChar(tail, ':')
  {
    var m := TwoDigits(x % 60) + tail;
    ColonsIn(x % 60, tail);
    ColonsIn(x / 60, ":" + m);
    assert (":" + m)[1..] == m;
    assert HHMM(x) + tail == TwoDigits(x / 60) + (":" + m);
  }

  /** Writing a time and reading it gives it back. */
  lemma ReadHHMM(x: nat)
    requires x < DAY
    ensures ClockMinutes(HHMM(x)) == Some(x)
  {
    hide Clock, TrimSpace, ScanInt;
    HHMMParts(x, "");
    assert HHMM(x) + "" == HHMM(x) && TwoDigits(x % 60) + "" == TwoDigits(x % 60);
    TrimDigits(HHMM(x));
    ScanTwoDigits(x / 60, ":" + TwoDigits(x % 60));
    ScanTwoDigits(x % 60, "");
    assert CountChar(HHMM(x), ':') == 1;
    HoursAndMinutes(HHMM(x), x / 60, ":" + TwoDigits(x % 60), x % 60, "");
  }

  /** Four digits with a colon among them are a time of day as they are said:
      hours before minutes, and none past 23 or 59. */
  lemma ClockReads(h: nat, m: nat)
    requires h < 100 && m < 100
    ensures ClockMinutes([Digit(h / 10), Digit(h % 10), ':', Digit(m / 10), Digit(m % 10)]) ==
      if h < 24 && m < 60 then Some(60 * h + m) else None
  {
    hide Clock, TrimSpace, ScanInt;
    var v, tail := [Digit(h / 10), Digit(h % 10), ':', Digit(m / 10), Digit(m % 10)], ":" + TwoDigits(m);
    assert v == TwoDigits(h) + tail && tail[1..] == TwoDigits(m) && TwoDigits(m) + "" == TwoDigits(m);
    TrimDigits(v);
    ColonsIn(h, tail);
    ColonsIn(m, "");
    assert CountChar(tail, ':') == 1;
    ScanTwoDigits(h, tail);
    ScanTwoDigits(m, "");
    HoursAndMinutes(v, h, tail, m, "");
  }

  lemma HoursAndMinutes(v: string, h: int, tail: string, m: int, rest: string)
    requires TrimSpace(v) == v && CountChar(v, ':') == 1 && |v| == 5
    requires ScanInt(v) == Some((h, tail)) && tail != "" && tail[0] == ':' && ScanInt(tail[1..]) == Some((m, rest))
    ensures Clock(v) == Some((h, m, 0))
  {
    hide TrimSpace, CountChar, ScanInt;
  }

  /** The same with seconds, as the firewall stores it. */
  lemma ReadHHMMSS(x: nat, s: nat)
    requires x < DAY && s < 60
    ensures Clock(HHMM(x) + (":" + TwoDigits(s))) == Some((x / 60, x % 60, s))
  {
    var tail := ":" + TwoDigits(s);
    HHMMParts(x, tail);
    assert tail[1..] == TwoDigits(s);
    ColonsIn(s, "");
    assert TwoDigits(s) + "" == TwoDigits(s);
    assert CountChar(tail, ':') == 1;
    TrimDigits(HHMM(x) + tail);
    ScanTwoDigits(x / 60, ":" + (TwoDigits(x % 60) + tail));
    ScanTwoDigits(x % 60, tail);
    ScanTwoDigits(s, "");
  }

  // ---- One spelling ----

  /** The wanted days in weekday order, from the i-th on. */
  function InOrder(want: set<string>, i: nat): (r: seq<string>)
    requires i <= 7
    ensures forall d :: d in r <==> d in want && exists k :: i <= k < 7 && Weekdays()[k] == d
    decreases 7 - i
  {
    if i == 7 then []
    else
      var rest := InOrder(want, i + 1);
      if Weekdays()[i] in want then [Weekdays()[i]] + rest else rest
  }

  function Wanted(days: seq<string>): set<string> {
    set i | 0 <= i < |days| :: Spelled(days[i])
  }

  predicate RealDays(days: seq<string>) {
    forall i :: 0 <= i < |days| ==> DayIndex(Spelled(days[i])) >= 0
  }

  /** What a requested schedule comes to. */
  function Cleaned(s: Schedule): Result<Schedule, Field> {
    if !RealDays(s.days) || s.days == [] then Err(Days)
    else if ClockMinutes(s.from).None? then Err(From)
    else if ClockMinutes(s.to).None? || ClockMinutes(s.from) == ClockMinutes(s.to) then Err(To)
    else Ok(Schedule(InOrder(Wanted(s.days), 0), HHMM(Minutes(s.from)), HHMM(Minutes(s.to))))
  }

  lemma WantedStep(days: seq<string>, i: nat)
    requires i < |days|
    ensures Wanted(days[..i+1]) == Wanted(days[..i]) + {Spelled(days[i])}
    ensures RealDays(days[..i+1]) <==> RealDays(days[..i]) && DayIndex(Spelled(days[i])) >= 0
  {
    hide Spelled, DayIndex;
    var more, less := days[..i+1], days[..i];
    forall k | 0 <= k < i ensures more[k] == less[k] {}
    assert more[i] == days[i];
    forall d | d in Wanted(less) ensures d in Wanted(more) {
      var k :| 0 <= k < |less| && Spelled(less[k]) == d;
      assert more[k] == less[k];
    }
    if RealDays(more) {
      forall k | 0 <= k < i ensures DayIndex(Spelled(less[k])) >= 0 {
        assert more[k] == less[k];
      }
    }
  }

  /** The days asked for, or nothing when one of them is no day. */
  method CollectDays(days: seq<string>) returns (want: Option<set<string>>)
    ensures want == if RealDays(days) then Some(Wanted(days)) else None
  {
    hide Spelled, DayIndex, RealDays, Wanted;
    var found: set<string> := {};
    assert RealDays(days[..0]) && Wanted(days[..0]) == {} by {
      NoDays(days[..0]);
    }
    for i := 0 to |days|
      invariant RealDays(days[..i]) && found == Wanted(days[..i])
    {
      var d := Spelled(days[i]);
      WantedStep(days, i);
      if DayIndex(d) < 0 {
        if RealDays(days) { RealPrefix(days, i + 1); }
        return None;
      }
      found := found + {d};
    }
    assert days[..|days|] == days;
    return Some(found);
  }

  lemma NoDays(days: seq<string>)
    requires days == []
    ensures RealDays(days) && Wanted(days) == {}
  {
  }

  lemma RealPrefix(days: seq<string>, n: nat)
    requires n <= |days| && RealDays(days)
    ensures RealDays(days[..n])
  {
  }

  lemma SomeDay(days: seq<string>)
    ensures Wanted(days) == {} <==> days == []
  {
    if days != [] {
      assert Spelled(days[0]) in Wanted(days);
    }
  }

  /** The days in weekday order, once each. */
  method OrderDays(want: set<string>) returns (days: seq<string>)
    ensures days == InOrder(want, 0)
  {
    hide Weekdays;
    days := [];
    for k := 0 to 7
      invariant days + InOrder(want, k) == InOrder(want, 0)
    {
      if Weekdays()[k] in want {
        days := days + [Weekdays()[k]];
      }
    }
  }

  method CleanSchedule(s: Schedule) returns (r: Result<Schedule, Field>)
    ensures r == Cleaned(s)
  {
    hide ClockMinutes, HHMM, RealDays, Wanted, InOrder;
    var want := CollectDays(s.days);
    if want.None? {
      return Err(Days);
    }
    SomeDay(s.days);
    if want.value == {} {
      return Err(Days);
    }
    var days := OrderDays(want.value);
    var f, t := ClockMinutes(s.from), ClockMinutes(s.to);
    if f.None? {
      return Err(From);
    }
    if t.None? || f == t {
      return Err(To);
    }
    r := Ok(Schedule(days, HHMM(f.value), HHMM(t.value)));
  }

  /** In its one spelling: real days in order, once each; times as HH:MM that
      differ. */
  predicate Clean(s: Schedule) {
    && s.days != [] && s.days == InOrder(set d | d in s.days, 0)
    && ClockMinutes(s.from).Some? && ClockMinutes(s.to).Some? && Minutes(s.from) != Minutes(s.to)
    && s.from == HHMM(Minutes(s.from)) && s.to == HHMM(Minutes(s.to))
  }

  lemma WeekdaySpelled(k: nat)
    requires k < 7
    ensures Spelled(Weekdays()[k]) == Weekdays()[k] && DayIndex(Weekdays()[k]) == k
  {
    var d := Weekdays()[k];
    assert TrimSpace(d) == d;
    assert |d| == 3 && d == [d[0]] + [d[1]] + [d[2]];
    assert d[1..] == [d[1]] + [d[2]] && d[1..][1..] == [d[2]] && d[1..][1..][1..] == "";
  }

  /** What cleaning returns is clean, and says what was asked: the same days and
      the same times. */
  lemma CleanedIsClean(s: Schedule)
    requires Cleaned(s).Ok?
    ensures Clean(Cleaned(s).value)
    ensures forall d :: d in Cleaned(s).value.days <==> d in Wanted(s.days)
    ensures Minutes(Cleaned(s).value.from) == Minutes(s.from) && Minutes(Cleaned(s).value.to) == Minutes(s.to)
  {
    var c := Cleaned(s).value;
    ReadHHMM(Minutes(s.from));
    ReadHHMM(Minutes(s.to));
    forall d | d in Wanted(s.days) ensures exists k :: 0 <= k < 7 && Weekdays()[k] == d {
      var i :| 0 <= i < |s.days| && Spelled(s.days[i]) == d;
      var k := DayIndex(d);
      assert Weekdays()[k] == d;
    }
    assert Spelled(s.days[0]) in Wanted(s.days);
    assert (set d | d in c.days) == Wanted(s.days);
  }

  /** A request is refused for exactly these reasons, the days before the times. */
  lemma RefusedFor(s: Schedule)
    ensures Cleaned(s) == Err(Days) <==> s.days == [] || exists d :: d in s.days && !IsWeekday(Spelled(d))
    ensures Cleaned(s).Ok? <==>
      s.days != [] && (forall d :: d in s.days ==> IsWeekday(Spelled(d)))
      && ClockMinutes(s.from).Some? && ClockMinutes(s.to).Some? && ClockMinutes(s.from) != ClockMinutes(s.to)
    ensures Cleaned(s) == Err(From) ==> ClockMinutes(s.from).None?
    ensures Cleaned(s) == Err(To) ==>
      ClockMinutes(s.from).Some? && (ClockMinutes(s.to).None? || ClockMinutes(s.to) == ClockMinutes(s.from))
  {
    hide ClockMinutes, Spelled, HHMM;
    forall d ensures DayIndex(d) >= 0 <==> IsWeekday(d) {
    }
    if exists d :: d in s.days && !IsWeekday(Spelled(d)) {
      var d :| d in s.days && !IsWeekday(Spelled(d));
      var i :| 0 <= i < |s.days| && s.days[i] == d;
    }
  }

  predicate IsWeekday(d: string) {
    d == "mon" || d == "tue" || d == "wed" || d == "thu" || d == "fri" || d == "sat" || d == "sun"
  }

  /** Cleaning what is clean changes nothing. */
  lemma CleanIsFixed(s: Schedule)
    requires Clean(s)
    ensures Cleaned(s) == Ok(s)
  {
    var want := set d | d in s.days;
    forall i | 0 <= i < |s.days| ensures Spelled(s.days[i]) == s.days[i] && DayIndex(s.days[i]) >= 0 {
      assert s.days[i] in InOrder(want, 0);
      var k :| 0 <= k < 7 && Weekdays()[k] == s.days[i];
      WeekdaySpelled(k);
    }
    assert Wanted(s.days) == want;
  }

  lemma CleaningTwice(s: Schedule)
    requires Cleaned(s).Ok?
    ensures Cleaned(Cleaned(s).value) == Cleaned(s)
  {
    CleanedIsClean(s);
    CleanIsFixed(Cleaned(s).value);
  }
}
