/** A schedule as firewall sections, and back
    (internal/adapters/openwrt/devices_schedule.go). An option a
    section does not have is empty. */
module ScheduleRules {
  import opened Outcomes
  import opened Text
  import opened Schedules
  import opened OffTimes

  const EVENING_END := "23:59:59"

  /** A rule section about one device. */
  datatype Section = Section(mac: string, src: string, dest: string, proto: string, target: string,
                             weekdays: string, start: string, stop: string)

  /** One that refuses everything the device sends from the local zone into
      another. */
  function Refusing(mac: string, local: string, weekdays: string, start: string, stop: string): Section {
    Section(mac, local, "*", "all", "REJECT", weekdays, start, stop)
  }

  /** The firewall's words for the days, each moved on by `shift` days. */
  function DayWord(d: string, shift: nat): string
    requires DayIndex(d) >= 0
  {
    FirewallDays()[(DayIndex(d) + shift) % 7]
  }

  function DayWords(days: seq<string>, shift: nat): (words: seq<string>)
    requires forall d :: d in days ==> DayIndex(d) >= 0
    ensures |words| == |days|
    ensures forall k :: 0 <= k < |days| ==> words[k] == DayWord(days[k], shift)
  {
    if days == [] then [] else [DayWord(days[0], shift)] + DayWords(days[1..], shift)
  }

  /** The evening section and, for a window across midnight, the morning one. */
  function ScheduleOptions(mac: string, local: string, s: Schedule): (Section, Option<Section>)
    requires forall d :: d in s.days ==> DayIndex(d) >= 0
  {
    var f, t := Minutes(s.from), Minutes(s.to);
    var days := Join(DayWords(s.days, 0));
    if t > f then (Refusing(mac, local, days, s.from + ":00", s.to + ":00"), None)
    else
      var evening := Refusing(mac, local, days, s.from + ":00", EVENING_END);
      if t == 0 then (evening, None)
      else (evening, Some(Refusing(mac, local, Join(DayWords(s.days, 1)), "00:00:00", s.to + ":00")))
  }

  lemma DayWordsAreWords(days: seq<string>, shift: nat)
    requires forall d :: d in days ==> DayIndex(d) >= 0
    ensures Fields(Join(DayWords(days, shift))) == DayWords(days, shift)
  {
    var words := DayWords(days, shift);
    hide DayWords, DayIndex;
    forall w | w in words ensures IsWord(w) {
      var k :| 0 <= k < |words| && words[k] == w;
      NoSpaceInDay((DayIndex(days[k]) + shift) % 7);
    }
    FieldsOfJoin(words);
  }

  lemma NoSpaceInDay(i: nat)
    requires i < 7
    ensures IsWord(FirewallDays()[i])
  {
  }

  /** The weekdays from the k-th on that a word names, whatever its case. */
  function DaysNamed(word: string, k: nat): seq<string>
    requires k <= 7
    decreases 7 - k
  {
    if k == 7 then []
    else (if EqualFold(word, FirewallDays()[k]) then [Weekdays()[k]] else []) + DaysNamed(word, k + 1)
  }

  function DaysOf(words: seq<string>): seq<string> {
    if words == [] then [] else DaysNamed(words[0], 0) + DaysOf(words[1..])
  }

  function ScheduleFrom(evening: Section, morning: Option<Section>): Result<Schedule, Field> {
    var to :=
      if evening.stop == EVENING_END then
        if morning.Some? then TrimSuffix(morning.value.stop, ":00") else "00:00"
      else TrimSuffix(evening.stop, ":00");
    Cleaned(Schedule(DaysOf(Fields(evening.weekdays)), TrimSuffix(evening.start, ":00"), to))
  }

  // ---- Written, then read ----

  lemma FoldThree(a: char, b: char, c: char)
    ensures ToLower([a, b, c]) == [Lower(a), Lower(b), Lower(c)]
  {
    assert [c][1..] == "" && ToLower([c]) == [Lower(c)];
    assert [b, c][1..] == [c] && ToLower([b, c]) == [Lower(b), Lower(c)];
    assert [a, b, c][1..] == [b, c];
  }

  lemma Folded(k: nat)
    requires k < 7
    ensures ToLower(FirewallDays()[k]) == Weekdays()[k]
  {
    var d := FirewallDays()[k];
    FoldThree(d[0], d[1], d[2]);
    assert d == [d[0], d[1], d[2]];
    hide ToLower;
    assert Weekdays()[k] == [Lower(d[0]), Lower(d[1]), Lower(d[2])];
  }

  lemma WeekdaysDiffer(i: nat, k: nat)
    requires i < 7 && k < 7 && Weekdays()[i] == Weekdays()[k]
    ensures i == k
  {
    var a, b := Weekdays()[i], Weekdays()[k];
    assert a[0] == b[0] && a[1] == b[1];
  }

  lemma OneDayNamed(i: nat)
    requires i < 7
    ensures DaysNamed(FirewallDays()[i], 0) == [Weekdays()[i]]
  {
    NamedFrom(i, 0);
  }

  lemma {:induction false} NamedFrom(i: nat, k: nat)
    requires i < 7 && k <= 7
    ensures DaysNamed(FirewallDays()[i], k) == if k <= i then [Weekdays()[i]] else []
    decreases 7 - k
  {
    hide ToLower, Weekdays, FirewallDays;
    if k < 7 {
      NamedFrom(i, k + 1);
      Folded(i);
      Folded(k);
      if Weekdays()[i] == Weekdays()[k] {
        WeekdaysDiffer(i, k);
      }
    }
  }

  lemma {:induction false} DaysReadBack(days: seq<string>)
    requires forall d :: d in days ==> DayIndex(d) >= 0
    ensures DaysOf(DayWords(days, 0)) == days
  {
    hide DayIndex, Weekdays, FirewallDays, DaysNamed;
    if days != [] {
      var words := DayWords(days, 0);
      assert words[1..] == DayWords(days[1..], 0);
      DaysReadBack(days[1..]);
      assert days[0] in days;
      OneDayNamed(DayIndex(days[0]));
    }
  }

  lemma StopIsNotEvening(x: nat)
    requires x < DAY
    ensures HHMM(x) + ":00" != EVENING_END
  {
    var s := HHMM(x) + ":00";
    assert s[6] == '0' && EVENING_END[6] == '5';
  }

  lemma Midnight()
    ensures HHMM(0) == "00:00"
  {
  }

  /** Every clean schedule comes back as it was, within a day, across midnight
      or until midnight. */
  lemma ScheduleRoundTrip(mac: string, local: string, s: Schedule)
    requires Clean(s)
    ensures forall d :: d in s.days ==> DayIndex(d) >= 0
    ensures var (evening, morning) := ScheduleOptions(mac, local, s); ScheduleFrom(evening, morning) == Ok(s)
  {
    CleanDays(s);
    DayWordsAreWords(s.days, 0);
    DaysReadBack(s.days);
    SuffixComesOff(s.from, ":00");
    SuffixComesOff(s.to, ":00");
    StopIsNotEvening(Minutes(s.to));
    CleanIsFixed(s);
    Midnight();
    hide Cleaned, DaysOf, Fields, Join, DayWords, DayIndex, ClockMinutes, HHMM, TrimSuffix, InOrder;
  }

  // ---- What the sections block ----

  /** The second of the day a stored time stands for. */
  function Second(v: string): nat {
    var c := Clock(v);
    if c.Some? && c.value.0 >= 0 && c.value.1 >= 0 && c.value.2 >= 0 then c.value.0 * 3600 + c.value.1 * 60 + c.value.2 else 0
  }

  /** What a device sends from a zone into another; the router itself is no zone. */
  datatype Traffic = Traffic(mac: string, zone: string, to: string)

  predicate IsAbout(section: Section, x: Traffic) {
    && section.mac == x.mac && section.src == x.zone && section.proto == "all"
    && if section.dest == "*" then x.to != "" else section.dest == x.to
  }

  /** The firewall's own test of the time: the day is listed and the second is
      between the two times, both included. */
  predicate AtTime(section: Section, day: nat, second: nat)
    requires day < 7
  {
    FirewallDays()[day] in Fields(section.weekdays) && Second(section.start) <= second <= Second(section.stop)
  }

  predicate Blocks(section: Section, x: Traffic, day: nat, second: nat)
    requires day < 7
  {
    section.target == "REJECT" && IsAbout(section, x) && AtTime(section, day, second)
  }

  predicate Blocked(evening: Section, morning: Option<Section>, x: Traffic, day: nat, second: nat)
    requires day < 7
  {
    Blocks(evening, x, day, second) || (morning.Some? && Blocks(morning.value, x, day, second))
  }

  /** Some window starts `shift` days before this day. */
  predicate StartsBefore(days: seq<string>, shift: nat, day: nat) {
    exists d :: d in days && day == (DayIndex(d) + shift) % 7
  }

  /** The second at which a window ends, counted in by the firewall; a window
      that ends at midnight has none. */
  predicate Closing(s: Schedule, day: nat, second: nat) {
    var f, t := Minutes(s.from), Minutes(s.to);
    t != 0 && second == t * 60 && StartsBefore(s.days, if t > f then 0 else 1, day)
  }

  lemma SecondOf(x: nat)
    requires x < DAY
    ensures Second(HHMM(x) + ":00") == x * 60
  {
    ReadHHMMSS(x, 0);
    assert ":" + TwoDigits(0) == ":00";
    hide Clock;
  }

  lemma FixedSeconds()
    ensures Second(EVENING_END) == 86399 && Second("00:00:00") == 0
  {
    hide Clock, ClockMinutes;
    SecondOf(0);
    Midnight();
    assert "00:00" + ":00" == "00:00:00";
    ReadHHMMSS(1439, 59);
    LastSecond();
  }

  lemma LastSecond()
    ensures HHMM(1439) + (":" + TwoDigits(59)) == EVENING_END
  {
    hide Clock, ClockMinutes;
  }

  lemma DaysDiffer(i: nat, j: nat)
    requires i < 7 && j < 7 && FirewallDays()[i] == FirewallDays()[j]
    ensures i == j
  {
  }

  lemma Listed(days: seq<string>, shift: nat, day: nat)
    requires day < 7 && forall d :: d in days ==> DayIndex(d) >= 0
    ensures FirewallDays()[day] in DayWords(days, shift) <==> StartsBefore(days, shift, day)
  {
    hide DayWords, DayIndex, FirewallDays;
    var words := DayWords(days, shift);
    if FirewallDays()[day] in words {
      var k :| 0 <= k < |words| && words[k] == FirewallDays()[day];
      DaysDiffer((DayIndex(days[k]) + shift) % 7, day);
      assert days[k] in days;
    }
    if StartsBefore(days, shift, day) {
      var d :| d in days && day == (DayIndex(d) + shift) % 7;
      var k :| 0 <= k < |days| && days[k] == d;
      assert words[k] == FirewallDays()[day];
    }
  }

  lemma OffByStarts(days: seq<string>, f: nat, t: nat, day: nat, minute: nat)
    requires day < 7 && forall d :: d in days ==> DayIndex(d) >= 0
    ensures OffOn(days, f, t, day, minute) <==>
      (if t > f then StartsBefore(days, 0, day) && f <= minute < t
       else (StartsBefore(days, 0, day) && minute >= f) || (t != 0 && StartsBefore(days, 1, day) && minute < t))
  {
    hide DayIndex, OffOn;
    OffOnSomeDay(days, f, t, day, minute);
    forall d | d in days ensures (DayIndex(d) + 0) % 7 == DayIndex(d) {
    }
    if OffOn(days, f, t, day, minute) {
      var d :| d in days && WindowAt(DayIndex(d), f, t, day, minute);
      assert day == (DayIndex(d) + 0) % 7 || day == (DayIndex(d) + 1) % 7;
    } else {
      NoStarts(days, f, t, day, minute);
    }
  }

  lemma NoStarts(days: seq<string>, f: nat, t: nat, day: nat, minute: nat)
    requires day < 7 && forall d :: d in days ==> DayIndex(d) >= 0 && !WindowAt(DayIndex(d), f, t, day, minute)
    ensures minute >= f && (t > f ==> minute < t) ==> !StartsBefore(days, 0, day)
    ensures t <= f && t != 0 && minute < t ==> !StartsBefore(days, 1, day)
  {
    hide DayIndex;
    forall d | d in days
      ensures minute >= f && (t > f ==> minute < t) ==> day != (DayIndex(d) + 0) % 7
      ensures t <= f && t != 0 && minute < t ==> day != (DayIndex(d) + 1) % 7
    {
      assert !WindowAt(DayIndex(d), f, t, day, minute);
    }
  }

  lemma BlocksByTimes(evening: Section, morning: Option<Section>, f: nat, t: nat, today: bool, yesterday: bool, day: nat, second: nat)
    requires day < 7 && f < DAY && t < DAY && f != t && second < 86400
    requires FirewallDays()[day] in Fields(evening.weekdays) <==> today
    requires Second(evening.start) == f * 60 && Second(evening.stop) == if t > f then t * 60 else 86399
    requires morning.Some? <==> t < f && t != 0
    requires morning.Some? ==> (FirewallDays()[day] in Fields(morning.value.weekdays) <==> yesterday)
    requires morning.Some? ==> Second(morning.value.start) == 0 && Second(morning.value.stop) == t * 60
    ensures AtTime(evening, day, second) || (morning.Some? && AtTime(morning.value, day, second)) <==>
      (if t > f then today && f <= second / 60 < t
       else (today && second / 60 >= f) || (t != 0 && yesterday && second / 60 < t))
      || (t != 0 && second == t * 60 && if t > f then today else yesterday)
  {
    hide Second, FirewallDays, Fields;
  }

  lemma TimesOfTheSchedule(mac: string, local: string, s: Schedule, day: nat, second: nat)
    requires Clean(s) && day < 7 && second < 86400
    ensures forall d :: d in s.days ==> DayIndex(d) >= 0
    ensures var (evening, morning) := ScheduleOptions(mac, local, s);
      AtTime(evening, day, second) || (morning.Some? && AtTime(morning.value, day, second)) <==>
        OffAt(s, day, second / 60) || Closing(s, day, second)
  {
    CleanDays(s);
    CleanTimes(s);
    var f, t := Minutes(s.from), Minutes(s.to);
    assert s.from == HHMM(f) && s.to == HHMM(t) by {
      hide ClockMinutes, HHMM, DayIndex, InOrder;
    }
    hide Clean, DayIndex, DayWords, Second, ClockMinutes, HHMM, FirewallDays, OffOn, StartsBefore, Fields, Join;
    SecondOf(f);
    SecondOf(t);
    FixedSeconds();
    DayWordsAreWords(s.days, 0);
    DayWordsAreWords(s.days, 1);
    Listed(s.days, 0, day);
    Listed(s.days, 1, day);
    OffByStarts(s.days, f, t, day, second / 60);
    var (evening, morning) := ScheduleOptions(mac, local, s);
    BlocksByTimes(evening, morning, f, t, StartsBefore(s.days, 0, day), StartsBefore(s.days, 1, day), day, second);
  }

  /** The firewall keeps the device, and no other, from every other zone in exactly
      the seconds of the schedule and at the closing second of each window. */
  lemma BlocksTheSchedule(mac: string, local: string, s: Schedule, x: Traffic, day: nat, second: nat)
    requires Clean(s) && day < 7 && second < 86400
    ensures forall d :: d in s.days ==> DayIndex(d) >= 0
    ensures var (evening, morning) := ScheduleOptions(mac, local, s);
      Blocked(evening, morning, x, day, second) <==>
        x.mac == mac && x.zone == local && x.to != "" && (OffAt(s, day, second / 60) || Closing(s, day, second))
  {
    CleanDays(s);
    TimesOfTheSchedule(mac, local, s, day, second);
    hide Clean, DayIndex, DayWords, AtTime, OffAt, Closing, Join;
  }
}
