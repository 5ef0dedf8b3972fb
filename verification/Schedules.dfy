/** When a line is open (types/line.go, getScheduleForDay and getOpenSpans).  Instants are
    milliseconds of local time and all civil days have the same length. */
module Schedules {
  import opened Wrappers
  import opened Measure

  const DAY := 86_400_000

  datatype Schedule = Schedule(holiday: bool, day: int, open: bool, openTime: int, openDuration: int)

  /** The schedules of a line, the holidays of its network (days of the year) and the calendar. */
  datatype Timetable = Timetable(schedules: seq<Schedule>, holidays: seq<int>, yearDay: int -> int)

  function DayOf(t: int): int {
    t / DAY
  }

  /** Day 0 is a Thursday; 0 stands for Sunday. */
  function Weekday(day: int): int {
    (day + 4) % 7
  }

  // ----- The schedule that applies to a day -----

  function FirstSchedule(ss: seq<Schedule>, holiday: bool, day: int): Option<Schedule> {
    if ss == [] then None
    else
      var earlier := FirstSchedule(ss[..|ss| - 1], holiday, day);
      var s := ss[|ss| - 1];
      if earlier.None? && s.holiday == holiday && s.day == day then Some(s) else earlier
  }

  predicate IsFor(s: Schedule, holiday: bool, day: int) {
    s.holiday == holiday && s.day == day
  }

  lemma {:induction false} FirstScheduleIsFirst(ss: seq<Schedule>, holiday: bool, day: int)
    ensures match FirstSchedule(ss, holiday, day)
            case None => forall i :: 0 <= i < |ss| ==> !IsFor(ss[i], holiday, day)
            case Some(s) => exists i :: 0 <= i < |ss| && ss[i] == s && IsFor(ss[i], holiday, day)
                                        && forall j :: 0 <= j < i ==> !IsFor(ss[j], holiday, day)
    decreases |ss|
  {
    if ss != [] {
      var n := |ss| - 1;
      var earlier := FirstSchedule(ss[..n], holiday, day);
      FirstScheduleIsFirst(ss[..n], holiday, day);
      if earlier.Some? {
        var i :| 0 <= i < n && ss[..n][i] == earlier.value && IsFor(ss[..n][i], holiday, day)
                 && forall j :: 0 <= j < i ==> !IsFor(ss[..n][j], holiday, day);
        assert forall j :: 0 <= j < i ==> ss[..n][j] == ss[j];
        assert ss[i] == earlier.value && IsFor(ss[i], holiday, day);
      } else if IsFor(ss[n], holiday, day) {
        assert forall j :: 0 <= j < n ==> ss[..n][j] == ss[j];
        assert ss[n] == FirstSchedule(ss, holiday, day).value;
      }
    }
  }

  /** Binary search between lo and hi, as the sort package does it. */
  function SearchInts(a: seq<int>, x: int, lo: nat, hi: nat): (i: nat)
    requires lo <= hi <= |a|
    ensures lo <= i <= hi
    decreases hi - lo
  {
    if lo == hi then lo
    else
      var mid := (lo + hi) / 2;
      if a[mid] < x then SearchInts(a, x, mid + 1, hi) else SearchInts(a, x, lo, mid)
  }

  predicate IsHoliday(holidays: seq<int>, day: int) {
    var i := SearchInts(holidays, day, 0, |holidays|);
    i < |holidays| && holidays[i] == day
  }

  function ScheduleFor(tt: Timetable, day: int): Option<Schedule> {
    var special := FirstSchedule(tt.schedules, true, tt.yearDay(day));
    var festive := FirstSchedule(tt.schedules, true, 0);
    if special.Some? then special
    else if IsHoliday(tt.holidays, tt.yearDay(day)) && festive.Some? then festive
    else FirstSchedule(tt.schedules, false, Weekday(day))
  }

  lemma {:induction false} SearchFinds(a: seq<int>, x: int, lo: nat, hi: nat)
    requires lo <= hi <= |a|
    requires forall i, j :: 0 <= i < j < |a| ==> a[i] <= a[j]
    requires forall i :: 0 <= i < lo ==> a[i] < x
    requires forall i :: hi <= i < |a| ==> x <= a[i]
    ensures var i := SearchInts(a, x, lo, hi); (i < |a| && a[i] == x) <==> x in a
    decreases hi - lo
  {
    if lo < hi {
      var mid := (lo + hi) / 2;
      if a[mid] < x {
        SearchFinds(a, x, mid + 1, hi);
      } else {
        SearchFinds(a, x, lo, mid);
      }
    }
  }

  /** A sorted list of holidays is searched correctly. */
  lemma HolidaysFound(holidays: seq<int>, day: int)
    requires Sorted(holidays)
    ensures IsHoliday(holidays, day) <==> day in holidays
  {
    SearchFinds(holidays, day, 0, |holidays|);
  }

  // ----- Which schedule that is, in full -----

  ghost predicate Sorted(a: seq<int>) {
    forall i, j :: 0 <= i < j < |a| ==> a[i] <= a[j]
  }

  ghost predicate HasFor(ss: seq<Schedule>, holiday: bool, day: int) {
    exists i :: 0 <= i < |ss| && IsFor(ss[i], holiday, day)
  }

  /** s comes first in the list among the schedules of its kind and day. */
  ghost predicate IsFirstFor(s: Schedule, ss: seq<Schedule>, holiday: bool, day: int) {
    exists i :: 0 <= i < |ss| && ss[i] == s && IsFor(ss[i], holiday, day)
                && forall j :: 0 <= j < i ==> !IsFor(ss[j], holiday, day)
  }

  /** s is the schedule for that day of the year; if there is none, and the day is a holiday, the one
      for holidays; and if there is none of these either, the one for that day of the week. */
  ghost predicate Applies(tt: Timetable, s: Schedule, day: int) {
    var ss, n := tt.schedules, tt.yearDay(day);
    if HasFor(ss, true, n) then IsFirstFor(s, ss, true, n)
    else if n in tt.holidays && HasFor(ss, true, 0) then IsFirstFor(s, ss, true, 0)
    else IsFirstFor(s, ss, false, Weekday(day))
  }

  lemma FirstScheduleIff(ss: seq<Schedule>, holiday: bool, day: int, s: Schedule)
    ensures FirstSchedule(ss, holiday, day) == Some(s) <==> IsFirstFor(s, ss, holiday, day)
    ensures FirstSchedule(ss, holiday, day).Some? <==> HasFor(ss, holiday, day)
  {
    FirstScheduleIsFirst(ss, holiday, day);
    if IsFirstFor(s, ss, holiday, day) && FirstSchedule(ss, holiday, day).Some? {
      var t := FirstSchedule(ss, holiday, day).value;
      var i :| 0 <= i < |ss| && ss[i] == s && IsFor(ss[i], holiday, day)
               && forall j :: 0 <= j < i ==> !IsFor(ss[j], holiday, day);
      var k :| 0 <= k < |ss| && ss[k] == t && IsFor(ss[k], holiday, day)
               && forall j :: 0 <= j < k ==> !IsFor(ss[j], holiday, day);
      assert !(i < k) && !(k < i);
    }
  }

  /** With the holidays in order, as the search needs them, that schedule is the one used, and there is
      none exactly if there is none for the day of the year, none for the day of the week, and none
      for holidays or no holiday. */
  lemma ScheduleIsTheOne(tt: Timetable, day: int)
    requires Sorted(tt.holidays)
    ensures forall s :: ScheduleFor(tt, day) == Some(s) <==> Applies(tt, s, day)
    ensures ScheduleFor(tt, day).None?
            <==> && !HasFor(tt.schedules, true, tt.yearDay(day)) && !HasFor(tt.schedules, false, Weekday(day))
                 && !(tt.yearDay(day) in tt.holidays && HasFor(tt.schedules, true, 0))
  {
    HolidaysFound(tt.holidays, tt.yearDay(day));
    forall s
      ensures ScheduleFor(tt, day) == Some(s) <==> Applies(tt, s, day)
      ensures ScheduleFor(tt, day).None?
              <==> && !HasFor(tt.schedules, true, tt.yearDay(day)) && !HasFor(tt.schedules, false, Weekday(day))
                   && !(tt.yearDay(day) in tt.holidays && HasFor(tt.schedules, true, 0))
    {
      FirstScheduleIff(tt.schedules, true, tt.yearDay(day), s);
      FirstScheduleIff(tt.schedules, true, 0, s);
      FirstScheduleIff(tt.schedules, false, Weekday(day), s);
    }
  }

  /** A calendar of weekdays: they follow each other, Sunday (0) after Saturday (6). */
  ghost predicate IsWeekly(weekday: int -> int) {
    forall day :: 0 <= weekday(day) <= 6 && weekday(day + 1) == if weekday(day) == 6 then 0 else weekday(day) + 1
  }

  lemma WeekdayIsWeekly()
    ensures IsWeekly(Weekday) && Weekday(0) == 4
  {
  }

  predicate AreNeighbours(weekday: int, next: int) {
    0 <= weekday <= 6 && 0 <= next <= 6 && next == if weekday == 6 then 0 else weekday + 1
  }

  lemma NeighboursAt(weekday: int -> int, day: int)
    requires IsWeekly(weekday)
    ensures AreNeighbours(weekday(day), weekday(day + 1)) && AreNeighbours(Weekday(day), Weekday(day + 1))
  {
    WeekdayIsWeekly();
    assert 0 <= weekday(day + 1) <= 6;
  }

  /** There is one such calendar in which day 0 is a Thursday. */
  lemma {:induction false} WeekdayIsUnique(weekday: int -> int, day: int)
    requires IsWeekly(weekday) && weekday(0) == 4
    ensures weekday(day) == Weekday(day)
    decreases if day < 0 then -day else day
  {
    if 0 < day {
      WeekdayIsUnique(weekday, day - 1);
      NeighboursAt(weekday, day - 1);
    } else if day < 0 {
      WeekdayIsUnique(weekday, day + 1);
      NeighboursAt(weekday, day);
    }
  }

  method FindSchedule(ss: seq<Schedule>, holiday: bool, day: int) returns (found: Option<Schedule>)
    ensures found == FirstSchedule(ss, holiday, day)
  {
    for i := 0 to |ss|
      invariant FirstSchedule(ss[..i], holiday, day) == None
    {
      assert ss[..i + 1][..i] == ss[..i];
      if ss[i].holiday == holiday && ss[i].day == day {
        FoundEarly(ss, i + 1, holiday, day);
        return Some(ss[i]);
      }
    }
    assert ss[..|ss|] == ss;
    return None;
  }

  lemma {:induction false} FoundEarly(ss: seq<Schedule>, n: nat, holiday: bool, day: int)
    requires n <= |ss| && FirstSchedule(ss[..n], holiday, day).Some?
    ensures FirstSchedule(ss, holiday, day) == FirstSchedule(ss[..n], holiday, day)
    decreases |ss| - n
  {
    if n < |ss| {
      assert ss[..n + 1][..n] == ss[..n];
      FoundEarly(ss, n + 1, holiday, day);
    } else {
      assert ss[..n] == ss;
    }
  }

  method GetScheduleForDay(tt: Timetable, day: int) returns (schedule: Option<Schedule>)
    ensures schedule == ScheduleFor(tt, day)
    ensures Sorted(tt.holidays) ==> forall s :: schedule == Some(s) <==> Applies(tt, s, day)
  {
    if Sorted(tt.holidays) {
      ScheduleIsTheOne(tt, day);
    }
    schedule := FindSchedule(tt.schedules, true, tt.yearDay(day));
    if schedule.Some? {
      return;
    }
    var i := SearchInts(tt.holidays, tt.yearDay(day), 0, |tt.holidays|);
    if i < |tt.holidays| && tt.holidays[i] == tt.yearDay(day) {
      schedule := FindSchedule(tt.schedules, true, 0);
      if schedule.Some? {
        return;
      }
    }
    schedule := FindSchedule(tt.schedules, false, Weekday(day));
  }

  // ----- Opening intervals -----

  /** The opening interval of each civil day. */
  type Openings = int -> Span

  function OpeningOf(tt: Timetable, day: int): Span {
    match ScheduleFor(tt, day)
    case Some(s) => Span(day * DAY + s.openTime, day * DAY + s.openTime + s.openDuration)
    case None => Span(day * DAY, day * DAY)
  }

  function OpeningsOf(tt: Timetable): Openings {
    day => OpeningOf(tt, day)
  }

  /** Every day has a schedule: without one the source dereferences nil. */
  ghost predicate Resolves(tt: Timetable) {
    forall day :: ScheduleFor(tt, day).Some?
  }

  /** A day's line opens on that day, and closes before it opens on the next day. */
  ghost predicate Proper(o: Openings) {
    forall day :: ProperOn(o, day)
  }

  predicate ProperOn(o: Openings, day: int) {
    day * DAY <= o(day).from < (day + 1) * DAY && o(day).from <= o(day).to <= o(day + 1).from
  }

  /** The schedule opens the line within its own day. */
  predicate Regular(s: Schedule) {
    0 <= s.openTime < DAY && 0 <= s.openDuration
  }

  /** A day of schedule s is over before the line opens on a next day of schedule t. */
  predicate OverBefore(s: Schedule, t: Schedule) {
    s.openTime + s.openDuration <= DAY + t.openTime
  }

  ghost predicate RegularOn(tt: Timetable, day: int)
    requires Resolves(tt)
  {
    Regular(ScheduleFor(tt, day).value) && OverBefore(ScheduleFor(tt, day).value, ScheduleFor(tt, day + 1).value)
  }

  lemma RegularOnIff(tt: Timetable, day: int)
    requires Resolves(tt)
    ensures RegularOn(tt, day) <==> ProperOn(OpeningsOf(tt), day)
  {
    assert ScheduleFor(tt, day).Some? && ScheduleFor(tt, day + 1).Some?;
  }

  /** The opening intervals are proper exactly if every day's schedule is regular and over before
      the next day's. */
  lemma ProperIff(tt: Timetable)
    requires Resolves(tt)
    ensures Proper(OpeningsOf(tt)) <==> forall day :: RegularOn(tt, day)
  {
    forall day
      ensures RegularOn(tt, day) <==> ProperOn(OpeningsOf(tt), day)
    {
      RegularOnIff(tt, day);
    }
  }

  lemma ScheduleIsListed(tt: Timetable, day: int)
    requires HasFor(tt.schedules, false, Weekday(day))
    ensures ScheduleFor(tt, day).Some? && ScheduleFor(tt, day).value in tt.schedules
  {
    FirstScheduleIsFirst(tt.schedules, true, tt.yearDay(day));
    FirstScheduleIsFirst(tt.schedules, true, 0);
    FirstScheduleIsFirst(tt.schedules, false, Weekday(day));
  }

  /** A timetable can be seen to be in order from its list of schedules: one for each day of the
      week, all regular, and each over before any of them opens on the next day. */
  lemma SchedulesAreProper(tt: Timetable)
    requires forall weekday :: 0 <= weekday < 7 ==> HasFor(tt.schedules, false, weekday)
    requires forall s :: s in tt.schedules ==> Regular(s)
    requires forall s, t :: s in tt.schedules && t in tt.schedules ==> OverBefore(s, t)
    ensures Resolves(tt) && Proper(OpeningsOf(tt))
  {
    forall day
      ensures ScheduleFor(tt, day).Some? && ScheduleFor(tt, day).value in tt.schedules
    {
      ScheduleIsListed(tt, day);
    }
    forall day
      ensures RegularOn(tt, day)
    {
      assert ScheduleFor(tt, day + 1).Some?;
    }
    ProperIff(tt);
  }

  predicate Within(s: Span, t: int) {
    s.from <= t < s.to
  }

  ghost predicate OpenAt(o: Openings, t: int) {
    exists day :: Within(o(day), t)
  }

  /** What it is to be open: the schedule that applies to some day has the line open at the instant. */
  lemma OpenIff(tt: Timetable, t: int)
    requires Sorted(tt.holidays) && Resolves(tt)
    ensures OpenAt(OpeningsOf(tt), t)
            <==> exists day, s :: Applies(tt, s, day)
                                  && day * DAY + s.openTime <= t < day * DAY + s.openTime + s.openDuration
  {
    var o := OpeningsOf(tt);
    if OpenAt(o, t) {
      var day :| Within(o(day), t);
      ScheduleIsTheOne(tt, day);
      assert Applies(tt, ScheduleFor(tt, day).value, day);
    }
    forall day, s | Applies(tt, s, day) && day * DAY + s.openTime <= t < day * DAY + s.openTime + s.openDuration
      ensures OpenAt(o, t)
    {
      ScheduleIsTheOne(tt, day);
      assert Within(o(day), t);
    }
  }

  /** The intersection of two spans, if they share an instant. */
  function Intersection(s: Span, r: Span): Option<Span> {
    var from, to := Max(s.from, r.from), Min(s.to, r.to);
    if from < to then Some(Span(from, to)) else None
  }

  function AndMaybe(spans: seq<Span>, more: Option<Span>): seq<Span> {
    if more.Some? then spans + [more.value] else spans
  }

  /** What the days lo, ..., hi - 1 contribute to the window [a, b). */
  function SpansOver(o: Openings, a: int, b: int, lo: int, hi: int): seq<Span>
    decreases hi - lo
  {
    if hi <= lo then []
    else AndMaybe(SpansOver(o, a, b, lo, hi - 1), Intersection(Span(a, b), o(hi - 1)))
  }

  /** The loop starts one day early and steps whole days until one day late. */
  function DaysVisited(a: int, b: int): int {
    if b - a + 2 * DAY <= 0 then 0 else (b - a + 3 * DAY - 1) / DAY
  }

  function OpenSpans(o: Openings, a: int, b: int): seq<Span> {
    SpansOver(o, a, b, DayOf(a) - 1, DayOf(a) - 1 + DaysVisited(a, b))
  }

  lemma DayShift(a: int, k: int)
    ensures DayOf(a - DAY + k * DAY) == DayOf(a) - 1 + k
  {
  }

  lemma MoreDays(a: int, b: int, k: int)
    requires 0 <= k
    ensures a - DAY + k * DAY < b + DAY <==> k < DaysVisited(a, b)
  {
  }

  method OpeningSpan(tt: Timetable, day: int) returns (open: Span)
    requires Resolves(tt)
    ensures open == OpeningsOf(tt)(day)
  {
    var schedule := GetScheduleForDay(tt, day);
    var openTime := day * DAY + schedule.value.openTime;
    open := Span(openTime, openTime + schedule.value.openDuration);
  }

  lemma OneMoreDay(o: Openings, a: int, b: int, lo: int, hi: int)
    requires lo <= hi
    ensures SpansOver(o, a, b, lo, hi + 1) == AndMaybe(SpansOver(o, a, b, lo, hi), Intersection(Span(a, b), o(hi)))
  {
  }

  /** The loop has visited k days and stands at instant ct of the next one. */
  ghost predicate AtDay(a: int, b: int, ct: int, k: int) {
    && ct == a - DAY + k * DAY && DayOf(ct) == DayOf(a) - 1 + k
    && 0 <= k <= DaysVisited(a, b) && (ct < b + DAY <==> k < DaysVisited(a, b))
  }

  lemma FirstDay(a: int, b: int)
    ensures AtDay(a, b, a - DAY, 0)
  {
    DayShift(a, 0);
    MoreDays(a, b, 0);
  }

  lemma NextDay(a: int, b: int, ct: int, k: int)
    requires AtDay(a, b, ct, k) && ct < b + DAY
    ensures AtDay(a, b, ct + DAY, k + 1)
  {
    DayShift(a, k + 1);
    MoreDays(a, b, k + 1);
  }

  /** The loop's body: what one day contributes to the window. */
  method AddDay(tt: Timetable, a: int, b: int, day: int, openSpans: seq<Span>) returns (more: seq<Span>)
    requires Resolves(tt)
    ensures more == AndMaybe(openSpans, Intersection(Span(a, b), OpeningsOf(tt)(day)))
  {
    var openSpan := OpeningSpan(tt, day);
    var intersection := Intersection(Span(a, b), openSpan);
    more := openSpans;
    if intersection.Some? {
      more := more + [intersection.value];
    }
  }

  method GetOpenSpans(tt: Timetable, a: int, b: int) returns (openSpans: seq<Span>)
    requires Resolves(tt)
    ensures openSpans == OpenSpans(OpeningsOf(tt), a, b)
  {
    openSpans := [];
    var ct, et := a - DAY, b + DAY;
    ghost var k, day, o := 0, DayOf(a) - 1, OpeningsOf(tt);
    FirstDay(a, b);
    while ct < et
      invariant AtDay(a, b, ct, k) && day == DayOf(ct)
      invariant openSpans == SpansOver(o, a, b, DayOf(a) - 1, day)
    {
      NextDay(a, b, ct, k);
      OneMoreDay(o, a, b, DayOf(a) - 1, day);
      openSpans := AddDay(tt, a, b, DayOf(ct), openSpans);
      ct, k, day := ct + DAY, k + 1, day + 1;
    }
  }

  ghost predicate InSpans(spans: seq<Span>, t: int) {
    exists i :: 0 <= i < |spans| && Within(spans[i], t)
  }

  ghost predicate Ordered(spans: seq<Span>) {
    && (forall i :: 0 <= i < |spans| ==> spans[i].from < spans[i].to)
    && (forall i, j :: 0 <= i < j < |spans| ==> spans[i].to <= spans[j].from)
  }

  ghost predicate OpenOnDays(o: Openings, lo: int, hi: int, t: int) {
    exists day :: lo <= day < hi && Within(o(day), t)
  }

  lemma {:induction false} SpansOverDays(o: Openings, a: int, b: int, lo: int, hi: int, t: int)
    ensures InSpans(SpansOver(o, a, b, lo, hi), t) <==> a <= t < b && OpenOnDays(o, lo, hi, t)
    decreases hi - lo
  {
    if lo < hi {
      SpansOverDays(o, a, b, lo, hi - 1, t);
      assert OpenOnDays(o, lo, hi, t) <==> OpenOnDays(o, lo, hi - 1, t) || Within(o(hi - 1), t);
      var before, more := SpansOver(o, a, b, lo, hi - 1), Intersection(Span(a, b), o(hi - 1));
      OneMoreSpan(before, more, t);
    }
  }

  lemma OneMoreSpan(spans: seq<Span>, more: Option<Span>, t: int)
    ensures InSpans(AndMaybe(spans, more), t) <==> InSpans(spans, t) || (more.Some? && Within(more.value, t))
  {
    var longer := AndMaybe(spans, more);
    assert forall i :: 0 <= i < |spans| ==> longer[i] == spans[i];
    if more.Some? {
      assert longer[|spans|] == more.value;
    }
  }

  lemma {:induction false} SpansOverOrdered(o: Openings, a: int, b: int, lo: int, hi: int)
    requires Proper(o)
    ensures var spans := SpansOver(o, a, b, lo, hi);
            Ordered(spans) && forall i :: 0 <= i < |spans| ==> spans[i].to <= o(hi).from
    decreases hi - lo
  {
    if lo < hi {
      SpansOverOrdered(o, a, b, lo, hi - 1);
      assert ProperOn(o, hi - 1);
    }
  }

  /** The loop visits every day whose opening can meet the window. */
  lemma NoDayIsMissed(o: Openings, a: int, b: int, day: int, t: int)
    requires Proper(o) && a <= t < b && Within(o(day), t)
    ensures DayOf(a) - 1 <= day < DayOf(a) - 1 + DaysVisited(a, b)
  {
    assert ProperOn(o, day) && ProperOn(o, day + 1);
    MoreDays(a, b, day - DayOf(a) + 1);
  }

  /** getOpenSpans returns, in order and without repetition, exactly the open instants of the window. */
  lemma OpenSpansAreExact(o: Openings, a: int, b: int)
    requires Proper(o)
    ensures Ordered(OpenSpans(o, a, b))
    ensures forall t :: InSpans(OpenSpans(o, a, b), t) <==> a <= t < b && OpenAt(o, t)
  {
    var lo, hi := DayOf(a) - 1, DayOf(a) - 1 + DaysVisited(a, b);
    SpansOverOrdered(o, a, b, lo, hi);
    forall t
      ensures InSpans(OpenSpans(o, a, b), t) <==> a <= t < b && OpenAt(o, t)
    {
      SpansOverDays(o, a, b, lo, hi, t);
      if a <= t < b && OpenAt(o, t) {
        var day :| Within(o(day), t);
        NoDayIsMissed(o, a, b, day, t);
      }
    }
  }
}
