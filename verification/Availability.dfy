/** How long a line was closed, how long it was disturbed, and the availability that
    follows (types/line.go). */
module Availability {
  import opened Wrappers
  import opened Measure
  import opened Schedules
  import opened Lines

  // ----- Closed time -----

  ghost function SpanTime(spans: seq<Span>): int {
    if spans == [] then 0 else SpanTime(spans[..|spans| - 1]) + spans[|spans| - 1].Duration()
  }

  ghost function OpenTime(o: Openings, a: int, b: int): nat {
    Count(a, b, t => OpenAt(o, t))
  }

  /** The time the spans share with [s, e). */
  ghost function SharedTime(spans: seq<Span>, s: int, e: int): nat {
    if spans == [] then 0
    else
      var r := spans[|spans| - 1];
      SharedTime(spans[..|spans| - 1], s, e) + Overlap(s, e, r.from, r.to)
  }

  lemma {:induction false} SharedTimeCounts(spans: seq<Span>, s: int, e: int)
    requires Ordered(spans)
    ensures SharedTime(spans, s, e) == Count(s, e, t => InSpans(spans, t))
    decreases |spans|
  {
    if spans == [] {
      CountNone(s, e, t => InSpans(spans, t));
    } else {
      var front, r := spans[..|spans| - 1], spans[|spans| - 1];
      SharedTimeCounts(front, s, e);
      CountInterval(s, e, r.from, r.to, t => Within(r, t));
      forall t
        ensures InSpans(spans, t) <==> InSpans(front, t) || Within(r, t)
        ensures !(InSpans(front, t) && Within(r, t))
      {
        assert spans == AndMaybe(front, Some(r));
        OneMoreSpan(front, Some(r), t);
      }
      CountUnion(s, e, t => InSpans(front, t), t => Within(r, t), t => InSpans(spans, t));
    }
  }

  /** The open spans of a window measure open instants. */
  lemma OpenSpansMeasure(o: Openings, a: int, b: int, s: int, e: int)
    requires Proper(o) && a <= s && e <= b
    ensures SharedTime(OpenSpans(o, a, b), s, e) == OpenTime(o, s, e)
  {
    var spans := OpenSpans(o, a, b);
    OpenSpansAreExact(o, a, b);
    SharedTimeCounts(spans, s, e);
    CountSame(s, e, t => InSpans(spans, t), t => OpenAt(o, t));
  }

  lemma {:induction false} SpanTimeIsShared(spans: seq<Span>, a: int, b: int)
    requires forall i :: 0 <= i < |spans| ==> a <= spans[i].from < spans[i].to <= b
    ensures SpanTime(spans) == SharedTime(spans, a, b)
    decreases |spans|
  {
    if spans != [] {
      SpanTimeIsShared(spans[..|spans| - 1], a, b);
    }
  }

  /** The whole window is as long as its open instants and its closed instants together. */
  lemma ClosedTimeIsExact(o: Openings, a: int, b: int)
    requires Proper(o) && a <= b
    ensures b - a - SpanTime(OpenSpans(o, a, b)) == Count(a, b, t => !OpenAt(o, t))
    ensures SpanTime(OpenSpans(o, a, b)) == OpenTime(o, a, b)
  {
    var spans := OpenSpans(o, a, b);
    OpenSpansAreExact(o, a, b);
    forall i | 0 <= i < |spans|
      ensures a <= spans[i].from < spans[i].to <= b
    {
      assert Within(spans[i], spans[i].from) && Within(spans[i], spans[i].to - 1);
      assert InSpans(spans, spans[i].from) && InSpans(spans, spans[i].to - 1);
    }
    SpanTimeIsShared(spans, a, b);
    OpenSpansMeasure(o, a, b, a, b);
    CountUnion(a, b, t => OpenAt(o, t), t => !OpenAt(o, t), t => true);
    CountAll(a, b, t => true);
  }

  method GetClosedDuration(tt: Timetable, a: int, b: int) returns (closed: int)
    requires Resolves(tt)
    ensures closed == b - a - SpanTime(OpenSpans(OpeningsOf(tt), a, b))
    ensures Proper(OpeningsOf(tt)) && a <= b ==> closed == Count(a, b, t => !OpenAt(OpeningsOf(tt), t))
  {
    var openSpans := GetOpenSpans(tt, a, b);
    var openDuration := 0;
    for i := 0 to |openSpans|
      invariant openDuration == SpanTime(openSpans[..i])
    {
      assert openSpans[..i + 1][..i] == openSpans[..i];
      openDuration := openDuration + openSpans[i].Duration();
    }
    assert openSpans[..|openSpans|] == openSpans;
    closed := b - a - openDuration;
    if Proper(OpeningsOf(tt)) && a <= b {
      ClosedTimeIsExact(OpeningsOf(tt), a, b);
    }
  }

  ghost predicate ClosedWithin(o: Openings, lo: int, hi: int) {
    exists t :: lo <= t < hi && !OpenAt(o, t)
  }

  lemma {:induction false} ClosedWithinIff(o: Openings, lo: int, hi: int)
    ensures Count(lo, hi, t => !OpenAt(o, t)) > 0 <==> ClosedWithin(o, lo, hi)
    decreases hi - lo
  {
    if lo < hi {
      ClosedWithinIff(o, lo, hi - 1);
      assert ClosedWithin(o, lo, hi) <==> ClosedWithin(o, lo, hi - 1) || !OpenAt(o, hi - 1);
    }
  }

  /** The clock is read for either end of a window of at least one instant. */
  method CurrentlyClosed(tt: Timetable, now: int, later: int) returns (closed: bool)
    requires Resolves(tt) && now <= later
    ensures Proper(OpeningsOf(tt)) ==> closed == ClosedWithin(OpeningsOf(tt), now, later + 1)
  {
    var closedDuration := GetClosedDuration(tt, now, later + 1);
    closed := closedDuration > 0;
    ClosedWithinIff(OpeningsOf(tt), now, later + 1);
  }

  // ----- Disturbed time -----

  function StartOf(d: Disturbance, officialOnly: bool): int {
    if officialOnly then d.oStart else d.uStart
  }

  /** An end that is missing counts as the present. */
  function EndOf(d: Disturbance, officialOnly: bool, now: int): int {
    if officialOnly then if d.oEnded then d.oEnd else now
    else if d.uEnded then d.uEnd else now
  }

  /** The WHERE clause of DisturbancesBetween. */
  predicate Meets(d: Disturbance, a: int, b: int, officialOnly: bool, now: int) {
    (officialOnly ==> d.official) && StartOf(d, officialOnly) <= b && EndOf(d, officialOnly, now) >= a
  }

  function DisturbancesBetween(ds: seq<Disturbance>, a: int, b: int, officialOnly: bool, now: int): seq<Disturbance> {
    if ds == [] then []
    else
      var d := ds[|ds| - 1];
      DisturbancesBetween(ds[..|ds| - 1], a, b, officialOnly, now)
      + if Meets(d, a, b, officialOnly, now) then [d] else []
  }

  /** A disturbance is selected if it is one of those asked for and its interval, both ends included, has an
      instant in common with the window. */
  ghost predicate IsSelected(d: Disturbance, a: int, b: int, officialOnly: bool, now: int) {
    if officialOnly then d.official && d.oStart <= b && a <= (if d.oEnded then d.oEnd else now)
    else d.uStart <= b && a <= if d.uEnded then d.uEnd else now
  }

  /** The disturbances counted are those, each as often as it is on record. */
  lemma {:induction false} SelectedAreCounted(ds: seq<Disturbance>, a: int, b: int, officialOnly: bool, now: int,
                                              d: Disturbance)
    ensures multiset(DisturbancesBetween(ds, a, b, officialOnly, now))[d]
         == if IsSelected(d, a, b, officialOnly, now) then multiset(ds)[d] else 0
    decreases |ds|
  {
    if ds != [] {
      var front, last := ds[..|ds| - 1], ds[|ds| - 1];
      SelectedAreCounted(front, a, b, officialOnly, now, d);
      assert ds == front + [last];
    }
  }

  ghost function DownTimeOf(d: Disturbance, spans: seq<Span>, a: int, b: int, officialOnly: bool, now: int): nat {
    if officialOnly && !d.official then 0
    else SharedTime(spans, Max(a, StartOf(d, officialOnly)), Min(b, EndOf(d, officialOnly, now)))
  }

  ghost function DownTime(ds: seq<Disturbance>, spans: seq<Span>, a: int, b: int, officialOnly: bool, now: int): nat {
    if ds == [] then 0
    else DownTime(ds[..|ds| - 1], spans, a, b, officialOnly, now)
         + DownTimeOf(ds[|ds| - 1], spans, a, b, officialOnly, now)
  }

  /** The total the source computes over a window. */
  ghost function TotalDownTime(ds: seq<Disturbance>, o: Openings, a: int, b: int, officialOnly: bool, now: int): nat {
    DownTime(DisturbancesBetween(ds, a, b, officialOnly, now), OpenSpans(o, a, b), a, b, officialOnly, now)
  }

  /** The inner loop of DisturbanceDuration: one disturbance against every open span. */
  method SharedDuration(openSpans: seq<Span>, s: int, e: int) returns (downTime: int)
    ensures downTime == SharedTime(openSpans, s, e)
  {
    downTime := 0;
    for j := 0 to |openSpans|
      invariant downTime == SharedTime(openSpans[..j], s, e)
    {
      assert openSpans[..j + 1][..j] == openSpans[..j];
      var intersection := Intersection(Span(s, e), openSpans[j]);
      if intersection.Some? {
        downTime := downTime + intersection.value.Duration();
      }
    }
    assert openSpans[..|openSpans|] == openSpans;
  }

  method DisturbanceDuration(ds: seq<Disturbance>, tt: Timetable, a: int, b: int, officialOnly: bool, now: int)
    returns (total: int, count: nat)
    requires Resolves(tt)
    ensures total == TotalDownTime(ds, OpeningsOf(tt), a, b, officialOnly, now)
    ensures count == |DisturbancesBetween(ds, a, b, officialOnly, now)|
  {
    var disturbances := DisturbancesBetween(ds, a, b, officialOnly, now);
    var openSpans := GetOpenSpans(tt, a, b);
    total, count := 0, |disturbances|;
    for i := 0 to |disturbances|
      invariant total == DownTime(disturbances[..i], openSpans, a, b, officialOnly, now)
    {
      assert disturbances[..i + 1][..i] == disturbances[..i];
      var d := disturbances[i];
      var thisStart, thisEnd, ended;
      if officialOnly && d.official {
        thisStart, thisEnd, ended := d.oStart, d.oEnd, d.oEnded;
      } else if !officialOnly {
        thisStart, thisEnd, ended := d.uStart, d.uEnd, d.uEnded;
      } else {
        continue;
      }
      if !ended {
        thisEnd := now;
      }
      if thisEnd > b {
        thisEnd := b;
      }
      if thisStart < a {
        thisStart := a;
      }
      var downTime := SharedDuration(openSpans, thisStart, thisEnd);
      total := total + downTime;
    }
    assert disturbances[..|disturbances|] == disturbances;
  }

  // ----- What the total means -----

  predicate DownFor(d: Disturbance, officialOnly: bool, now: int, t: int) {
    (officialOnly ==> d.official) && StartOf(d, officialOnly) <= t < EndOf(d, officialOnly, now)
  }

  ghost predicate DownAt(ds: seq<Disturbance>, officialOnly: bool, now: int, t: int) {
    exists i :: 0 <= i < |ds| && DownFor(ds[i], officialOnly, now, t)
  }

  ghost function OpenDownTimeOf(d: Disturbance, o: Openings, a: int, b: int, officialOnly: bool, now: int): nat {
    Count(a, b, t => DownFor(d, officialOnly, now, t) && OpenAt(o, t))
  }

  ghost function OpenDownTime(ds: seq<Disturbance>, o: Openings, a: int, b: int, officialOnly: bool, now: int): nat {
    Count(a, b, t => DownAt(ds, officialOnly, now, t) && OpenAt(o, t))
  }

  ghost function SumOfOpenDownTimes(ds: seq<Disturbance>, o: Openings, a: int, b: int, officialOnly: bool,
                                    now: int): nat {
    if ds == [] then 0
    else SumOfOpenDownTimes(ds[..|ds| - 1], o, a, b, officialOnly, now)
         + OpenDownTimeOf(ds[|ds| - 1], o, a, b, officialOnly, now)
  }

  lemma DownTimeOfCounts(d: Disturbance, o: Openings, a: int, b: int, officialOnly: bool, now: int)
    requires Proper(o)
    ensures DownTimeOf(d, OpenSpans(o, a, b), a, b, officialOnly, now) == OpenDownTimeOf(d, o, a, b, officialOnly, now)
    ensures !Meets(d, a, b, officialOnly, now) ==> OpenDownTimeOf(d, o, a, b, officialOnly, now) == 0
  {
    var p := t => DownFor(d, officialOnly, now, t) && OpenAt(o, t);
    var s, e := StartOf(d, officialOnly), EndOf(d, officialOnly, now);
    if officialOnly && !d.official {
      CountNone(a, b, p);
    } else {
      CountClip(a, b, s, e, t => OpenAt(o, t), p);
      OpenSpansMeasure(o, a, b, Max(a, s), Min(b, e));
      if !Meets(d, a, b, officialOnly, now) {
        CountNone(a, b, p);
      }
    }
  }

  /** The query leaves out nothing that would have counted. */
  lemma {:induction false} TotalIsSum(ds: seq<Disturbance>, o: Openings, a: int, b: int, officialOnly: bool, now: int)
    requires Proper(o)
    ensures TotalDownTime(ds, o, a, b, officialOnly, now) == SumOfOpenDownTimes(ds, o, a, b, officialOnly, now)
    decreases |ds|
  {
    if ds != [] {
      var front, d := ds[..|ds| - 1], ds[|ds| - 1];
      TotalIsSum(front, o, a, b, officialOnly, now);
      DownTimeOfCounts(d, o, a, b, officialOnly, now);
      var between := DisturbancesBetween(front, a, b, officialOnly, now);
      assert (between + [d])[..|between|] == between && between + [] == between;
    }
  }

  /** Over well-formed disturbances nothing counts twice. */
  lemma {:induction false} SumIsCount(ds: seq<Disturbance>, o: Openings, a: int, b: int, officialOnly: bool, now: int)
    requires WellFormed(ds)
    ensures SumOfOpenDownTimes(ds, o, a, b, officialOnly, now) == OpenDownTime(ds, o, a, b, officialOnly, now)
    decreases |ds|
  {
    var p := t => DownAt(ds, officialOnly, now, t) && OpenAt(o, t);
    if ds == [] {
      CountNone(a, b, p);
    } else {
      var front, d := ds[..|ds| - 1], ds[|ds| - 1];
      SumIsCount(front, o, a, b, officialOnly, now);
      forall t
        ensures DownAt(ds, officialOnly, now, t)
                <==> DownAt(front, officialOnly, now, t) || DownFor(d, officialOnly, now, t)
        ensures !(DownAt(front, officialOnly, now, t) && DownFor(d, officialOnly, now, t))
      {
        NewestIsApart(ds, officialOnly, now, t);
      }
      CountUnion(a, b, t => DownAt(front, officialOnly, now, t) && OpenAt(o, t),
                 t => DownFor(d, officialOnly, now, t) && OpenAt(o, t), p);
    }
  }

  lemma NewestIsApart(ds: seq<Disturbance>, officialOnly: bool, now: int, t: int)
    requires WellFormed(ds) && ds != []
    ensures var front, d := ds[..|ds| - 1], ds[|ds| - 1];
            && (DownAt(ds, officialOnly, now, t)
                <==> DownAt(front, officialOnly, now, t) || DownFor(d, officialOnly, now, t))
            && !(DownAt(front, officialOnly, now, t) && DownFor(d, officialOnly, now, t))
  {
    var front := ds[..|ds| - 1];
    assert forall i :: 0 <= i < |front| ==> front[i] == ds[i];
    if DownAt(front, officialOnly, now, t) {
      var i :| 0 <= i < |front| && DownFor(front[i], officialOnly, now, t);
      assert DownFor(ds[i], officialOnly, now, t) && WellFormedDisturbance(ds[i]);
      assert ds[i].uEnd < ds[|ds| - 1].uStart && WellFormedDisturbance(ds[|ds| - 1]);
    }
  }

  /** The total down time is the number of instants of the window that were open and disturbed. */
  lemma DownTimeIsExact(ds: seq<Disturbance>, o: Openings, a: int, b: int, officialOnly: bool, now: int)
    requires Proper(o) && WellFormed(ds)
    ensures TotalDownTime(ds, o, a, b, officialOnly, now) == OpenDownTime(ds, o, a, b, officialOnly, now)
  {
    TotalIsSum(ds, o, a, b, officialOnly, now);
    SumIsCount(ds, o, a, b, officialOnly, now);
  }

  /** Up to the present, the instants counted are those at which the line is disturbed. */
  lemma {:induction false} DownUntilNow(ds: seq<Disturbance>, now: int, t: int)
    requires WellFormed(ds) && AllHappenedBy(ds, now)
    ensures DownAt(ds, false, now, t) <==> t < now && DisturbedAt(ds, t)
    ensures DownAt(ds, true, now, t) <==> t < now && OfficiallyDisturbedAt(ds, t)
  {
    forall i | 0 <= i < |ds|
      ensures DownFor(ds[i], false, now, t) <==> t < now && Going(ds[i], t)
      ensures DownFor(ds[i], true, now, t) <==> t < now && OfficiallyGoing(ds[i], t)
    {
      assert HappenedBy(ds[i], now) && WellFormedDisturbance(ds[i]);
    }
  }

  /** Down time never exceeds open time, nor official down time all down time. */
  lemma DownTimeIsBounded(ds: seq<Disturbance>, o: Openings, a: int, b: int, now: int)
    requires Proper(o) && WellFormed(ds)
    ensures TotalDownTime(ds, o, a, b, true, now) <= TotalDownTime(ds, o, a, b, false, now) <= OpenTime(o, a, b)
  {
    DownTimeIsExact(ds, o, a, b, true, now);
    DownTimeIsExact(ds, o, a, b, false, now);
    forall t | DownAt(ds, true, now, t)
      ensures DownAt(ds, false, now, t)
    {
      var i :| 0 <= i < |ds| && DownFor(ds[i], true, now, t);
      assert WellFormedDisturbance(ds[i]) && DownFor(ds[i], false, now, t);
    }
    CountMonotone(a, b, t => DownAt(ds, true, now, t) && OpenAt(o, t), t => DownAt(ds, false, now, t) && OpenAt(o, t));
    CountMonotone(a, b, t => DownAt(ds, false, now, t) && OpenAt(o, t), t => OpenAt(o, t));
  }

  /** Adjacent windows add up, whatever the disturbances. */
  lemma {:induction false} DownTimeAdds(ds: seq<Disturbance>, o: Openings, a: int, b: int, c: int,
                                        officialOnly: bool, now: int)
    requires Proper(o) && a <= b <= c
    ensures TotalDownTime(ds, o, a, c, officialOnly, now)
         == TotalDownTime(ds, o, a, b, officialOnly, now) + TotalDownTime(ds, o, b, c, officialOnly, now)
    decreases |ds|
  {
    TotalIsSum(ds, o, a, b, officialOnly, now);
    TotalIsSum(ds, o, b, c, officialOnly, now);
    TotalIsSum(ds, o, a, c, officialOnly, now);
    if ds != [] {
      var front, d := ds[..|ds| - 1], ds[|ds| - 1];
      DownTimeAdds(front, o, a, b, c, officialOnly, now);
      TotalIsSum(front, o, a, b, officialOnly, now);
      TotalIsSum(front, o, b, c, officialOnly, now);
      TotalIsSum(front, o, a, c, officialOnly, now);
      CountSplit(a, b, c, t => DownFor(d, officialOnly, now, t) && OpenAt(o, t));
    }
  }

  lemma ClosedTimeAdds(o: Openings, a: int, b: int, c: int)
    requires Proper(o) && a <= b <= c
    ensures c - a - SpanTime(OpenSpans(o, a, c))
         == (b - a - SpanTime(OpenSpans(o, a, b))) + (c - b - SpanTime(OpenSpans(o, b, c)))
  {
    ClosedTimeIsExact(o, a, b);
    ClosedTimeIsExact(o, b, c);
    ClosedTimeIsExact(o, a, c);
    CountSplit(a, b, c, t => OpenAt(o, t));
  }

  // ----- Availability -----

  function Clamped(x: real): real {
    if x < 0.0 then 0.0 else x
  }

  /** max(0, 1 - down/total); zero over zero is not a number and stays one. */
  function Ratio(down: nat, total: int): Option<real> {
    if total != 0 then Some(Clamped(1.0 - down as real / total as real))
    else if down == 0 then None
    else Some(0.0)
  }

  method Availability(ds: seq<Disturbance>, tt: Timetable, a: int, b: int, officialOnly: bool, now: int)
    returns (availability: Option<real>, avgDuration: int)
    requires Resolves(tt)
    ensures var o := OpeningsOf(tt);
            availability == Ratio(TotalDownTime(ds, o, a, b, officialOnly, now), SpanTime(OpenSpans(o, a, b)))
    ensures var n := |DisturbancesBetween(ds, a, b, officialOnly, now)|;
            avgDuration == if n == 0 then 0 else TotalDownTime(ds, OpeningsOf(tt), a, b, officialOnly, now) / n
  {
    var downTime, numDisturbances := DisturbanceDuration(ds, tt, a, b, officialOnly, now);
    avgDuration := 0;
    if numDisturbances > 0 {
      avgDuration := downTime / numDisturbances;
    }
    var closedDuration := GetClosedDuration(tt, a, b);
    var totalTime := b - a - closedDuration;
    availability := Ratio(downTime, totalTime);
  }

  /** The availability of well-formed disturbances. */
  ghost function AvailabilityOf(ds: seq<Disturbance>, o: Openings, a: int, b: int, officialOnly: bool,
                                now: int): Option<real> {
    Ratio(TotalDownTime(ds, o, a, b, officialOnly, now), SpanTime(OpenSpans(o, a, b)))
  }

  lemma ScalingKeepsOrder(p: real, q: real, z: real)
    requires 0.0 < z
    ensures p > q ==> p * z > q * z
  {
  }

  lemma SmallerShare(x: real, y: real, z: real)
    requires 0.0 < z && x <= y
    ensures x / z <= y / z
  {
    assert x / z * z == x && y / z * z == y;
    ScalingKeepsOrder(x / z, y / z, z);
  }

  lemma ShareOfAll(z: real)
    requires 0.0 < z
    ensures z / z == 1.0
  {
  }

  lemma RatioIsShare(down: nat, total: nat)
    requires down <= total && 0 < total
    ensures Ratio(down, total) == Some(1.0 - down as real / total as real)
    ensures 0.0 <= down as real / total as real <= 1.0
  {
    SmallerShare(0.0, down as real, total as real);
    SmallerShare(down as real, total as real, total as real);
    ShareOfAll(total as real);
  }

  /** Without any open time, availability is zero over zero: not a number. */
  lemma WithoutOpenTime(ds: seq<Disturbance>, o: Openings, a: int, b: int, officialOnly: bool, now: int)
    requires Proper(o) && WellFormed(ds) && a <= b && OpenTime(o, a, b) == 0
    ensures AvailabilityOf(ds, o, a, b, officialOnly, now) == None
  {
    ClosedTimeIsExact(o, a, b);
    DownTimeIsBounded(ds, o, a, b, now);
  }

  /** With any open time at all, availability is the open and undisturbed share of it: it lies
      in [0, 1] without the clamp, and counting only official disturbances never lowers it. */
  lemma AvailabilityIsAShare(ds: seq<Disturbance>, o: Openings, a: int, b: int, now: int)
    requires Proper(o) && WellFormed(ds) && a <= b && OpenTime(o, a, b) > 0
    ensures var open := OpenTime(o, a, b) as real;
            var all := OpenDownTime(ds, o, a, b, false, now) as real;
            var official := OpenDownTime(ds, o, a, b, true, now) as real;
            && AvailabilityOf(ds, o, a, b, false, now) == Some(1.0 - all / open)
            && AvailabilityOf(ds, o, a, b, true, now) == Some(1.0 - official / open)
            && 0.0 <= official / open && official / open <= all / open && all / open <= 1.0
  {
    ClosedTimeIsExact(o, a, b);
    DownTimeIsBounded(ds, o, a, b, now);
    DownTimeIsExact(ds, o, a, b, true, now);
    DownTimeIsExact(ds, o, a, b, false, now);
    var all, official := OpenDownTime(ds, o, a, b, false, now), OpenDownTime(ds, o, a, b, true, now);
    var open := OpenTime(o, a, b);
    RatioIsShare(all, open);
    RatioIsShare(official, open);
    SmallerShare(official as real, all as real, open as real);
  }
}
