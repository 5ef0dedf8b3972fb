/** What NextTrainETA answers, and when it has an answer at all (compute/vehiclehandler.go). */
module Arrivals {
  import opened Wrappers
  import opened Identifiers
  import opened Tracks
  import opened Vehicles

  // ----- The line -----

  predicate EndsAt(ss: seq<StationId>, direction: StationId)
    requires ss != []
  {
    ss[0] == direction || ss[|ss| - 1] == direction
  }

  /** Line k is the last one with the direction as an end, and that is its lower end or else its upper one. */
  ghost predicate IsChosen(lines: seq<seq<StationId>>, direction: StationId, k: nat, up: bool)
    requires forall i :: 0 <= i < |lines| ==> lines[i] != []
  {
    && k < |lines| && EndsAt(lines[k], direction) && (up <==> lines[k][0] != direction)
    && forall i :: k < i < |lines| ==> !EndsAt(lines[i], direction)
  }

  lemma {:induction false} ChooseLineIff(lines: seq<seq<StationId>>, direction: StationId, k: nat, up: bool)
    requires forall i :: 0 <= i < |lines| ==> lines[i] != []
    ensures ChooseLine(lines, direction) == Some((k, up)) <==> IsChosen(lines, direction, k, up)
    ensures ChooseLine(lines, direction).None? <==> forall i :: 0 <= i < |lines| ==> !EndsAt(lines[i], direction)
    decreases |lines|
  {
    if lines != [] {
      var n := |lines| - 1;
      ChooseLineIff(lines[..n], direction, k, up);
      assert forall i :: 0 <= i < n ==> lines[..n][i] == lines[i];
      if !EndsAt(lines[n], direction) {
        assert IsChosen(lines, direction, k, up) <==> IsChosen(lines[..n], direction, k, up);
      }
    }
  }

  // ----- The way -----

  /** At either end of the line it takes a train two minutes to turn. */
  lemma TurnsTakeTwoMinutes(ss: seq<StationId>, dur: Durations)
    requires ss != []
    ensures TrackTime(ss, dur, Place(|ss| - 1, true), Place(|ss| - 1, false)) == 120
    ensures TrackTime(ss, dur, Place(0, false), Place(0, true)) == 120
  {
  }

  /** A way that passes a place takes as long as both its parts. */
  lemma {:induction false} WaysAddUp(ss: seq<StationId>, dur: Durations, p: Place, via: Place, q: Place)
    requires On(|ss|, p) && On(|ss|, via) && On(|ss|, q)
    requires Steps(|ss|, p, via) <= Steps(|ss|, p, q)
    ensures TrackTime(ss, dur, p, q) == TrackTime(ss, dur, p, via) + TrackTime(ss, dur, via, q)
    decreases Steps(|ss|, p, via)
  {
    if p != via {
      WaysAddUp(ss, dur, Ahead(|ss|, p), via, q);
    }
  }

  /** From a station to the next one on the same track it takes the time of the connection. */
  lemma HopsTakeTheirTime(ss: seq<StationId>, dur: Durations, i: nat)
    requires i + 1 < |ss|
    ensures TrackTime(ss, dur, Place(i, true), Place(i + 1, true)) == dur(ss[i], ss[i + 1])
    ensures TrackTime(ss, dur, Place(i + 1, false), Place(i, false)) == dur(ss[i + 1], ss[i])
  {
  }

  // ----- The train -----

  /** When a passenger was last on a train at station i, going up or down. */
  function ReportOf(q: Query, i: nat, up: bool): Option<int>
    requires i < |q.stations|
  {
    var key := (q.stations[i], if up then q.stations[|q.stations| - 1] else q.stations[0]);
    if key in q.presence then Some(q.presence[key]) else None
  }

  /** The time it takes a train reported at station i to get to the user, less the age of the report. */
  function TimeUntil(q: Query, i: nat, up: bool): int
    requires ValidQuery(q) && i < |q.stations| && ReportOf(q, i, up).Some?
  {
    TrackTime(q.stations, q.durations, Place(i, up), Place(q.user, q.movingUp))
    - RoundSeconds(q.now - ReportOf(q, i, up).value)
  }

  /** A train was reported there that has yet to come to the user, or came no more than 30 s ago. */
  ghost predicate IsExpected(q: Query, i: nat, up: bool)
    requires ValidQuery(q)
  {
    && i < |q.stations| && ReportOf(q, i, up).Some?
    && (up == q.movingUp ==> if up then i <= q.user else q.user <= i)
    && -30 <= TimeUntil(q, i, up)
  }

  /** Times are rounded to the nearest second, and halves away from zero. */
  lemma RoundSecondsIsNearest(ms: int, s: int)
    ensures s == RoundSeconds(ms)
            <==> -500 <= 1000 * s - ms <= 500 && (1000 * s - ms == -500 ==> ms < 0) && (1000 * s - ms == 500 ==> 0 < ms)
  {
  }

  lemma LookIff(q: Query, i: nat, up: bool)
    requires ValidQuery(q) && i < |q.stations|
    ensures ReportOf(q, i, up).None? ==> Look(q, i, up).None?
    ensures ReportOf(q, i, up).Some? ==>
              Look(q, i, up) == Some(Sighting(i, RoundSeconds(q.now - ReportOf(q, i, up).value), TimeUntil(q, i, up)))
  {
  }

  lemma {:induction false} SeenIff(q: Query, order: seq<nat>, up: bool, s: Sighting)
    requires ValidQuery(q)
    ensures s in Seen(q, order, up) <==> s.index in order && Look(q, s.index, up) == Some(s)
    decreases |order|
  {
    if order != [] {
      SeenIff(q, order[1..], up, s);
      assert order == [order[0]] + order[1..];
      var first := Look(q, order[0], up);
      assert s in AsSeq(first) <==> first == Some(s);
    }
  }

  lemma {:induction false} InCountDown(i: int, k: nat)
    ensures k in CountDown(i) <==> k <= i
    decreases i
  {
    if 0 <= i {
      InCountDown(i - 1, k);
    }
  }

  lemma {:induction false} InCountUp(i: nat, n: nat, k: nat)
    ensures k in CountUp(i, n) <==> i <= k < n
    decreases n - i
  {
    if i < n {
      InCountUp(i + 1, n, k);
    }
  }

  lemma TracksHold(q: Query, s: Sighting)
    requires ValidQuery(q)
    ensures s in OwnTrack(q) <==> && s.index < |q.stations| && Look(q, s.index, q.movingUp) == Some(s)
                                  && if q.movingUp then s.index <= q.user else q.user <= s.index
    ensures s in OtherTrack(q) <==> s.index < |q.stations| && Look(q, s.index, !q.movingUp) == Some(s)
  {
    var n := |q.stations|;
    InCountDown(q.user, s.index);
    InCountDown(n - 1, s.index);
    InCountUp(q.user, n, s.index);
    InCountUp(0, n, s.index);
    SeenIff(q, if q.movingUp then CountDown(q.user) else CountUp(q.user, n), q.movingUp, s);
    SeenIff(q, if q.movingUp then CountUp(0, n) else CountDown(n - 1), !q.movingUp, s);
  }

  lemma ExpectedIsSeen(q: Query, i: nat, up: bool)
    requires ValidQuery(q) && IsExpected(q, i, up)
    ensures exists s :: s in (if up == q.movingUp then OwnTrack(q) else OtherTrack(q)) && OLDEST <= s.distance
  {
    LookIff(q, i, up);
    TracksHold(q, Look(q, i, up).value);
  }

  /** There is a train to be found exactly if one is expected; one on the user's own track goes first. */
  lemma ExpectedIsFound(q: Query, i: nat, up: bool)
    requires ValidQuery(q) && IsExpected(q, i, up)
    ensures NextTrain(q).0.Some? && (up == q.movingUp ==> NextTrain(q).1)
  {
    ExpectedIsSeen(q, i, up);
    NextTrainIsNearest(q);
  }

  lemma FoundIsExpected(q: Query)
    requires ValidQuery(q) && NextTrain(q).0.Some?
    ensures var s, up := NextTrain(q).0.value, NextTrain(q).1 == q.movingUp;
            IsExpected(q, s.index, up) && s.distance == TimeUntil(q, s.index, up)
  {
    var s, up := NextTrain(q).0.value, NextTrain(q).1 == q.movingUp;
    FoundTrainIsReal(q);
    LookIff(q, s.index, up);
  }

  /** Trains going up are looked for downwards, and trains going down upwards. */
  predicate ComesBefore(i: nat, j: nat, up: bool) {
    if up then j < i else i < j
  }

  /** The scan for trains going up, or down, comes to station j: before it, no station on the track has a
      train farther off than an expected one before. */
  ghost predicate IsReached(q: Query, j: nat, up: bool)
    requires ValidQuery(q)
  {
    forall a: nat, b: nat :: && IsExpected(q, a, up) && b < |q.stations| && ReportOf(q, b, up).Some?
                   && ComesBefore(a, b, up) && ComesBefore(b, j, up)
                   ==> TimeUntil(q, b, up) <= TimeUntil(q, a, up)
  }

  /** The next train: on the user's own track, or on the other one if none is expected on that; and there
      the nearest expected one of those the scan comes to, and the first of these. */
  ghost predicate IsNext(q: Query, i: nat, up: bool)
    requires ValidQuery(q)
  {
    && IsExpected(q, i, up) && IsReached(q, i, up)
    && (up != q.movingUp ==> forall j :: !IsExpected(q, j, q.movingUp))
    && forall j :: j != i && IsExpected(q, j, up) && IsReached(q, j, up) ==>
         if ComesBefore(j, i, up) then TimeUntil(q, i, up) < TimeUntil(q, j, up)
         else TimeUntil(q, i, up) <= TimeUntil(q, j, up)
  }

  /** Each number comes before all those after it. */
  ghost predicate IsOrdered(order: seq<nat>, up: bool) {
    forall a, b :: 0 <= a < b < |order| ==> ComesBefore(order[a], order[b], up)
  }

  lemma OneBeforeAll(i: nat, rest: seq<nat>, up: bool)
    requires IsOrdered(rest, up) && forall k :: k in rest ==> ComesBefore(i, k, up)
    ensures IsOrdered([i] + rest, up)
  {
  }

  ghost predicate InScanOrder(cs: seq<Sighting>, up: bool) {
    forall a, b :: 0 <= a < b < |cs| ==> ComesBefore(cs[a].index, cs[b].index, up)
  }

  lemma {:induction false} SeenInOrder(q: Query, order: seq<nat>, up: bool, up': bool)
    requires ValidQuery(q) && IsOrdered(order, up')
    ensures InScanOrder(Seen(q, order, up), up')
    decreases |order|
  {
    if order != [] {
      var first, rest := Look(q, order[0], up), Seen(q, order[1..], up);
      SeenInOrder(q, order[1..], up, up');
      forall b | 0 <= b < |rest|
        ensures ComesBefore(order[0], rest[b].index, up')
      {
        SeenIff(q, order[1..], up, rest[b]);
        assert rest[b] in rest;
      }
      assert Seen(q, order, up) == AsSeq(first) + rest;
    }
  }

  lemma {:induction false} CountDownOrder(i: int)
    ensures IsOrdered(CountDown(i), true)
    decreases i
  {
    if 0 <= i {
      CountDownOrder(i - 1);
      CountDownBounds(i - 1);
      OneBeforeAll(i, CountDown(i - 1), true);
    }
  }

  lemma {:induction false} CountUpOrder(i: nat, n: nat)
    ensures IsOrdered(CountUp(i, n), false)
    decreases n - i
  {
    if i < n {
      CountUpOrder(i + 1, n);
      CountUpBounds(i + 1, n);
      OneBeforeAll(i, CountUp(i + 1, n), false);
    }
  }

  lemma TracksInOrder(q: Query)
    requires ValidQuery(q)
    ensures InScanOrder(OwnTrack(q), q.movingUp) && InScanOrder(OtherTrack(q), !q.movingUp)
  {
    var n := |q.stations|;
    if q.movingUp {
      CountDownOrder(q.user);
      CountUpOrder(0, n);
      SeenInOrder(q, CountDown(q.user), true, true);
      SeenInOrder(q, CountUp(0, n), false, false);
    } else {
      CountUpOrder(q.user, n);
      CountDownOrder(n - 1);
      SeenInOrder(q, CountUp(q.user, n), false, false);
      SeenInOrder(q, CountDown(n - 1), true, true);
    }
  }

  /** The sightings are, in order, those of the trains on the track. */
  ghost predicate IsTrack(q: Query, cs: seq<Sighting>, up: bool)
    requires ValidQuery(q)
  {
    && InScanOrder(cs, up)
    && forall s :: s in cs <==> && s.index < |q.stations| && Look(q, s.index, up) == Some(s)
                                && (up == q.movingUp ==> if up then s.index <= q.user else q.user <= s.index)
  }

  lemma TracksAreTracks(q: Query)
    requires ValidQuery(q)
    ensures IsTrack(q, OwnTrack(q), q.movingUp) && IsTrack(q, OtherTrack(q), !q.movingUp)
  {
    TracksInOrder(q);
    forall s
      ensures s in OwnTrack(q) <==> && s.index < |q.stations| && Look(q, s.index, q.movingUp) == Some(s)
                                    && if q.movingUp then s.index <= q.user else q.user <= s.index
      ensures s in OtherTrack(q) <==> s.index < |q.stations| && Look(q, s.index, !q.movingUp) == Some(s)
    {
      TracksHold(q, s);
    }
  }

  lemma ExpectedIsOnTrack(q: Query, cs: seq<Sighting>, up: bool, i: nat) returns (k: nat)
    requires ValidQuery(q) && IsTrack(q, cs, up) && IsExpected(q, i, up)
    ensures k < |cs| && cs[k].index == i && cs[k].distance == TimeUntil(q, i, up)
  {
    LookIff(q, i, up);
    var s := Look(q, i, up).value;
    assert s in cs;
    k :| k < |cs| && cs[k] == s;
  }

  lemma OnTrack(q: Query, cs: seq<Sighting>, up: bool, k: nat)
    requires ValidQuery(q) && IsTrack(q, cs, up) && k < |cs|
    ensures cs[k].index < |q.stations| && ReportOf(q, cs[k].index, up).Some?
    ensures cs[k].distance == TimeUntil(q, cs[k].index, up)
    ensures IsExpected(q, cs[k].index, up) <==> OLDEST <= cs[k].distance
  {
    assert cs[k] in cs;
    LookIff(q, cs[k].index, up);
  }

  lemma ReportedIsOnTrack(q: Query, cs: seq<Sighting>, up: bool, a: nat, b: nat) returns (k: nat)
    requires ValidQuery(q) && IsTrack(q, cs, up) && IsExpected(q, a, up)
    requires b < |q.stations| && ReportOf(q, b, up).Some? && ComesBefore(a, b, up)
    ensures k < |cs| && cs[k].index == b
  {
    LookIff(q, b, up);
    var s := Look(q, b, up).value;
    assert s in cs;
    k :| k < |cs| && cs[k] == s;
  }

  lemma ReachedIsLookedAt(q: Query, cs: seq<Sighting>, up: bool, k: nat)
    requires ValidQuery(q) && IsTrack(q, cs, up) && k < |cs|
    ensures IsReached(q, cs[k].index, up) <==> IsLookedAt(cs, k)
  {
    if IsReached(q, cs[k].index, up) {
      forall a, b | 0 <= a < b < k && OLDEST <= cs[a].distance
        ensures cs[b].distance <= cs[a].distance
      {
        OnTrack(q, cs, up, a);
        OnTrack(q, cs, up, b);
      }
    }
    if IsLookedAt(cs, k) {
      forall a: nat, b: nat | && IsExpected(q, a, up) && b < |q.stations| && ReportOf(q, b, up).Some?
                    && ComesBefore(a, b, up) && ComesBefore(b, cs[k].index, up)
        ensures TimeUntil(q, b, up) <= TimeUntil(q, a, up)
      {
        var ka := ExpectedIsOnTrack(q, cs, up, a);
        var kb := ReportedIsOnTrack(q, cs, up, a, b);
        OnTrack(q, cs, up, kb);
        assert !(kb < ka) && !(k < kb) && kb != k && ka != kb;
      }
    }
  }

  lemma FirstNearestIsNext(q: Query, cs: seq<Sighting>, up: bool, k: nat)
    requires ValidQuery(q) && IsTrack(q, cs, up) && IsFirstNearest(cs, k)
    requires up != q.movingUp ==> forall j :: !IsExpected(q, j, q.movingUp)
    ensures cs[k].index < |q.stations| && IsNext(q, cs[k].index, up)
  {
    OnTrack(q, cs, up, k);
    ReachedIsLookedAt(q, cs, up, k);
    var i := cs[k].index;
    forall j | j != i && IsExpected(q, j, up) && IsReached(q, j, up)
      ensures if ComesBefore(j, i, up) then TimeUntil(q, i, up) < TimeUntil(q, j, up)
              else TimeUntil(q, i, up) <= TimeUntil(q, j, up)
    {
      var kj := ExpectedIsOnTrack(q, cs, up, j);
      ReachedIsLookedAt(q, cs, up, kj);
      assert kj < k <==> ComesBefore(j, i, up);
    }
  }

  /** The search finds the next train. */
  lemma NextIsFound(q: Query)
    requires ValidQuery(q) && NextTrain(q).0.Some?
    ensures var (found, own) := NextTrain(q); IsNext(q, found.value.index, own == q.movingUp)
  {
    NextTrainIsNearest(q);
    TracksAreTracks(q);
    FoundIsExpected(q);
    var (found, own) := NextTrain(q);
    forall j | !own && IsExpected(q, j, q.movingUp)
      ensures false
    {
      ExpectedIsFound(q, j, q.movingUp);
    }
    var cs, up := if own then OwnTrack(q) else OtherTrack(q), own == q.movingUp;
    var k: nat :| IsFirstNearest(cs, k) && found.value == cs[k];
    FirstNearestIsNext(q, cs, up, k);
  }

  /** There is only one. */
  lemma NextIsUnique(q: Query, i: nat, up: bool, j: nat, up': bool)
    requires ValidQuery(q) && IsNext(q, i, up) && IsNext(q, j, up')
    ensures i == j && up == up'
  {
    assert i != j ==> ComesBefore(i, j, up) || ComesBefore(j, i, up);
  }

  // ----- The answer -----

  /** The time left until the next train is due, given that one was seen here and how often they come. */
  function DueIn(frequency: int, seenHere: int, now: int): int {
    frequency - (now - seenHere)
  }

  /** A train was seen here, the next one is not overdue, and the figure is over 1.2 times what is left. */
  predicate IsTooLong(figure: int, seenHere: Option<int>, frequency: int, now: int) {
    seenHere.Some? && var left := DueIn(frequency, seenHere.value, now); 0 < left && left * 6 < figure * 5000
  }

  /** The figure, in whole seconds, that is worth an answer if it is not too far from the frequency. */
  function FigureFor(figure: int, seenHere: Option<int>, frequency: int, now: int): int {
    if IsTooLong(figure, seenHere, frequency, now) then DueIn(frequency, seenHere.value, now) / 1000 else figure
  }

  predicate IsNearEnough(eta: int, frequency: int) {
    0 < frequency ==> eta * 5000 <= frequency * 6
  }

  /** The question that is asked of line k. */
  function QueryOf(lines: seq<seq<StationId>>, dur: Durations, presence: Presence, now: int, k: nat, user: nat,
                   up: bool): Query
    requires k < |lines|
  {
    Query(lines[k], dur, presence, now, user, up)
  }

  lemma UserIsAt(ss: seq<StationId>, station: StationId, user: nat)
    requires user < |ss| && ss[user] == station && forall i, j :: 0 <= i < j < |ss| ==> ss[i] != ss[j]
    ensures IndexOf(ss, station) == user
  {
    IndexOfFinds(ss, station);
  }

  /** Without a line that ends in the direction there is no answer. */
  lemma NoLineNoAnswer(lines: seq<seq<StationId>>, frequencies: seq<Option<int>>, dur: Durations, presence: Presence,
                       station: StationId, direction: StationId, now: int, later: int)
    requires Serve(lines, station) && |frequencies| == |lines|
    requires forall k :: 0 <= k < |lines| ==> !EndsAt(lines[k], direction)
    ensures ETA(lines, frequencies, dur, presence, station, direction, now, later).Failure?
  {
    ChooseLineIff(lines, direction, 0, true);
  }

  /** A train is expected at all. */
  ghost predicate SomeExpected(q: Query)
    requires ValidQuery(q)
  {
    exists i: nat, up :: IsExpected(q, i, up)
  }

  /** There is an answer exactly if a train is expected, the line's condition is known, and the figure for
      the next train is near enough; and that is the answer. */
  ghost predicate IsAnswer(r: Result<int>, q: Query, frequency: Option<int>, seenHere: Option<int>, now: int)
    requires ValidQuery(q)
  {
    if !SomeExpected(q) || frequency.None? then r.Failure?
    else exists i: nat, up :: IsNext(q, i, up) && IsAnswerFor(r, TimeUntil(q, i, up), frequency.value, seenHere, now)
  }

  predicate IsAnswerFor(r: Result<int>, time: int, frequency: int, seenHere: Option<int>, now: int) {
    var eta := FigureFor(time, seenHere, frequency, now);
    if IsNearEnough(eta, frequency) then r == Success(eta) else r.Failure?
  }

  lemma ConclusionIsAnswer(found: Sighting, frequency: Option<int>, seenHere: Option<int>, now: int)
    requires frequency.Some?
    ensures IsAnswerFor(Conclude(Some(found), frequency, seenHere, now), found.distance, frequency.value, seenHere, now)
  {
  }

  lemma SearchIsAnswered(q: Query, frequency: Option<int>, seenHere: Option<int>, now: int)
    requires ValidQuery(q)
    ensures IsAnswer(Conclude(NextTrain(q).0, frequency, seenHere, now), q, frequency, seenHere, now)
  {
    if NextTrain(q).0.Some? {
      FoundIsExpected(q);
      if frequency.Some? {
        NextIsFound(q);
        ConclusionIsAnswer(NextTrain(q).0.value, frequency, seenHere, now);
      }
    } else if SomeExpected(q) {
      var i: nat, up :| IsExpected(q, i, up);
      ExpectedIsFound(q, i, up);
    }
  }

  /** On the last line that ends in the direction, there is an answer exactly if a train is expected, the
      line's condition is known, and the figure is within 1.2 times its train frequency, if that is
      positive.  The figure is the time until that train comes, the way along the tracks less the age
      of its report; or, if a train was seen here and that is over 1.2 times what is left until the
      next one is due, the whole seconds of what is left. */
  lemma AnswersAreDetermined(lines: seq<seq<StationId>>, frequencies: seq<Option<int>>, dur: Durations,
                             presence: Presence, station: StationId, direction: StationId, now: int, later: int,
                             k: nat, up: bool, user: nat)
    requires Serve(lines, station) && |frequencies| == |lines|
    requires IsChosen(lines, direction, k, up) && user < |lines[k]| && lines[k][user] == station
    ensures var seenHere := if (station, direction) in presence then Some(presence[(station, direction)]) else None;
            IsAnswer(ETA(lines, frequencies, dur, presence, station, direction, now, later),
                     QueryOf(lines, dur, presence, now, k, user, up), frequencies[k], seenHere, later)
  {
    ChooseLineIff(lines, direction, k, up);
    UserIsAt(lines[k], station, user);
    SearchIsAnswered(QueryOf(lines, dur, presence, now, k, user, up), frequencies[k],
                     Lookup(presence, station, direction), later);
  }
}
