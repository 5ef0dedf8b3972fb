/** The vehicle handler (compute/vehiclehandler.go): passenger reports, the cache of travel times
    and the search for the next train, step by step. */
module VehicleHandlers {
  import opened Wrappers
  import opened Identifiers
  import opened Tracks
  import opened Vehicles

  /** Travel plus stop time of the connections of the compatibility view, where there is one. */
  type Lookups = (StationId, StationId) -> Option<int>

  /** A cached time, even a stale one, goes before the connection's; a missing connection counts 0. */
  function Effective(connections: Lookups, cache: map<(StationId, StationId), int>, a: StationId, b: StationId): int {
    if (a, b) in cache then cache[(a, b)]
    else if connections(a, b).Some? then connections(a, b).value
    else 0
  }

  function EffectiveTimes(connections: Lookups, cache: map<(StationId, StationId), int>): Durations {
    (a, b) => Effective(connections, cache, a, b)
  }

  ghost predicate Agrees(connections: Lookups, cache: map<(StationId, StationId), int>, dur: Durations) {
    forall a, b :: Effective(connections, cache, a, b) == dur(a, b)
  }

  /** No time gets as large as the value that stands for "no train yet". */
  ghost predicate Fits(q: Query)
    requires ValidQuery(q)
  {
    forall i: nat, up :: i < |q.stations| && Look(q, i, up).Some? ==> Look(q, i, up).value.distance < MAX_INT
  }

  /** The variables of the search. */
  datatype Search = Search(foundTrain: bool, trainAtIdx: int, trainAtSeconds: int, minDistance: int)

  const NOTHING := Search(false, -1, MAX_INT, MAX_INT)

  ghost predicate Reflects(v: Search, best: Option<Sighting>) {
    match best
    case None => v == NOTHING
    case Some(s) => v == Search(true, s.index, s.age, s.distance)
  }

  ghost predicate Started(v: Search) {
    v == NOTHING || (v.foundTrain && 0 <= v.trainAtIdx)
  }

  ghost function BestOf(v: Search): Option<Sighting>
    requires Started(v)
  {
    if v.foundTrain then Some(Sighting(v.trainAtIdx, v.trainAtSeconds, v.minDistance)) else None
  }

  /** The search from station i on: down to the lower end, or up to the upper end. */
  function SeekDown(q: Query, i: int, up: bool, best: Option<Sighting>): Option<Sighting>
    requires ValidQuery(q)
    decreases i
  {
    if i < 0 then best
    else
      var s := Look(q, i, up);
      if s.Some? && Improves(s.value, best) then SeekDown(q, i - 1, up, s)
      else if s.Some? && best.Some? && s.value.distance > best.value.distance then best
      else SeekDown(q, i - 1, up, best)
  }

  function SeekUp(q: Query, i: nat, up: bool, best: Option<Sighting>): Option<Sighting>
    requires ValidQuery(q)
    decreases |q.stations| - i
  {
    if i >= |q.stations| then best
    else
      var s := Look(q, i, up);
      if s.Some? && Improves(s.value, best) then SeekUp(q, i + 1, up, s)
      else if s.Some? && best.Some? && s.value.distance > best.value.distance then best
      else SeekUp(q, i + 1, up, best)
  }

  lemma ScanOneMore(s: Option<Sighting>, rest: seq<Sighting>, best: Option<Sighting>)
    ensures Scan(AsSeq(s) + rest, best)
         == if s.Some? && Improves(s.value, best) then Scan(rest, s)
            else if s.Some? && best.Some? && s.value.distance > best.value.distance then best
            else Scan(rest, best)
  {
    if s.Some? {
      assert (AsSeq(s) + rest)[1..] == rest;
    } else {
      assert AsSeq(s) + rest == rest;
    }
  }

  lemma {:induction false} SeekDownScans(q: Query, i: int, up: bool, best: Option<Sighting>)
    requires ValidQuery(q)
    ensures SeekDown(q, i, up, best) == Scan(Seen(q, CountDown(i), up), best)
    decreases i
  {
    if 0 <= i {
      var s, rest := Look(q, i, up), Seen(q, CountDown(i - 1), up);
      SeenDown(q, i, up);
      ScanOneMore(s, rest, best);
      SeekDownScans(q, i - 1, up, if s.Some? && Improves(s.value, best) then s else best);
    }
  }

  lemma {:induction false} SeekUpScans(q: Query, i: nat, up: bool, best: Option<Sighting>)
    requires ValidQuery(q)
    ensures SeekUp(q, i, up, best) == Scan(Seen(q, CountUp(i, |q.stations|), up), best)
    decreases |q.stations| - i
  {
    if i < |q.stations| {
      var s, rest := Look(q, i, up), Seen(q, CountUp(i + 1, |q.stations|), up);
      SeenUp(q, i, |q.stations|, up);
      ScanOneMore(s, rest, best);
      SeekUpScans(q, i + 1, up, if s.Some? && Improves(s.value, best) then s else best);
    }
  }

  lemma TracksSought(q: Query)
    requires ValidQuery(q)
    ensures q.movingUp ==> Scan(OwnTrack(q), None) == SeekDown(q, q.user, true, None)
                           && Scan(OtherTrack(q), None) == SeekUp(q, 0, false, None)
    ensures !q.movingUp ==> Scan(OwnTrack(q), None) == SeekUp(q, q.user, false, None)
                            && Scan(OtherTrack(q), None) == SeekDown(q, |q.stations| - 1, true, None)
  {
    if q.movingUp {
      SeekDownScans(q, q.user, true, None);
      SeekUpScans(q, 0, false, None);
    } else {
      SeekUpScans(q, q.user, false, None);
      SeekDownScans(q, |q.stations| - 1, true, None);
    }
  }

  /** One look, given the distance from the station to the user. */
  lemma OneLook(q: Query, i: nat, up: bool, distance: int)
    requires ValidQuery(q) && i < |q.stations| && Fits(q) && Coming(q.user, i, q.movingUp, up)
    requires distance == TimeDistance(q.stations, q.durations, q.user, i, q.movingUp, up)
    ensures var key := (q.stations[i], Terminus(q.stations, up));
            if key !in q.presence then Look(q, i, up) == None
            else
              var age := RoundSeconds(q.now - q.presence[key]);
              distance - age < MAX_INT && Look(q, i, up) == Some(Sighting(i, age, distance - age))
  {
    DistanceIsTrackTime(q.stations, q.durations, q.user, i, q.movingUp, up);
    assert Look(q, i, up).Some? ==> Look(q, i, up).value.distance < MAX_INT;
  }

  class VehicleHandler {
    var presenceByStationAndDirection: Presence
    var connectionDurationCache: map<(StationId, StationId), int>

    constructor ()
      ensures presenceByStationAndDirection == map[] && connectionDurationCache == map[]
    {
      presenceByStationAndDirection, connectionDurationCache := map[], map[];
    }

    method GetConnectionDuration(connections: Lookups, from: StationId, to: StationId,
                                 ghost dur: Durations) returns (s: int)
      requires Agrees(connections, connectionDurationCache, dur)
      modifies this`connectionDurationCache
      ensures Agrees(connections, connectionDurationCache, dur) && s == dur(from, to)
      ensures s == if (from, to) in old(connectionDurationCache) then old(connectionDurationCache)[(from, to)]
                   else match connections(from, to) case Some(time) => time case None => 0
    {
      assert Effective(connections, connectionDurationCache, from, to) == dur(from, to);
      if (from, to) in connectionDurationCache {
        return connectionDurationCache[(from, to)];
      }
      var connection := connections(from, to);
      if connection.None? {
        return 0;
      }
      s := connection.value;
      ghost var before := connectionDurationCache;
      connectionDurationCache := connectionDurationCache[(from, to) := s];
      forall a, b
        ensures Effective(connections, connectionDurationCache, a, b) == dur(a, b)
      {
        assert Effective(connections, before, a, b) == dur(a, b);
      }
    }

    /** The closure of the search: one track or, when the train goes the other way, the rest of its
        track, the turn and the other track. */
    method GetTimeDistance(connections: Lookups, ss: seq<StationId>, userAtIdx: nat, trainAtIdx: nat,
                           movingUp: bool, trainMovingUp: bool, ghost dur: Durations) returns (totalSeconds: int)
      requires userAtIdx < |ss| && trainAtIdx < |ss| && Agrees(connections, connectionDurationCache, dur)
      modifies this`connectionDurationCache
      ensures Agrees(connections, connectionDurationCache, dur)
      ensures totalSeconds == TimeDistance(ss, dur, userAtIdx, trainAtIdx, movingUp, trainMovingUp)
    {
      totalSeconds := 0;
      var other := trainMovingUp != movingUp;
      if trainMovingUp {
        ghost var end := if other then |ss| - 1 else userAtIdx;
        var i := trainAtIdx;
        while (i <= userAtIdx - 1 || other) && i < |ss| - 1
          invariant trainAtIdx <= i && Agrees(connections, connectionDurationCache, dur)
          invariant totalSeconds + TimeUp(ss, dur, i, end) == TimeUp(ss, dur, trainAtIdx, end)
          decreases |ss| - i
        {
          var s := GetConnectionDuration(connections, ss[i], ss[i + 1], dur);
          totalSeconds, i := totalSeconds + s, i + 1;
        }
      } else {
        ghost var end := if other then 0 else userAtIdx;
        var i: int := trainAtIdx;
        while (i >= userAtIdx + 1 || other) && i > 0
          invariant 0 <= i <= trainAtIdx && Agrees(connections, connectionDurationCache, dur)
          invariant totalSeconds + TimeDown(ss, dur, i, end) == TimeDown(ss, dur, trainAtIdx, end)
          decreases i
        {
          var s := GetConnectionDuration(connections, ss[i], ss[i - 1], dur);
          totalSeconds, i := totalSeconds + s, i - 1;
        }
      }
      if other {
        totalSeconds := totalSeconds + TURN;
        ghost var before := totalSeconds;
        if !trainMovingUp {
          var i := 0;
          while i <= userAtIdx - 1 && i < |ss| - 1
            invariant 0 <= i && Agrees(connections, connectionDurationCache, dur)
            invariant totalSeconds + TimeUp(ss, dur, i, userAtIdx) == before + TimeUp(ss, dur, 0, userAtIdx)
          {
            var s := GetConnectionDuration(connections, ss[i], ss[i + 1], dur);
            totalSeconds, i := totalSeconds + s, i + 1;
          }
        } else {
          var i := |ss| - 1;
          while i >= userAtIdx + 1 && i > 0
            invariant 0 <= i < |ss| && Agrees(connections, connectionDurationCache, dur)
            invariant totalSeconds + TimeDown(ss, dur, i, userAtIdx)
                   == before + TimeDown(ss, dur, |ss| - 1, userAtIdx)
          {
            var s := GetConnectionDuration(connections, ss[i], ss[i - 1], dur);
            totalSeconds, i := totalSeconds + s, i - 1;
          }
        }
      }
    }

    /** Trains going up before the station of a user who moves up, from there downwards. */
    method LookUpBefore(connections: Lookups, q: Query) returns (v: Search)
      requires ValidQuery(q) && q.movingUp && Fits(q) && Agrees(connections, connectionDurationCache, q.durations)
      modifies this`connectionDurationCache
      ensures Agrees(connections, connectionDurationCache, q.durations) && Reflects(v, SeekDown(q, q.user, true, None))
    {
      var ss := q.stations;
      var direction := ss[|ss| - 1];
      v := NOTHING;
      ghost var goal := SeekDown(q, q.user, true, None);
      var cursor: int := q.user;
      while cursor >= 0
        invariant -1 <= cursor <= q.user && Agrees(connections, connectionDurationCache, q.durations)
        invariant Started(v) && SeekDown(q, cursor, true, BestOf(v)) == goal
      {
        var key := (ss[cursor], direction);
        var present := key in q.presence;
        var tInt := if present then RoundSeconds(q.now - q.presence[key]) else 0;
        var distance := GetTimeDistance(connections, ss, q.user, cursor, q.movingUp, true, q.durations);
        var tDistance := distance - tInt;
        OneLook(q, cursor, true, distance);
        if present && tDistance < v.minDistance && tDistance >= OLDEST {
          v := Search(true, cursor, tInt, tDistance);
        } else if present && tDistance > v.minDistance {
          v := v.(foundTrain := true);
          return;
        }
        cursor := cursor - 1;
      }
    }

    /** Trains going down, for a user who moves up, from the lower end upwards. */
    method LookDownOpposite(connections: Lookups, q: Query) returns (v: Search)
      requires ValidQuery(q) && q.movingUp && Fits(q) && Agrees(connections, connectionDurationCache, q.durations)
      modifies this`connectionDurationCache
      ensures Agrees(connections, connectionDurationCache, q.durations) && Reflects(v, SeekUp(q, 0, false, None))
    {
      var ss := q.stations;
      var oppositeDirection := ss[0];
      v := NOTHING;
      ghost var goal := SeekUp(q, 0, false, None);
      var cursor := 0;
      while cursor < |ss|
        invariant 0 <= cursor <= |ss| && Agrees(connections, connectionDurationCache, q.durations)
        invariant Started(v) && SeekUp(q, cursor, false, BestOf(v)) == goal
      {
        var key := (ss[cursor], oppositeDirection);
        var present := key in q.presence;
        var tInt := if present then RoundSeconds(q.now - q.presence[key]) else 0;
        var distance := GetTimeDistance(connections, ss, q.user, cursor, q.movingUp, false, q.durations);
        var tDistance := distance - tInt;
        OneLook(q, cursor, false, distance);
        if present && tDistance < v.minDistance && tDistance >= OLDEST {
          v := Search(true, cursor, tInt, tDistance);
        } else if present && tDistance > v.minDistance {
          v := v.(foundTrain := true);
          return;
        }
        cursor := cursor + 1;
      }
    }

    /** Trains going down before the station of a user who moves down, from there upwards. */
    method LookDownBefore(connections: Lookups, q: Query) returns (v: Search)
      requires ValidQuery(q) && !q.movingUp && Fits(q) && Agrees(connections, connectionDurationCache, q.durations)
      modifies this`connectionDurationCache
      ensures Agrees(connections, connectionDurationCache, q.durations) && Reflects(v, SeekUp(q, q.user, false, None))
    {
      var ss := q.stations;
      var direction := ss[0];
      v := NOTHING;
      ghost var goal := SeekUp(q, q.user, false, None);
      var cursor: int := q.user;
      while cursor < |ss|
        invariant q.user <= cursor <= |ss| && Agrees(connections, connectionDurationCache, q.durations)
        invariant Started(v) && SeekUp(q, cursor, false, BestOf(v)) == goal
      {
        var key := (ss[cursor], direction);
        var present := key in q.presence;
        var tInt := if present then RoundSeconds(q.now - q.presence[key]) else 0;
        var distance := GetTimeDistance(connections, ss, q.user, cursor, q.movingUp, false, q.durations);
        var tDistance := distance - tInt;
        OneLook(q, cursor, false, distance);
        if present && tDistance < v.minDistance && tDistance >= OLDEST {
          v := Search(true, cursor, tInt, tDistance);
        } else if present && tDistance > v.minDistance {
          v := v.(foundTrain := true);
          return;
        }
        cursor := cursor + 1;
      }
    }

    /** Trains going up, for a user who moves down, from the upper end downwards. */
    method LookUpOpposite(connections: Lookups, q: Query) returns (v: Search)
      requires ValidQuery(q) && !q.movingUp && Fits(q) && Agrees(connections, connectionDurationCache, q.durations)
      modifies this`connectionDurationCache
      ensures Agrees(connections, connectionDurationCache, q.durations)
      ensures Reflects(v, SeekDown(q, |q.stations| - 1, true, None))
    {
      var ss := q.stations;
      var oppositeDirection := ss[|ss| - 1];
      v := NOTHING;
      ghost var goal := SeekDown(q, |q.stations| - 1, true, None);
      var cursor := |ss| - 1;
      while cursor >= 0
        invariant -1 <= cursor <= |ss| - 1 && Agrees(connections, connectionDurationCache, q.durations)
        invariant Started(v) && SeekDown(q, cursor, true, BestOf(v)) == goal
      {
        var key := (ss[cursor], oppositeDirection);
        var present := key in q.presence;
        var tInt := if present then RoundSeconds(q.now - q.presence[key]) else 0;
        var distance := GetTimeDistance(connections, ss, q.user, cursor, q.movingUp, true, q.durations);
        var tDistance := distance - tInt;
        OneLook(q, cursor, true, distance);
        if present && tDistance < v.minDistance && tDistance >= OLDEST {
          v := Search(true, cursor, tInt, tDistance);
        } else if present && tDistance > v.minDistance {
          v := v.(foundTrain := true);
          return;
        }
        cursor := cursor - 1;
      }
    }

    /** The four scans: on the track of the user and, if that has no train, on the other one. */
    method FindTrain(connections: Lookups, q: Query) returns (v: Search, trainMovingUp: bool)
      requires ValidQuery(q) && Agrees(connections, connectionDurationCache, q.durations) && Fits(q)
      modifies this`connectionDurationCache
      ensures Agrees(connections, connectionDurationCache, q.durations)
      ensures Reflects(v, NextTrain(q).0)
      ensures v.foundTrain ==> trainMovingUp == (NextTrain(q).1 == q.movingUp)
    {
      TracksSought(q);
      trainMovingUp := q.movingUp;
      if q.movingUp {
        v := LookUpBefore(connections, q);
        if !v.foundTrain {
          trainMovingUp := false;
          v := LookDownOpposite(connections, q);
        }
      } else {
        v := LookDownBefore(connections, q);
        if !v.foundTrain {
          trainMovingUp := true;
          v := LookUpOpposite(connections, q);
        }
      }
    }

    /** The source adds up the way from the train to the user once more, with loops of its own. */
    method TravelFrom(connections: Lookups, ss: seq<StationId>, userAtIdx: nat, trainAtIdx: nat, movingUp: bool,
                      trainWasMovingUp: bool, ghost dur: Durations) returns (totalSeconds: int)
      requires userAtIdx < |ss| && trainAtIdx < |ss| && Agrees(connections, connectionDurationCache, dur)
      modifies this`connectionDurationCache
      ensures Agrees(connections, connectionDurationCache, dur)
      ensures Coming(userAtIdx, trainAtIdx, movingUp, trainWasMovingUp) ==>
                totalSeconds == TrackTime(ss, dur, Place(trainAtIdx, trainWasMovingUp), Place(userAtIdx, movingUp))
    {
      DistanceIsTrackTime(ss, dur, userAtIdx, trainAtIdx, movingUp, trainWasMovingUp);
      totalSeconds := 0;
      var trainMovingUp := trainWasMovingUp;
      var cursor: int;
      if trainMovingUp {
        cursor := trainAtIdx;
        while (cursor <= userAtIdx - 1 || trainMovingUp != movingUp) && cursor < |ss| - 1
          invariant trainAtIdx <= cursor && Agrees(connections, connectionDurationCache, dur)
          invariant movingUp ==>
                      totalSeconds + TimeUp(ss, dur, cursor, userAtIdx) == TimeUp(ss, dur, trainAtIdx, userAtIdx)
          invariant !movingUp ==>
                      totalSeconds + TimeUp(ss, dur, cursor, |ss| - 1) == TimeUp(ss, dur, trainAtIdx, |ss| - 1)
          decreases |ss| - cursor
        {
          var s := GetConnectionDuration(connections, ss[cursor], ss[cursor + 1], dur);
          totalSeconds, cursor := totalSeconds + s, cursor + 1;
        }
      } else {
        cursor := trainAtIdx;
        while (cursor >= userAtIdx + 1 || trainMovingUp != movingUp) && cursor > 0
          invariant 0 <= cursor <= trainAtIdx && Agrees(connections, connectionDurationCache, dur)
          invariant !movingUp ==>
                      totalSeconds + TimeDown(ss, dur, cursor, userAtIdx) == TimeDown(ss, dur, trainAtIdx, userAtIdx)
          invariant movingUp ==>
                      totalSeconds + TimeDown(ss, dur, cursor, 0) == TimeDown(ss, dur, trainAtIdx, 0)
          decreases cursor
        {
          var s := GetConnectionDuration(connections, ss[cursor], ss[cursor - 1], dur);
          totalSeconds, cursor := totalSeconds + s, cursor - 1;
        }
      }
      if trainMovingUp != movingUp {
        trainMovingUp := !trainMovingUp;
        totalSeconds := totalSeconds + TURN;
        ghost var before := totalSeconds;
        if trainMovingUp {
          cursor := 0;
          while cursor <= userAtIdx - 1 && cursor < |ss| - 1
            invariant 0 <= cursor && Agrees(connections, connectionDurationCache, dur)
            invariant totalSeconds + TimeUp(ss, dur, cursor, userAtIdx) == before + TimeUp(ss, dur, 0, userAtIdx)
          {
            var s := GetConnectionDuration(connections, ss[cursor], ss[cursor + 1], dur);
            totalSeconds, cursor := totalSeconds + s, cursor + 1;
          }
        } else {
          cursor := |ss| - 1;
          while cursor >= userAtIdx + 1 && cursor > 0
            invariant 0 <= cursor < |ss| && Agrees(connections, connectionDurationCache, dur)
            invariant totalSeconds + TimeDown(ss, dur, cursor, userAtIdx)
                   == before + TimeDown(ss, dur, |ss| - 1, userAtIdx)
          {
            var s := GetConnectionDuration(connections, ss[cursor], ss[cursor - 1], dur);
            totalSeconds, cursor := totalSeconds + s, cursor - 1;
          }
        }
      }
    }

    /** The answer on one line.  The time worked out once more is the one the search had recorded. */
    method LineAnswer(connections: Lookups, q: Query, frequency: Option<int>, station: StationId, direction: StationId,
                      later: int) returns (r: Result<int>)
      requires ValidQuery(q) && Agrees(connections, connectionDurationCache, q.durations) && Fits(q)
      modifies this`connectionDurationCache
      ensures r == Conclude(NextTrain(q).0, frequency, Lookup(presenceByStationAndDirection, station, direction), later)
      ensures Agrees(connections, connectionDurationCache, q.durations)
    {
      var v, trainMovingUp := FindTrain(connections, q);
      if !v.foundTrain {
        return Failure("Could not find next train");
      }
      FoundTrainIsReal(q);
      var totalSeconds :=
        TravelFrom(connections, q.stations, q.user, v.trainAtIdx, q.movingUp, trainMovingUp, q.durations);
      totalSeconds := totalSeconds - v.trainAtSeconds;
      assert totalSeconds == v.minDistance;
      if frequency.None? {
        return Failure("LineCondition not found");
      }
      var key := (station, direction);
      if key in presenceByStationAndDirection {
        var supposedMaxRemainingTime := frequency.value - (later - presenceByStationAndDirection[key]);
        if supposedMaxRemainingTime > 0 && totalSeconds * 5000 > supposedMaxRemainingTime * 6 {
          totalSeconds := supposedMaxRemainingTime / 1000;
        }
      }
      if frequency.value > 0 && totalSeconds * 5000 > frequency.value * 6 {
        return Failure("Next known train is too far away");
      }
      return Success(totalSeconds);
    }

    method NextTrainETA(connections: Lookups, lines: seq<seq<StationId>>, frequencies: seq<Option<int>>,
                        station: StationId, direction: StationId, now: int, later: int) returns (r: Result<int>)
      requires Serve(lines, station) && |frequencies| == |lines|
      requires forall k, up :: 0 <= k < |lines| && IndexOf(lines[k], station) < |lines[k]| ==>
                 Fits(Query(lines[k], EffectiveTimes(connections, connectionDurationCache),
                            presenceByStationAndDirection, now, IndexOf(lines[k], station), up))
      modifies this`connectionDurationCache
      ensures r == ETA(lines, frequencies, EffectiveTimes(connections, old(connectionDurationCache)),
                       presenceByStationAndDirection, station, direction, now, later)
      ensures Agrees(connections, connectionDurationCache, EffectiveTimes(connections, old(connectionDurationCache)))
    {
      var thisLine, movingUp := -1, false;
      for k := 0 to |lines|
        invariant -1 <= thisLine < k
        invariant ChooseLine(lines[..k], direction) == if thisLine < 0 then None else Some((thisLine, movingUp))
      {
        assert lines[..k + 1][..k] == lines[..k];
        if lines[k][0] == direction {
          thisLine, movingUp := k, false;
        } else if lines[k][|lines[k]| - 1] == direction {
          thisLine, movingUp := k, true;
        }
      }
      assert lines[..|lines|] == lines;
      if thisLine < 0 {
        return Failure("Invalid direction for the specified station");
      }
      var ss := lines[thisLine];
      var cursor := 0;
      while cursor < |ss| && ss[cursor] != station
        invariant cursor <= |ss| && IndexOf(ss, station) == cursor + IndexOf(ss[cursor..], station)
      {
        assert ss[cursor..][1..] == ss[cursor + 1..];
        cursor := cursor + 1;
      }
      IndexOfFinds(ss, station);
      var q := Query(ss, EffectiveTimes(connections, connectionDurationCache), presenceByStationAndDirection, now,
                     cursor, movingUp);
      r := LineAnswer(connections, q, frequencies[thisLine], station, direction, later);
    }
  }
}
