/** When the next train arrives (compute/vehiclehandler.go, NextTrainETA). */
module Vehicles {
  import opened Wrappers
  import opened Identifiers
  import opened Tracks

  /** The largest int of the source, used where no train has been found yet. */
  const MAX_INT := 0x7FFF_FFFF_FFFF_FFFF

  /** A train that arrived longer ago than this is no longer on its way. */
  const OLDEST := -30

  /** When a passenger was last on a train at a station, by station and direction; milliseconds. */
  type Presence = map<(StationId, StationId), int>

  /** A question about one line: the user is at a station and wants to move up or down. */
  datatype Query = Query(stations: seq<StationId>, durations: Durations, presence: Presence, now: int,
                         user: nat, movingUp: bool)

  predicate ValidQuery(q: Query) {
    q.user < |q.stations|
  }

  /** A train reported at a station: the age of the report and the time until it reaches the user. */
  datatype Sighting = Sighting(index: nat, age: int, distance: int)

  /** Rounds milliseconds to seconds, halves away from zero. */
  function RoundSeconds(ms: int): int {
    if 0 <= ms then (ms + 500) / 1000 else -((-ms + 500) / 1000)
  }

  function Terminus(ss: seq<StationId>, up: bool): StationId
    requires ss != []
  {
    if up then ss[|ss| - 1] else ss[0]
  }

  function Look(q: Query, i: nat, up: bool): Option<Sighting>
    requires ValidQuery(q)
  {
    if i >= |q.stations| || (q.stations[i], Terminus(q.stations, up)) !in q.presence then None
    else
      var key := (q.stations[i], Terminus(q.stations, up));
      var age := RoundSeconds(q.now - q.presence[key]);
      Some(Sighting(i, age, TrackTime(q.stations, q.durations, Place(i, up), Place(q.user, q.movingUp)) - age))
  }

  function CountDown(i: int): seq<nat>
    decreases i
  {
    if i < 0 then [] else [i] + CountDown(i - 1)
  }

  function CountUp(i: nat, n: nat): seq<nat>
    decreases n - i
  {
    if n <= i then [] else [i] + CountUp(i + 1, n)
  }

  function AsSeq(s: Option<Sighting>): seq<Sighting> {
    if s.Some? then [s.value] else []
  }

  /** The trains reported at these stations, in this order. */
  function Seen(q: Query, order: seq<nat>, up: bool): seq<Sighting>
    requires ValidQuery(q)
  {
    if order == [] then []
    else
      var s := Look(q, order[0], up);
      AsSeq(s) + Seen(q, order[1..], up)
  }

  predicate Improves(s: Sighting, best: Option<Sighting>) {
    OLDEST <= s.distance && (best.Some? ==> s.distance < best.value.distance)
  }

  /** Keeps the nearest train so far, and stops at the first one that is farther. */
  function Scan(cs: seq<Sighting>, best: Option<Sighting>): Option<Sighting>
    decreases |cs|
  {
    if cs == [] then best
    else if Improves(cs[0], best) then Scan(cs[1..], Some(cs[0]))
    else if best.Some? && cs[0].distance > best.value.distance then best
    else Scan(cs[1..], best)
  }

  /** The trains on the user's track, from the user back to where they set out. */
  function OwnTrack(q: Query): seq<Sighting>
    requires ValidQuery(q)
  {
    Seen(q, if q.movingUp then CountDown(q.user) else CountUp(q.user, |q.stations|), q.movingUp)
  }

  /** The trains on the other track, from its end back to its beginning. */
  function OtherTrack(q: Query): seq<Sighting>
    requires ValidQuery(q)
  {
    Seen(q, if q.movingUp then CountUp(0, |q.stations|) else CountDown(|q.stations| - 1), !q.movingUp)
  }

  /** The next train, and whether it moves the way the user wants to. */
  function NextTrain(q: Query): (Option<Sighting>, bool)
    requires ValidQuery(q)
  {
    var own := Scan(OwnTrack(q), None);
    if own.Some? then (own, true) else (Scan(OtherTrack(q), None), false)
  }

  // ----- From the search to the answer -----

  function IndexOf(ss: seq<StationId>, station: StationId): (i: nat)
    ensures i <= |ss|
  {
    if ss == [] || ss[0] == station then 0 else 1 + IndexOf(ss[1..], station)
  }

  /** Whether the direction is the upper end of the line, if it is an end of it at all. */
  function Way(ss: seq<StationId>, direction: StationId): Option<bool>
    requires ss != []
  {
    if ss[0] == direction then Some(false)
    else if ss[|ss| - 1] == direction then Some(true)
    else None
  }

  /** The last line one of whose ends is the direction, and whether that is its upper end. */
  function ChooseLine(lines: seq<seq<StationId>>, direction: StationId): (chosen: Option<(nat, bool)>)
    requires forall k :: 0 <= k < |lines| ==> lines[k] != []
    ensures chosen.Some? ==> chosen.value.0 < |lines|
  {
    if lines == [] then None
    else
      var n := |lines| - 1;
      var up := Way(lines[n], direction);
      if up.Some? then Some((n, up.value)) else ChooseLine(lines[..n], direction)
  }

  /** What the train frequency, in milliseconds, makes of the time computed. */
  function Plausible(total: int, seenHere: Option<int>, frequency: int, now: int): int {
    if seenHere.None? then total
    else
      var remaining := frequency - (now - seenHere.value);
      if remaining > 0 && total * 5000 > remaining * 6 then remaining / 1000 else total
  }

  function Lookup(presence: Presence, station: StationId, direction: StationId): Option<int> {
    if (station, direction) in presence then Some(presence[(station, direction)]) else None
  }

  function Answer(total: int, seenHere: Option<int>, frequency: int, now: int): Result<int> {
    var eta := Plausible(total, seenHere, frequency, now);
    if frequency > 0 && eta * 5000 > frequency * 6 then Failure("Next known train is too far away")
    else Success(eta)
  }

  /** The answer, once the search is over. */
  function Conclude(found: Option<Sighting>, frequency: Option<int>, seenHere: Option<int>, now: int): Result<int> {
    if found.None? then Failure("Could not find next train")
    else if frequency.None? then Failure("LineCondition not found")
    else Answer(found.value.distance, seenHere, frequency.value, now)
  }

  /** The lines that serve the station, each from its lower to its upper end. */
  ghost predicate Serve(lines: seq<seq<StationId>>, station: StationId) {
    forall k :: 0 <= k < |lines| ==>
      lines[k] != [] && station in lines[k] && forall i, j :: 0 <= i < j < |lines[k]| ==> lines[k][i] != lines[k][j]
  }

  lemma {:induction false} IndexOfFinds(ss: seq<StationId>, station: StationId)
    requires station in ss
    ensures IndexOf(ss, station) < |ss| && ss[IndexOf(ss, station)] == station
  {
    if ss[0] != station {
      assert ss == [ss[0]] + ss[1..];
      IndexOfFinds(ss[1..], station);
    }
  }

  /** The answer on one line. */
  function LineETA(ss: seq<StationId>, up: bool, frequency: Option<int>, dur: Durations, presence: Presence,
                   station: StationId, direction: StationId, now: int, later: int): Result<int>
    requires IndexOf(ss, station) < |ss|
  {
    Conclude(NextTrain(Query(ss, dur, presence, now, IndexOf(ss, station), up)).0, frequency,
             Lookup(presence, station, direction), later)
  }

  /** The arrival time, in seconds from now, of the next train at the station in the direction. */
  ghost function ETA(lines: seq<seq<StationId>>, frequencies: seq<Option<int>>, dur: Durations, presence: Presence,
                     station: StationId, direction: StationId, now: int, later: int): Result<int>
    requires Serve(lines, station) && |frequencies| == |lines|
  {
    var chosen := ChooseLine(lines, direction);
    if chosen.None? then Failure("Invalid direction for the specified station")
    else
      var k := chosen.value.0;
      IndexOfFinds(lines[k], station);
      LineETA(lines[k], chosen.value.1, frequencies[k], dur, presence, station, direction, now, later)
  }

  // ----- What the search finds -----

  /** The search comes to look at cs[j]: before it, no train is farther than one before that still counts. */
  predicate IsLookedAt(cs: seq<Sighting>, j: nat) {
    j < |cs| && forall a, b :: 0 <= a < b < j && OLDEST <= cs[a].distance ==> cs[b].distance <= cs[a].distance
  }

  /** Of the trains looked at that have not arrived for too long, cs[k] is the nearest and the first of these. */
  predicate IsFirstNearest(cs: seq<Sighting>, k: nat) {
    && IsLookedAt(cs, k) && OLDEST <= cs[k].distance
    && forall j :: 0 <= j < |cs| && j != k && IsLookedAt(cs, j) && OLDEST <= cs[j].distance ==>
         if j < k then cs[k].distance < cs[j].distance else cs[k].distance <= cs[j].distance
  }

  /** The search has come to cs[i] with cs[k] the nearest so far. */
  predicate IsBestBefore(cs: seq<Sighting>, k: nat, i: nat) {
    && k < i <= |cs| && OLDEST <= cs[k].distance
    && (forall a, b :: 0 <= a < b < i && OLDEST <= cs[a].distance ==> cs[b].distance <= cs[a].distance)
    && forall j :: 0 <= j < i && OLDEST <= cs[j].distance ==>
         if j < k then cs[k].distance < cs[j].distance else cs[k].distance <= cs[j].distance
  }

  lemma StoppingIsRight(cs: seq<Sighting>, k: nat, i: nat)
    requires IsBestBefore(cs, k, i) && (i < |cs| ==> cs[k].distance < cs[i].distance)
    ensures IsFirstNearest(cs, k)
  {
    forall j | 0 <= j < |cs| && j != k && IsLookedAt(cs, j) && OLDEST <= cs[j].distance
      ensures if j < k then cs[k].distance < cs[j].distance else cs[k].distance <= cs[j].distance
    {
      assert j <= i;
    }
  }

  lemma LookingOnIsRight(cs: seq<Sighting>, k: nat, i: nat)
    requires IsBestBefore(cs, k, i) && i < |cs| && cs[i].distance <= cs[k].distance
    ensures IsBestBefore(cs, if Improves(cs[i], Some(cs[k])) then i else k, i + 1)
  {
    assert forall a :: 0 <= a < i && OLDEST <= cs[a].distance ==> cs[k].distance <= cs[a].distance;
  }

  lemma {:induction false} ScanFrom(cs: seq<Sighting>, k: nat, i: nat) returns (m: nat)
    requires IsBestBefore(cs, k, i)
    ensures IsFirstNearest(cs, m) && Scan(cs[i..], Some(cs[k])) == Some(cs[m])
    decreases |cs| - i
  {
    if i == |cs| || cs[k].distance < cs[i].distance {
      StoppingIsRight(cs, k, i);
      m := k;
    } else {
      assert cs[i..][1..] == cs[i + 1..];
      LookingOnIsRight(cs, k, i);
      m := ScanFrom(cs, if Improves(cs[i], Some(cs[k])) then i else k, i + 1);
    }
  }

  /** The search finds nothing only if all trains arrived too long ago; otherwise it finds the
      nearest of the trains it looks at before it meets a farther one. */
  lemma {:induction false} ScanFindsNearest(cs: seq<Sighting>, i: nat)
    requires i <= |cs| && forall j :: 0 <= j < i ==> cs[j].distance < OLDEST
    ensures Scan(cs[i..], None).None? ==> forall j :: 0 <= j < |cs| ==> cs[j].distance < OLDEST
    ensures Scan(cs[i..], None).Some? ==>
              exists k: nat :: IsFirstNearest(cs, k) && Scan(cs[i..], None) == Some(cs[k])
    decreases |cs| - i
  {
    if i < |cs| {
      assert cs[i..][1..] == cs[i + 1..];
      if Improves(cs[i], None) {
        var _ := ScanFrom(cs, i, i + 1);
      } else {
        ScanFindsNearest(cs, i + 1);
      }
    }
  }

  /** On the track the next train is found on, no train that still counts is nearer among those
      looked at; if there is no next train, all that were reported arrived too long ago. */
  lemma NextTrainIsNearest(q: Query)
    requires ValidQuery(q)
    ensures var (found, own) := NextTrain(q);
            var track := if own then OwnTrack(q) else OtherTrack(q);
            && (!own ==> forall s :: s in OwnTrack(q) ==> s.distance < OLDEST)
            && (found.None? ==> forall s :: s in OtherTrack(q) ==> s.distance < OLDEST)
            && (found.Some? ==> exists k: nat :: IsFirstNearest(track, k) && found.value == track[k])
  {
    assert OwnTrack(q)[0..] == OwnTrack(q) && OtherTrack(q)[0..] == OtherTrack(q);
    ScanFindsNearest(OwnTrack(q), 0);
    ScanFindsNearest(OtherTrack(q), 0);
  }

  lemma {:induction false} ScanFindsSeen(q: Query, order: seq<nat>, up: bool, best: Option<Sighting>)
    requires ValidQuery(q)
    ensures var found := Scan(Seen(q, order, up), best);
            found == best || (found.Some? && OLDEST <= found.value.distance
                              && found.value.index in order && found == Look(q, found.value.index, up))
    decreases |order|
  {
    if order != [] {
      var s, rest := Look(q, order[0], up), Seen(q, order[1..], up);
      if s.Some? {
        assert Seen(q, order, up)[1..] == rest;
        ScanFindsSeen(q, order[1..], up, if Improves(s.value, best) then s else best);
      } else {
        assert Seen(q, order, up) == rest;
        ScanFindsSeen(q, order[1..], up, best);
      }
    }
  }

  lemma {:induction false} CountDownBounds(i: int)
    ensures forall k :: k in CountDown(i) ==> k <= i
    decreases i
  {
    if 0 <= i {
      CountDownBounds(i - 1);
    }
  }

  lemma {:induction false} CountUpBounds(i: nat, n: nat)
    ensures forall k :: k in CountUp(i, n) ==> i <= k
    decreases n - i
  {
    if i < n {
      CountUpBounds(i + 1, n);
    }
  }

  /** The sighting is one of the question's line, recent enough, and of a train still to come. */
  predicate IsReal(q: Query, s: Sighting, up: bool)
    requires ValidQuery(q)
  {
    s.index < |q.stations| && OLDEST <= s.distance && Look(q, s.index, up) == Some(s)
    && Coming(q.user, s.index, q.movingUp, up)
  }

  lemma OwnTrackIsReal(q: Query)
    requires ValidQuery(q) && Scan(OwnTrack(q), None).Some?
    ensures IsReal(q, Scan(OwnTrack(q), None).value, q.movingUp)
  {
    if q.movingUp {
      ScanFindsSeen(q, CountDown(q.user), true, None);
      CountDownBounds(q.user);
    } else {
      ScanFindsSeen(q, CountUp(q.user, |q.stations|), false, None);
      CountUpBounds(q.user, |q.stations|);
    }
  }

  lemma OtherTrackIsReal(q: Query)
    requires ValidQuery(q) && Scan(OtherTrack(q), None).Some?
    ensures IsReal(q, Scan(OtherTrack(q), None).value, !q.movingUp)
  {
    if q.movingUp {
      ScanFindsSeen(q, CountUp(0, |q.stations|), false, None);
    } else {
      ScanFindsSeen(q, CountDown(|q.stations| - 1), true, None);
    }
  }

  /** A train that is found is at a station of the line, was really reported there, and its
      distance is the time along the tracks less the age of the report. */
  lemma FoundTrainIsReal(q: Query)
    requires ValidQuery(q) && NextTrain(q).0.Some?
    ensures IsReal(q, NextTrain(q).0.value, NextTrain(q).1 == q.movingUp)
  {
    if NextTrain(q).1 {
      OwnTrackIsReal(q);
    } else {
      OtherTrackIsReal(q);
    }
  }

  /** An answer is at least -30 s, at most 1.2 times the line's train frequency if that is positive and, if
      a train was seen here and the next is not overdue, at most 1.2 times what is left of it. */
  lemma AnswersAreBounded(lines: seq<seq<StationId>>, frequencies: seq<Option<int>>, dur: Durations, presence: Presence,
                          station: StationId, direction: StationId, now: int, later: int)
    requires Serve(lines, station) && |frequencies| == |lines|
    requires ETA(lines, frequencies, dur, presence, station, direction, now, later).Success?
    ensures ChooseLine(lines, direction).Some?
    ensures var eta := ETA(lines, frequencies, dur, presence, station, direction, now, later).value;
            var k := ChooseLine(lines, direction).value.0;
            && OLDEST <= eta && frequencies[k].Some?
            && (0 < frequencies[k].value ==> eta * 5000 <= frequencies[k].value * 6)
            && match Lookup(presence, station, direction)
               case None => true
               case Some(seen) =>
                 var remaining := frequencies[k].value - (later - seen);
                 0 < remaining ==> eta * 5000 <= remaining * 6
  {
    var chosen := ChooseLine(lines, direction).value;
    var ss := lines[chosen.0];
    IndexOfFinds(ss, station);
    FoundTrainIsReal(Query(ss, dur, presence, now, IndexOf(ss, station), chosen.1));
  }

  // ----- The mirror law -----

  /** The same question asked of the line listed from its other end. */
  function Mirrored(q: Query): Query
    requires ValidQuery(q)
  {
    Query(Reverse(q.stations), q.durations, q.presence, q.now, |q.stations| - 1 - q.user, !q.movingUp)
  }

  predicate SameTrain(n: nat, s: Sighting, s': Sighting) {
    s.index < n && s'.index == n - 1 - s.index && s'.age == s.age && s'.distance == s.distance
  }

  predicate SameFind(n: nat, a: Option<Sighting>, b: Option<Sighting>) {
    a.Some? == b.Some? && (a.Some? ==> SameTrain(n, a.value, b.value))
  }

  ghost predicate SameTrains(n: nat, cs: seq<Sighting>, cs': seq<Sighting>) {
    |cs'| == |cs| && forall i :: 0 <= i < |cs| ==> SameTrain(n, cs[i], cs'[i])
  }

  lemma MirroredLook(q: Query, i: nat, up: bool)
    requires ValidQuery(q) && i < |q.stations|
    ensures SameFind(|q.stations|, Look(q, i, up), Look(Mirrored(q), |q.stations| - 1 - i, !up))
  {
    MirroredTime(q.stations, q.durations, Place(i, up), Place(q.user, q.movingUp));
  }

  lemma SameTrainsAppend(n: nat, a: Option<Sighting>, cs: seq<Sighting>, a': Option<Sighting>, cs': seq<Sighting>)
    requires SameFind(n, a, a') && SameTrains(n, cs, cs')
    ensures SameTrains(n, AsSeq(a) + cs, AsSeq(a') + cs')
  {
  }

  lemma SeenDown(q: Query, i: nat, up: bool)
    requires ValidQuery(q)
    ensures Seen(q, CountDown(i), up) == AsSeq(Look(q, i, up)) + Seen(q, CountDown(i - 1), up)
  {
    assert CountDown(i)[1..] == CountDown(i - 1);
  }

  lemma SeenUp(q: Query, i: nat, n: nat, up: bool)
    requires ValidQuery(q) && i < n
    ensures Seen(q, CountUp(i, n), up) == AsSeq(Look(q, i, up)) + Seen(q, CountUp(i + 1, n), up)
  {
    assert CountUp(i, n)[1..] == CountUp(i + 1, n);
  }

  lemma {:induction false} MirroredSeen(q: Query, i: int, up: bool)
    requires ValidQuery(q) && -1 <= i < |q.stations|
    ensures SameTrains(|q.stations|, Seen(q, CountDown(i), up),
                       Seen(Mirrored(q), CountUp(|q.stations| - 1 - i, |q.stations|), !up))
    decreases i + 1
  {
    var n, m := |q.stations|, Mirrored(q);
    if 0 <= i {
      var j := n - 1 - i;
      var a, b := Look(q, i, up), Look(m, j, !up);
      var xs, ys := Seen(q, CountDown(i - 1), up), Seen(m, CountUp(j + 1, n), !up);
      assert SameFind(n, a, b) by {
        MirroredLook(q, i, up);
      }
      assert SameTrains(n, xs, ys) by {
        MirroredSeen(q, i - 1, up);
      }
      SameTrainsAppend(n, a, xs, b, ys);
      SeenDown(q, i, up);
      SeenUp(m, j, n, !up);
    }
  }

  lemma {:induction false} MirroredScan(n: nat, cs: seq<Sighting>, cs': seq<Sighting>, best: Option<Sighting>,
                                        best': Option<Sighting>)
    requires SameTrains(n, cs, cs') && SameFind(n, best, best')
    ensures SameFind(n, Scan(cs, best), Scan(cs', best'))
    decreases |cs|
  {
    if cs != [] {
      assert SameTrain(n, cs[0], cs'[0]);
      if Improves(cs[0], best) {
        MirroredScan(n, cs[1..], cs'[1..], Some(cs[0]), Some(cs'[0]));
      } else {
        MirroredScan(n, cs[1..], cs'[1..], best, best');
      }
    }
  }

  lemma MirrorTwice(q: Query)
    requires ValidQuery(q)
    ensures Mirrored(Mirrored(q)) == q
  {
    assert Reverse(Reverse(q.stations)) == q.stations;
  }

  lemma SameTrainsBack(n: nat, cs: seq<Sighting>, cs': seq<Sighting>)
    requires SameTrains(n, cs, cs')
    ensures SameTrains(n, cs', cs)
  {
    forall i | 0 <= i < |cs'|
      ensures SameTrain(n, cs'[i], cs[i])
    {
      assert SameTrain(n, cs[i], cs'[i]);
    }
  }

  lemma MirroredOwnTrack(q: Query)
    requires ValidQuery(q) && q.movingUp
    ensures SameTrains(|q.stations|, OwnTrack(q), OwnTrack(Mirrored(q)))
  {
    var n, m := |q.stations|, Mirrored(q);
    assert OwnTrack(q) == Seen(q, CountDown(q.user), true) && OwnTrack(m) == Seen(m, CountUp(n - 1 - q.user, n), false);
    MirroredSeen(q, q.user, true);
  }

  lemma MirroredOtherTrack(q: Query)
    requires ValidQuery(q) && q.movingUp
    ensures SameTrains(|q.stations|, OtherTrack(q), OtherTrack(Mirrored(q)))
  {
    MirrorTwice(q);
    MirroredSeen(Mirrored(q), |q.stations| - 1, true);
    SameTrainsBack(|q.stations|, OtherTrack(Mirrored(q)), OtherTrack(q));
  }

  lemma MirrorLawUp(q: Query)
    requires ValidQuery(q) && q.movingUp
    ensures NextTrain(Mirrored(q)).1 == NextTrain(q).1
    ensures SameFind(|q.stations|, NextTrain(q).0, NextTrain(Mirrored(q)).0)
  {
    var n, m := |q.stations|, Mirrored(q);
    MirroredOwnTrack(q);
    MirroredScan(n, OwnTrack(q), OwnTrack(m), None, None);
    MirroredOtherTrack(q);
    MirroredScan(n, OtherTrack(q), OtherTrack(m), None, None);
  }

  /** Asking from the other end finds the same train: the branch for users who move up and the
      branch for users who move down agree. */
  lemma MirrorLaw(q: Query)
    requires ValidQuery(q)
    ensures NextTrain(Mirrored(q)).1 == NextTrain(q).1
    ensures SameFind(|q.stations|, NextTrain(q).0, NextTrain(Mirrored(q)).0)
  {
    if q.movingUp {
      MirrorLawUp(q);
    } else {
      MirrorTwice(q);
      MirrorLawUp(Mirrored(q));
    }
  }

  function ReverseAll(lines: seq<seq<StationId>>): seq<seq<StationId>> {
    seq(|lines|, i requires 0 <= i < |lines| => Reverse(lines[i]))
  }

  lemma ReverseServes(lines: seq<seq<StationId>>, station: StationId)
    requires Serve(lines, station)
    ensures Serve(ReverseAll(lines), station)
  {
    forall k | 0 <= k < |lines|
      ensures Reverse(lines[k]) != [] && station in Reverse(lines[k])
      ensures forall i, j :: 0 <= i < j < |lines[k]| ==> Reverse(lines[k])[i] != Reverse(lines[k])[j]
    {
      var i :| 0 <= i < |lines[k]| && lines[k][i] == station;
      assert Reverse(lines[k])[|lines[k]| - 1 - i] == station;
    }
  }

  predicate EndsDiffer(ss: seq<StationId>) {
    ss != [] && (|ss| > 1 ==> ss[0] != ss[|ss| - 1])
  }

  lemma WayReversed(ss: seq<StationId>, direction: StationId)
    requires EndsDiffer(ss)
    ensures Way(Reverse(ss), direction)
         == if |ss| == 1 then Way(ss, direction)
            else match Way(ss, direction) case None => None case Some(up) => Some(!up)
  {
  }

  lemma {:induction false} ChooseReversed(lines: seq<seq<StationId>>, direction: StationId)
    requires forall k :: 0 <= k < |lines| ==> lines[k] != [] && EndsDiffer(lines[k])
    ensures var chosen, mirrored := ChooseLine(lines, direction), ChooseLine(ReverseAll(lines), direction);
            match chosen
            case None => mirrored == None
            case Some((k, up)) => mirrored == Some((k, if |lines[k]| > 1 then !up else up))
    decreases |lines|
  {
    if lines != [] {
      var n := |lines| - 1;
      assert ReverseAll(lines[..n]) == ReverseAll(lines)[..n];
      WayReversed(lines[n], direction);
      ChooseReversed(lines[..n], direction);
    }
  }

  lemma OnlyIndex(ss: seq<StationId>, station: StationId, i: nat)
    requires i < |ss| && ss[i] == station && forall i, j :: 0 <= i < j < |ss| ==> ss[i] != ss[j]
    ensures IndexOf(ss, station) == i
  {
    IndexOfFinds(ss, station);
  }

  lemma SameFindSameAnswer(n: nat, a: Option<Sighting>, b: Option<Sighting>, frequency: Option<int>,
                           seenHere: Option<int>, now: int)
    requires SameFind(n, a, b)
    ensures Conclude(a, frequency, seenHere, now) == Conclude(b, frequency, seenHere, now)
  {
  }

  /** A line listed from its other end gives the same answer to the same user. */
  lemma ReversedLineETA(ss: seq<StationId>, frequency: Option<int>, dur: Durations, presence: Presence,
                        station: StationId, direction: StationId, now: int, later: int, up: bool)
    requires station in ss && forall i, j :: 0 <= i < j < |ss| ==> ss[i] != ss[j]
    ensures IndexOf(ss, station) < |ss| && IndexOf(Reverse(ss), station) < |ss|
    ensures LineETA(Reverse(ss), !up, frequency, dur, presence, station, direction, now, later)
         == LineETA(ss, up, frequency, dur, presence, station, direction, now, later)
  {
    IndexOfFinds(ss, station);
    var user := IndexOf(ss, station);
    OnlyIndex(Reverse(ss), station, |ss| - 1 - user);
    var q := Query(ss, dur, presence, now, user, up);
    assert Mirrored(q) == Query(Reverse(ss), dur, presence, now, IndexOf(Reverse(ss), station), !up);
    MirrorLaw(q);
    SameFindSameAnswer(|ss|, NextTrain(q).0, NextTrain(Mirrored(q)).0, frequency,
                       Lookup(presence, station, direction), later);
  }

  /** Listing the stations of every line the other way round changes no answer. */
  lemma ListingOrderIsIrrelevant(lines: seq<seq<StationId>>, frequencies: seq<Option<int>>, dur: Durations,
                                 presence: Presence, station: StationId, direction: StationId, now: int, later: int)
    requires Serve(lines, station) && |frequencies| == |lines|
    ensures Serve(ReverseAll(lines), station)
    ensures ETA(ReverseAll(lines), frequencies, dur, presence, station, direction, now, later)
         == ETA(lines, frequencies, dur, presence, station, direction, now, later)
  {
    ReverseServes(lines, station);
    ChooseReversed(lines, direction);
    var chosen, mirrored := ChooseLine(lines, direction), ChooseLine(ReverseAll(lines), direction);
    if chosen.Some? {
      var k := chosen.value.0;
      assert ReverseAll(lines)[k] == Reverse(lines[k]);
      if |lines[k]| > 1 {
        ReversedLineETA(lines[k], frequencies[k], dur, presence, station, direction, now, later, chosen.value.1);
      } else {
        assert Reverse(lines[k]) == lines[k];
      }
    }
  }
}
