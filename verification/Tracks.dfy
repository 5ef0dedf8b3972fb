/** A line as a loop of two tracks: trains go up one, turn, come down the other and turn again. */
module Tracks {
  import opened Identifiers

  /** Time in seconds between neighbouring stations. */
  type Durations = (StationId, StationId) -> int

  const TURN := 120

  /** Where a train is: at a station, given by its index, on the way up or down. */
  datatype Place = Place(index: int, up: bool)

  predicate On(n: nat, p: Place) {
    0 <= p.index < n
  }

  function Ahead(n: nat, p: Place): (q: Place)
    requires On(n, p)
    ensures On(n, q)
  {
    if p.up then if p.index + 1 < n then Place(p.index + 1, true) else Place(p.index, false)
    else if 0 < p.index then Place(p.index - 1, false) else Place(p.index, true)
  }

  function StepTime(ss: seq<StationId>, dur: Durations, p: Place): int
    requires On(|ss|, p)
  {
    var q := Ahead(|ss|, p);
    if q.up != p.up then TURN else dur(ss[p.index], ss[q.index])
  }

  /** How many steps along the loop p is past the lower end of the way up. */
  function Along(n: nat, p: Place): nat
    requires On(n, p)
  {
    if p.up then p.index else 2 * n - 1 - p.index
  }

  /** How many steps lead from p to q. */
  function Steps(n: nat, p: Place, q: Place): nat
    requires On(n, p) && On(n, q)
  {
    if Along(n, p) <= Along(n, q) then Along(n, q) - Along(n, p) else Along(n, q) - Along(n, p) + 2 * n
  }

  /** The time it takes to follow the loop from p to q. */
  function TrackTime(ss: seq<StationId>, dur: Durations, p: Place, q: Place): int
    requires On(|ss|, p) && On(|ss|, q)
    decreases Steps(|ss|, p, q)
  {
    if p == q then 0 else StepTime(ss, dur, p) + TrackTime(ss, dur, Ahead(|ss|, p), q)
  }

  // ----- Sums along one track -----

  function TimeUp(ss: seq<StationId>, dur: Durations, i: nat, j: nat): int
    requires j < |ss|
    decreases j - i
  {
    if j <= i then 0 else dur(ss[i], ss[i + 1]) + TimeUp(ss, dur, i + 1, j)
  }

  function TimeDown(ss: seq<StationId>, dur: Durations, i: nat, j: nat): int
    requires i < |ss|
    decreases i
  {
    if i <= j then 0 else dur(ss[i], ss[i - 1]) + TimeDown(ss, dur, i - 1, j)
  }

  /** What getTimeDistance adds up: one track or, when the train goes the other way, the rest of
      its track, the turn and the other track. */
  function TimeDistance(ss: seq<StationId>, dur: Durations, user: nat, trainAt: nat, movingUp: bool,
                        trainMovingUp: bool): int
    requires user < |ss| && trainAt < |ss|
  {
    if trainMovingUp == movingUp then
      if movingUp then TimeUp(ss, dur, trainAt, user) else TimeDown(ss, dur, trainAt, user)
    else if trainMovingUp then
      TimeUp(ss, dur, trainAt, |ss| - 1) + TURN + TimeDown(ss, dur, |ss| - 1, user)
    else
      TimeDown(ss, dur, trainAt, 0) + TURN + TimeUp(ss, dur, 0, user)
  }

  lemma {:induction false} UpTheTrack(ss: seq<StationId>, dur: Durations, i: nat, j: nat, q: Place)
    requires i <= j < |ss| && On(|ss|, q) && (q.up ==> q.index >= j || q.index < i)
    ensures TrackTime(ss, dur, Place(i, true), q) == TimeUp(ss, dur, i, j) + TrackTime(ss, dur, Place(j, true), q)
    decreases j - i
  {
    if i < j {
      UpTheTrack(ss, dur, i + 1, j, q);
    }
  }

  lemma {:induction false} DownTheTrack(ss: seq<StationId>, dur: Durations, i: nat, j: nat, q: Place)
    requires j <= i < |ss| && On(|ss|, q) && (!q.up ==> q.index <= j || q.index > i)
    ensures TrackTime(ss, dur, Place(i, false), q) == TimeDown(ss, dur, i, j) + TrackTime(ss, dur, Place(j, false), q)
    decreases i
  {
    if j < i {
      DownTheTrack(ss, dur, i - 1, j, q);
    }
  }

  /** The train is on the other track, or has not passed the user yet. */
  predicate Coming(user: nat, trainAt: nat, movingUp: bool, trainMovingUp: bool) {
    trainMovingUp == movingUp ==> if movingUp then trainAt <= user else user <= trainAt
  }

  /** The distance is the time along the loop from the train to the user. */
  lemma DistanceIsTrackTime(ss: seq<StationId>, dur: Durations, user: nat, trainAt: nat, movingUp: bool,
                            trainMovingUp: bool)
    requires user < |ss| && trainAt < |ss|
    ensures Coming(user, trainAt, movingUp, trainMovingUp) ==>
              TimeDistance(ss, dur, user, trainAt, movingUp, trainMovingUp)
              == TrackTime(ss, dur, Place(trainAt, trainMovingUp), Place(user, movingUp))
    ensures !Coming(user, trainAt, movingUp, trainMovingUp) ==>
              TimeDistance(ss, dur, user, trainAt, movingUp, trainMovingUp) == 0
  {
    var n, q := |ss|, Place(user, movingUp);
    if Coming(user, trainAt, movingUp, trainMovingUp) {
      if trainMovingUp {
        UpTheTrack(ss, dur, trainAt, if movingUp then user else n - 1, q);
        if !movingUp {
          DownTheTrack(ss, dur, n - 1, user, q);
        }
      } else {
        DownTheTrack(ss, dur, trainAt, if movingUp then 0 else user, q);
        if movingUp {
          UpTheTrack(ss, dur, 0, user, q);
        }
      }
    }
  }

  // ----- Looking at the line from its other end -----

  function Reverse(ss: seq<StationId>): (rs: seq<StationId>)
    ensures |rs| == |ss|
  {
    seq(|ss|, i requires 0 <= i < |ss| => ss[|ss| - 1 - i])
  }

  function Mirror(n: nat, p: Place): Place {
    Place(n - 1 - p.index, !p.up)
  }

  lemma {:induction false} MirroredTime(ss: seq<StationId>, dur: Durations, p: Place, q: Place)
    requires On(|ss|, p) && On(|ss|, q)
    ensures TrackTime(Reverse(ss), dur, Mirror(|ss|, p), Mirror(|ss|, q)) == TrackTime(ss, dur, p, q)
    decreases Steps(|ss|, p, q)
  {
    if p != q {
      MirroredTime(ss, dur, Ahead(|ss|, p), q);
    }
  }
}
