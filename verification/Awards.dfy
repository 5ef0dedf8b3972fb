/** Who gets the achievements for visiting stations and for submitting trips, edits and reports
    (posplay/achievementstrategies.go), over whole runs. */
module Awards {
  import opened Wrappers
  import opened Identifiers
  import opened Ledger
  import opened Achievements

  lemma {:induction false} InFilter(xs: seq<StationId>, keep: StationId -> bool, x: StationId)
    ensures x in Filter(xs, keep) <==> x in xs && keep(x)
    decreases |xs|
  {
    if xs != [] {
      InFilter(xs[1..], keep, x);
      assert xs == [xs[0]] + xs[1..];
    }
  }

  lemma InLeft(stations: seq<StationId>, existing: Option<seq<StationId>>, visited: set<StationId>,
               closed: StationId -> bool, x: StationId)
    ensures x in LeftAfter(stations, existing, visited, closed)
            <==> x in stations && x !in visited && (existing.Some? ==> x !in existing.value && !closed(x))
  {
    var left := if existing.Some? then Filter(stations, y => y !in existing.value && !closed(y)) else stations;
    InFilter(left, y => y !in visited, x);
    if existing.Some? {
      InFilter(stations, y => y !in existing.value && !closed(y), x);
    }
  }

  /** The station was visited on some trip, or was closed at some trip but the first. */
  ghost predicate Excused(trips: seq<Trip>, x: StationId) {
    exists i :: 0 <= i < |trips| && (x in VisitedBy(trips[i]) || (0 < i && trips[i].closed(x)))
  }

  ghost predicate AllExcused(stations: seq<StationId>, trips: seq<Trip>) {
    forall x :: x in stations ==> Excused(trips, x)
  }

  lemma ExcusedMore(trips: seq<Trip>, trip: Trip, x: StationId)
    ensures Excused(trips + [trip], x) <==> Excused(trips, x) || x in VisitedBy(trip) || (trips != [] && trip.closed(x))
  {
    var more := trips + [trip];
    assert forall i :: 0 <= i < |trips| ==> more[i] == trips[i];
    assert more[|trips|] == trip;
  }

  /** The progress stored so far is of the stations excused so far. */
  ghost predicate ProgressIs(rows: Rows, player: PlayerId, id: string, stations: seq<StationId>, trips: seq<Trip>) {
    match StoredProgress(rows, player, id)
    case None => trips == []
    case Some(visited) => trips != [] && forall x :: x in visited <==> x in stations && Excused(trips, x)
  }

  lemma LeftIsUnexcused(rows: Rows, player: PlayerId, id: string, stations: seq<StationId>, trips: seq<Trip>,
                        trip: Trip)
    requires ProgressIs(rows, player, id, stations, trips)
    ensures var left := LeftAfter(stations, StoredProgress(rows, player, id), VisitedBy(trip), trip.closed);
            && (forall x :: x in left <==> x in stations && !Excused(trips + [trip], x))
            && (forall x :: x in ProgressOf(stations, left) <==> x in stations && Excused(trips + [trip], x))
            && (left == [] <==> AllExcused(stations, trips + [trip]))
  {
    var existing := StoredProgress(rows, player, id);
    var left := LeftAfter(stations, existing, VisitedBy(trip), trip.closed);
    forall x
      ensures x in left <==> x in stations && !Excused(trips + [trip], x)
      ensures x in ProgressOf(stations, left) <==> x in stations && Excused(trips + [trip], x)
    {
      InLeft(stations, existing, VisitedBy(trip), trip.closed, x);
      ExcusedMore(trips, trip, x);
      InFilter(stations, y => y !in left, x);
    }
    if left != [] {
      InLeft(stations, existing, VisitedBy(trip), trip.closed, left[0]);
      ExcusedMore(trips, trip, left[0]);
    } else {
      forall x | x in stations
        ensures Excused(trips + [trip], x)
      {
        InLeft(stations, existing, VisitedBy(trip), trip.closed, x);
        ExcusedMore(trips, trip, x);
      }
    }
  }

  // ----- One trip -----

  /** Some one trip visited every station. */
  ghost predicate AllAtOnce(stations: seq<StationId>, trips: seq<Trip>) {
    exists i :: 0 <= i < |trips| && VisitsAll(stations, trips[i])
  }

  ghost predicate VisitsAll(stations: seq<StationId>, trip: Trip) {
    forall x :: x in stations ==> x in VisitedBy(trip)
  }

  /** What these trips of a player win. */
  ghost predicate Won(s: Strategy, trips: seq<Trip>)
    requires s.VisitStations?
  {
    if s.singleTrip then AllAtOnce(s.stations, trips) else trips != [] && AllExcused(s.stations, trips)
  }

  /** The row is the one these trips lead to. */
  ghost predicate Reflects(rows: Rows, player: PlayerId, a: Achievement, trips: seq<Trip>)
    requires a.strategy.VisitStations?
  {
    && (HasAchieved(rows, player, a.id) <==> Won(a.strategy, trips))
    && (!a.strategy.singleTrip && !HasAchieved(rows, player, a.id) ==>
          ProgressIs(rows, player, a.id, a.strategy.stations, trips))
  }

  lemma LeftAtOnce(stations: seq<StationId>, trip: Trip)
    ensures LeftAfter(stations, None, VisitedBy(trip), trip.closed) == [] <==> VisitsAll(stations, trip)
  {
    var visited := VisitedBy(trip);
    var left := LeftAfter(stations, None, visited, trip.closed);
    if left != [] {
      InLeft(stations, None, visited, trip.closed, left[0]);
    } else {
      forall x | x in stations
        ensures x in visited
      {
        InLeft(stations, None, visited, trip.closed, x);
      }
    }
  }

  lemma WonMore(s: Strategy, trips: seq<Trip>, trip: Trip)
    requires s.VisitStations?
    ensures s.singleTrip ==> (Won(s, trips + [trip]) <==> Won(s, trips) || VisitsAll(s.stations, trip))
    ensures Won(s, trips) ==> Won(s, trips + [trip])
  {
    var more := trips + [trip];
    assert forall i :: 0 <= i < |trips| ==> more[i] == trips[i];
    assert more[|trips|] == trip;
    if !s.singleTrip {
      forall x | x in s.stations
        ensures Excused(trips, x) ==> Excused(more, x)
      {
        ExcusedMore(trips, trip, x);
      }
    }
  }

  /** A trip of a player who has not got the achievement yet, and what it leaves of one who has. */
  lemma OneTripReflects(g: Game, player: PlayerId, a: Achievement, trips: seq<Trip>, trip: Trip)
    requires a.strategy.VisitStations? && Reflects(g.rows, player, a, trips)
    ensures Reflects(OnDeed(g, player, a, NewTrip(trip)).rows, player, a, trips + [trip])
  {
    WonMore(a.strategy, trips, trip);
    if !HasAchieved(g.rows, player, a.id) {
      if a.strategy.singleTrip {
        LeftAtOnce(a.strategy.stations, trip);
      } else {
        LeftIsUnexcused(g.rows, player, a.id, a.strategy.stations, trips, trip);
      }
    }
  }

  // ----- One achievement among the others -----

  /** The player's row of that achievement is the same. */
  predicate SameRow(rows: Rows, rows': Rows, player: PlayerId, id: string) {
    var key := (player, id);
    (key in rows <==> key in rows') && (key in rows ==> rows[key] == rows'[key])
  }

  lemma {:induction false} TransactionKeepsRow(rules: Rules, g: Game, player: Player, tx: Tx, diff: int, k: nat,
                                               id: PlayerId, j: nat)
    requires DistinctIds(rules.achievements) && k <= |rules.achievements|
    requires j < |rules.achievements| && !rules.achievements[j].strategy.ReachLevel?
    ensures SameRow(g.rows, TransactionFrom(rules, g, player, tx, diff, k).rows, id, rules.achievements[j].id)
    decreases |rules.achievements| - k
  {
    if k < |rules.achievements| {
      var a := rules.achievements[k];
      assert k != j ==> a.id != rules.achievements[j].id;
      TransactionKeepsRow(rules, OnTransaction(rules, g, player, a, tx, diff), player, tx, diff, k + 1, id, j);
    }
  }

  lemma {:induction false} DeedKeepsRow(achievements: seq<Achievement>, g: Game, doer: PlayerId, deed: Deed, k: nat,
                                        player: PlayerId, j: nat)
    requires DistinctIds(achievements) && k <= |achievements| && j < |achievements|
    requires doer != player || j < k
    ensures SameRow(g.rows, DeedFrom(achievements, g, doer, deed, k).rows, player, achievements[j].id)
    decreases |achievements| - k
  {
    if k < |achievements| {
      assert k != j ==> achievements[k].id != achievements[j].id;
      DeedKeepsRow(achievements, OnDeed(g, doer, achievements[k], deed), doer, deed, k + 1, player, j);
    }
  }

  lemma SameRowSameDeed(g: Game, g': Game, player: PlayerId, a: Achievement, deed: Deed)
    requires SameRow(g.rows, g'.rows, player, a.id)
    ensures SameRow(OnDeed(g, player, a, deed).rows, OnDeed(g', player, a, deed).rows, player, a.id)
  {
  }

  /** To one achievement a deed does what it does to that one alone. */
  lemma {:induction false} DeedDoesOnce(achievements: seq<Achievement>, g: Game, player: PlayerId, deed: Deed, k: nat,
                                        j: nat)
    requires DistinctIds(achievements) && k <= j < |achievements|
    ensures SameRow(OnDeed(g, player, achievements[j], deed).rows, DeedFrom(achievements, g, player, deed, k).rows,
                    player, achievements[j].id)
    decreases j - k
  {
    var g1 := OnDeed(g, player, achievements[k], deed);
    if k == j {
      DeedKeepsRow(achievements, g1, player, deed, k + 1, player, j);
    } else {
      assert achievements[k].id != achievements[j].id;
      SameRowSameDeed(g, g1, player, achievements[j], deed);
      DeedDoesOnce(achievements, g1, player, deed, k + 1, j);
    }
  }

  /** What anything that happens does to the row of an achievement that is not for a level. */
  lemma HappensToRow(rules: Rules, g: Game, h: Happening, player: PlayerId, j: nat)
    requires DistinctIds(rules.achievements)
    requires j < |rules.achievements| && !rules.achievements[j].strategy.ReachLevel?
    ensures var a := rules.achievements[j];
            SameRow(if h.Doing? && h.player == player then OnDeed(g, player, a, h.deed).rows else g.rows,
                    Happens(rules, g, h).rows, player, a.id)
  {
    match h
    case Transaction(_, _, _, _, _, _, _) =>
    case Doing(doer, deed) =>
      if doer == player {
        DeedDoesOnce(rules.achievements, g, player, deed, 0, j);
      } else {
        DeedKeepsRow(rules.achievements, g, doer, deed, 0, player, j);
      }
    case Processing =>
      if g.book.queue != [] {
        var item := g.book.queue[0];
        var tx := FindTx(g.book.txs, item.id);
        if tx.Some? && FindPlayer(rules.players, tx.value.player).Some? {
          var g1 := g.(book := g.book.(queue := g.book.queue[1..]));
          var looking := FindPlayer(rules.players, tx.value.player).value;
          TransactionKeepsRow(rules, g1, looking, tx.value, item.diff, 0, player, j);
        }
      }
  }

  // ----- Visiting, over whole runs -----

  function TripOf(h: Happening, player: PlayerId): seq<Trip> {
    if h.Doing? && h.player == player && h.deed.NewTrip? then [h.deed.trip] else []
  }

  /** The trips a player submitted in a run. */
  function TripsOf(hs: seq<Happening>, player: PlayerId): seq<Trip> {
    if hs == [] then [] else TripsOf(hs[..|hs| - 1], player) + TripOf(hs[|hs| - 1], player)
  }

  lemma SameRowReflects(rows: Rows, rows': Rows, player: PlayerId, a: Achievement, trips: seq<Trip>)
    requires a.strategy.VisitStations? && SameRow(rows, rows', player, a.id) && Reflects(rows, player, a, trips)
    ensures Reflects(rows', player, a, trips)
  {
  }

  lemma HappensReflects(rules: Rules, g: Game, h: Happening, player: PlayerId, j: nat, trips: seq<Trip>)
    requires DistinctIds(rules.achievements)
    requires j < |rules.achievements| && rules.achievements[j].strategy.VisitStations?
    requires Reflects(g.rows, player, rules.achievements[j], trips)
    ensures Reflects(Happens(rules, g, h).rows, player, rules.achievements[j], trips + TripOf(h, player))
  {
    var a, rows' := rules.achievements[j], Happens(rules, g, h).rows;
    HappensToRow(rules, g, h, player, j);
    assert trips + [] == trips;
    if h.Doing? && h.player == player {
      if h.deed.NewTrip? {
        OneTripReflects(g, player, a, trips, h.deed.trip);
      }
      SameRowReflects(OnDeed(g, player, a, h.deed).rows, rows', player, a, trips + TripOf(h, player));
    } else {
      SameRowReflects(g.rows, rows', player, a, trips);
    }
  }

  /** Over every run, whatever other players, trips and transactions come between: an achievement for
      visiting stations is held exactly if the player's trips win it.  In a single trip nothing but
      visiting every station counts; over several, every station must have been visited on some
      trip, or have been closed at some trip but the first, and until then those are stored. */
  lemma {:induction false} VisitsAreAwardedIff(rules: Rules, hs: seq<Happening>, player: PlayerId, j: nat)
    requires DistinctIds(rules.achievements)
    requires j < |rules.achievements| && rules.achievements[j].strategy.VisitStations?
    ensures var a, rows := rules.achievements[j], HappenAll(rules, START, hs).rows;
            var trips, stations := TripsOf(hs, player), a.strategy.stations;
            && (HasAchieved(rows, player, a.id)
                <==> if a.strategy.singleTrip then AllAtOnce(stations, trips)
                     else trips != [] && AllExcused(stations, trips))
            && (!a.strategy.singleTrip && !HasAchieved(rows, player, a.id) ==>
                  ProgressIs(rows, player, a.id, stations, trips))
    decreases |hs|
  {
    if hs != [] {
      var front := hs[..|hs| - 1];
      VisitsAreAwardedIff(rules, front, player, j);
      HappensReflects(rules, HappenAll(rules, START, front), hs[|hs| - 1], player, j, TripsOf(front, player));
    }
  }

  // ----- Submitting, over whole runs -----

  /** The player submits what is asked for; trips and edits must be of two stations or more. */
  predicate Submits(h: Happening, player: PlayerId, what: Submission) {
    && h.Doing? && h.player == player
    && match h.deed
       case NewTrip(trip) => what.OfTrip? && |trip.uses| > 1
       case EditedTrip(trip) => what.OfEdit? && |trip.uses| > 1
       case SentReport(_) => what.OfReport?
  }

  ghost predicate Submitted(hs: seq<Happening>, player: PlayerId, what: Submission) {
    exists i :: 0 <= i < |hs| && Submits(hs[i], player, what)
  }

  lemma SubmittedMore(hs: seq<Happening>, player: PlayerId, what: Submission)
    requires hs != []
    ensures Submitted(hs, player, what)
            <==> Submitted(hs[..|hs| - 1], player, what) || Submits(hs[|hs| - 1], player, what)
  {
    var front := hs[..|hs| - 1];
    assert forall i :: 0 <= i < |front| ==> front[i] == hs[i];
  }

  /** Over every run, an achievement for submitting something is held exactly by those who did. */
  lemma {:induction false} SubmissionsAreAwardedIff(rules: Rules, hs: seq<Happening>, player: PlayerId, j: nat)
    requires DistinctIds(rules.achievements)
    requires j < |rules.achievements| && rules.achievements[j].strategy.Submit?
    ensures var a := rules.achievements[j];
            HasAchieved(HappenAll(rules, START, hs).rows, player, a.id) <==> Submitted(hs, player, a.strategy.what)
    decreases |hs|
  {
    if hs != [] {
      var front, h := hs[..|hs| - 1], hs[|hs| - 1];
      SubmissionsAreAwardedIff(rules, front, player, j);
      HappensToRow(rules, HappenAll(rules, START, front), h, player, j);
      SubmittedMore(hs, player, rules.achievements[j].strategy.what);
    }
  }

  // ----- Other trips, over whole runs -----

  /** The player submits a trip that meets the criteria of the achievement. */
  predicate Meets(h: Happening, player: PlayerId, id: string) {
    h.Doing? && h.player == player && h.deed.NewTrip? && id in h.deed.trip.eligible
  }

  ghost predicate HasMet(hs: seq<Happening>, player: PlayerId, id: string) {
    exists i :: 0 <= i < |hs| && Meets(hs[i], player, id)
  }

  lemma MetMore(hs: seq<Happening>, player: PlayerId, id: string)
    requires hs != []
    ensures HasMet(hs, player, id) <==> HasMet(hs[..|hs| - 1], player, id) || Meets(hs[|hs| - 1], player, id)
  {
    var front := hs[..|hs| - 1];
    assert forall i :: 0 <= i < |front| ==> front[i] == hs[i];
  }

  /** Over every run, an achievement for a trip that meets other criteria is held exactly by those who
      submitted one that did. */
  lemma {:induction false} OtherTripsAreAwardedIff(rules: Rules, hs: seq<Happening>, player: PlayerId, j: nat)
    requires DistinctIds(rules.achievements)
    requires j < |rules.achievements| && rules.achievements[j].strategy.OtherTrip?
    ensures var a := rules.achievements[j];
            HasAchieved(HappenAll(rules, START, hs).rows, player, a.id) <==> HasMet(hs, player, a.id)
    decreases |hs|
  {
    if hs != [] {
      var front, h := hs[..|hs| - 1], hs[|hs| - 1];
      OtherTripsAreAwardedIff(rules, front, player, j);
      HappensToRow(rules, HappenAll(rules, START, front), h, player, j);
      MetMore(hs, player, rules.achievements[j].id);
    }
  }

  // ----- When an achievement is dated -----

  /** A millisecond after the trip was submitted or edited, or at the time of the report. */
  function DateOf(deed: Deed): int {
    match deed
    case NewTrip(trip) => trip.submitTime + 1
    case EditedTrip(trip) => trip.submitTime + 1
    case SentReport(time) => time
  }

  /** An achievement that is not for a level is won by a deed of the player and dated with it; once held
      it stays as it is. */
  lemma AwardsAreDated(rules: Rules, g: Game, h: Happening, player: PlayerId, j: nat)
    requires DistinctIds(rules.achievements)
    requires j < |rules.achievements| && !rules.achievements[j].strategy.ReachLevel?
    requires HasAchieved(Happens(rules, g, h).rows, player, rules.achievements[j].id)
    ensures var key, rows' := (player, rules.achievements[j].id), Happens(rules, g, h).rows;
            if HasAchieved(g.rows, player, key.1) then rows'[key] == g.rows[key]
            else h.Doing? && h.player == player && rows'[key] == Progress(true, DateOf(h.deed), [])
  {
    HappensToRow(rules, g, h, player, j);
  }
}
