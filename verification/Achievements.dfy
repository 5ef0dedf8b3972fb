/** Achievements (posplay/achievements.go, posplay/achievementstrategies.go): an XP transaction can
    bring an achievement, whose reward is another XP transaction in the same queue. */
module Achievements {
  import opened Wrappers
  import opened Identifiers
  import opened Ledger

  const REWARD := "ACHIEVEMENT_REWARD"

  datatype Submission = OfTrip | OfEdit | OfReport

  /** How an achievement is won: by reaching a level, by visiting stations, by submitting something,
      or by a trip that meets other criteria. */
  datatype Strategy =
    | ReachLevel(level: int)
    | VisitStations(stations: seq<StationId>, singleTrip: bool)
    | Submit(what: Submission)
    | OtherTrip

  datatype Achievement = Achievement(id: string, reward: int, strategy: Strategy)

  datatype Player = Player(id: PlayerId, joined: int)

  /** The row of a player and an achievement: whether it is achieved and, until then, progress. */
  datatype Progress = Progress(achieved: bool, time: int, visited: seq<StationId>)

  type Rows = map<(PlayerId, string), Progress>

  /** The players, the achievements and how many points make which level. */
  datatype Rules = Rules(players: seq<Player>, achievements: seq<Achievement>, levelOf: int -> int)

  datatype Game = Game(book: Book, rows: Rows)

  /** A submitted trip: the stations it used, with the ones added by hand marked, the stations that
      are closed or unknown at the time, and the other achievements whose criteria it meets. */
  datatype Trip = Trip(uses: seq<(StationId, bool)>, submitTime: int, closed: StationId -> bool, eligible: set<string>)

  predicate HasAchieved(rows: Rows, player: PlayerId, id: string) {
    (player, id) in rows && rows[(player, id)].achieved
  }

  function Achieve(g: Game, player: PlayerId, a: Achievement, time: int): Game {
    Game(if a.reward == 0 then g.book
         else Recorded(g.book, player, time, a.reward, REWARD, AchievementId(a.id), false, time),
         g.rows[(player, a.id) := Progress(true, time, [])])
  }

  // ----- XP transactions -----

  /** The last diff points of these lift the level to the one asked for. */
  predicate Lifts(rules: Rules, curXP: int, diff: int, level: int) {
    var cur, prev := rules.levelOf(curXP), rules.levelOf(curXP - diff);
    prev < cur && prev < level <= cur
  }

  /** The transaction lifts the player's level, as of its time, to the level asked for. */
  predicate ReachesLevel(rules: Rules, g: Game, player: Player, level: int, tx: Tx, diff: int) {
    Lifts(rules, BalanceBetween(g.book.txs, player.id, player.joined, tx.time), diff, level)
  }

  function OnTransaction(rules: Rules, g: Game, player: Player, a: Achievement, tx: Tx, diff: int): Game {
    if HasAchieved(g.rows, player.id, a.id) then g
    else if a.strategy.ReachLevel? && ReachesLevel(rules, g, player, a.strategy.level, tx, diff) then
      Achieve(g, player.id, a, tx.time + 1)
    else g
  }

  function TransactionFrom(rules: Rules, g: Game, player: Player, tx: Tx, diff: int, k: nat): Game
    requires k <= |rules.achievements|
    decreases |rules.achievements| - k
  {
    if k == |rules.achievements| then g
    else
      TransactionFrom(rules, OnTransaction(rules, g, player, rules.achievements[k], tx, diff), player, tx, diff, k + 1)
  }

  function FindTx(txs: seq<Tx>, id: nat): (tx: Option<Tx>)
    ensures tx.Some? ==> tx.value in txs && tx.value.id == id
  {
    if txs == [] then None else if txs[0].id == id then Some(txs[0]) else FindTx(txs[1..], id)
  }

  function FindPlayer(players: seq<Player>, id: PlayerId): (player: Option<Player>)
    ensures player.Some? ==> player.value in players && player.value.id == id
  {
    if players == [] then None else if players[0].id == id then Some(players[0]) else FindPlayer(players[1..], id)
  }

  /** Lets the achievements look at a transaction that changed its player's balance by diff. */
  function Processed(rules: Rules, g: Game, id: nat, diff: int): Game {
    var tx := FindTx(g.book.txs, id);
    if tx.None? then g
    else
      var player := FindPlayer(rules.players, tx.value.player);
      if player.None? then g else TransactionFrom(rules, g, player.value, tx.value, diff, 0)
  }

  /** Takes the first item off the queue and processes it. */
  function Step(rules: Rules, g: Game): Game
    requires g.book.queue != []
  {
    var item := g.book.queue[0];
    Processed(rules, g.(book := g.book.(queue := g.book.queue[1..])), item.id, item.diff)
  }

  // ----- Trips, edits and reports -----

  function Filter(xs: seq<StationId>, keep: StationId -> bool): (ys: seq<StationId>) {
    if xs == [] then []
    else (if keep(xs[0]) then [xs[0]] else []) + Filter(xs[1..], keep)
  }

  /** What is left to visit after an outing, given the progress stored before it.  Closed stations
      are excused only once there is a row to store progress in. */
  function LeftAfter(stations: seq<StationId>, existing: Option<seq<StationId>>, visited: set<StationId>,
                     closed: StationId -> bool): seq<StationId>
  {
    var left := if existing.Some? then Filter(stations, x => x !in existing.value && !closed(x)) else stations;
    Filter(left, x => x !in visited)
  }

  function ProgressOf(stations: seq<StationId>, left: seq<StationId>): seq<StationId> {
    Filter(stations, x => x !in left)
  }

  function VisitedBy(trip: Trip): set<StationId> {
    set u | u in trip.uses && !u.1 :: u.0
  }

  function StoredProgress(rows: Rows, player: PlayerId, id: string): Option<seq<StationId>> {
    if (player, id) in rows then Some(rows[(player, id)].visited) else None
  }

  function OnTrip(g: Game, player: PlayerId, a: Achievement, trip: Trip): Game {
    match a.strategy
    case ReachLevel(_) => g
    case Submit(what) => if what.OfTrip? && |trip.uses| > 1 then Achieve(g, player, a, trip.submitTime + 1) else g
    case OtherTrip => if a.id in trip.eligible then Achieve(g, player, a, trip.submitTime + 1) else g
    case VisitStations(stations, singleTrip) =>
      var existing := if singleTrip then None else StoredProgress(g.rows, player, a.id);
      var left := LeftAfter(stations, existing, VisitedBy(trip), trip.closed);
      var g1 := if singleTrip then g
                else g.(rows := g.rows[(player, a.id) := Progress(false, 0, ProgressOf(stations, left))]);
      if left == [] then Achieve(g1, player, a, trip.submitTime + 1) else g1
  }

  /** What a player submits: a trip, the first edit of one, or a disturbance report. */
  datatype Deed = NewTrip(trip: Trip) | EditedTrip(trip: Trip) | SentReport(time: int)

  function OnDeed(g: Game, player: PlayerId, a: Achievement, deed: Deed): Game {
    if HasAchieved(g.rows, player, a.id) then g
    else
      match deed
      case NewTrip(trip) => OnTrip(g, player, a, trip)
      case EditedTrip(trip) =>
        if a.strategy == Submit(OfEdit) && |trip.uses| > 1 then Achieve(g, player, a, trip.submitTime + 1) else g
      case SentReport(time) => if a.strategy == Submit(OfReport) then Achieve(g, player, a, time) else g
  }

  function DeedFrom(achievements: seq<Achievement>, g: Game, player: PlayerId, deed: Deed, k: nat): Game
    requires k <= |achievements|
    decreases |achievements| - k
  {
    if k == |achievements| then g
    else DeedFrom(achievements, OnDeed(g, player, achievements[k], deed), player, deed, k + 1)
  }

  // ----- The measure -----

  function OpenFor(rows: Rows, player: PlayerId, achievements: seq<Achievement>): nat {
    if achievements == [] then 0
    else OpenFor(rows, player, achievements[1..]) + if HasAchieved(rows, player, achievements[0].id) then 0 else 1
  }

  /** How many pairs of a player and an achievement are not achieved. */
  function Open(rows: Rows, players: seq<Player>, achievements: seq<Achievement>): nat {
    if players == [] then 0
    else OpenFor(rows, players[0].id, achievements) + Open(rows, players[1..], achievements)
  }

  function WorkLeft(rules: Rules, g: Game): nat {
    2 * Open(g.rows, rules.players, rules.achievements) + |g.book.queue|
  }

  /** Nothing that was achieved is no longer achieved. */
  ghost predicate KeepsAchieved(rows: Rows, rows': Rows) {
    forall player, id :: HasAchieved(rows, player, id) ==> HasAchieved(rows', player, id)
  }

  lemma {:induction false} OpenForShrinks(rows: Rows, rows': Rows, player: PlayerId, achievements: seq<Achievement>)
    requires KeepsAchieved(rows, rows')
    ensures OpenFor(rows', player, achievements) <= OpenFor(rows, player, achievements)
    ensures forall a :: a in achievements && !HasAchieved(rows, player, a.id) && HasAchieved(rows', player, a.id) ==>
              OpenFor(rows', player, achievements) < OpenFor(rows, player, achievements)
    decreases |achievements|
  {
    if achievements != [] {
      OpenForShrinks(rows, rows', player, achievements[1..]);
      assert achievements == [achievements[0]] + achievements[1..];
    }
  }

  lemma {:induction false} OpenShrinks(rows: Rows, rows': Rows, players: seq<Player>, achievements: seq<Achievement>,
                                       player: Player, a: Achievement)
    requires KeepsAchieved(rows, rows')
    ensures Open(rows', players, achievements) <= Open(rows, players, achievements)
    ensures player in players && a in achievements
            && !HasAchieved(rows, player.id, a.id) && HasAchieved(rows', player.id, a.id)
            ==> Open(rows', players, achievements) < Open(rows, players, achievements)
    decreases |players|
  {
    if players != [] {
      OpenForShrinks(rows, rows', players[0].id, achievements);
      OpenShrinks(rows, rows', players[1..], achievements, player, a);
      assert players == [players[0]] + players[1..];
    }
  }

  /** An achievement costs one open pair and brings at most one new item. */
  lemma AchieveShrinks(rules: Rules, g: Game, player: Player, a: Achievement, time: int)
    requires player in rules.players && a in rules.achievements && !HasAchieved(g.rows, player.id, a.id)
    ensures WorkLeft(rules, Achieve(g, player.id, a, time)) < WorkLeft(rules, g)
    ensures KeepsAchieved(g.rows, Achieve(g, player.id, a, time).rows)
  {
    OpenShrinks(g.rows, Achieve(g, player.id, a, time).rows, rules.players, rules.achievements, player, a);
  }

  lemma {:induction false} TransactionShrinks(rules: Rules, g: Game, player: Player, tx: Tx, diff: int, k: nat)
    requires player in rules.players && k <= |rules.achievements|
    ensures var g' := TransactionFrom(rules, g, player, tx, diff, k);
            WorkLeft(rules, g') <= WorkLeft(rules, g) && KeepsAchieved(g.rows, g'.rows)
    decreases |rules.achievements| - k
  {
    if k < |rules.achievements| {
      var a := rules.achievements[k];
      if !HasAchieved(g.rows, player.id, a.id) {
        AchieveShrinks(rules, g, player, a, tx.time + 1);
      }
      TransactionShrinks(rules, OnTransaction(rules, g, player, a, tx, diff), player, tx, diff, k + 1);
    }
  }

  /** Twice the open pairs plus the items in the queue goes down with every item processed. */
  lemma StepShrinks(rules: Rules, g: Game)
    requires g.book.queue != []
    ensures WorkLeft(rules, Step(rules, g)) < WorkLeft(rules, g)
    ensures KeepsAchieved(g.rows, Step(rules, g).rows)
  {
    var item := g.book.queue[0];
    var tx := FindTx(g.book.txs, item.id);
    if tx.Some? {
      var player := FindPlayer(rules.players, tx.value.player);
      if player.Some? {
        var g1 := g.(book := g.book.(queue := g.book.queue[1..]));
        TransactionShrinks(rules, g1, player.value, tx.value, item.diff, 0);
      }
    }
  }

  /** Processes items until the queue is empty. */
  ghost function Drain(rules: Rules, g: Game): (g': Game)
    decreases WorkLeft(rules, g)
  {
    if g.book.queue == [] then g
    else
      StepShrinks(rules, g);
      Drain(rules, Step(rules, g))
  }

  /** The loop comes to an end with an empty queue, and takes no achievement back. */
  lemma {:induction false} DrainEnds(rules: Rules, g: Game)
    ensures Drain(rules, g).book.queue == [] && KeepsAchieved(g.rows, Drain(rules, g).rows)
    decreases WorkLeft(rules, g)
  {
    if g.book.queue != [] {
      StepShrinks(rules, g);
      DrainEnds(rules, Step(rules, g));
    }
  }

  // ----- Rewards are paid once -----

  /** The rewards of the achievements the player has. */
  function Earned(rows: Rows, player: PlayerId, achievements: seq<Achievement>): int {
    if achievements == [] then 0
    else Earned(rows, player, achievements[1..])
         + if HasAchieved(rows, player, achievements[0].id) then achievements[0].reward else 0
  }

  ghost predicate DistinctIds(achievements: seq<Achievement>) {
    forall i, j :: 0 <= i < j < |achievements| ==> achievements[i].id != achievements[j].id
  }

  /** The reward transactions of each player add up to the rewards of what the player achieved. */
  ghost predicate RewardsMatch(rules: Rules, g: Game) {
    forall player :: BalanceOfKind(g.book.txs, player, REWARD) == Earned(g.rows, player, rules.achievements)
  }

  lemma {:induction false} EarnedSame(rows: Rows, rows': Rows, player: PlayerId, achievements: seq<Achievement>)
    requires forall a :: a in achievements ==> HasAchieved(rows', player, a.id) == HasAchieved(rows, player, a.id)
    ensures Earned(rows', player, achievements) == Earned(rows, player, achievements)
    decreases |achievements|
  {
    if achievements != [] {
      assert forall a :: a in achievements[1..] ==> a in achievements;
      EarnedSame(rows, rows', player, achievements[1..]);
    }
  }

  lemma {:induction false} EarnedMore(rows: Rows, rows': Rows, player: PlayerId, achievements: seq<Achievement>, k: nat)
    requires DistinctIds(achievements) && k < |achievements| && !HasAchieved(rows, player, achievements[k].id)
    requires forall id :: HasAchieved(rows', player, id) == (id == achievements[k].id || HasAchieved(rows, player, id))
    ensures Earned(rows', player, achievements) == Earned(rows, player, achievements) + achievements[k].reward
    decreases |achievements|
  {
    if k == 0 {
      forall a | a in achievements[1..]
        ensures a.id != achievements[0].id
      {
        var i :| 0 <= i < |achievements[1..]| && achievements[1..][i] == a;
        assert achievements[i + 1] == a;
      }
      EarnedSame(rows, rows', player, achievements[1..]);
    } else {
      EarnedMore(rows, rows', player, achievements[1..], k - 1);
    }
  }

  lemma AchieveMatches(rules: Rules, g: Game, player: PlayerId, k: nat, time: int)
    requires DistinctIds(rules.achievements) && k < |rules.achievements| && RewardsMatch(rules, g)
    requires !HasAchieved(g.rows, player, rules.achievements[k].id)
    ensures RewardsMatch(rules, Achieve(g, player, rules.achievements[k], time))
  {
    var a := rules.achievements[k];
    var g' := Achieve(g, player, a, time);
    forall other
      ensures BalanceOfKind(g'.book.txs, other, REWARD) == Earned(g'.rows, other, rules.achievements)
    {
      TotalsAreConserved(g.book, player, time, a.reward, REWARD, AchievementId(a.id), false, time, other);
      if other == player {
        EarnedMore(g.rows, g'.rows, player, rules.achievements, k);
      } else {
        EarnedSame(g.rows, g'.rows, other, rules.achievements);
      }
    }
  }

  lemma {:induction false} TransactionMatches(rules: Rules, g: Game, player: Player, tx: Tx, diff: int, k: nat)
    requires DistinctIds(rules.achievements) && k <= |rules.achievements| && RewardsMatch(rules, g)
    ensures RewardsMatch(rules, TransactionFrom(rules, g, player, tx, diff, k))
    decreases |rules.achievements| - k
  {
    if k < |rules.achievements| {
      var a := rules.achievements[k];
      if !HasAchieved(g.rows, player.id, a.id) {
        AchieveMatches(rules, g, player.id, k, tx.time + 1);
      }
      TransactionMatches(rules, OnTransaction(rules, g, player, a, tx, diff), player, tx, diff, k + 1);
    }
  }

  lemma StepMatches(rules: Rules, g: Game)
    requires DistinctIds(rules.achievements) && RewardsMatch(rules, g) && g.book.queue != []
    ensures RewardsMatch(rules, Step(rules, g))
  {
    var item := g.book.queue[0];
    var tx := FindTx(g.book.txs, item.id);
    var g1 := g.(book := g.book.(queue := g.book.queue[1..]));
    assert RewardsMatch(rules, g1);
    if tx.Some? && FindPlayer(rules.players, tx.value.player).Some? {
      TransactionMatches(rules, g1, FindPlayer(rules.players, tx.value.player).value, tx.value, item.diff, 0);
    }
  }

  lemma TripMatches(rules: Rules, g: Game, player: PlayerId, k: nat, trip: Trip)
    requires DistinctIds(rules.achievements) && k < |rules.achievements| && RewardsMatch(rules, g)
    requires !HasAchieved(g.rows, player, rules.achievements[k].id)
    ensures RewardsMatch(rules, OnTrip(g, player, rules.achievements[k], trip))
  {
    var a := rules.achievements[k];
    AchieveMatches(rules, g, player, k, trip.submitTime + 1);
    if a.strategy.VisitStations? && !a.strategy.singleTrip {
      var left := LeftAfter(a.strategy.stations, StoredProgress(g.rows, player, a.id), VisitedBy(trip), trip.closed);
      var g1 := g.(rows := g.rows[(player, a.id) := Progress(false, 0, ProgressOf(a.strategy.stations, left))]);
      forall other
        ensures BalanceOfKind(g1.book.txs, other, REWARD) == Earned(g1.rows, other, rules.achievements)
      {
        EarnedSame(g.rows, g1.rows, other, rules.achievements);
      }
      AchieveMatches(rules, g1, player, k, trip.submitTime + 1);
    }
  }

  lemma OneDeedMatches(rules: Rules, g: Game, player: PlayerId, k: nat, deed: Deed)
    requires DistinctIds(rules.achievements) && k < |rules.achievements| && RewardsMatch(rules, g)
    ensures RewardsMatch(rules, OnDeed(g, player, rules.achievements[k], deed))
  {
    if !HasAchieved(g.rows, player, rules.achievements[k].id) {
      match deed
      case NewTrip(trip) => TripMatches(rules, g, player, k, trip);
      case EditedTrip(trip) => AchieveMatches(rules, g, player, k, trip.submitTime + 1);
      case SentReport(time) => AchieveMatches(rules, g, player, k, time);
    }
  }

  lemma {:induction false} DeedMatches(rules: Rules, g: Game, player: PlayerId, deed: Deed, k: nat)
    requires DistinctIds(rules.achievements) && k <= |rules.achievements| && RewardsMatch(rules, g)
    ensures RewardsMatch(rules, DeedFrom(rules.achievements, g, player, deed, k))
    decreases |rules.achievements| - k
  {
    if k < |rules.achievements| {
      OneDeedMatches(rules, g, player, k, deed);
      DeedMatches(rules, OnDeed(g, player, rules.achievements[k], deed), player, deed, k + 1);
    }
  }

  // ----- Every run -----

  datatype Happening =
    | Transaction(player: PlayerId, time: int, value: int, kind: string, extra: Extra, attemptMerge: bool, now: int)
    | Doing(player: PlayerId, deed: Deed)
    | Processing

  function Happens(rules: Rules, g: Game, h: Happening): Game {
    match h
    case Transaction(player, time, value, kind, extra, attemptMerge, now) =>
      g.(book := Recorded(g.book, player, time, value, kind, extra, attemptMerge, now))
    case Doing(player, deed) => DeedFrom(rules.achievements, g, player, deed, 0)
    case Processing => if g.book.queue == [] then g else Step(rules, g)
  }

  function HappenAll(rules: Rules, g: Game, hs: seq<Happening>): Game {
    if hs == [] then g else Happens(rules, HappenAll(rules, g, hs[..|hs| - 1]), hs[|hs| - 1])
  }

  const START := Game(Book([], 0, []), map[])

  lemma {:induction false} DeedTakesNothingBack(achievements: seq<Achievement>, g: Game, player: PlayerId, deed: Deed,
                                                k: nat)
    requires k <= |achievements|
    ensures KeepsAchieved(g.rows, DeedFrom(achievements, g, player, deed, k).rows)
    decreases |achievements| - k
  {
    if k < |achievements| {
      var g1 := OnDeed(g, player, achievements[k], deed);
      assert KeepsAchieved(g.rows, g1.rows);
      DeedTakesNothingBack(achievements, g1, player, deed, k + 1);
    }
  }

  /** From any state on, no run takes an achievement back. */
  lemma {:induction false} NothingIsTakenBack(rules: Rules, g: Game, hs: seq<Happening>)
    ensures KeepsAchieved(g.rows, HappenAll(rules, g, hs).rows)
    decreases |hs|
  {
    if hs != [] {
      var before, h := HappenAll(rules, g, hs[..|hs| - 1]), hs[|hs| - 1];
      NothingIsTakenBack(rules, g, hs[..|hs| - 1]);
      match h
      case Transaction(_, _, _, _, _, _, _) =>
      case Doing(player, deed) => DeedTakesNothingBack(rules.achievements, before, player, deed, 0);
      case Processing =>
        if before.book.queue != [] {
          StepShrinks(rules, before);
        }
    }
  }

  lemma HappensMatches(rules: Rules, g: Game, h: Happening)
    requires DistinctIds(rules.achievements) && RewardsMatch(rules, g) && (h.Transaction? ==> h.kind != REWARD)
    ensures RewardsMatch(rules, Happens(rules, g, h))
  {
    match h
    case Transaction(player, time, value, kind, extra, attemptMerge, now) =>
      forall other
        ensures BalanceOfKind(Happens(rules, g, h).book.txs, other, REWARD) == Earned(g.rows, other, rules.achievements)
      {
        TotalsAreConserved(g.book, player, time, value, kind, extra, attemptMerge, now, other);
      }
    case Doing(player, deed) => DeedMatches(rules, g, player, deed, 0);
    case Processing =>
      if g.book.queue != [] {
        StepMatches(rules, g);
      }
  }

  lemma {:induction false} EarnedNothing(player: PlayerId, achievements: seq<Achievement>)
    ensures Earned(map[], player, achievements) == 0
  {
    if achievements != [] {
      EarnedNothing(player, achievements[1..]);
    }
  }

  /** Over every run in which only achievements pay achievement rewards, each player's rewards add
      up to those of the achievements the player has: none is paid twice and none is forgotten. */
  lemma {:induction false} RewardsAreExact(rules: Rules, hs: seq<Happening>)
    requires DistinctIds(rules.achievements) && forall h :: h in hs && h.Transaction? ==> h.kind != REWARD
    ensures RewardsMatch(rules, HappenAll(rules, START, hs))
    decreases |hs|
  {
    if hs == [] {
      forall player
        ensures Earned(START.rows, player, rules.achievements) == 0
      {
        EarnedNothing(player, rules.achievements);
      }
    } else {
      RewardsAreExact(rules, hs[..|hs| - 1]);
      HappensMatches(rules, HappenAll(rules, START, hs[..|hs| - 1]), hs[|hs| - 1]);
    }
  }
}
