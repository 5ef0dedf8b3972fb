/** The serial processor (posplay/posplay.go) and the handlers it calls (posplay/achievements.go,
    posplay/achievementstrategies.go), on stored achievement rows and the ledger. */
module PosPlay {
  import opened Wrappers
  import opened Identifiers
  import opened Ledger
  import opened Achievements

  class Processor {
    const rules: Rules
    const ledger: XPLedger
    var rows: Rows

    constructor (rules: Rules)
      ensures this.rules == rules && fresh(ledger) && AsGame() == START
    {
      this.rules := rules;
      ledger := new XPLedger();
      rows := map[];
    }

    function AsGame(): Game
      reads this, ledger
    {
      Game(ledger.AsBook(), rows)
    }

    method AchieveAchievement(player: PlayerId, a: Achievement, time: int)
      modifies this, ledger
      ensures AsGame() == Achieve(old(AsGame()), player, a, time)
    {
      rows := rows[(player, a.id) := Progress(true, time, [])];
      if a.reward != 0 {
        ledger.DoXPTransaction(player, time, a.reward, REWARD, AchievementId(a.id), false, time);
      }
    }

    method HandleXPTransaction(player: Player, a: Achievement, tx: Tx, diff: int)
      modifies this, ledger
      ensures AsGame() == OnTransaction(rules, old(AsGame()), player, a, tx, diff)
    {
      if HasAchieved(rows, player.id, a.id) {
        return;
      }
      if a.strategy.ReachLevel? {
        var curXP := BalanceBetween(ledger.txs, player.id, player.joined, tx.time);
        var prevXP := curXP - diff;
        var curLevel, prevLevel := rules.levelOf(curXP), rules.levelOf(prevXP);
        if curLevel > prevLevel && prevLevel < a.strategy.level && curLevel >= a.strategy.level {
          AchieveAchievement(player.id, a, tx.time + 1);
        }
      }
    }

    method HandleVisits(player: PlayerId, a: Achievement, trip: Trip)
      requires a.strategy.VisitStations? && !HasAchieved(rows, player, a.id)
      modifies this, ledger
      ensures AsGame() == OnTrip(old(AsGame()), player, a, trip)
    {
      var stations, singleTrip := a.strategy.stations, a.strategy.singleTrip;
      var left := stations;
      if !singleTrip && (player, a.id) in rows {
        var before := rows[(player, a.id)].visited;
        left := Filter(left, x => x !in before && !trip.closed(x));
      }
      var visited: set<StationId> := {};
      for i := 0 to |trip.uses|
        invariant visited == set u | u in trip.uses[..i] && !u.1 :: u.0
      {
        assert trip.uses[..i + 1] == trip.uses[..i] + [trip.uses[i]];
        if !trip.uses[i].1 {
          visited := visited + {trip.uses[i].0};
        }
      }
      assert trip.uses[..|trip.uses|] == trip.uses;
      left := Filter(left, x => x !in visited);
      if !singleTrip {
        rows := rows[(player, a.id) := Progress(false, 0, Filter(stations, x => x !in left))];
      }
      if |left| == 0 {
        AchieveAchievement(player, a, trip.submitTime + 1);
      }
    }

    method HandleTrip(player: PlayerId, a: Achievement, trip: Trip)
      modifies this, ledger
      ensures AsGame() == OnDeed(old(AsGame()), player, a, NewTrip(trip))
    {
      if HasAchieved(rows, player, a.id) {
        return;
      }
      match a.strategy
      case ReachLevel(_) =>
      case Submit(what) =>
        if what.OfTrip? && |trip.uses| > 1 {
          AchieveAchievement(player, a, trip.submitTime + 1);
        }
      case OtherTrip =>
        if a.id in trip.eligible {
          AchieveAchievement(player, a, trip.submitTime + 1);
        }
      case VisitStations(_, _) =>
        HandleVisits(player, a, trip);
    }

    method HandleTripEdit(player: PlayerId, a: Achievement, trip: Trip)
      modifies this, ledger
      ensures AsGame() == OnDeed(old(AsGame()), player, a, EditedTrip(trip))
    {
      if a.strategy != Submit(OfEdit) || HasAchieved(rows, player, a.id) {
        return;
      }
      if |trip.uses| > 1 {
        AchieveAchievement(player, a, trip.submitTime + 1);
      }
    }

    method HandleDisturbanceReport(player: PlayerId, a: Achievement, time: int)
      modifies this, ledger
      ensures AsGame() == OnDeed(old(AsGame()), player, a, SentReport(time))
    {
      if a.strategy != Submit(OfReport) || HasAchieved(rows, player, a.id) {
        return;
      }
      AchieveAchievement(player, a, time);
    }

    method ProcessTrip(player: PlayerId, trip: Trip)
      modifies this, ledger
      ensures AsGame() == DeedFrom(rules.achievements, old(AsGame()), player, NewTrip(trip), 0)
    {
      ghost var goal := DeedFrom(rules.achievements, AsGame(), player, NewTrip(trip), 0);
      for i := 0 to |rules.achievements|
        invariant DeedFrom(rules.achievements, AsGame(), player, NewTrip(trip), i) == goal
      {
        HandleTrip(player, rules.achievements[i], trip);
      }
    }

    method ProcessTripEdit(player: PlayerId, trip: Trip)
      modifies this, ledger
      ensures AsGame() == DeedFrom(rules.achievements, old(AsGame()), player, EditedTrip(trip), 0)
    {
      ghost var goal := DeedFrom(rules.achievements, AsGame(), player, EditedTrip(trip), 0);
      for i := 0 to |rules.achievements|
        invariant DeedFrom(rules.achievements, AsGame(), player, EditedTrip(trip), i) == goal
      {
        HandleTripEdit(player, rules.achievements[i], trip);
      }
    }

    method ProcessReport(player: PlayerId, time: int)
      modifies this, ledger
      ensures AsGame() == DeedFrom(rules.achievements, old(AsGame()), player, SentReport(time), 0)
    {
      ghost var goal := DeedFrom(rules.achievements, AsGame(), player, SentReport(time), 0);
      for i := 0 to |rules.achievements|
        invariant DeedFrom(rules.achievements, AsGame(), player, SentReport(time), i) == goal
      {
        HandleDisturbanceReport(player, rules.achievements[i], time);
      }
    }

    method ProcessXPTx(id: nat, diff: int)
      modifies this, ledger
      ensures AsGame() == Processed(rules, old(AsGame()), id, diff)
    {
      var tx := FindTx(ledger.txs, id);
      if tx.None? {
        return;
      }
      var player := FindPlayer(rules.players, tx.value.player);
      if player.None? {
        return;
      }
      ghost var goal := TransactionFrom(rules, AsGame(), player.value, tx.value, diff, 0);
      for i := 0 to |rules.achievements|
        invariant TransactionFrom(rules, AsGame(), player.value, tx.value, diff, i) == goal
      {
        HandleXPTransaction(player.value, rules.achievements[i], tx.value, diff);
      }
    }

    /** Takes transactions off the queue, in which rewards put new ones, until none is left. */
    method SerialProcessor()
      modifies this, ledger
      ensures AsGame() == Drain(rules, old(AsGame())) && ledger.queue == []
      ensures KeepsAchieved(old(rows), rows)
    {
      while |ledger.queue| > 0
        invariant Drain(rules, AsGame()) == Drain(rules, old(AsGame()))
        decreases WorkLeft(rules, AsGame())
      {
        StepShrinks(rules, AsGame());
        var item := ledger.queue[0];
        ledger.queue := ledger.queue[1..];
        ProcessXPTx(item.id, item.diff);
      }
      DrainEnds(rules, old(AsGame()));
    }
  }
}
