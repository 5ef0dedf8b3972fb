/** The transactions that achievements pay, one by one, and the order in which transactions are looked at
    (posplay/achievements.go, posplay/posplay.go). */
module Rewards {
  import opened Wrappers
  import opened Ledger
  import opened Achievements

  // ----- One reward for each achievement -----

  predicate IsRewardFor(t: Tx, player: PlayerId, id: string) {
    t.player == player && t.kind == REWARD && t.extra == AchievementId(id)
  }

  /** What the player was paid for the achievement. */
  function RewardsFor(txs: seq<Tx>, player: PlayerId, id: string): seq<Tx> {
    if txs == [] then []
    else
      var t := txs[|txs| - 1];
      RewardsFor(txs[..|txs| - 1], player, id) + if IsRewardFor(t, player, id) then [t] else []
  }

  lemma RewardsAppend(txs: seq<Tx>, t: Tx, player: PlayerId, id: string)
    ensures RewardsFor(txs + [t], player, id)
         == RewardsFor(txs, player, id) + if IsRewardFor(t, player, id) then [t] else []
  {
    assert (txs + [t])[..|txs|] == txs;
  }

  lemma {:induction false} RewardsUpdate(txs: seq<Tx>, i: nat, t: Tx, player: PlayerId, id: string)
    requires i < |txs| && txs[i].kind != REWARD && t.kind != REWARD
    ensures RewardsFor(txs[i := t], player, id) == RewardsFor(txs, player, id)
    decreases |txs|
  {
    var n := |txs| - 1;
    if i < n {
      RewardsUpdate(txs[..n], i, t, player, id);
      assert txs[i := t][..n] == txs[..n][i := t];
    } else {
      assert txs[i := t][..n] == txs[..n];
    }
  }

  /** One transaction of the reward, dated as the achievement is; nothing for an achievement without a
      reward, or not achieved. */
  ghost predicate IsPaid(g: Game, player: PlayerId, a: Achievement) {
    var paid := RewardsFor(g.book.txs, player, a.id);
    if HasAchieved(g.rows, player, a.id) && a.reward != 0 then
      |paid| == 1 && paid[0].value == a.reward && paid[0].time == g.rows[(player, a.id)].time
    else paid == []
  }

  ghost predicate AllPaid(achievements: seq<Achievement>, g: Game) {
    forall player, j :: 0 <= j < |achievements| ==> IsPaid(g, player, achievements[j])
  }

  lemma AchievePays(achievements: seq<Achievement>, g: Game, player: PlayerId, k: nat, time: int)
    requires DistinctIds(achievements) && k < |achievements| && AllPaid(achievements, g)
    requires !HasAchieved(g.rows, player, achievements[k].id)
    ensures AllPaid(achievements, Achieve(g, player, achievements[k], time))
  {
    var a := achievements[k];
    forall other, j | 0 <= j < |achievements|
      ensures IsPaid(Achieve(g, player, a, time), other, achievements[j])
    {
      assert IsPaid(g, other, achievements[j]);
      assert j != k ==> achievements[j].id != a.id;
      RewardsAppend(g.book.txs, Tx(g.book.nextId, player, time, a.reward, REWARD, AchievementId(a.id)), other,
                    achievements[j].id);
    }
  }

  /** Storing progress pays nothing. */
  lemma ProgressPaysNothing(achievements: seq<Achievement>, g: Game, player: PlayerId, k: nat, p: Progress)
    requires DistinctIds(achievements) && k < |achievements| && AllPaid(achievements, g)
    requires !HasAchieved(g.rows, player, achievements[k].id) && !p.achieved
    ensures AllPaid(achievements, g.(rows := g.rows[(player, achievements[k].id) := p]))
  {
    var g' := g.(rows := g.rows[(player, achievements[k].id) := p]);
    forall other, j | 0 <= j < |achievements|
      ensures IsPaid(g', other, achievements[j])
    {
      assert IsPaid(g, other, achievements[j]);
      assert j != k ==> achievements[j].id != achievements[k].id;
    }
  }

  lemma OneDeedIsPaid(achievements: seq<Achievement>, g: Game, player: PlayerId, k: nat, deed: Deed)
    requires DistinctIds(achievements) && k < |achievements| && AllPaid(achievements, g)
    ensures AllPaid(achievements, OnDeed(g, player, achievements[k], deed))
  {
    var a := achievements[k];
    if !HasAchieved(g.rows, player, a.id) {
      var time := match deed
                  case NewTrip(trip) => trip.submitTime + 1
                  case EditedTrip(trip) => trip.submitTime + 1
                  case SentReport(t) => t;
      AchievePays(achievements, g, player, k, time);
      if deed.NewTrip? && a.strategy.VisitStations? && !a.strategy.singleTrip {
        var trip, stations := deed.trip, a.strategy.stations;
        var left := LeftAfter(stations, StoredProgress(g.rows, player, a.id), VisitedBy(trip), trip.closed);
        var p := Progress(false, 0, ProgressOf(stations, left));
        ProgressPaysNothing(achievements, g, player, k, p);
        AchievePays(achievements, g.(rows := g.rows[(player, a.id) := p]), player, k, time);
      }
    }
  }

  lemma {:induction false} DeedIsPaid(achievements: seq<Achievement>, g: Game, player: PlayerId, deed: Deed, k: nat)
    requires DistinctIds(achievements) && k <= |achievements| && AllPaid(achievements, g)
    ensures AllPaid(achievements, DeedFrom(achievements, g, player, deed, k))
    decreases |achievements| - k
  {
    if k < |achievements| {
      OneDeedIsPaid(achievements, g, player, k, deed);
      DeedIsPaid(achievements, OnDeed(g, player, achievements[k], deed), player, deed, k + 1);
    }
  }

  lemma {:induction false} TransactionIsPaid(rules: Rules, g: Game, player: Player, tx: Tx, diff: int, k: nat)
    requires DistinctIds(rules.achievements) && k <= |rules.achievements| && AllPaid(rules.achievements, g)
    ensures AllPaid(rules.achievements, TransactionFrom(rules, g, player, tx, diff, k))
    decreases |rules.achievements| - k
  {
    if k < |rules.achievements| {
      var a := rules.achievements[k];
      if !HasAchieved(g.rows, player.id, a.id) {
        AchievePays(rules.achievements, g, player.id, k, tx.time + 1);
      }
      TransactionIsPaid(rules, OnTransaction(rules, g, player, a, tx, diff), player, tx, diff, k + 1);
    }
  }

  lemma StepIsPaid(rules: Rules, g: Game)
    requires DistinctIds(rules.achievements) && AllPaid(rules.achievements, g) && g.book.queue != []
    ensures AllPaid(rules.achievements, Step(rules, g))
  {
    var item, g1 := g.book.queue[0], g.(book := g.book.(queue := g.book.queue[1..]));
    SameTableSamePaid(rules.achievements, g, g1);
    var tx := FindTx(g.book.txs, item.id);
    if tx.Some? && FindPlayer(rules.players, tx.value.player).Some? {
      TransactionIsPaid(rules, g1, FindPlayer(rules.players, tx.value.player).value, tx.value, item.diff, 0);
    }
  }

  lemma SameTableSamePaid(achievements: seq<Achievement>, g: Game, g': Game)
    requires AllPaid(achievements, g) && g'.rows == g.rows
    requires forall player, id :: RewardsFor(g'.book.txs, player, id) == RewardsFor(g.book.txs, player, id)
    ensures AllPaid(achievements, g')
  {
    forall player, j | 0 <= j < |achievements|
      ensures IsPaid(g', player, achievements[j])
    {
      assert IsPaid(g, player, achievements[j]);
    }
  }

  lemma OthersPayNoRewards(b: Book, player: PlayerId, time: int, value: int, kind: string, extra: Extra,
                           attemptMerge: bool, now: int, other: PlayerId, id: string)
    requires kind != REWARD
    ensures RewardsFor(Recorded(b, player, time, value, kind, extra, attemptMerge, now).txs, other, id)
         == RewardsFor(b.txs, other, id)
  {
    match MergeTarget(b.txs, player, kind, attemptMerge, now)
    case Some(i) => RewardsUpdate(b.txs, i, Merged(b.txs[i], time, value, extra), other, id);
    case None => RewardsAppend(b.txs, Tx(b.nextId, player, time, value, kind, extra), other, id);
  }

  lemma HappensIsPaid(rules: Rules, g: Game, h: Happening)
    requires DistinctIds(rules.achievements) && AllPaid(rules.achievements, g) && (h.Transaction? ==> h.kind != REWARD)
    ensures AllPaid(rules.achievements, Happens(rules, g, h))
  {
    match h
    case Transaction(player, time, value, kind, extra, attemptMerge, now) =>
      forall other, id
        ensures RewardsFor(Happens(rules, g, h).book.txs, other, id) == RewardsFor(g.book.txs, other, id)
      {
        OthersPayNoRewards(g.book, player, time, value, kind, extra, attemptMerge, now, other, id);
      }
      SameTableSamePaid(rules.achievements, g, Happens(rules, g, h));
    case Doing(player, deed) => DeedIsPaid(rules.achievements, g, player, deed, 0);
    case Processing =>
      if g.book.queue != [] {
        StepIsPaid(rules, g);
      }
  }

  /** Over every run in which only achievements pay achievement rewards, every player has one transaction for
      each achievement that has a reward and that the player has, of that reward and dated as the
      achievement is, and none for any other. */
  lemma {:induction false} EachIsPaidOnce(rules: Rules, hs: seq<Happening>)
    requires DistinctIds(rules.achievements) && forall h :: h in hs && h.Transaction? ==> h.kind != REWARD
    ensures AllPaid(rules.achievements, HappenAll(rules, START, hs))
    decreases |hs|
  {
    if hs != [] {
      EachIsPaidOnce(rules, hs[..|hs| - 1]);
      HappensIsPaid(rules, HappenAll(rules, START, hs[..|hs| - 1]), hs[|hs| - 1]);
    }
  }

  // ----- When a level is dated -----

  /** Rows that were achieved stay as they are, and new ones are the player's and dated then. */
  ghost predicate IsDated(rows: Rows, rows': Rows, player: PlayerId, time: int) {
    forall key: (PlayerId, string) :: HasAchieved(rows', key.0, key.1) ==>
      if HasAchieved(rows, key.0, key.1) then rows'[key] == rows[key]
      else key.0 == player && rows'[key] == Progress(true, time, [])
  }

  lemma {:induction false} TransactionIsDated(rules: Rules, g: Game, player: Player, tx: Tx, diff: int, k: nat)
    requires k <= |rules.achievements|
    ensures IsDated(g.rows, TransactionFrom(rules, g, player, tx, diff, k).rows, player.id, tx.time + 1)
    decreases |rules.achievements| - k
  {
    if k < |rules.achievements| {
      var g1 := OnTransaction(rules, g, player, rules.achievements[k], tx, diff);
      assert IsDated(g.rows, g1.rows, player.id, tx.time + 1);
      TransactionIsDated(rules, g1, player, tx, diff, k + 1);
    }
  }

  /** What the next item in the queue brings is dated a millisecond after its transaction. */
  lemma LevelsAreDated(rules: Rules, g: Game, tx: Tx)
    requires g.book.queue != [] && FindTx(g.book.txs, g.book.queue[0].id) == Some(tx)
    ensures IsDated(g.rows, Step(rules, g).rows, tx.player, tx.time + 1)
  {
    var item, g1 := g.book.queue[0], g.(book := g.book.(queue := g.book.queue[1..]));
    if FindPlayer(rules.players, tx.player).Some? {
      TransactionIsDated(rules, g1, FindPlayer(rules.players, tx.player).value, tx, item.diff, 0);
    }
  }

  // ----- First in, first out -----

  /** What one happening takes off the queue to look at. */
  function TakenBy(g: Game, h: Happening): seq<Item> {
    if h.Processing? && g.book.queue != [] then [g.book.queue[0]] else []
  }

  /** The items looked at in a run, in that order. */
  function LookedAt(rules: Rules, hs: seq<Happening>): seq<Item> {
    if hs == [] then []
    else
      var front := hs[..|hs| - 1];
      LookedAt(rules, front) + TakenBy(HappenAll(rules, START, front), hs[|hs| - 1])
  }

  /** Nothing leaves the queue and more may come in at its end. */
  predicate QueueGrows(g: Game, g': Game) {
    g.book.queue <= g'.book.queue
  }

  lemma {:induction false} DeedQueues(achievements: seq<Achievement>, g: Game, player: PlayerId, deed: Deed, k: nat)
    requires k <= |achievements|
    ensures QueueGrows(g, DeedFrom(achievements, g, player, deed, k))
    decreases |achievements| - k
  {
    if k < |achievements| {
      DeedQueues(achievements, OnDeed(g, player, achievements[k], deed), player, deed, k + 1);
    }
  }

  lemma {:induction false} TransactionQueues(rules: Rules, g: Game, player: Player, tx: Tx, diff: int, k: nat)
    requires k <= |rules.achievements|
    ensures QueueGrows(g, TransactionFrom(rules, g, player, tx, diff, k))
    decreases |rules.achievements| - k
  {
    if k < |rules.achievements| {
      TransactionQueues(rules, OnTransaction(rules, g, player, rules.achievements[k], tx, diff), player, tx, diff,
                        k + 1);
    }
  }

  lemma HappensInTurn(rules: Rules, g: Game, h: Happening)
    ensures g.book.queue <= TakenBy(g, h) + Happens(rules, g, h).book.queue
  {
    match h
    case Transaction(_, _, _, _, _, _, _) =>
    case Doing(player, deed) => DeedQueues(rules.achievements, g, player, deed, 0);
    case Processing =>
      if g.book.queue != [] {
        var item, g1 := g.book.queue[0], g.(book := g.book.(queue := g.book.queue[1..]));
        var tx := FindTx(g.book.txs, item.id);
        if tx.Some? && FindPlayer(rules.players, tx.value.player).Some? {
          TransactionQueues(rules, g1, FindPlayer(rules.players, tx.value.player).value, tx.value, item.diff, 0);
        }
        assert g.book.queue == [item] + g1.book.queue;
      }
  }

  lemma PrefixAfter(done: seq<Item>, was: seq<Item>, taken: seq<Item>, now: seq<Item>)
    requires was <= taken + now
    ensures done + was <= (done + taken) + now
  {
    assert (done + taken) + now == done + (taken + now);
  }

  /** Transactions are looked at in the order in which they were recorded: what has been looked at, followed
      by what is waiting, only ever gets longer. */
  lemma {:induction false} LookedAtInTurn(rules: Rules, hs: seq<Happening>, n: nat)
    requires n <= |hs|
    ensures LookedAt(rules, hs[..n]) + HappenAll(rules, START, hs[..n]).book.queue
         <= LookedAt(rules, hs) + HappenAll(rules, START, hs).book.queue
    decreases |hs|
  {
    if n == |hs| {
      assert hs[..n] == hs;
    } else {
      var front, h := hs[..|hs| - 1], hs[|hs| - 1];
      LookedAtInTurn(rules, front, n);
      assert front[..n] == hs[..n];
      HappensInTurn(rules, HappenAll(rules, START, front), h);
      PrefixAfter(LookedAt(rules, front), HappenAll(rules, START, front).book.queue,
                  TakenBy(HappenAll(rules, START, front), h), HappenAll(rules, START, hs).book.queue);
    }
  }
}
