/** Who gets the achievements for levels (posplay/achievementstrategies.go), over whole runs. */
module Levels {
  import opened Wrappers
  import opened Ledger
  import opened Achievements

  // ----- Every crossing is awarded -----

  /** Rewards are dated after their cause, so a reward does not change the level as of the cause. */
  lemma {:induction false} RewardsComeAfter(g: Game, player: Player, a: Achievement, time: int)
    ensures BalanceBetween(Achieve(g, player.id, a, time + 1).book.txs, player.id, player.joined, time)
         == BalanceBetween(g.book.txs, player.id, player.joined, time)
  {
    SumAppend(g.book.txs, Tx(g.book.nextId, player.id, time + 1, a.reward, REWARD, AchievementId(a.id)),
              InWindow(player.id, player.joined, time));
  }

  lemma LevelIsKept(rules: Rules, g: Game, player: Player, a: Achievement, tx: Tx, diff: int, level: int)
    ensures ReachesLevel(rules, OnTransaction(rules, g, player, a, tx, diff), player, level, tx, diff)
         == ReachesLevel(rules, g, player, level, tx, diff)
  {
    var g' := OnTransaction(rules, g, player, a, tx, diff);
    RewardsComeAfter(g, player, a, tx.time);
    assert g' == g || g' == Achieve(g, player.id, a, tx.time + 1);
    assert BalanceBetween(g'.book.txs, player.id, player.joined, tx.time)
        == BalanceBetween(g.book.txs, player.id, player.joined, tx.time);
  }

  lemma OneLookAwardsIff(rules: Rules, g: Game, player: Player, a: Achievement, tx: Tx, diff: int,
                         id: PlayerId, other: string)
    requires a.strategy.ReachLevel? || a.id != other
    ensures HasAchieved(OnTransaction(rules, g, player, a, tx, diff).rows, id, other)
            <==> HasAchieved(g.rows, id, other)
                 || (a.id == other && id == player.id && ReachesLevel(rules, g, player, a.strategy.level, tx, diff))
  {
  }

  lemma {:induction false} TransactionAwardsIff(rules: Rules, g: Game, player: Player, tx: Tx, diff: int, k: nat,
                                                id: PlayerId, j: nat)
    requires DistinctIds(rules.achievements) && k <= |rules.achievements|
    requires j < |rules.achievements| && rules.achievements[j].strategy.ReachLevel?
    ensures var a := rules.achievements[j];
            HasAchieved(TransactionFrom(rules, g, player, tx, diff, k).rows, id, a.id)
            <==> HasAchieved(g.rows, id, a.id)
                 || (k <= j && id == player.id && ReachesLevel(rules, g, player, a.strategy.level, tx, diff))
    decreases |rules.achievements| - k
  {
    if k < |rules.achievements| {
      var a, b := rules.achievements[k], rules.achievements[j];
      assert k != j ==> a.id != b.id;
      LevelIsKept(rules, g, player, a, tx, diff, b.strategy.level);
      OneLookAwardsIff(rules, g, player, a, tx, diff, id, b.id);
      TransactionAwardsIff(rules, OnTransaction(rules, g, player, a, tx, diff), player, tx, diff, k + 1, id, j);
    }
  }

  lemma {:induction false} DeedsBringNoLevels(achievements: seq<Achievement>, g: Game, player: PlayerId,
                                              deed: Deed, k: nat,
                                              id: PlayerId, j: nat)
    requires DistinctIds(achievements) && k <= |achievements|
    requires j < |achievements| && achievements[j].strategy.ReachLevel?
    ensures HasAchieved(DeedFrom(achievements, g, player, deed, k).rows, id, achievements[j].id)
         == HasAchieved(g.rows, id, achievements[j].id)
    decreases |achievements| - k
  {
    if k < |achievements| {
      DeedsBringNoLevels(achievements, OnDeed(g, player, achievements[k], deed), player, deed, k + 1, id, j);
    }
  }

  /** The transaction to be processed next lifts its player, as of its time, to the level. */
  predicate Crosses(rules: Rules, g: Game, id: PlayerId, level: int) {
    && g.book.queue != []
    && var tx := FindTx(g.book.txs, g.book.queue[0].id);
    && tx.Some? && tx.value.player == id
    && var player := FindPlayer(rules.players, id);
    && player.Some? && LiftsTo(rules, g.book.txs, player.value, level, tx.value.time, g.book.queue[0].diff)
  }

  /** The points of the player from the day of joining up to the time make the level, and less the
      difference they do not. */
  predicate LiftsTo(rules: Rules, txs: seq<Tx>, player: Player, level: int, time: int, diff: int) {
    var points := Sum(txs, (t: Tx) => t.player == player.id && player.joined <= t.time <= time);
    rules.levelOf(points - diff) < level <= rules.levelOf(points)
  }

  lemma LiftsToIff(rules: Rules, g: Game, player: Player, level: int, tx: Tx, diff: int)
    ensures LiftsTo(rules, g.book.txs, player, level, tx.time, diff)
            <==> ReachesLevel(rules, g, player, level, tx, diff)
  {
    SumSame(g.book.txs, (t: Tx) => t.player == player.id && player.joined <= t.time <= tx.time,
            InWindow(player.id, player.joined, tx.time));
  }

  /** At some point of the run, a transaction that does so was processed. */
  ghost predicate Crossed(rules: Rules, hs: seq<Happening>, id: PlayerId, level: int) {
    hs != [] && var front := hs[..|hs| - 1];
    || Crossed(rules, front, id, level)
    || (hs[|hs| - 1].Processing? && Crosses(rules, HappenAll(rules, START, front), id, level))
  }

  lemma LevelStepIff(rules: Rules, g: Game, h: Happening, id: PlayerId, j: nat)
    requires DistinctIds(rules.achievements)
    requires j < |rules.achievements| && rules.achievements[j].strategy.ReachLevel?
    ensures var a := rules.achievements[j];
            HasAchieved(Happens(rules, g, h).rows, id, a.id)
            <==> HasAchieved(g.rows, id, a.id) || (h.Processing? && Crosses(rules, g, id, a.strategy.level))
  {
    match h
    case Transaction(_, _, _, _, _, _, _) =>
    case Doing(player, deed) => DeedsBringNoLevels(rules.achievements, g, player, deed, 0, id, j);
    case Processing =>
      if g.book.queue != [] {
        var item := g.book.queue[0];
        var tx := FindTx(g.book.txs, item.id);
        if tx.Some? && FindPlayer(rules.players, tx.value.player).Some? {
          var g1 := g.(book := g.book.(queue := g.book.queue[1..]));
          var player := FindPlayer(rules.players, tx.value.player).value;
          TransactionAwardsIff(rules, g1, player, tx.value, item.diff, 0, id, j);
          LiftsToIff(rules, g1, player, rules.achievements[j].strategy.level, tx.value, item.diff);
        }
      }
  }

  /** Over every run, a player has the achievement for a level exactly if, at some point of the run,
      a transaction was processed that lifted the player from below the level to it or above. */
  lemma {:induction false} LevelsAreAwardedIff(rules: Rules, hs: seq<Happening>, id: PlayerId, j: nat)
    requires DistinctIds(rules.achievements)
    requires j < |rules.achievements| && rules.achievements[j].strategy.ReachLevel?
    ensures var a := rules.achievements[j];
            HasAchieved(HappenAll(rules, START, hs).rows, id, a.id) <==> Crossed(rules, hs, id, a.strategy.level)
    decreases |hs|
  {
    if hs != [] {
      var front := hs[..|hs| - 1];
      LevelsAreAwardedIff(rules, front, id, j);
      LevelStepIff(rules, HappenAll(rules, START, front), hs[|hs| - 1], id, j);
    }
  }

  // ----- What has been looked at -----

  function Owner(txs: seq<Tx>, id: nat): Option<PlayerId> {
    match FindTx(txs, id)
    case None => None
    case Some(tx) => Some(tx.player)
  }

  /** By how much the transactions in the queue changed the player's balance. */
  function Pending(txs: seq<Tx>, queue: seq<Item>, player: PlayerId): int {
    if queue == [] then 0
    else
      var item := queue[|queue| - 1];
      Pending(txs, queue[..|queue| - 1], player) + if Owner(txs, item.id) == Some(player) then item.diff else 0
  }

  /** The player's balance but for what is still in the queue. */
  function Settled(b: Book, player: PlayerId): int {
    Balance(b.txs, player) - Pending(b.txs, b.queue, player)
  }

  /** Transactions have IDs of their own, and the queue is of transactions in the table. */
  ghost predicate Indexed(b: Book) {
    && (forall i :: 0 <= i < |b.txs| ==> b.txs[i].id < b.nextId)
    && (forall i, j :: 0 <= i < j < |b.txs| ==> b.txs[i].id != b.txs[j].id)
    && (forall i :: 0 <= i < |b.queue| ==> FindTx(b.txs, b.queue[i].id).Some?)
  }

  lemma {:induction false} FindTxAppend(txs: seq<Tx>, t: Tx, id: nat)
    ensures FindTx(txs + [t], id)
         == if FindTx(txs, id).Some? then FindTx(txs, id) else if t.id == id then Some(t) else None
    decreases |txs|
  {
    if txs == [] {
      assert txs + [t] == [t] && [t][1..] == [];
    } else {
      assert (txs + [t])[1..] == txs[1..] + [t];
      FindTxAppend(txs[1..], t, id);
    }
  }

  lemma {:induction false} OwnerKept(txs: seq<Tx>, i: nat, t: Tx, id: nat)
    requires i < |txs| && t.id == txs[i].id && t.player == txs[i].player
    ensures Owner(txs[i := t], id) == Owner(txs, id)
    decreases |txs|
  {
    if 0 < i {
      assert txs[i := t][1..] == txs[1..][i - 1 := t];
      OwnerKept(txs[1..], i - 1, t, id);
    } else {
      assert txs[i := t][1..] == txs[1..];
    }
  }

  lemma {:induction false} FindTxAt(txs: seq<Tx>, i: nat)
    requires i < |txs| && forall i, j :: 0 <= i < j < |txs| ==> txs[i].id != txs[j].id
    ensures FindTx(txs, txs[i].id) == Some(txs[i])
    decreases |txs|
  {
    if 0 < i {
      assert txs[0].id != txs[i].id && txs[1..][i - 1] == txs[i];
      FindTxAt(txs[1..], i - 1);
    }
  }

  lemma {:induction false} FindTxFails(txs: seq<Tx>, id: nat)
    requires forall i :: 0 <= i < |txs| ==> txs[i].id != id
    ensures FindTx(txs, id).None?
    decreases |txs|
  {
    if txs != [] {
      FindTxFails(txs[1..], id);
    }
  }

  lemma {:induction false} PendingSame(txs: seq<Tx>, txs': seq<Tx>, queue: seq<Item>, player: PlayerId)
    requires forall i :: 0 <= i < |queue| ==> Owner(txs', queue[i].id) == Owner(txs, queue[i].id)
    ensures Pending(txs', queue, player) == Pending(txs, queue, player)
    decreases |queue|
  {
    if queue != [] {
      PendingSame(txs, txs', queue[..|queue| - 1], player);
    }
  }

  lemma PendingAppend(txs: seq<Tx>, queue: seq<Item>, item: Item, player: PlayerId)
    ensures Pending(txs, queue + [item], player)
         == Pending(txs, queue, player) + if Owner(txs, item.id) == Some(player) then item.diff else 0
  {
    assert (queue + [item])[..|queue|] == queue;
  }

  lemma {:induction false} PendingHead(txs: seq<Tx>, queue: seq<Item>, player: PlayerId)
    requires queue != []
    ensures Pending(txs, queue, player)
         == Pending(txs, queue[1..], player) + if Owner(txs, queue[0].id) == Some(player) then queue[0].diff else 0
    decreases |queue|
  {
    var n := |queue| - 1;
    if 0 < n {
      PendingHead(txs, queue[..n], player);
      assert queue[..n][1..] == queue[1..][..n - 1] && queue[1..][n - 1] == queue[n];
    } else {
      assert queue[..0] == [] && queue[1..] == [];
    }
  }

  /** More was recorded and put in the queue, and nothing was looked at. */
  ghost predicate Grows(b: Book, b': Book, player: PlayerId) {
    && Indexed(b') && b.queue <= b'.queue && Settled(b', player) == Settled(b, player)
    && (b'.queue == b.queue ==> b'.txs == b.txs)
  }

  /** The table and the queue after one recording; what was in the queue keeps its owners. */
  ghost predicate OneMore(b: Book, b': Book, player: PlayerId, value: int) {
    && Indexed(b') && |b'.queue| == |b.queue| + 1 && b'.queue[..|b.queue|] == b.queue
    && b'.queue[|b.queue|].diff == value && Owner(b'.txs, b'.queue[|b.queue|].id) == Some(player)
    && forall i :: 0 <= i < |b.queue| ==> Owner(b'.txs, b.queue[i].id) == Owner(b.txs, b.queue[i].id)
  }

  lemma MergedIsOneMore(b: Book, at: nat, t: Tx, value: int)
    requires Indexed(b) && at < |b.txs| && t.id == b.txs[at].id && t.player == b.txs[at].player
    ensures OneMore(b, Book(b.txs[at := t], b.nextId, b.queue + [Item(t.id, value)]), t.player, value)
  {
    FindTxAt(b.txs, at);
    OwnerKept(b.txs, at, t, t.id);
    forall i | 0 <= i < |b.queue|
      ensures Owner(b.txs[at := t], b.queue[i].id) == Owner(b.txs, b.queue[i].id)
    {
      OwnerKept(b.txs, at, t, b.queue[i].id);
    }
  }

  lemma AddedIsOneMore(b: Book, t: Tx, value: int)
    requires Indexed(b) && t.id == b.nextId
    ensures OneMore(b, Book(b.txs + [t], b.nextId + 1, b.queue + [Item(t.id, value)]), t.player, value)
  {
    FindTxFails(b.txs, t.id);
    FindTxAppend(b.txs, t, t.id);
    forall i | 0 <= i < |b.queue|
      ensures Owner(b.txs + [t], b.queue[i].id) == Owner(b.txs, b.queue[i].id)
    {
      FindTxAppend(b.txs, t, b.queue[i].id);
    }
  }

  lemma RecordedIsOneMore(b: Book, player: PlayerId, time: int, value: int, kind: string, extra: Extra,
                          attemptMerge: bool, now: int)
    requires Indexed(b)
    ensures OneMore(b, Recorded(b, player, time, value, kind, extra, attemptMerge, now), player, value)
  {
    match MergeTarget(b.txs, player, kind, attemptMerge, now)
    case Some(at) => MergedIsOneMore(b, at, Merged(b.txs[at], time, value, extra), value);
    case None => AddedIsOneMore(b, Tx(b.nextId, player, time, value, kind, extra), value);
  }

  lemma OneMoreSettles(b: Book, b': Book, item: Item, player: PlayerId, other: PlayerId)
    requires b'.queue == b.queue + [item] && Owner(b'.txs, item.id) == Some(player)
    requires forall i :: 0 <= i < |b.queue| ==> Owner(b'.txs, b.queue[i].id) == Owner(b.txs, b.queue[i].id)
    requires Balance(b'.txs, other) == Balance(b.txs, other) + if other == player then item.diff else 0
    ensures Settled(b', other) == Settled(b, other)
  {
    PendingAppend(b'.txs, b.queue, item, other);
    PendingSame(b.txs, b'.txs, b.queue, other);
  }

  lemma RecordedGrows(b: Book, player: PlayerId, time: int, value: int, kind: string, extra: Extra,
                      attemptMerge: bool, now: int, other: PlayerId)
    requires Indexed(b)
    ensures Grows(b, Recorded(b, player, time, value, kind, extra, attemptMerge, now), other)
  {
    var b' := Recorded(b, player, time, value, kind, extra, attemptMerge, now);
    RecordedIsOneMore(b, player, time, value, kind, extra, attemptMerge, now);
    TotalsAreConserved(b, player, time, value, kind, extra, attemptMerge, now, other);
    assert b'.queue == b.queue + [b'.queue[|b.queue|]];
    OneMoreSettles(b, b', b'.queue[|b.queue|], player, other);
  }

  lemma AchieveGrows(g: Game, player: PlayerId, a: Achievement, time: int, other: PlayerId)
    requires Indexed(g.book)
    ensures Grows(g.book, Achieve(g, player, a, time).book, other)
  {
    RecordedGrows(g.book, player, time, a.reward, REWARD, AchievementId(a.id), false, time, other);
  }

  lemma OneLookPays(rules: Rules, g: Game, player: Player, a: Achievement, tx: Tx, diff: int)
    ensures var b := OnTransaction(rules, g, player, a, tx, diff).book;
            b == g.book || b == Achieve(g, player.id, a, tx.time + 1).book
  {
  }

  lemma OneLookGrows(rules: Rules, g: Game, player: Player, a: Achievement, tx: Tx, diff: int, other: PlayerId)
    requires Indexed(g.book)
    ensures Grows(g.book, OnTransaction(rules, g, player, a, tx, diff).book, other)
  {
    OneLookPays(rules, g, player, a, tx, diff);
    AchieveGrows(g, player.id, a, tx.time + 1, other);
  }

  lemma {:induction false} TransactionGrows(rules: Rules, g: Game, player: Player, tx: Tx, diff: int, k: nat,
                                            other: PlayerId)
    requires Indexed(g.book) && k <= |rules.achievements|
    ensures Grows(g.book, TransactionFrom(rules, g, player, tx, diff, k).book, other)
    decreases |rules.achievements| - k
  {
    if k < |rules.achievements| {
      OneLookGrows(rules, g, player, rules.achievements[k], tx, diff, other);
      var g1 := OnTransaction(rules, g, player, rules.achievements[k], tx, diff);
      TransactionGrows(rules, g1, player, tx, diff, k + 1, other);
    }
  }

  /** When a deed is rewarded. */
  function RewardTime(deed: Deed): int {
    match deed
    case NewTrip(trip) => trip.submitTime + 1
    case EditedTrip(trip) => trip.submitTime + 1
    case SentReport(time) => time
  }

  lemma OneDeedPays(g: Game, player: PlayerId, a: Achievement, deed: Deed)
    ensures var b := OnDeed(g, player, a, deed).book;
            b == g.book || b == Achieve(g, player, a, RewardTime(deed)).book
  {
  }

  lemma OneDeedGrows(g: Game, player: PlayerId, a: Achievement, deed: Deed, other: PlayerId)
    requires Indexed(g.book)
    ensures Grows(g.book, OnDeed(g, player, a, deed).book, other)
  {
    OneDeedPays(g, player, a, deed);
    AchieveGrows(g, player, a, RewardTime(deed), other);
  }

  lemma {:induction false} DeedGrows(achievements: seq<Achievement>, g: Game, player: PlayerId, deed: Deed, k: nat,
                                     other: PlayerId)
    requires Indexed(g.book) && k <= |achievements|
    ensures Grows(g.book, DeedFrom(achievements, g, player, deed, k).book, other)
    decreases |achievements| - k
  {
    if k < |achievements| {
      OneDeedGrows(g, player, achievements[k], deed, other);
      DeedGrows(achievements, OnDeed(g, player, achievements[k], deed), player, deed, k + 1, other);
    }
  }

  /** The transaction that comes to be looked at, if this happens. */
  function HeadDiff(g: Game, h: Happening, player: PlayerId): int {
    if h.Processing? && g.book.queue != [] && Owner(g.book.txs, g.book.queue[0].id) == Some(player) then
      g.book.queue[0].diff
    else 0
  }

  lemma HeadDropped(b: Book, player: PlayerId)
    requires Indexed(b) && b.queue != []
    ensures var b1 := b.(queue := b.queue[1..]);
            && Indexed(b1)
            && Settled(b1, player)
               == Settled(b, player) + if Owner(b.txs, b.queue[0].id) == Some(player) then b.queue[0].diff else 0
  {
    PendingHead(b.txs, b.queue, player);
  }

  lemma ProcessedGrows(rules: Rules, g: Game, id: nat, diff: int, player: PlayerId)
    requires Indexed(g.book)
    ensures Grows(g.book, Processed(rules, g, id, diff).book, player)
  {
    var tx := FindTx(g.book.txs, id);
    if tx.Some? && FindPlayer(rules.players, tx.value.player).Some? {
      TransactionGrows(rules, g, FindPlayer(rules.players, tx.value.player).value, tx.value, diff, 0, player);
    }
  }

  lemma LookSettles(rules: Rules, g: Game, player: PlayerId)
    requires Indexed(g.book) && g.book.queue != []
    ensures Indexed(Step(rules, g).book)
    ensures Settled(Step(rules, g).book, player) == Settled(g.book, player) + HeadDiff(g, Processing, player)
  {
    HeadDropped(g.book, player);
    ProcessedGrows(rules, g.(book := g.book.(queue := g.book.queue[1..])), g.book.queue[0].id, g.book.queue[0].diff,
                   player);
  }

  /** Looking at a transaction settles the change it made, and nothing else settles anything. */
  lemma HappensSettles(rules: Rules, g: Game, h: Happening, player: PlayerId)
    requires Indexed(g.book)
    ensures var g' := Happens(rules, g, h);
            && Indexed(g'.book) && Settled(g'.book, player) == Settled(g.book, player) + HeadDiff(g, h, player)
            && (!h.Processing? ==> Grows(g.book, g'.book, player))
  {
    match h
    case Transaction(doer, time, value, kind, extra, attemptMerge, now) =>
      RecordedGrows(g.book, doer, time, value, kind, extra, attemptMerge, now, player);
    case Doing(doer, deed) => DeedGrows(rules.achievements, g, doer, deed, 0, player);
    case Processing =>
      if g.book.queue != [] {
        LookSettles(rules, g, player);
      }
  }

  // ----- One transaction at a time -----

  /** No more than one transaction is waiting, and if it is the player's, none of the player's is dated
      after it or before the player joined. */
  ghost predicate OneAtATime(g: Game, player: Player) {
    && |g.book.queue| <= 1
    && (g.book.queue != [] ==>
          var tx := FindTx(g.book.txs, g.book.queue[0].id);
          tx.Some? && tx.value.player == player.id ==>
            forall t :: t in g.book.txs && t.player == player.id ==> player.joined <= t.time <= tx.value.time)
  }

  ghost predicate InSequence(rules: Rules, hs: seq<Happening>, player: Player) {
    OneAtATime(HappenAll(rules, START, hs), player) && (hs != [] ==> InSequence(rules, hs[..|hs| - 1], player))
  }

  /** At some point of the run, the player's points made the level. */
  ghost predicate Reached(rules: Rules, hs: seq<Happening>, id: PlayerId, level: int) {
    || level <= rules.levelOf(Balance(HappenAll(rules, START, hs).book.txs, id))
    || (hs != [] && Reached(rules, hs[..|hs| - 1], id, level))
  }

  lemma {:induction false} SumSame(txs: seq<Tx>, p: Tx -> bool, q: Tx -> bool)
    requires forall t :: t in txs ==> p(t) == q(t)
    ensures Sum(txs, p) == Sum(txs, q)
    decreases |txs|
  {
    if txs != [] {
      SumSame(txs[..|txs| - 1], p, q);
    }
  }

  /** In sequence, the balance as of the transaction looked at is the whole balance. */
  lemma BalanceIsWhole(txs: seq<Tx>, player: Player, time: int)
    requires forall t :: t in txs && t.player == player.id ==> player.joined <= t.time <= time
    ensures BalanceBetween(txs, player.id, player.joined, time) == Balance(txs, player.id)
  {
    SumSame(txs, InWindow(player.id, player.joined, time), ByPlayer(player.id));
  }

  /** A player who lacks the achievement has not settled points that make the level. */
  ghost predicate Lagging(rules: Rules, g: Game, id: PlayerId, a: Achievement)
    requires a.strategy.ReachLevel?
  {
    HasAchieved(g.rows, id, a.id) || rules.levelOf(Settled(g.book, id)) < a.strategy.level
  }

  /** In sequence, the next transaction to be looked at crosses the level exactly if its owner lacks
      the achievement and has the points. */
  lemma CrossesIff(rules: Rules, g: Game, player: Player, a: Achievement)
    requires a.strategy.ReachLevel? && Indexed(g.book) && OneAtATime(g, player)
    requires FindPlayer(rules.players, player.id) == Some(player)
    requires g.book.queue != [] && Owner(g.book.txs, g.book.queue[0].id) == Some(player.id)
    requires Lagging(rules, g, player.id, a) && !HasAchieved(g.rows, player.id, a.id)
    ensures Crosses(rules, g, player.id, a.strategy.level)
            <==> a.strategy.level <= rules.levelOf(Balance(g.book.txs, player.id))
  {
    var item := g.book.queue[0];
    PendingHead(g.book.txs, g.book.queue, player.id);
    assert g.book.queue[1..] == [];
    var tx := FindTx(g.book.txs, item.id).value;
    BalanceIsWhole(g.book.txs, player, tx.time);
    LiftsToIff(rules, g, player, a.strategy.level, tx, item.diff);
  }

  lemma NothingPending(g: Game, player: PlayerId)
    requires |g.book.queue| <= 1
    requires g.book.queue != [] ==> Owner(g.book.txs, g.book.queue[0].id) != Some(player)
    ensures Settled(g.book, player) == Balance(g.book.txs, player)
  {
    if g.book.queue != [] {
      PendingHead(g.book.txs, g.book.queue, player);
      assert g.book.queue[1..] == [];
    }
  }

  /** Who has the points has had them looked at, or has them waiting. */
  ghost predicate UpToDate(g: Game, id: PlayerId, a: Achievement, reached: bool, rules: Rules)
    requires a.strategy.ReachLevel?
  {
    && Lagging(rules, g, id, a)
    && (reached <==> HasAchieved(g.rows, id, a.id) || a.strategy.level <= rules.levelOf(Balance(g.book.txs, id)))
  }

  /** Looking at the player's one waiting transaction. */
  lemma LookStaysUpToDate(rules: Rules, g: Game, player: Player, a: Achievement, g': Game, reached: bool)
    requires a.strategy.ReachLevel? && FindPlayer(rules.players, player.id) == Some(player)
    requires Indexed(g.book) && OneAtATime(g, player) && UpToDate(g, player.id, a, reached, rules)
    requires g.book.queue != [] && Owner(g.book.txs, g.book.queue[0].id) == Some(player.id)
    requires HasAchieved(g'.rows, player.id, a.id)
             <==> HasAchieved(g.rows, player.id, a.id) || Crosses(rules, g, player.id, a.strategy.level)
    requires Settled(g'.book, player.id) == Settled(g.book, player.id) + g.book.queue[0].diff
    ensures UpToDate(g', player.id, a,
                     reached || a.strategy.level <= rules.levelOf(Balance(g'.book.txs, player.id)), rules)
  {
    PendingHead(g.book.txs, g.book.queue, player.id);
    assert g.book.queue[1..] == [];
    if !HasAchieved(g.rows, player.id, a.id) {
      CrossesIff(rules, g, player, a);
    }
  }

  /** Anything else. */
  lemma RestStaysUpToDate(rules: Rules, g: Game, id: PlayerId, a: Achievement, g': Game, reached: bool)
    requires a.strategy.ReachLevel? && UpToDate(g, id, a, reached, rules)
    requires HasAchieved(g'.rows, id, a.id) <==> HasAchieved(g.rows, id, a.id)
    requires Settled(g'.book, id) == Settled(g.book, id)
    requires Balance(g'.book.txs, id) == Balance(g.book.txs, id) || Balance(g.book.txs, id) == Settled(g.book, id)
    ensures UpToDate(g', id, a, reached || a.strategy.level <= rules.levelOf(Balance(g'.book.txs, id)), rules)
  {
  }

  lemma StepStaysUpToDate(rules: Rules, g: Game, h: Happening, player: Player, j: nat, reached: bool)
    requires DistinctIds(rules.achievements) && FindPlayer(rules.players, player.id) == Some(player)
    requires j < |rules.achievements| && rules.achievements[j].strategy.ReachLevel?
    requires Indexed(g.book) && UpToDate(g, player.id, rules.achievements[j], reached, rules)
    requires OneAtATime(g, player) && OneAtATime(Happens(rules, g, h), player)
    ensures var g', a := Happens(rules, g, h), rules.achievements[j];
            && Indexed(g'.book)
            && UpToDate(g', player.id, a,
                        reached || a.strategy.level <= rules.levelOf(Balance(g'.book.txs, player.id)), rules)
  {
    var a, id, g' := rules.achievements[j], player.id, Happens(rules, g, h);
    LevelStepIff(rules, g, h, id, j);
    HappensSettles(rules, g, h, id);
    if h.Processing? && g.book.queue != [] && Owner(g.book.txs, g.book.queue[0].id) == Some(id) {
      LookStaysUpToDate(rules, g, player, a, g', reached);
    } else {
      if g.book.queue == [] || h.Processing? {
        NothingPending(g, id);
      } else {
        assert g'.book.queue == g.book.queue;
      }
      RestStaysUpToDate(rules, g, id, a, g', reached);
    }
  }

  lemma {:induction false} RunStaysUpToDate(rules: Rules, hs: seq<Happening>, player: Player, j: nat)
    requires DistinctIds(rules.achievements) && FindPlayer(rules.players, player.id) == Some(player)
    requires j < |rules.achievements| && rules.achievements[j].strategy.ReachLevel?
    requires rules.levelOf(0) < rules.achievements[j].strategy.level && InSequence(rules, hs, player)
    ensures var g, a := HappenAll(rules, START, hs), rules.achievements[j];
            && Indexed(g.book)
            && UpToDate(g, player.id, a, Reached(rules, hs, player.id, a.strategy.level), rules)
    decreases |hs|
  {
    if hs != [] {
      var front, a := hs[..|hs| - 1], rules.achievements[j];
      RunStaysUpToDate(rules, front, player, j);
      StepStaysUpToDate(rules, HappenAll(rules, START, front), hs[|hs| - 1], player, j,
                        Reached(rules, front, player.id, a.strategy.level));
    }
  }

  /** In a run with one transaction at a time, on a clock that does not go back, a player has the
      achievement for a level that nobody starts at exactly if the player's points made the level at
      some point, once nothing is waiting to be looked at. */
  lemma LevelsAreHeldIff(rules: Rules, hs: seq<Happening>, player: Player, j: nat)
    requires DistinctIds(rules.achievements) && FindPlayer(rules.players, player.id) == Some(player)
    requires j < |rules.achievements| && rules.achievements[j].strategy.ReachLevel?
    requires rules.levelOf(0) < rules.achievements[j].strategy.level && InSequence(rules, hs, player)
    requires HappenAll(rules, START, hs).book.queue == []
    ensures var a := rules.achievements[j];
            HasAchieved(HappenAll(rules, START, hs).rows, player.id, a.id)
            <==> Reached(rules, hs, player.id, a.strategy.level)
  {
    RunStaysUpToDate(rules, hs, player, j);
    NothingPending(HappenAll(rules, START, hs), player.id);
  }

  // ----- Two rewards at one time -----

  const PLAYER := Player(1, 0)
  const FIRST := Achievement("first", 1, ReachLevel(1))
  const OTHER := Achievement("other", 1, ReachLevel(1))
  const SECOND := Achievement("second", 0, ReachLevel(2))
  const RULES := Rules([PLAYER], [FIRST, OTHER, SECOND], (xp: int) => xp)

  const CAUSE := Tx(0, 1, 10, 1, "TRIP_SUBMIT_REWARD", NoExtra)
  const REWARDS := [Tx(1, 1, 11, 1, REWARD, AchievementId("first")), Tx(2, 1, 11, 1, REWARD, AchievementId("other"))]
  const WON: Rows := map[(1, "first") := Progress(true, 11, []), (1, "other") := Progress(true, 11, [])]
  const TRANSACTION := Transaction(1, 10, 1, "TRIP_SUBMIT_REWARD", NoExtra, false, 10)

  lemma HappenOneMore(rules: Rules, hs: seq<Happening>, h: Happening)
    ensures HappenAll(rules, START, hs + [h]) == Happens(rules, HappenAll(rules, START, hs), h)
  {
    assert (hs + [h])[..|hs|] == hs;
  }

  lemma PointsOf()
    ensures BalanceBetween([CAUSE], 1, 0, 10) == 1
    ensures BalanceBetween([CAUSE, REWARDS[0]], 1, 0, 10) == 1
    ensures BalanceBetween([CAUSE] + REWARDS, 1, 0, 10) == 1
    ensures BalanceBetween([CAUSE] + REWARDS, 1, 0, 11) == 3 == Balance([CAUSE] + REWARDS, 1)
  {
    forall p: Tx -> bool
      ensures Sum([CAUSE], p) == Share(CAUSE, p)
      ensures Sum([CAUSE, REWARDS[0]], p) == Share(CAUSE, p) + Share(REWARDS[0], p)
      ensures Sum([CAUSE] + REWARDS, p) == Share(CAUSE, p) + Share(REWARDS[0], p) + Share(REWARDS[1], p)
    {
      SumAppend([], CAUSE, p);
      assert [] + [CAUSE] == [CAUSE] && [CAUSE] + [REWARDS[0]] == [CAUSE, REWARDS[0]];
      assert [CAUSE, REWARDS[0]] + [REWARDS[1]] == [CAUSE] + REWARDS;
      SumAppend([CAUSE], REWARDS[0], p);
      SumAppend([CAUSE, REWARDS[0]], REWARDS[1], p);
    }
  }

  /** The first transaction brings two achievements for the same level, and so two rewards. */
  lemma TwoRewards()
    ensures TransactionFrom(RULES, Game(Book([CAUSE], 1, []), map[]), PLAYER, CAUSE, 1, 0)
         == Game(Book([CAUSE] + REWARDS, 3, [Item(1, 1), Item(2, 1)]), WON)
  {
    PointsOf();
    var g0 := Game(Book([CAUSE], 1, []), map[]);
    var g1 := OnTransaction(RULES, g0, PLAYER, FIRST, CAUSE, 1);
    assert g1 == Game(Book([CAUSE, REWARDS[0]], 2, [Item(1, 1)]), map[(1, "first") := Progress(true, 11, [])]);
    var g2 := OnTransaction(RULES, g1, PLAYER, OTHER, CAUSE, 1);
    assert g2 == Game(Book([CAUSE] + REWARDS, 3, [Item(1, 1), Item(2, 1)]), WON);
    assert OnTransaction(RULES, g2, PLAYER, SECOND, CAUSE, 1) == g2;
    var n := |RULES.achievements|;
    assert n == 3 && TransactionFrom(RULES, g2, PLAYER, CAUSE, 1, 3) == g2;
    assert TransactionFrom(RULES, g2, PLAYER, CAUSE, 1, 2) == g2;
    assert TransactionFrom(RULES, g1, PLAYER, CAUSE, 1, 1) == g2;
  }

  /** Each of them is looked at with the other one already counted. */
  lemma NeitherCrosses(tx: Tx, queue: seq<Item>)
    requires tx in REWARDS
    ensures var g := Game(Book([CAUSE] + REWARDS, 3, queue), WON); TransactionFrom(RULES, g, PLAYER, tx, 1, 0) == g
  {
    PointsOf();
    var g := Game(Book([CAUSE] + REWARDS, 3, queue), WON);
    assert tx.time == 11;
    assert OnTransaction(RULES, g, PLAYER, FIRST, tx, 1) == g;
    assert OnTransaction(RULES, g, PLAYER, OTHER, tx, 1) == g;
    assert OnTransaction(RULES, g, PLAYER, SECOND, tx, 1) == g;
    assert TransactionFrom(RULES, g, PLAYER, tx, 1, 3) == g;
    assert TransactionFrom(RULES, g, PLAYER, tx, 1, 2) == g;
    assert TransactionFrom(RULES, g, PLAYER, tx, 1, 1) == g;
  }

  lemma LookAtCause()
    ensures Step(RULES, Game(Book([CAUSE], 1, [Item(0, 1)]), map[]))
         == Game(Book([CAUSE] + REWARDS, 3, [Item(1, 1), Item(2, 1)]), WON)
  {
    TwoRewards();
    assert FindTx([CAUSE], 0) == Some(CAUSE) && FindPlayer([PLAYER], 1) == Some(PLAYER);
    assert [Item(0, 1)][1..] == [];
  }

  lemma LookAtReward(k: nat, queue: seq<Item>)
    requires k < 2
    ensures Step(RULES, Game(Book([CAUSE] + REWARDS, 3, [Item(k + 1, 1)] + queue), WON))
         == Game(Book([CAUSE] + REWARDS, 3, queue), WON)
  {
    var txs := [CAUSE] + REWARDS;
    NeitherCrosses(REWARDS[k], queue);
    assert txs[1..] == REWARDS && REWARDS[1..][0] == REWARDS[1];
    assert FindTx(REWARDS[1..], 2) == Some(REWARDS[1]);
    assert FindTx(REWARDS, k + 1) == Some(REWARDS[k]);
    assert FindTx(txs, k + 1) == Some(REWARDS[k]) && FindPlayer([PLAYER], 1) == Some(PLAYER);
    assert ([Item(k + 1, 1)] + queue)[1..] == queue;
  }

  lemma RecordCause()
    ensures HappenAll(RULES, START, [TRANSACTION]) == Game(Book([CAUSE], 1, [Item(0, 1)]), map[])
  {
    HappenOneMore(RULES, [], TRANSACTION);
    assert [] + [TRANSACTION] == [TRANSACTION] && [] + [CAUSE] == [CAUSE] && [] + [Item(0, 1)] == [Item(0, 1)];
  }

  lemma LookAtAll(hs: seq<Happening>)
    requires HappenAll(RULES, START, hs) == Game(Book([CAUSE], 1, [Item(0, 1)]), map[])
    ensures HappenAll(RULES, START, hs + [Processing] + [Processing] + [Processing])
         == Game(Book([CAUSE] + REWARDS, 3, []), WON)
  {
    LookAtCause();
    LookAtReward(0, [Item(2, 1)]);
    LookAtReward(1, []);
    assert [Item(1, 1), Item(2, 1)] == [Item(1, 1)] + [Item(2, 1)] && [Item(2, 1)] + [] == [Item(2, 1)];
    HappenOneMore(RULES, hs, Processing);
    HappenOneMore(RULES, hs + [Processing], Processing);
    HappenOneMore(RULES, hs + [Processing] + [Processing], Processing);
  }

  /** Not in sequence, a level can be missed: two rewards of one time take a player from level 1 to
      level 3, and neither is seen to cross level 2. */
  lemma TwoRewardsHideALevel()
    ensures var hs := [TRANSACTION] + [Processing] + [Processing] + [Processing];
            var g := HappenAll(RULES, START, hs);
            g.book.queue == [] && Reached(RULES, hs, 1, 2) && !HasAchieved(g.rows, 1, "second")
  {
    RecordCause();
    LookAtAll([TRANSACTION]);
    PointsOf();
  }
}
