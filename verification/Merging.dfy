/** When a transaction is merged into the player's latest one (posplay/posplay.go, DoXPTransaction), and
    what comes of it over whole runs. */
module Merging {
  import opened Wrappers
  import opened Schedules
  import opened Ledger

  // ----- One transaction -----

  /** Row i is the player's latest; of rows of the same time the one inserted later. */
  ghost predicate IsLatest(txs: seq<Tx>, player: PlayerId, i: nat) {
    && i < |txs| && txs[i].player == player
    && forall j :: 0 <= j < |txs| && j != i && txs[j].player == player ==>
         if j < i then txs[j].time <= txs[i].time else txs[j].time < txs[i].time
  }

  lemma {:induction false} LatestOfIff(txs: seq<Tx>, player: PlayerId, i: nat)
    ensures LatestOf(txs, player) == Some(i) <==> IsLatest(txs, player, i)
    decreases |txs|
  {
    if txs != [] {
      var n := |txs| - 1;
      LatestOfIff(txs[..n], player, i);
      LatestIsLatest(txs[..n], player);
      LatestIsLatest(txs, player);
      var earlier := LatestOf(txs[..n], player);
      if earlier.Some? {
        LatestOfIff(txs[..n], player, earlier.value);
        assert txs[earlier.value] == txs[..n][earlier.value];
      }
      if i < n {
        assert IsLatest(txs, player, i)
               <==> IsLatest(txs[..n], player, i) && (txs[n].player == player ==> txs[n].time < txs[i].time);
      }
    }
  }

  /** Row i is the player's latest, of the kind, and later than the start of this week. */
  ghost predicate IsOpenTo(txs: seq<Tx>, player: PlayerId, kind: string, now: int, i: nat) {
    IsLatest(txs, player, i) && txs[i].kind == kind && WeekStart(now) < txs[i].time
  }

  /** Row i has taken in the value, has the new time, and the new details if there are any; nothing else
      has changed. */
  ghost predicate IsMergedInto(b: Book, b': Book, i: nat, time: int, value: int, extra: Extra) {
    && i < |b.txs| == |b'.txs| && b'.nextId == b.nextId
    && (forall j :: 0 <= j < |b.txs| && j != i ==> b'.txs[j] == b.txs[j])
    && b'.txs[i] == Tx(b.txs[i].id, b.txs[i].player, time, b.txs[i].value + value, b.txs[i].kind,
                       if extra == NoExtra then b.txs[i].extra else extra)
    && b'.queue == b.queue + [Item(b.txs[i].id, value)]
  }

  /** There is one more row, and nothing else has changed. */
  ghost predicate IsAdded(b: Book, b': Book, player: PlayerId, time: int, value: int, kind: string, extra: Extra) {
    && b'.nextId == b.nextId + 1 && b'.txs == b.txs + [Tx(b.nextId, player, time, value, kind, extra)]
    && b'.queue == b.queue + [Item(b.nextId, value)]
  }

  /** A transaction is merged exactly if that is attempted and the player's latest one is open to it. */
  lemma MergesIff(b: Book, player: PlayerId, time: int, value: int, kind: string, extra: Extra, attemptMerge: bool,
                  now: int)
    ensures var b' := Recorded(b, player, time, value, kind, extra, attemptMerge, now);
            && (|b'.txs| == |b.txs| <==> attemptMerge && exists i: nat :: IsOpenTo(b.txs, player, kind, now, i))
            && (|b'.txs| != |b.txs| ==> IsAdded(b, b', player, time, value, kind, extra))
            && (attemptMerge ==> forall i: nat :: IsOpenTo(b.txs, player, kind, now, i) ==>
                                   IsMergedInto(b, b', i, time, value, extra))
  {
    var at := MergeTarget(b.txs, player, kind, attemptMerge, now);
    if at.Some? {
      LatestOfIff(b.txs, player, at.value);
      assert IsOpenTo(b.txs, player, kind, now, at.value);
    }
    forall i: nat | attemptMerge && IsOpenTo(b.txs, player, kind, now, i)
      ensures at == Some(i)
    {
      LatestOfIff(b.txs, player, i);
    }
  }

  // ----- Every run on a clock that does not go back -----

  function TimeOf(op: Op): int {
    match op
    case Win(_, _, _, _, now) => now
    case Participate(_, _, now) => now
    case Grant(_, time, _, _, _) => time
  }

  /** Nothing but participations is of their kind. */
  predicate KeepsToItsKind(op: Op) {
    match op
    case Win(_, _, _, kind, _) => kind != PARTICIPATION
    case Participate(_, _, _) => true
    case Grant(_, _, _, kind, _) => kind != PARTICIPATION
  }

  ghost predicate OnClock(ops: seq<Op>) {
    && (forall i :: 0 <= i < |ops| ==> KeepsToItsKind(ops[i]))
    && forall i, j :: 0 <= i < j < |ops| ==> TimeOf(ops[i]) <= TimeOf(ops[j])
  }

  /** Rows i and j are of one player and one kind, and so are all that player's rows between them. */
  ghost predicate OneAfterAnother(txs: seq<Tx>, kind: string, i: nat, j: nat) {
    && i < j < |txs| && txs[i].player == txs[j].player && txs[i].kind == txs[j].kind == kind
    && forall k :: i < k < j && txs[k].player == txs[j].player ==> txs[k].kind == kind
  }

  /** The week of the second row started after the first row, or at that very instant. */
  predicate WeekHasTurned(t: Tx, u: Tx) {
    t.time <= WeekStart(u.time)
  }

  /** Each player's rows are in order of time, none is later than now, and two participations follow each
      other only if the week has turned. */
  ghost predicate InWeeks(txs: seq<Tx>, now: int) {
    && (forall i :: 0 <= i < |txs| ==> txs[i].time <= now)
    && (forall i, j :: 0 <= i < j < |txs| && txs[i].player == txs[j].player ==> txs[i].time <= txs[j].time)
    && (forall i: nat, j: nat :: OneAfterAnother(txs, PARTICIPATION, i, j) ==> WeekHasTurned(txs[i], txs[j]))
  }

  /** On such a clock the latest row of a player is the last one. */
  lemma LatestIsLast(txs: seq<Tx>, player: PlayerId, now: int, i: nat)
    requires InWeeks(txs, now)
    ensures IsLatest(txs, player, i)
            <==> && i < |txs| && txs[i].player == player
                 && forall j :: i < j < |txs| ==> txs[j].player != player
  {
  }

  /** Instants of one week have the same start of the week. */
  lemma SameWeek(t: int, now: int)
    requires WeekStart(now) <= t <= now
    ensures WeekStart(t) == WeekStart(now)
  {
    WeekStartIsUnique(now, WeekStart(now));
    WeekStartIsUnique(t, WeekStart(now));
  }

  lemma MergedInWeeks(b: Book, b': Book, i: nat, value: int, extra: Extra, now: int)
    requires InWeeks(b.txs, now) && IsMergedInto(b, b', i, now, value, extra)
    requires IsOpenTo(b.txs, b.txs[i].player, PARTICIPATION, now, i)
    ensures InWeeks(b'.txs, now)
  {
    LatestIsLast(b.txs, b.txs[i].player, now, i);
    SameWeek(b.txs[i].time, now);
    SameWeek(now, now);
    forall j: nat, k: nat | OneAfterAnother(b'.txs, PARTICIPATION, j, k)
      ensures WeekHasTurned(b'.txs[j], b'.txs[k])
    {
      assert OneAfterAnother(b.txs, PARTICIPATION, j, k);
      assert WeekHasTurned(b.txs[j], b.txs[k]);
      assert j != i;
    }
  }

  lemma AddedInWeeks(txs: seq<Tx>, t: Tx, now: int)
    requires InWeeks(txs, now) && t.time == now
    requires t.kind == PARTICIPATION ==> forall i: nat :: !IsOpenTo(txs, t.player, PARTICIPATION, now, i)
    ensures InWeeks(txs + [t], now)
  {
    var more, n := txs + [t], |txs|;
    forall j: nat, k: nat | OneAfterAnother(more, PARTICIPATION, j, k)
      ensures WeekHasTurned(more[j], more[k])
    {
      if k < n {
        assert forall m :: j < m < k ==> more[m] == txs[m];
        assert OneAfterAnother(txs, PARTICIPATION, j, k);
      } else {
        assert forall m :: j < m < n ==> more[m] == txs[m];
        LastOfKind(txs, t.player, PARTICIPATION, j, now);
      }
    }
  }

  /** If all rows of the player from row j on are participations, the last of them was open unless the week
      has turned. */
  lemma LastOfKind(txs: seq<Tx>, player: PlayerId, kind: string, j: nat, now: int)
    requires InWeeks(txs, now) && j < |txs| && txs[j].player == player && txs[j].kind == kind
    requires forall k :: j < k < |txs| && txs[k].player == player ==> txs[k].kind == kind
    requires forall i: nat :: !IsOpenTo(txs, player, kind, now, i)
    ensures txs[j].time <= WeekStart(now)
  {
    LatestIsLatest(txs, player);
    var i := LatestOf(txs, player).value;
    LatestOfIff(txs, player, i);
    LatestIsLast(txs, player, now, i);
    assert !IsOpenTo(txs, player, kind, now, i);
  }

  lemma LaterInWeeks(txs: seq<Tx>, now: int, later: int)
    requires InWeeks(txs, now) && now <= later
    ensures InWeeks(txs, later)
  {
  }

  lemma PerformInWeeks(b: Book, players: set<PlayerId>, op: Op)
    requires InWeeks(b.txs, TimeOf(op)) && KeepsToItsKind(op)
    ensures InWeeks(Perform(b, players, op).txs, TimeOf(op))
  {
    var now := TimeOf(op);
    match op
    case Win(player, message, reward, kind, _) =>
      if player in players && !PaidFor(b.txs, player, kind, message) {
        AddedInWeeks(b.txs, Tx(b.nextId, player, now, reward, kind, EventId(message)), now);
      }
    case Grant(player, _, value, kind, extra) =>
      AddedInWeeks(b.txs, Tx(b.nextId, player, now, value, kind, extra), now);
    case Participate(player, reward, _) =>
      if player in players {
        MergesIff(b, player, now, reward, PARTICIPATION, NoExtra, true, now);
        var b' := Perform(b, players, op);
        if i: nat :| IsOpenTo(b.txs, player, PARTICIPATION, now, i) {
          MergedInWeeks(b, b', i, reward, NoExtra, now);
        } else {
          AddedInWeeks(b.txs, Tx(b.nextId, player, now, reward, PARTICIPATION, NoExtra), now);
        }
      }
  }

  ghost function EndOf(ops: seq<Op>): int {
    if ops == [] then 0 else TimeOf(ops[|ops| - 1])
  }

  lemma {:induction false} RunInWeeks(players: set<PlayerId>, ops: seq<Op>)
    requires OnClock(ops)
    ensures InWeeks(PerformAll(EMPTY, players, ops).txs, EndOf(ops))
    decreases |ops|
  {
    if ops != [] {
      var front, op := ops[..|ops| - 1], ops[|ops| - 1];
      RunInWeeks(players, front);
      if front == [] {
        assert InWeeks(EMPTY.txs, TimeOf(op));
      } else {
        LaterInWeeks(PerformAll(EMPTY, players, front).txs, EndOf(front), TimeOf(op));
      }
      PerformInWeeks(PerformAll(EMPTY, players, front), players, op);
    }
  }

  /** Over every run on a clock that does not go back, two participations of a player with nothing else of
      that player between them are of different weeks, unless the first is dated the very instant that
      the week started. */
  lemma ParticipationsAreWeeksApart(players: set<PlayerId>, ops: seq<Op>, i: nat, j: nat)
    requires OnClock(ops) && OneAfterAnother(PerformAll(EMPTY, players, ops).txs, PARTICIPATION, i, j)
    ensures var txs := PerformAll(EMPTY, players, ops).txs;
            WeekStart(txs[i].time) < WeekStart(txs[j].time) || txs[i].time == WeekStart(txs[j].time)
  {
    RunInWeeks(players, ops);
    var txs := PerformAll(EMPTY, players, ops).txs;
    assert WeekHasTurned(txs[i], txs[j]);
    WeekStartIsUnique(txs[i].time, WeekStart(txs[i].time));
    WeekStartIsUnique(txs[j].time, WeekStart(txs[j].time));
  }

  // ----- What an event pays -----

  function ForEvent(player: PlayerId, kind: string, message: string): Tx -> bool {
    (t: Tx) => t.player == player && t.kind == kind && t.extra == EventId(message)
  }

  lemma {:induction false} UnpaidIsNothing(txs: seq<Tx>, player: PlayerId, kind: string, message: string)
    requires !PaidFor(txs, player, kind, message)
    ensures Sum(txs, ForEvent(player, kind, message)) == 0
    decreases |txs|
  {
    if txs != [] {
      var front := txs[..|txs| - 1];
      assert forall i :: 0 <= i < |front| ==> front[i] == txs[i];
      UnpaidIsNothing(front, player, kind, message);
    }
  }

  /** The operation cannot change what was paid for that event, other than by paying for it. */
  predicate IsOther(op: Op, message: string) {
    op.Grant? ==> op.extra != EventId(message)
  }

  lemma OtherPaysNothing(b: Book, players: set<PlayerId>, op: Op, player: PlayerId, kind: string, message: string)
    requires PaidFor(b.txs, player, kind, message) && IsOther(op, message) && kind != PARTICIPATION
    ensures Sum(Perform(b, players, op).txs, ForEvent(player, kind, message))
         == Sum(b.txs, ForEvent(player, kind, message))
  {
    var p := ForEvent(player, kind, message);
    match op
    case Win(winner, event, reward, k, now) =>
      SumRecorded(b, winner, now, reward, k, EventId(event), false, now, p);
    case Participate(other, reward, now) => SumRecorded(b, other, now, reward, PARTICIPATION, NoExtra, true, now, p);
    case Grant(other, time, value, k, extra) => SumRecorded(b, other, time, value, k, extra, false, time, p);
  }

  /** The player has a row of that kind for that event. */
  ghost predicate HasRowFor(txs: seq<Tx>, player: PlayerId, kind: string, message: string) {
    exists t :: t in txs && ForEvent(player, kind, message)(t)
  }

  lemma PaidForIff(txs: seq<Tx>, player: PlayerId, kind: string, message: string)
    ensures PaidFor(txs, player, kind, message) <==> HasRowFor(txs, player, kind, message)
  {
    if HasRowFor(txs, player, kind, message) {
      var t :| t in txs && ForEvent(player, kind, message)(t);
      var i :| 0 <= i < |txs| && txs[i] == t;
    }
    if PaidFor(txs, player, kind, message) {
      var i :| 0 <= i < |txs| && txs[i].player == player && txs[i].kind == kind && txs[i].extra == EventId(message);
      assert ForEvent(player, kind, message)(txs[i]);
    }
  }

  /** A player who has a row for the event, and whoever is no player, is paid nothing. */
  lemma NothingMoreIsPaid(b: Book, players: set<PlayerId>, player: PlayerId, message: string, reward: int,
                          kind: string, now: int)
    requires player !in players || HasRowFor(b.txs, player, kind, message)
    ensures EventWin(b, players, player, message, reward, kind, now) == b
  {
    PaidForIff(b.txs, player, kind, message);
  }

  /** An event that was not paid for yet is paid for with a row of its own, dated now; and, whatever is
      recorded after, what the player has for it stays that reward. */
  lemma {:induction false} EventIsWorthItsReward(b: Book, players: set<PlayerId>, player: PlayerId, message: string,
                                                 reward: int, kind: string, now: int, ops: seq<Op>)
    requires player in players && !HasRowFor(b.txs, player, kind, message) && kind != PARTICIPATION
    requires forall op :: op in ops ==> IsOther(op, message)
    ensures var paid := EventWin(b, players, player, message, reward, kind, now);
            && IsAdded(b, paid, player, now, reward, kind, EventId(message))
            && Sum(PerformAll(paid, players, ops).txs, ForEvent(player, kind, message)) == reward
    decreases |ops|
  {
    var paid := EventWin(b, players, player, message, reward, kind, now);
    PaidForIff(b.txs, player, kind, message);
    if ops == [] {
      UnpaidIsNothing(b.txs, player, kind, message);
      SumRecorded(b, player, now, reward, kind, EventId(message), false, now, ForEvent(player, kind, message));
    } else {
      var front := ops[..|ops| - 1];
      EventIsWorthItsReward(b, players, player, message, reward, kind, now, front);
      EventIsPaidOnce(b, players, player, message, reward, kind, now, front, reward, now);
      OtherPaysNothing(PerformAll(paid, players, front), players, ops[|ops| - 1], player, kind, message);
    }
  }

  // ----- The very start of a week -----

  const START_OF_WEEK := 4 * DAY + TWO_HOURS

  /** Two participations of one week that are not merged, for the first is of the instant the week started. */
  lemma StartOfWeekIsNotMerged(player: PlayerId, reward: int)
    ensures var ops := [Participate(player, reward, START_OF_WEEK)] + [Participate(player, reward, START_OF_WEEK + 1)];
            var txs := PerformAll(EMPTY, {player}, ops).txs;
            && OneAfterAnother(txs, PARTICIPATION, 0, 1) && WeekStart(txs[0].time) == WeekStart(txs[1].time)
  {
    var first, second := Participate(player, reward, START_OF_WEEK), Participate(player, reward, START_OF_WEEK + 1);
    var t := Tx(0, player, START_OF_WEEK, reward, PARTICIPATION, NoExtra);
    WeekStartIsUnique(START_OF_WEEK, START_OF_WEEK);
    WeekStartIsUnique(START_OF_WEEK + 1, START_OF_WEEK);
    assert ([first] + [second])[..1] == [first] && [first][..0] == [];
    MergesIff(EMPTY, player, START_OF_WEEK, reward, PARTICIPATION, NoExtra, true, START_OF_WEEK);
    assert PerformAll(EMPTY, {player}, [first]) == Book([t], 1, [Item(0, reward)]);
    MergesIff(Book([t], 1, [Item(0, reward)]), player, START_OF_WEEK + 1, reward, PARTICIPATION, NoExtra, true,
              START_OF_WEEK + 1);
  }
}
