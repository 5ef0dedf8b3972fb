/** The ledger of experience points (posplay/posplay.go and types/pp_xp_tx.go): transactions that may
    be merged into the player's latest one, and the competition week. */
module Ledger {
  import opened Wrappers
  import opened Schedules

  type PlayerId = nat

  datatype Extra = NoExtra | EventId(message: string) | AchievementId(achievement: string) | OtherExtra

  datatype Tx = Tx(id: nat, player: PlayerId, time: int, value: int, kind: string, extra: Extra)

  /** A transaction to be looked at by the achievements, and by how much it changed the balance. */
  datatype Item = Item(id: nat, diff: int)

  /** The transaction table, the next unused ID and the queue of transactions to look at. */
  datatype Book = Book(txs: seq<Tx>, nextId: nat, queue: seq<Item>)

  // ----- The competition week -----

  const TWO_HOURS := 7_200_000

  /** The source's computation: Mondays are day 1 of the week and Sundays day 0. */
  function WeekStart(now: int): int {
    var sinceMonday := Weekday(DayOf(now)) - 1;
    var monday := DayOf(now) - if sinceMonday < 0 then 6 else sinceMonday;
    var endTime := monday * DAY + TWO_HOURS;
    if endTime > now then endTime - 7 * DAY else endTime
  }

  predicate IsWeekBoundary(t: int) {
    Weekday(DayOf(t)) == 1 && t - DayOf(t) * DAY == TWO_HOURS
  }

  lemma MondaysAreWeeksApart(a: int, b: int)
    requires Weekday(a) == 1 && Weekday(b) == 1 && a < b
    ensures a + 7 <= b
  {
    var i, j := (a + 4) / 7, (b + 4) / 7;
    assert a + 4 == 7 * i + 1 && b + 4 == 7 * j + 1;
  }

  lemma BoundariesAreWeeksApart(s: int, t: int)
    requires IsWeekBoundary(s) && IsWeekBoundary(t) && s < t
    ensures s + 7 * DAY <= t
  {
    MondaysAreWeeksApart(DayOf(s), DayOf(t));
  }

  lemma MondayAtTwo(day: int)
    ensures DayOf(day * DAY + TWO_HOURS) == day
  {
  }

  lemma MondayBefore(day: int)
    ensures var sinceMonday := if Weekday(day) == 0 then 6 else Weekday(day) - 1;
            0 <= sinceMonday < 7 && Weekday(day - sinceMonday) == 1 && Weekday(day - sinceMonday - 7) == 1
  {
  }

  lemma WeekStartIsBoundary(now: int)
    ensures IsWeekBoundary(WeekStart(now)) && WeekStart(now) <= now < WeekStart(now) + 7 * DAY
  {
    var d := DayOf(now);
    var monday := d - if Weekday(d) == 0 then 6 else Weekday(d) - 1;
    MondayBefore(d);
    MondayAtTwo(monday);
    MondayAtTwo(monday - 7);
    assert d * DAY <= now < (d + 1) * DAY;
  }

  /** The week starts at the one Monday, 2 AM, that is no more than seven days back. */
  lemma {:induction false} WeekStartIsUnique(now: int, t: int)
    ensures IsWeekBoundary(t) && t <= now < t + 7 * DAY <==> t == WeekStart(now)
  {
    WeekStartIsBoundary(now);
    if IsWeekBoundary(t) && t <= now < t + 7 * DAY {
      if t < WeekStart(now) {
        BoundariesAreWeeksApart(t, WeekStart(now));
      } else if WeekStart(now) < t {
        BoundariesAreWeeksApart(WeekStart(now), t);
      }
    }
  }

  // ----- Transactions -----

  /** Where the player's latest transaction is. */
  function LatestOf(txs: seq<Tx>, player: PlayerId): (at: Option<nat>)
    ensures at.Some? ==> at.value < |txs| && txs[at.value].player == player
  {
    if txs == [] then None
    else
      var n := |txs| - 1;
      var earlier := LatestOf(txs[..n], player);
      if txs[n].player != player || (earlier.Some? && txs[n].time < txs[earlier.value].time) then earlier else Some(n)
  }

  lemma {:induction false} LatestIsLatest(txs: seq<Tx>, player: PlayerId)
    ensures match LatestOf(txs, player)
            case None => forall i :: 0 <= i < |txs| ==> txs[i].player != player
            case Some(at) => forall i :: 0 <= i < |txs| && txs[i].player == player ==> txs[i].time <= txs[at].time
    decreases |txs|
  {
    if txs != [] {
      LatestIsLatest(txs[..|txs| - 1], player);
    }
  }

  /** Where the transaction goes that a new one may be merged into. */
  function MergeTarget(txs: seq<Tx>, player: PlayerId, kind: string, attemptMerge: bool, now: int): (at: Option<nat>)
    ensures at.Some? ==> at.value < |txs| && txs[at.value].player == player && txs[at.value].kind == kind
                         && WeekStart(now) < txs[at.value].time
  {
    var last := LatestOf(txs, player);
    if attemptMerge && last.Some? && txs[last.value].kind == kind && txs[last.value].time > WeekStart(now) then last
    else None
  }

  function Merged(t: Tx, time: int, value: int, extra: Extra): Tx {
    t.(time := time, value := t.value + value, extra := if extra.NoExtra? then t.extra else extra)
  }

  function Recorded(b: Book, player: PlayerId, time: int, value: int, kind: string, extra: Extra,
                    attemptMerge: bool, now: int): Book
  {
    match MergeTarget(b.txs, player, kind, attemptMerge, now)
    case Some(i) =>
      Book(b.txs[i := Merged(b.txs[i], time, value, extra)], b.nextId, b.queue + [Item(b.txs[i].id, value)])
    case None =>
      Book(b.txs + [Tx(b.nextId, player, time, value, kind, extra)], b.nextId + 1, b.queue + [Item(b.nextId, value)])
  }

  class XPLedger {
    var txs: seq<Tx>
    var nextId: nat
    var queue: seq<Item>

    constructor ()
      ensures AsBook() == Book([], 0, [])
    {
      txs, nextId, queue := [], 0, [];
    }

    function AsBook(): Book
      reads this
    {
      Book(txs, nextId, queue)
    }

    method DoXPTransaction(player: PlayerId, time: int, value: int, kind: string, extra: Extra,
                           attemptMerge: bool, now: int)
      modifies this
      ensures AsBook() == Recorded(old(AsBook()), player, time, value, kind, extra, attemptMerge, now)
    {
      var last := LatestOf(txs, player);
      var newtx, at;
      if attemptMerge && last.Some? && txs[last.value].kind == kind && txs[last.value].time > WeekStart(now) {
        newtx, at := txs[last.value], last.value;
      } else {
        newtx, at := Tx(nextId, player, 0, 0, kind, NoExtra), |txs|;
        txs, nextId := txs + [newtx], nextId + 1;
      }
      newtx := newtx.(time := time, value := newtx.value + value);
      if !extra.NoExtra? {
        newtx := newtx.(extra := extra);
      }
      txs := txs[at := newtx];
      queue := queue + [Item(newtx.id, value)];
    }

    /** Pays for an event, unless the player was paid for it already. */
    method RegisterEventWin(players: set<PlayerId>, player: PlayerId, message: string, reward: int,
                            kind: string, now: int)
      returns (paid: bool)
      modifies this
      ensures paid <==> player in players && !PaidFor(old(txs), player, kind, message)
      ensures AsBook() == EventWin(old(AsBook()), players, player, message, reward, kind, now)
    {
      if player !in players || PaidFor(txs, player, kind, message) {
        return false;
      }
      DoXPTransaction(player, now, reward, kind, EventId(message), false, now);
      return true;
    }

    method RegisterDiscussionParticipation(players: set<PlayerId>, player: PlayerId, reward: int,
                                           now: int) returns (paid: bool)
      modifies this
      ensures paid <==> player in players
      ensures AsBook() == Participation(old(AsBook()), players, player, reward, now)
    {
      if player !in players {
        return false;
      }
      DoXPTransaction(player, now, reward, PARTICIPATION, NoExtra, true, now);
      return true;
    }
  }

  const PARTICIPATION := "DISCORD_PARTICIPATION"

  predicate PaidFor(txs: seq<Tx>, player: PlayerId, kind: string, message: string) {
    exists i :: 0 <= i < |txs| && txs[i].player == player && txs[i].kind == kind && txs[i].extra == EventId(message)
  }

  function EventWin(b: Book, players: set<PlayerId>, player: PlayerId, message: string, reward: int,
                    kind: string, now: int): Book {
    if player !in players || PaidFor(b.txs, player, kind, message) then b
    else Recorded(b, player, now, reward, kind, EventId(message), false, now)
  }

  function Participation(b: Book, players: set<PlayerId>, player: PlayerId, reward: int, now: int): Book {
    if player !in players then b else Recorded(b, player, now, reward, PARTICIPATION, NoExtra, true, now)
  }

  // ----- Balances -----

  /** The value of all transactions that satisfy p. */
  function Sum(txs: seq<Tx>, p: Tx -> bool): int {
    if txs == [] then 0
    else Sum(txs[..|txs| - 1], p) + if p(txs[|txs| - 1]) then txs[|txs| - 1].value else 0
  }

  function Share(t: Tx, p: Tx -> bool): int {
    if p(t) then t.value else 0
  }

  lemma SumAppend(txs: seq<Tx>, t: Tx, p: Tx -> bool)
    ensures Sum(txs + [t], p) == Sum(txs, p) + Share(t, p)
  {
    assert (txs + [t])[..|txs|] == txs;
  }

  lemma {:induction false} SumUpdate(txs: seq<Tx>, i: nat, t: Tx, p: Tx -> bool)
    requires i < |txs|
    ensures Sum(txs[i := t], p) == Sum(txs, p) - Share(txs[i], p) + Share(t, p)
    decreases |txs|
  {
    var n := |txs| - 1;
    if i < n {
      SumUpdate(txs[..n], i, t, p);
      assert txs[i := t][..n] == txs[..n][i := t];
    } else {
      assert txs[i := t][..n] == txs[..n];
    }
  }

  function ByPlayer(player: PlayerId): Tx -> bool {
    (t: Tx) => t.player == player
  }

  function InWindow(player: PlayerId, start: int, end: int): Tx -> bool {
    (t: Tx) => t.player == player && start <= t.time <= end
  }

  function OfKind(player: PlayerId, kind: string): Tx -> bool {
    (t: Tx) => t.player == player && t.kind == kind
  }

  function Balance(txs: seq<Tx>, player: PlayerId): int {
    Sum(txs, ByPlayer(player))
  }

  function BalanceBetween(txs: seq<Tx>, player: PlayerId, start: int, end: int): int {
    Sum(txs, InWindow(player, start, end))
  }

  function BalanceOfKind(txs: seq<Tx>, player: PlayerId, kind: string): int {
    Sum(txs, OfKind(player, kind))
  }

  /** What recording a transaction does to any sum over the table. */
  lemma SumRecorded(b: Book, player: PlayerId, time: int, value: int, kind: string, extra: Extra,
                    attemptMerge: bool, now: int, p: Tx -> bool)
    ensures var b' := Recorded(b, player, time, value, kind, extra, attemptMerge, now);
            match MergeTarget(b.txs, player, kind, attemptMerge, now)
            case Some(i) =>
              Sum(b'.txs, p) == Sum(b.txs, p) - Share(b.txs[i], p) + Share(Merged(b.txs[i], time, value, extra), p)
            case None => Sum(b'.txs, p) == Sum(b.txs, p) + Share(Tx(b.nextId, player, time, value, kind, extra), p)
  {
    match MergeTarget(b.txs, player, kind, attemptMerge, now)
    case Some(i) => SumUpdate(b.txs, i, Merged(b.txs[i], time, value, extra), p);
    case None => SumAppend(b.txs, Tx(b.nextId, player, time, value, kind, extra), p);
  }

  /** Merged or not, a transaction raises one player's total by its value, and no other total. */
  lemma TotalsAreConserved(b: Book, player: PlayerId, time: int, value: int, kind: string, extra: Extra,
                           attemptMerge: bool, now: int, other: PlayerId)
    ensures var b' := Recorded(b, player, time, value, kind, extra, attemptMerge, now);
            && Balance(b'.txs, other) == Balance(b.txs, other) + (if other == player then value else 0)
            && forall k :: BalanceOfKind(b'.txs, other, k)
                           == BalanceOfKind(b.txs, other, k) + if other == player && k == kind then value else 0
  {
    SumRecorded(b, player, time, value, kind, extra, attemptMerge, now, ByPlayer(other));
    forall k
      ensures BalanceOfKind(Recorded(b, player, time, value, kind, extra, attemptMerge, now).txs, other, k)
           == BalanceOfKind(b.txs, other, k) + if other == player && k == kind then value else 0
    {
      SumRecorded(b, player, time, value, kind, extra, attemptMerge, now, OfKind(other, k));
    }
  }

  /** A transaction made now raises this week's balance by its value, unless the one it takes over
      is dated in the future: exactly then, which no run brings about, it brings that one's value
      forward as well. */
  lemma WeekRisesByValueIff(b: Book, player: PlayerId, value: int, kind: string, extra: Extra,
                            attemptMerge: bool, now: int)
    ensures var b' := Recorded(b, player, now, value, kind, extra, attemptMerge, now);
            var target := MergeTarget(b.txs, player, kind, attemptMerge, now);
            BalanceBetween(b'.txs, player, WeekStart(now), now)
            == BalanceBetween(b.txs, player, WeekStart(now), now) + value
            <==> (target.Some? && now < b.txs[target.value].time ==> b.txs[target.value].value == 0)
  {
    WeekStartIsBoundary(now);
    SumRecorded(b, player, now, value, kind, extra, attemptMerge, now,
                InWindow(player, WeekStart(now), now));
  }

  /** Merging never moves points into or out of the weeks before. */
  lemma PastWeeksAreKept(b: Book, player: PlayerId, value: int, kind: string, extra: Extra, attemptMerge: bool,
                         now: int,
                         other: PlayerId, start: int, end: int)
    requires end < WeekStart(now)
    ensures BalanceBetween(Recorded(b, player, now, value, kind, extra, attemptMerge, now).txs, other, start, end)
         == BalanceBetween(b.txs, other, start, end)
  {
    WeekStartIsBoundary(now);
    SumRecorded(b, player, now, value, kind, extra, attemptMerge, now, InWindow(other, start, end));
  }

  // ----- Events are paid once -----

  datatype Op =
    | Win(player: PlayerId, message: string, reward: int, kind: string, now: int)
    | Participate(player: PlayerId, reward: int, now: int)
    | Grant(player: PlayerId, time: int, value: int, kind: string, extra: Extra)

  function Perform(b: Book, players: set<PlayerId>, op: Op): Book {
    match op
    case Win(player, message, reward, kind, now) => EventWin(b, players, player, message, reward, kind, now)
    case Participate(player, reward, now) => Participation(b, players, player, reward, now)
    case Grant(player, time, value, kind, extra) => Recorded(b, player, time, value, kind, extra, false, time)
  }

  function PerformAll(b: Book, players: set<PlayerId>, ops: seq<Op>): Book {
    if ops == [] then b else Perform(PerformAll(b, players, ops[..|ops| - 1]), players, ops[|ops| - 1])
  }

  lemma PaymentStays(b: Book, players: set<PlayerId>, op: Op, player: PlayerId, kind: string, message: string)
    requires PaidFor(b.txs, player, kind, message)
    ensures PaidFor(Perform(b, players, op).txs, player, kind, message)
  {
    var i :| 0 <= i < |b.txs| && b.txs[i].player == player && b.txs[i].kind == kind
             && b.txs[i].extra == EventId(message);
    var txs' := Perform(b, players, op).txs;
    assert i < |txs'| && txs'[i].player == player && txs'[i].kind == kind && txs'[i].extra == EventId(message);
  }

  /** Whatever happens between, a player is not paid twice for one event. */
  lemma {:induction false} EventIsPaidOnce(b: Book, players: set<PlayerId>, player: PlayerId, message: string,
                                           reward: int,
                                           kind: string, now: int, ops: seq<Op>, reward': int, now': int)
    requires player in players
    ensures var later := PerformAll(EventWin(b, players, player, message, reward, kind, now), players, ops);
            && PaidFor(later.txs, player, kind, message)
            && EventWin(later, players, player, message, reward', kind, now') == later
    decreases |ops|
  {
    var paid := EventWin(b, players, player, message, reward, kind, now);
    if ops == [] {
      if !PaidFor(b.txs, player, kind, message) {
        var n := |b.txs|;
        assert paid.txs[n].player == player && paid.txs[n].kind == kind && paid.txs[n].extra == EventId(message);
      }
    } else {
      var front := ops[..|ops| - 1];
      EventIsPaidOnce(b, players, player, message, reward, kind, now, front, reward', now');
      PaymentStays(PerformAll(paid, players, front), players, ops[|ops| - 1], player, kind, message);
    }
  }

  // ----- Merging, over every run -----

  const EMPTY := Book([], 0, [])

  /** The operation reads a clock that shows now or earlier; what is granted at other times is no
      participation. */
  predicate DoneBy(op: Op, now: int) {
    match op
    case Win(_, _, _, _, time) => time <= now
    case Participate(_, _, time) => time <= now
    case Grant(_, _, _, kind, _) => kind != PARTICIPATION
  }

  predicate NotAhead(t: Tx, now: int) {
    t.kind == PARTICIPATION ==> t.time <= now
  }

  ghost predicate NoneAhead(txs: seq<Tx>, now: int) {
    forall i :: 0 <= i < |txs| ==> NotAhead(txs[i], now)
  }

  lemma PerformKeepsNoneAhead(b: Book, players: set<PlayerId>, op: Op, now: int)
    requires NoneAhead(b.txs, now) && DoneBy(op, now)
    ensures NoneAhead(Perform(b, players, op).txs, now)
  {
    var txs' := Perform(b, players, op).txs;
    forall i | 0 <= i < |txs'|
      ensures NotAhead(txs'[i], now)
    {
      assert i < |b.txs| ==> NotAhead(b.txs[i], now);
    }
  }

  lemma {:induction false} PerformAllKeepsNoneAhead(players: set<PlayerId>, ops: seq<Op>, now: int)
    requires forall op :: op in ops ==> DoneBy(op, now)
    ensures NoneAhead(PerformAll(EMPTY, players, ops).txs, now)
    decreases |ops|
  {
    if ops != [] {
      var front := ops[..|ops| - 1];
      PerformAllKeepsNoneAhead(players, front, now);
      PerformKeepsNoneAhead(PerformAll(EMPTY, players, front), players, ops[|ops| - 1], now);
    }
  }

  /** Over every run on a clock that does not go back, whatever is granted between and whether or
      not it is merged, every participation raises this week's balance by exactly its reward. */
  lemma ParticipationRaisesWeek(players: set<PlayerId>, ops: seq<Op>, player: PlayerId, reward: int, now: int)
    requires player in players && forall op :: op in ops ==> DoneBy(op, now)
    ensures var b := PerformAll(EMPTY, players, ops);
            BalanceBetween(Participation(b, players, player, reward, now).txs, player, WeekStart(now), now)
            == BalanceBetween(b.txs, player, WeekStart(now), now) + reward
  {
    var b := PerformAll(EMPTY, players, ops);
    PerformAllKeepsNoneAhead(players, ops, now);
    var target := MergeTarget(b.txs, player, PARTICIPATION, true, now);
    assert target.Some? ==> NotAhead(b.txs[target.value], now);
    WeekRisesByValueIff(b, player, reward, PARTICIPATION, NoExtra, true, now);
  }
}
