/** User reports as votes that start and end unofficial disturbances (compute/reports.go):
    the situation, and one flat pass of evaluation over all lines. */
module Reports {
  import opened Wrappers
  import opened Measure
  import opened Lines
  import opened Histories

  const MINUTE := 60_000

  const BEGIN_TEXT := "Os utilizadores comunicaram problemas na circulação"
  const CONFIRM_TEXT := "Vários utilizadores confirmaram problemas na circulação"
  const RECONFIRM_TEXT := "Vários utilizadores confirmaram mais problemas na circulação"
  const SOLVED_TEXT := "Já não existem relatos de problemas na circulação"

  /** A line disturbance report held in memory; the line and the submitter are its key. */
  datatype Report = Report(line: nat, submitter: string, time: int, weight: int)

  /** What the next reading of a clock shows, given the last one. */
  type Clock = int -> int

  ghost predicate Ticking(tick: Clock) {
    forall t :: t < tick(t)
  }

  /** The database rows and notifications, and what the report handler holds in memory. */
  datatype State = State(
    lines: seq<Record>, notifications: seq<Notification>,
    reports: seq<Report>, thresholds: seq<int>, clock: int)

  // ----- Votes -----

  function Votes(rs: seq<Report>, line: nat): int {
    if rs == [] then 0
    else Votes(rs[..|rs| - 1], line) + if rs[|rs| - 1].line == line then rs[|rs| - 1].weight else 0
  }

  /** The time of the earliest report of any line: the source ignores the line it is given. */
  function EarliestTime(rs: seq<Report>): int
    requires rs != []
  {
    var last := rs[|rs| - 1].time;
    if |rs| == 1 then last
    else
      var earlier := EarliestTime(rs[..|rs| - 1]);
      if last < earlier then last else earlier
  }

  lemma {:induction false} EarliestTimeIsLeast(rs: seq<Report>)
    requires rs != []
    ensures exists i :: 0 <= i < |rs| && rs[i].time == EarliestTime(rs)
    ensures forall i :: 0 <= i < |rs| ==> EarliestTime(rs) <= rs[i].time
    decreases |rs|
  {
    if |rs| > 1 {
      var front := rs[..|rs| - 1];
      EarliestTimeIsLeast(front);
      var i :| 0 <= i < |front| && front[i].time == EarliestTime(front);
      var j := if rs[|rs| - 1].time < EarliestTime(front) then |rs| - 1 else i;
      assert rs[j].time == EarliestTime(rs);
    } else {
      assert rs[0].time == EarliestTime(rs);
    }
  }

  predicate HasReport(rs: seq<Report>, line: nat, submitter: string) {
    exists i :: 0 <= i < |rs| && rs[i].line == line && rs[i].submitter == submitter
  }

  predicate HasVotes(rs: seq<Report>, line: nat) {
    exists i :: 0 <= i < |rs| && rs[i].line == line
  }

  /** The time of the line's own earliest report. */
  function OwnEarliest(rs: seq<Report>, line: nat): int
    requires HasVotes(rs, line)
  {
    var front, last := rs[..|rs| - 1], rs[|rs| - 1];
    if last.line != line then OnlyFront(rs, line); OwnEarliest(front, line)
    else if HasVotes(front, line) && OwnEarliest(front, line) <= last.time then OwnEarliest(front, line)
    else last.time
  }

  lemma OnlyFront(rs: seq<Report>, line: nat)
    requires HasVotes(rs, line) && rs[|rs| - 1].line != line
    ensures HasVotes(rs[..|rs| - 1], line)
  {
    var i :| 0 <= i < |rs| && rs[i].line == line;
    assert rs[..|rs| - 1][i].line == line;
  }

  lemma {:induction false} OwnEarliestIsLeast(rs: seq<Report>, line: nat)
    requires HasVotes(rs, line)
    ensures exists i :: 0 <= i < |rs| && rs[i].line == line && rs[i].time == OwnEarliest(rs, line)
    ensures forall i :: 0 <= i < |rs| && rs[i].line == line ==> OwnEarliest(rs, line) <= rs[i].time
    decreases |rs|
  {
    var front, last := rs[..|rs| - 1], rs[|rs| - 1];
    if HasVotes(front, line) {
      OwnEarliestIsLeast(front, line);
      var i :| 0 <= i < |front| && front[i].line == line && front[i].time == OwnEarliest(front, line);
      var j := if OwnEarliest(rs, line) == last.time && last.line == line then |rs| - 1 else i;
      assert rs[j].line == line && rs[j].time == OwnEarliest(rs, line);
      assert forall k :: 0 <= k < |front| ==> rs[k] == front[k];
    } else {
      assert last.line == line by {
        if last.line != line {
          OnlyFront(rs, line);
        }
      }
      assert forall k :: 0 <= k < |front| ==> rs[k] == front[k];
      assert rs[|rs| - 1].time == OwnEarliest(rs, line);
    }
  }

  /** The report a start is dated back to is as early as the line's own earliest one exactly if no
      report of another line is earlier. */
  lemma EarliestIsOwnIff(rs: seq<Report>, line: nat)
    requires HasVotes(rs, line)
    ensures EarliestTime(rs) == OwnEarliest(rs, line)
            <==> forall i :: 0 <= i < |rs| && rs[i].line != line ==> OwnEarliest(rs, line) <= rs[i].time
  {
    EarliestTimeIsLeast(rs);
    OwnEarliestIsLeast(rs, line);
    var i :| 0 <= i < |rs| && rs[i].time == EarliestTime(rs);
    var j :| 0 <= j < |rs| && rs[j].line == line && rs[j].time == OwnEarliest(rs, line);
    assert EarliestTime(rs) <= rs[j].time;
  }

  function Without(rs: seq<Report>, line: nat, submitter: string): (kept: seq<Report>)
    ensures |kept| <= |rs|
  {
    if rs == [] then []
    else
      var r := rs[|rs| - 1];
      Without(rs[..|rs| - 1], line, submitter) + if r.line == line && r.submitter == submitter then [] else [r]
  }

  function DropLine(rs: seq<Report>, line: nat): (kept: seq<Report>)
    ensures |kept| <= |rs|
  {
    if rs == [] then []
    else
      var r := rs[|rs| - 1];
      DropLine(rs[..|rs| - 1], line) + if r.line == line then [] else [r]
  }

  lemma {:induction false} WithoutMembers(rs: seq<Report>, line: nat, submitter: string)
    ensures var kept := Without(rs, line, submitter);
            forall r :: r in kept <==> r in rs && !(r.line == line && r.submitter == submitter)
    decreases |rs|
  {
    if rs != [] {
      WithoutMembers(rs[..|rs| - 1], line, submitter);
    }
  }

  lemma WithoutIsShorter(rs: seq<Report>, line: nat, submitter: string)
    requires HasReport(rs, line, submitter)
    ensures |Without(rs, line, submitter)| < |rs|
  {
    WithoutMembers(rs, line, submitter);
    NothingWithout(rs, line, submitter);
    var i :| 0 <= i < |rs| && rs[i].line == line && rs[i].submitter == submitter;
    assert rs[i] in rs && rs[i] !in Without(rs, line, submitter);
  }

  lemma {:induction false} NothingWithout(rs: seq<Report>, line: nat, submitter: string)
    ensures |Without(rs, line, submitter)| == |rs| ==> Without(rs, line, submitter) == rs
    decreases |rs|
  {
    if rs != [] {
      NothingWithout(rs[..|rs| - 1], line, submitter);
    }
  }

  lemma NoNewVotes(rs: seq<Report>, kept: seq<Report>, line: nat)
    requires forall r :: r in kept ==> r in rs
    ensures HasVotes(kept, line) ==> HasVotes(rs, line)
  {
    if HasVotes(kept, line) {
      var k :| 0 <= k < |kept| && kept[k].line == line;
      assert kept[k] in rs;
      var m :| 0 <= m < |rs| && rs[m] == kept[k];
      assert rs[m].line == line;
    }
  }

  lemma {:induction false} DropLineMembers(rs: seq<Report>, line: nat)
    ensures forall r :: r in DropLine(rs, line) <==> r in rs && r.line != line
    decreases |rs|
  {
    if rs != [] {
      DropLineMembers(rs[..|rs| - 1], line);
    }
  }

  ghost predicate NonNegative(rs: seq<Report>) {
    forall r :: r in rs ==> 0 <= r.weight
  }

  lemma {:induction false} VotesAppend(rs: seq<Report>, r: Report, line: nat)
    ensures Votes(rs + [r], line) == Votes(rs, line) + if r.line == line then r.weight else 0
  {
    assert (rs + [r])[..|rs|] == rs;
  }

  lemma {:induction false} VotesNonNegative(rs: seq<Report>, line: nat)
    requires NonNegative(rs)
    ensures 0 <= Votes(rs, line)
    decreases |rs|
  {
    if rs != [] {
      VotesNonNegative(rs[..|rs| - 1], line);
    }
  }

  lemma {:induction false} WithoutVotes(rs: seq<Report>, line: nat, submitter: string, other: nat)
    requires other != line
    ensures Votes(Without(rs, line, submitter), other) == Votes(rs, other)
    decreases |rs|
  {
    if rs != [] {
      var front := rs[..|rs| - 1];
      WithoutVotes(front, line, submitter, other);
      VotesAppend(Without(front, line, submitter), rs[|rs| - 1], other);
      assert Without(front, line, submitter) + [] == Without(front, line, submitter);
    }
  }

  lemma {:induction false} DropLineVotes(rs: seq<Report>, line: nat, other: nat)
    ensures Votes(DropLine(rs, line), other) == if other == line then 0 else Votes(rs, other)
    decreases |rs|
  {
    if rs != [] {
      var front := rs[..|rs| - 1];
      DropLineVotes(front, line, other);
      VotesAppend(DropLine(front, line), rs[|rs| - 1], other);
      assert DropLine(front, line) + [] == DropLine(front, line);
    }
  }

  lemma {:induction false} DropAfterWithout(rs: seq<Report>, line: nat, submitter: string)
    ensures DropLine(Without(rs, line, submitter), line) == DropLine(rs, line)
    decreases |rs|
  {
    if rs != [] {
      var front, r := rs[..|rs| - 1], rs[|rs| - 1];
      DropAfterWithout(front, line, submitter);
      if r.line == line && r.submitter == submitter {
        assert Without(rs, line, submitter) == Without(front, line, submitter);
      } else {
        var kept := Without(front, line, submitter);
        assert (kept + [r])[..|kept|] == kept;
      }
    }
  }

  lemma {:induction false} NothingToDrop(rs: seq<Report>, line: nat)
    ensures DropLine(rs, line) == rs <==> !HasVotes(rs, line)
    decreases |rs|
  {
    if HasVotes(rs, line) {
      DropLineMembers(rs, line);
      var i :| 0 <= i < |rs| && rs[i].line == line;
      assert rs[i] in rs && rs[i] !in DropLine(rs, line);
    } else if rs != [] {
      NothingToDrop(rs[..|rs| - 1], line);
      assert rs[..|rs| - 1] + [rs[|rs| - 1]] == rs;
    }
  }

  // ----- Emitting statuses -----

  function Community(i: nat, time: int, downtime: bool, text: string): Status {
    Status(i, time, downtime, text, false)
  }

  /** The first report in memory is late enough to date the start of the disturbance back to it. */
  predicate StartsEarlier(r: Record, earliest: int, now: int)
    requires LastDisturbance(r.disturbances).Some?
  {
    LastDisturbance(r.disturbances).value.uEnd < earliest < now - MINUTE
  }

  /** The rows once the first reports are on record, before they are confirmed. */
  function Begun(r: Record, i: nat, earliest: int, now: int): Record
    requires LastDisturbance(r.disturbances).Some?
  {
    if StartsEarlier(r, earliest, now) then AddTo(r, Community(i, earliest, true, BEGIN_TEXT)) else r
  }

  function Confirmation(r: Record, i: nat, earliest: int, now: int): Status
    requires LastDisturbance(r.disturbances).Some?
  {
    Community(i, now, true,
              if earliest > LastDisturbance(r.disturbances).value.uEnd then CONFIRM_TEXT else RECONFIRM_TEXT)
  }

  function Started(r: Record, i: nat, earliest: int, now: int): Record
    requires LastDisturbance(r.disturbances).Some?
  {
    AddTo(Begun(r, i, earliest, now), Confirmation(r, i, earliest, now))
  }

  /** Starts an unofficial disturbance; the line must have had one before. */
  function StartDisturbance(st: State, i: nat, tick: Clock): State
    requires i < |st.lines|
  {
    var r := st.lines[i];
    if st.reports == [] || LastDisturbance(r.disturbances).None? then st
    else
      var earliest, now := EarliestTime(st.reports), tick(st.clock);
      st.(lines := st.lines[i := Started(r, i, earliest, now)],
          notifications := st.notifications
                           + Notices(Begun(r, i, earliest, now), Confirmation(r, i, earliest, now), true),
          clock := now)
  }

  function Solved(i: nat, now: int): Status {
    Community(i, now, false, SOLVED_TEXT)
  }

  function EndDisturbance(st: State, i: nat, tick: Clock): State
    requires i < |st.lines|
  {
    var r, now := st.lines[i], tick(st.clock);
    st.(lines := st.lines[i := AddTo(r, Solved(i, now))],
        notifications := st.notifications + Notices(r, Solved(i, now), true),
        clock := now)
  }

  // ----- One flat pass -----

  /** What evaluating one line comes to when votes are dropped all at once and silently. */
  function EvaluateLine(st: State, i: nat, tick: Clock): (st': State)
    requires i < |st.lines| == |st.thresholds|
    ensures |st'.lines| == |st.lines| && st'.thresholds == st.thresholds
  {
    match ModeOf(st.lines[i].disturbances)
    case Clear => if Votes(st.reports, i) >= st.thresholds[i] then StartDisturbance(st, i, tick) else st
    case Official => st.(reports := DropLine(st.reports, i))
    case Unofficial => if Votes(st.reports, i) >= Half(st.thresholds[i]) then st else EndDisturbance(st, i, tick)
  }

  function EvaluateFrom(st: State, i: nat, tick: Clock): (st': State)
    requires i <= |st.lines| == |st.thresholds|
    ensures |st'.lines| == |st.lines| && st'.thresholds == st.thresholds
    decreases |st.lines| - i
  {
    if i == |st.lines| then st else EvaluateFrom(EvaluateLine(st, i, tick), i + 1, tick)
  }

  function Evaluate(st: State, tick: Clock): State
    requires |st.lines| == |st.thresholds|
  {
    EvaluateFrom(st, 0, tick)
  }

  // ----- The invariant of every run -----

  ghost predicate Inv(st: State) {
    |st.thresholds| == |st.lines|
    && forall i {:trigger Good(st.lines[i], st.clock)} :: 0 <= i < |st.lines| ==> Good(st.lines[i], st.clock)
  }

  /** Only line i and the reports may differ. */
  predicate SameButLine(st: State, st': State, i: nat) {
    |st'.lines| == |st.lines| && st'.thresholds == st.thresholds && st.clock <= st'.clock
    && forall j :: 0 <= j < |st.lines| && j != i ==> st'.lines[j] == st.lines[j]
  }

  lemma InvAfterLine(st: State, st': State, i: nat)
    requires Inv(st) && i < |st.lines| && SameButLine(st, st', i) && Good(st'.lines[i], st'.clock)
    ensures Inv(st')
  {
    forall j | 0 <= j < |st'.lines|
      ensures Good(st'.lines[j], st'.clock)
    {
      if j != i {
        GoodLater(st.lines[j], st.clock, st'.clock);
      }
    }
  }

  /** A line of a clear mode is not read as a duplicate when a downtime is reported. */
  lemma DowntimeIsNoDuplicate(r: Record, s: Status)
    requires StableLast(r) && ModeOf(r.disturbances).Clear? && s.downtime
    ensures !Duplicate(r.log, s)
  {
  }

  /** A status dated before the present, but after the latest disturbance ended. */
  lemma {:induction false} BackdatedStart(r: Record, s: Status, now: int)
    requires Good(r, now) && ModeOf(r.disturbances).Clear? && LastDisturbance(r.disturbances).Some?
    requires s.downtime && !s.official && LastDisturbance(r.disturbances).value.uEnd < s.time
    ensures var r' := AddTo(r, s);
            && r'.log == r.log + [s] && WellFormed(r'.disturbances) && ModeOf(r'.disturbances).Unofficial?
            && AllHappenedBy(r'.disturbances, s.time)
            && forall t :: DisturbedAt(r'.disturbances, t) <==> s.time <= t || DisturbedAt(r.disturbances, t)
  {
    var ds := r.disturbances;
    DowntimeIsNoDuplicate(r, s);
    LastEndedIsNewest(ds);
    OngoingIsNewest(ds);
    var t0 := ds[|ds| - 1].uEnd;
    forall i | 0 <= i < |ds|
      ensures HappenedBy(ds[i], t0)
    {
      assert WellFormedDisturbance(ds[i]) && WellFormedDisturbance(ds[|ds| - 1]);
    }
    LifecycleKeepsWellFormed(ds, s, t0);
    forall t
      ensures DisturbedAt(Lifecycle(ds, s), t) <==> s.time <= t || DisturbedAt(ds, t)
    {
      LifecycleCoverage(ds, s, t0, t);
      if s.time <= t && DisturbedAt(ds, t) {
        ModeCovers(ds, t);
      }
    }
  }

  /** The confirmation that follows a back-dated start is never taken for a duplicate. */
  lemma {:induction false} ConfirmAfterBackdated(r: Record, begin: Status, confirm: Status, now: int)
    requires Good(r, now) && ModeOf(r.disturbances).Clear? && LastDisturbance(r.disturbances).Some?
    requires begin.downtime && !begin.official && LastDisturbance(r.disturbances).value.uEnd < begin.time
    requires confirm.downtime && !confirm.official && confirm.text != begin.text
    requires now < confirm.time && begin.time < confirm.time
    ensures Good(AddTo(AddTo(r, begin), confirm), confirm.time)
    ensures AddTo(AddTo(r, begin), confirm) == AddUnchecked(AddUnchecked(r, begin), confirm)
    ensures ModeOf(AddTo(AddTo(r, begin), confirm).disturbances).Unofficial?
    ensures forall t :: DisturbedAt(AddTo(AddTo(r, begin), confirm).disturbances, t)
                        <==> begin.time <= t || DisturbedAt(r.disturbances, t)
  {
    BackdatedStart(r, begin, now);
    var r' := AddTo(r, begin);
    assert LastStatus(r'.log) == LastStatus(r.log) || LastStatus(r'.log) == Some(begin) by {
      assert r'.log[..|r.log|] == r.log;
    }
    assert !Duplicate(r'.log, confirm);
    LifecycleKeepsWellFormed(r'.disturbances, confirm, begin.time);
    NewestIsLast(r'.log, confirm);
    forall t
      ensures DisturbedAt(Lifecycle(r'.disturbances, confirm), t) <==> DisturbedAt(r'.disturbances, t)
    {
      LifecycleCoverage(r'.disturbances, confirm, begin.time, t);
    }
  }

  lemma TextsDiffer()
    ensures BEGIN_TEXT != CONFIRM_TEXT && BEGIN_TEXT != RECONFIRM_TEXT
  {
    assert |BEGIN_TEXT| != |CONFIRM_TEXT| && |BEGIN_TEXT| != |RECONFIRM_TEXT|;
  }

  /** The disturbance starts with the earliest report when that is back-dated, and now otherwise. */
  lemma {:induction false} StartedIsGood(r: Record, i: nat, earliest: int, t: int, now: int)
    requires Good(r, t) && t < now && ModeOf(r.disturbances).Clear? && LastDisturbance(r.disturbances).Some?
    ensures var r' := Started(r, i, earliest, now);
            && Good(r', now) && ModeOf(r'.disturbances).Unofficial?
            && forall u :: DisturbedAt(r'.disturbances, u)
                           <==> (if StartsEarlier(r, earliest, now) then earliest else now) <= u
                                || DisturbedAt(r.disturbances, u)
  {
    var confirm := Confirmation(r, i, earliest, now);
    TextsDiffer();
    if StartsEarlier(r, earliest, now) {
      ConfirmAfterBackdated(r, Community(i, earliest, true, BEGIN_TEXT), confirm, t);
    } else {
      AddToKeepsGood(r, confirm, t);
      forall u
        ensures DisturbedAt(AddTo(r, confirm).disturbances, u) <==> now <= u || DisturbedAt(r.disturbances, u)
      {
        AddToCoverage(r, confirm, t, u);
      }
    }
  }

  /** The disturbance that starts is the newest one, dated with the report or with the present. */
  lemma {:induction false} StartedIsDated(r: Record, i: nat, earliest: int, t: int, now: int)
    requires Good(r, t) && t < now && ModeOf(r.disturbances).Clear? && LastDisturbance(r.disturbances).Some?
    ensures var ds, ds' := r.disturbances, Started(r, i, earliest, now).disturbances;
            && |ds'| == |ds| + 1 && ds'[..|ds|] == ds
            && ds'[|ds|].uStart == if StartsEarlier(r, earliest, now) then earliest else now
  {
    var ds, confirm := r.disturbances, Confirmation(r, i, earliest, now);
    OngoingIsNewest(ds);
    if StartsEarlier(r, earliest, now) {
      var begin := Community(i, earliest, true, BEGIN_TEXT);
      TextsDiffer();
      ConfirmAfterBackdated(r, begin, confirm, t);
      BackdatedStart(r, begin, t);
      assert AddTo(r, begin).disturbances == ds + [Opened(begin)];
      OngoingIsNewest(AddTo(r, begin).disturbances);
    } else {
      DowntimeIsNoDuplicate(r, confirm);
    }
  }

  lemma StartKeepsInv(st: State, i: nat, tick: Clock)
    requires Ticking(tick) && Inv(st) && i < |st.lines| && ModeOf(st.lines[i].disturbances).Clear?
    ensures var st' := StartDisturbance(st, i, tick);
            && Inv(st') && SameButLine(st, st', i) && st'.reports == st.reports
            && (if st.reports == [] || st.lines[i].disturbances == [] then st' == st
                else ModeOf(st'.lines[i].disturbances).Unofficial?)
  {
    var r, st' := st.lines[i], StartDisturbance(st, i, tick);
    assert Good(r, st.clock);
    LastEndedIsNewest(r.disturbances);
    if st.reports != [] && r.disturbances != [] {
      StartedIsGood(r, i, EarliestTime(st.reports), st.clock, tick(st.clock));
      InvAfterLine(st, st', i);
    }
  }

  lemma EndKeepsInv(st: State, i: nat, tick: Clock)
    requires Ticking(tick) && Inv(st) && i < |st.lines| && ModeOf(st.lines[i].disturbances).Unofficial?
    ensures var st' := EndDisturbance(st, i, tick);
            && Inv(st') && SameButLine(st, st', i) && st'.reports == st.reports
            && ModeOf(st'.lines[i].disturbances).Clear?
  {
    var now := tick(st.clock);
    AddToKeepsGood(st.lines[i], Solved(i, now), st.clock);
    InvAfterLine(st, EndDisturbance(st, i, tick), i);
  }

  // ----- Quiet lines -----

  /** Evaluating line i would do nothing. */
  predicate Quiet(st: State, i: nat)
    requires i < |st.lines| == |st.thresholds|
  {
    match ModeOf(st.lines[i].disturbances)
    case Clear => Votes(st.reports, i) < st.thresholds[i] || st.reports == [] || st.lines[i].disturbances == []
    case Official => !HasVotes(st.reports, i)
    case Unofficial => Votes(st.reports, i) >= Half(st.thresholds[i])
  }

  lemma QuietLineStays(st: State, i: nat, tick: Clock)
    requires Ticking(tick) && Inv(st) && i < |st.lines| && Quiet(st, i)
    ensures EvaluateLine(st, i, tick) == st
  {
    NothingToDrop(st.reports, i);
    if ModeOf(st.lines[i].disturbances).Clear? {
      StartKeepsInv(st, i, tick);
    }
  }

  /** With votes of non-negative weight the keep threshold is no higher than the start threshold
      in effect, so the line just evaluated would not be acted on again. */
  lemma EvaluateLineQuiets(st: State, i: nat, tick: Clock)
    requires Ticking(tick) && Inv(st) && i < |st.lines|
    ensures var st' := EvaluateLine(st, i, tick);
            && Inv(st') && SameButLine(st, st', i)
            && st'.reports == (if ModeOf(st.lines[i].disturbances).Official? then DropLine(st.reports, i)
                               else st.reports)
            && (ModeOf(st.lines[i].disturbances).Official? ==> st'.lines[i] == st.lines[i])
            && (NonNegative(st.reports) ==> Quiet(st', i))
  {
    var st' := EvaluateLine(st, i, tick);
    match ModeOf(st.lines[i].disturbances)
    case Clear =>
      StartKeepsInv(st, i, tick);
      if NonNegative(st.reports) {
        VotesNonNegative(st.reports, i);
      }
    case Official =>
      InvAfterLine(st, st', i);
      DropLineMembers(st.reports, i);
      assert !HasVotes(st'.reports, i);
    case Unofficial =>
      EndKeepsInv(st, i, tick);
      if NonNegative(st.reports) {
        VotesNonNegative(st.reports, i);
      }
  }

  /** Acting on one line leaves the other lines quiet. */
  lemma OthersStayQuiet(st: State, st': State, i: nat, j: nat)
    requires i < |st.lines| == |st.thresholds| && SameButLine(st, st', i)
    requires j < |st.lines| && j != i && Quiet(st, j)
    requires Votes(st'.reports, j) == Votes(st.reports, j)
    requires forall r :: r in st'.reports ==> r in st.reports
    ensures Quiet(st', j)
  {
    if HasVotes(st'.reports, j) {
      var k :| 0 <= k < |st'.reports| && st'.reports[k].line == j;
      assert st'.reports[k] in st.reports;
    }
    if st'.reports != [] {
      assert st'.reports[0] in st.reports;
    }
  }

  ghost predicate QuietBelow(st: State, i: nat)
    requires i <= |st.lines| == |st.thresholds|
  {
    forall j :: 0 <= j < i ==> Quiet(st, j)
  }

  lemma EvaluateLineKeepsQuiet(st: State, i: nat, tick: Clock)
    requires Ticking(tick) && Inv(st) && i < |st.lines| && NonNegative(st.reports) && QuietBelow(st, i)
    ensures var st' := EvaluateLine(st, i, tick);
            Inv(st') && QuietBelow(st', i + 1) && NonNegative(st'.reports)
  {
    EvaluateLineQuiets(st, i, tick);
    var st' := EvaluateLine(st, i, tick);
    DropLineMembers(st.reports, i);
    forall j | 0 <= j < i
      ensures Quiet(st', j)
    {
      DropLineVotes(st.reports, i, j);
      DropLineMembers(st.reports, i);
      OthersStayQuiet(st, st', i, j);
    }
  }

  lemma {:induction false} EvaluateFromQuiets(st: State, i: nat, tick: Clock)
    requires Ticking(tick) && Inv(st) && i <= |st.lines| && NonNegative(st.reports) && QuietBelow(st, i)
    ensures var st' := EvaluateFrom(st, i, tick);
            Inv(st') && QuietBelow(st', |st'.lines|) && NonNegative(st'.reports)
    decreases |st.lines| - i
  {
    if i < |st.lines| {
      EvaluateLineKeepsQuiet(st, i, tick);
      EvaluateFromQuiets(EvaluateLine(st, i, tick), i + 1, tick);
    }
  }

  lemma {:induction false} SkipIdle(st: State, i: nat, j: nat, tick: Clock)
    requires i <= j <= |st.lines| == |st.thresholds|
    requires forall k :: i <= k < j ==> EvaluateLine(st, k, tick) == st
    ensures EvaluateFrom(st, i, tick) == EvaluateFrom(st, j, tick)
    decreases j - i
  {
    if i < j {
      assert EvaluateLine(st, i, tick) == st;
      SkipIdle(st, i + 1, j, tick);
    }
  }

  lemma SkipQuiet(st: State, i: nat, j: nat, tick: Clock)
    requires Ticking(tick) && Inv(st) && i <= j <= |st.lines| && QuietBelow(st, j)
    ensures EvaluateFrom(st, i, tick) == EvaluateFrom(st, j, tick)
  {
    forall k | i <= k < j
      ensures EvaluateLine(st, k, tick) == st
    {
      QuietLineStays(st, k, tick);
    }
    SkipIdle(st, i, j, tick);
  }

  /** Evaluation reaches a fixpoint in one pass: a second one emits nothing and drops nothing. */
  lemma EvaluationIsIdempotent(st: State, tick: Clock)
    requires Ticking(tick) && Inv(st) && NonNegative(st.reports)
    ensures Evaluate(Evaluate(st, tick), tick) == Evaluate(st, tick)
  {
    EvaluateFromQuiets(st, 0, tick);
    var st' := Evaluate(st, tick);
    SkipQuiet(st', 0, |st'.lines|, tick);
  }

  lemma {:induction false} EvaluateFromKeepsInv(st: State, i: nat, tick: Clock)
    requires Ticking(tick) && Inv(st) && i <= |st.lines|
    ensures Inv(EvaluateFrom(st, i, tick))
    decreases |st.lines| - i
  {
    if i < |st.lines| {
      EvaluateLineQuiets(st, i, tick);
      EvaluateFromKeepsInv(EvaluateLine(st, i, tick), i + 1, tick);
    }
  }
}
