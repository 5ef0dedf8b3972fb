/** What one evaluation of the reports decides, records and sends out (compute/reports.go), in full. */
module Announcements {
  import opened Wrappers
  import opened Measure
  import opened Lines
  import opened Histories
  import opened Reports

  // ----- A start and an end -----

  /** When the line's newest disturbance ended. */
  function LastEnd(ds: seq<Disturbance>): int
    requires ds != []
  {
    ds[|ds| - 1].uEnd
  }

  /** The earliest report came after the last end and more than a minute ago. */
  predicate IsBackdated(ds: seq<Disturbance>, earliest: int, now: int)
    requires ds != []
  {
    LastEnd(ds) < earliest && earliest + 60_000 < now
  }

  function BeginStatus(i: nat, earliest: int): Status {
    Status(i, earliest, true, BEGIN_TEXT, false)
  }

  function ConfirmStatus(ds: seq<Disturbance>, i: nat, earliest: int, now: int): Status
    requires ds != []
  {
    Status(i, now, true, if LastEnd(ds) < earliest then CONFIRM_TEXT else RECONFIRM_TEXT, false)
  }

  /** What a start says: that there were reports, if it is dated back, and that they are confirmed. */
  function StartStatuses(ds: seq<Disturbance>, i: nat, earliest: int, now: int): seq<Status>
    requires ds != []
  {
    if IsBackdated(ds, earliest, now) then [BeginStatus(i, earliest), ConfirmStatus(ds, i, earliest, now)]
    else [ConfirmStatus(ds, i, earliest, now)]
  }

  /** The disturbance a start opens: unofficial, from its first status on, with no end. */
  function StartedWith(statuses: seq<Status>): Disturbance
    requires statuses != []
  {
    Disturbance(false, UNSET_TIME, UNSET_TIME, false, statuses[0].time, UNSET_TIME, false, statuses[0].text, statuses)
  }

  lemma BackdatedRecord(r: Record, begin: Status, confirm: Status, t: int)
    requires Good(r, t) && ModeOf(r.disturbances).Clear? && LastDisturbance(r.disturbances).Some?
    requires begin.downtime && !begin.official && LastDisturbance(r.disturbances).value.uEnd < begin.time
    requires confirm.downtime && !confirm.official && confirm.text != begin.text
    requires t < confirm.time && begin.time < confirm.time
    ensures AddTo(r, begin) == Record(r.log + [begin], r.disturbances + [Opened(begin)])
    ensures AddTo(AddTo(r, begin), confirm)
         == Record(r.log + [begin, confirm], r.disturbances + [StartedWith([begin, confirm])])
    ensures Notices(AddTo(r, begin), confirm, true) == [Notification(StartedWith([begin, confirm]), confirm)]
  {
    var ds := r.disturbances;
    var ds1 := ds + [Opened(begin)];
    DowntimeIsNoDuplicate(r, begin);
    OngoingIsNewest(ds);
    assert AddTo(r, begin) == Record(r.log + [begin], ds1);
    assert LatestOngoing(ds1) == Some(|ds|) by {
      BackdatedStart(r, begin, t);
      OngoingIsNewest(ds1);
    }
    assert !Duplicate(r.log + [begin], confirm) by {
      ConfirmAfterBackdated(r, begin, confirm, t);
    }
    assert [begin] + [confirm] == [begin, confirm] && r.log + [begin] + [confirm] == r.log + [begin, confirm];
    assert Updated(Opened(begin), confirm) == StartedWith([begin, confirm]);
    assert ds1[|ds| := StartedWith([begin, confirm])] == ds + [StartedWith([begin, confirm])];
  }

  lemma StartedRecord(r: Record, i: nat, earliest: int, t: int, now: int)
    requires Good(r, t) && t < now && ModeOf(r.disturbances).Clear? && r.disturbances != []
    requires LastDisturbance(r.disturbances).Some?
    ensures var ds, statuses := r.disturbances, StartStatuses(r.disturbances, i, earliest, now);
            && Started(r, i, earliest, now) == Record(r.log + statuses, ds + [StartedWith(statuses)])
            && Notices(Begun(r, i, earliest, now), Confirmation(r, i, earliest, now), true)
               == [Notification(StartedWith(statuses), ConfirmStatus(ds, i, earliest, now))]
  {
    var ds, confirm := r.disturbances, Confirmation(r, i, earliest, now);
    LastEndedIsNewest(ds);
    assert confirm == ConfirmStatus(ds, i, earliest, now);
    if IsBackdated(ds, earliest, now) {
      TextsDiffer();
      BackdatedRecord(r, BeginStatus(i, earliest), confirm, t);
    } else {
      DowntimeIsNoDuplicate(r, confirm);
    }
  }

  /** If there are reports and the clear line has had a disturbance before, a start logs one status or two,
      opens one disturbance with them, and sends it out once, with the last of them. */
  lemma StartsAreAnnounced(st: State, i: nat, tick: Clock)
    requires Ticking(tick) && Inv(st) && i < |st.lines| && ModeOf(st.lines[i].disturbances).Clear?
    requires st.reports != [] && st.lines[i].disturbances != []
    ensures var r, now := st.lines[i], tick(st.clock);
            var ds := r.disturbances;
            var statuses := StartStatuses(ds, i, EarliestTime(st.reports), now);
            StartDisturbance(st, i, tick)
            == State(st.lines[i := Record(r.log + statuses, ds + [StartedWith(statuses)])],
                     st.notifications + [Notification(StartedWith(statuses), statuses[|statuses| - 1])],
                     st.reports, st.thresholds, now)
  {
    var r := st.lines[i];
    assert Good(r, st.clock);
    LastEndedIsNewest(r.disturbances);
    StartedRecord(r, i, EarliestTime(st.reports), st.clock, tick(st.clock));
  }

  /** An end logs that all is well, ends the line's newest disturbance now, and sends it out once. */
  lemma EndsAreAnnounced(st: State, i: nat, tick: Clock)
    requires Ticking(tick) && Inv(st) && i < |st.lines| && ModeOf(st.lines[i].disturbances).Unofficial?
    ensures var r, now := st.lines[i], tick(st.clock);
            var ds, solved := r.disturbances, Status(i, now, false, SOLVED_TEXT, false);
            && ds != []
            && var d := ds[|ds| - 1];
               var d' := d.(uEnd := now, uEnded := true, statuses := d.statuses + [solved]);
               EndDisturbance(st, i, tick)
               == State(st.lines[i := Record(r.log + [solved], ds[|ds| - 1 := d'])],
                        st.notifications + [Notification(d', solved)], st.reports, st.thresholds, now)
  {
    var r := st.lines[i];
    assert Good(r, st.clock);
    OngoingIsNewest(r.disturbances);
    assert !Duplicate(r.log, Solved(i, tick(st.clock)));
  }

  // ----- A whole evaluation -----

  /** The line's votes reach the threshold, it has had a disturbance, and when its turn comes there are
      reports left that are not of officially disturbed lines before it. */
  ghost predicate IsToStart(st: State, i: nat)
    requires i < |st.lines| == |st.thresholds|
  {
    && ModeOf(st.lines[i].disturbances).Clear? && st.thresholds[i] <= Votes(st.reports, i)
    && st.lines[i].disturbances != [] && exists r :: r in st.reports && !IsClearedAway(st, r, i)
  }

  /** The votes fall short of half the threshold. */
  predicate IsToEnd(st: State, i: nat)
    requires i < |st.lines| == |st.thresholds|
  {
    ModeOf(st.lines[i].disturbances).Unofficial? && Votes(st.reports, i) < Half(st.thresholds[i])
  }

  /** The report is of an officially disturbed line before line n. */
  predicate IsClearedAway(st: State, r: Report, n: nat)
    requires n <= |st.lines|
  {
    r.line < n && ModeOf(st.lines[r.line].disturbances).Official?
  }

  /** What the evaluation has decided about line i once it has come to line n. */
  ghost predicate IsLineDecided(st: State, now: Record, i: nat, n: nat)
    requires i < |st.lines| == |st.thresholds|
  {
    if i < n && IsToStart(st, i) then ModeOf(now.disturbances).Unofficial?
    else if i < n && IsToEnd(st, i) then ModeOf(now.disturbances).Clear?
    else now == st.lines[i]
  }

  /** What is left of the reports by then. */
  ghost predicate AreReportsLeft(st: State, left: seq<Report>, n: nat)
    requires n <= |st.lines|
  {
    && (forall r :: r in left <==> r in st.reports && !IsClearedAway(st, r, n))
    && forall i: nat :: n <= i ==> Votes(left, i) == Votes(st.reports, i)
  }

  ghost predicate IsDecided(st: State, st': State, n: nat)
    requires n <= |st.lines| == |st.thresholds|
  {
    && |st'.lines| == |st.lines| && st'.thresholds == st.thresholds && AreReportsLeft(st, st'.reports, n)
    && forall i :: 0 <= i < |st.lines| ==> IsLineDecided(st, st'.lines[i], i, n)
  }

  lemma ReportsLeftAfter(st: State, st1: State, n: nat, tick: Clock)
    requires Ticking(tick) && Inv(st1) && n < |st.lines| == |st1.lines| && AreReportsLeft(st, st1.reports, n)
    requires st1.lines[n] == st.lines[n]
    ensures AreReportsLeft(st, EvaluateLine(st1, n, tick).reports, n + 1)
  {
    EvaluateLineQuiets(st1, n, tick);
    DropLineMembers(st1.reports, n);
    forall i: nat | n + 1 <= i
      ensures Votes(EvaluateLine(st1, n, tick).reports, i) == Votes(st.reports, i)
    {
      DropLineVotes(st1.reports, n, i);
    }
  }

  lemma ReportsAreLeftIff(st: State, left: seq<Report>, n: nat)
    requires n <= |st.lines| && AreReportsLeft(st, left, n)
    ensures left != [] <==> exists r :: r in st.reports && !IsClearedAway(st, r, n)
  {
    if left != [] {
      assert left[0] in left;
    }
  }

  lemma LineIsDecided(st: State, st1: State, n: nat, tick: Clock)
    requires Ticking(tick) && Inv(st1) && n < |st.lines| == |st.thresholds| && st1.thresholds == st.thresholds
    requires |st1.lines| == |st.lines| && st1.lines[n] == st.lines[n] && AreReportsLeft(st, st1.reports, n)
    ensures IsLineDecided(st, EvaluateLine(st1, n, tick).lines[n], n, n + 1)
  {
    ReportsAreLeftIff(st, st1.reports, n);
    match ModeOf(st.lines[n].disturbances)
    case Clear => StartKeepsInv(st1, n, tick);
    case Official =>
    case Unofficial => EndKeepsInv(st1, n, tick);
  }

  lemma OneMoreDecided(st: State, st1: State, n: nat, tick: Clock)
    requires Ticking(tick) && Inv(st1) && n < |st.lines| == |st.thresholds| && IsDecided(st, st1, n)
    ensures IsDecided(st, EvaluateLine(st1, n, tick), n + 1)
  {
    var st2 := EvaluateLine(st1, n, tick);
    EvaluateLineQuiets(st1, n, tick);
    assert IsLineDecided(st, st1.lines[n], n, n);
    ReportsLeftAfter(st, st1, n, tick);
    LineIsDecided(st, st1, n, tick);
    forall i | 0 <= i < |st.lines|
      ensures IsLineDecided(st, st2.lines[i], i, n + 1)
    {
      assert IsLineDecided(st, st1.lines[i], i, n);
    }
  }

  lemma {:induction false} RestIsDecided(st: State, st1: State, n: nat, tick: Clock)
    requires Ticking(tick) && Inv(st1) && n <= |st.lines| == |st.thresholds| && IsDecided(st, st1, n)
    ensures IsDecided(st, EvaluateFrom(st1, n, tick), |st.lines|)
    decreases |st.lines| - n
  {
    if n < |st.lines| {
      OneMoreDecided(st, st1, n, tick);
      EvaluateLineQuiets(st1, n, tick);
      RestIsDecided(st, EvaluateLine(st1, n, tick), n + 1, tick);
    }
  }

  /** An evaluation starts a disturbance of exactly the clear lines whose votes reach the threshold, ends
      exactly the unofficial ones whose votes fall short of half of it, leaves all other lines as they
      are, and drops exactly the votes for officially disturbed lines. */
  lemma EvaluationDecides(st: State, tick: Clock)
    requires Ticking(tick) && Inv(st)
    ensures IsDecided(st, Evaluate(st, tick), |st.lines|)
  {
    RestIsDecided(st, st, 0, tick);
  }

  /** Half is what Go's division makes of it: no farther from zero, and by less than one. */
  lemma HalfIsTruncated(x: int, h: int)
    ensures h == Half(x) <==> if 0 <= x then 2 * h <= x < 2 * h + 2 else 2 * h - 2 < x <= 2 * h
  {
  }
}
