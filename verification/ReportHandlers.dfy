/** The report handler (compute/reports.go).  Removing a report calls the eviction hook, which
    evaluates the situation again, while an evaluation may be what is removing reports; the
    outcome is that of one flat pass. */
module ReportHandlers {
  import opened Wrappers
  import opened Measure
  import opened Lines
  import opened Histories
  import opened Reports

  predicate IsOfficial(st: State, i: nat) {
    i < |st.lines| && ModeOf(st.lines[i].disturbances).Official?
  }

  /** No report is new, and the ones that are gone were of the given line or of lines with an
      ongoing official disturbance; official disturbances are still ongoing. */
  ghost predicate Dropped(st: State, st': State, line: Option<nat>) {
    && |st'.lines| == |st.lines| && st'.thresholds == st.thresholds && |st'.reports| <= |st.reports|
    && (forall r :: r in st'.reports ==> r in st.reports)
    && (forall r :: r in st.reports ==> r in st'.reports || line == Some(r.line) || IsOfficial(st', r.line))
    && (forall i: nat :: IsOfficial(st, i) ==> IsOfficial(st', i))
  }

  lemma DroppedTransitive(st: State, st': State, st'': State, line: Option<nat>)
    requires Dropped(st, st', line) && Dropped(st', st'', line)
    ensures Dropped(st, st'', line)
  {
  }

  lemma LineDropped(st: State, i: nat, tick: Clock)
    requires Ticking(tick) && Inv(st) && i < |st.lines|
    ensures Dropped(st, EvaluateLine(st, i, tick), None)
  {
    EvaluateLineQuiets(st, i, tick);
    DropLineMembers(st.reports, i);
    var st' := EvaluateLine(st, i, tick);
    forall j: nat | IsOfficial(st, j)
      ensures IsOfficial(st', j)
    {
    }
  }

  /** Deleting one vote of an officially disturbed line and evaluating everything afresh is the
      same as dropping all its votes and carrying on with the next line. */
  lemma DeleteThenEvaluate(st: State, i: nat, submitter: string, tick: Clock)
    requires Ticking(tick) && Inv(st) && NonNegative(st.reports) && IsOfficial(st, i) && QuietBelow(st, i)
    ensures var st1 := st.(reports := Without(st.reports, i, submitter));
            && Inv(st1) && NonNegative(st1.reports)
            && Evaluate(st1, tick) == EvaluateFrom(st, i, tick)
  {
    var st1 := st.(reports := Without(st.reports, i, submitter));
    WithoutMembers(st.reports, i, submitter);
    InvAfterLine(st, st1, i);
    forall j | 0 <= j < i
      ensures Quiet(st1, j)
    {
      WithoutVotes(st.reports, i, submitter, j);
      OthersStayQuiet(st, st1, i, j);
    }
    SkipQuiet(st1, 0, i, tick);
    DropAfterWithout(st.reports, i, submitter);
    assert EvaluateLine(st1, i, tick) == EvaluateLine(st, i, tick);
  }

  /** What is left of an evaluation that has found the lines before line i quiet. */
  lemma RestIsQuiet(st: State, i: nat, tick: Clock)
    requires Ticking(tick) && Inv(st) && NonNegative(st.reports) && i < |st.lines| && QuietBelow(st, i)
    ensures var done := EvaluateFrom(st, i, tick);
            && Inv(done) && NonNegative(done.reports) && QuietBelow(done, |done.lines|)
            && EvaluateFrom(done, i + 1, tick) == done
            && (IsOfficial(st, i) ==> !HasVotes(done.reports, i))
  {
    EvaluateFromQuiets(st, i, tick);
    var done := EvaluateFrom(st, i, tick);
    SkipQuiet(done, i + 1, |done.lines|, tick);
    if IsOfficial(st, i) {
      FromDropped(st, i, tick);
      assert Quiet(done, i);
    }
  }

  lemma {:induction false} FromDropped(st: State, i: nat, tick: Clock)
    requires Ticking(tick) && Inv(st) && i <= |st.lines|
    ensures Dropped(st, EvaluateFrom(st, i, tick), None)
    decreases |st.lines| - i
  {
    if i < |st.lines| {
      var st1 := EvaluateLine(st, i, tick);
      LineDropped(st, i, tick);
      EvaluateLineQuiets(st, i, tick);
      FromDropped(st1, i + 1, tick);
      DroppedTransitive(st, st1, EvaluateFrom(st1, i + 1, tick), None);
    }
  }

  /** How far an evaluation that began at `start` has come: the lines before line i are done. */
  ghost predicate Course(start: State, st: State, i: nat, tick: Clock) {
    && Dropped(start, st, None) && i <= |st.lines| == |st.thresholds|
    && (NonNegative(start.reports) ==>
          && NonNegative(st.reports) && QuietBelow(st, i)
          && EvaluateFrom(st, i, tick) == Evaluate(start, tick))
  }

  /** What acting on line i achieves. */
  ghost predicate Progress(st: State, st': State, i: nat, tick: Clock) {
    && Dropped(st, st', None) && i < |st.lines| == |st.thresholds|
    && (NonNegative(st.reports) && QuietBelow(st, i) ==>
          && NonNegative(st'.reports) && QuietBelow(st', i + 1)
          && EvaluateFrom(st', i + 1, tick) == EvaluateFrom(st, i, tick))
  }

  lemma StayOnCourse(start: State, st: State, st': State, i: nat, tick: Clock)
    requires Course(start, st, i, tick) && Progress(st, st', i, tick)
    ensures Course(start, st', i + 1, tick)
  {
    DroppedTransitive(start, st, st', None);
  }

  class ReportHandler {
    const node: Node
    const tick: Clock
    var reports: seq<Report>
    var thresholds: seq<int>
    var clock: int

    ghost function Snapshot(): State
      reads this, node
    {
      State(node.lines, node.notifications, reports, thresholds, clock)
    }

    ghost predicate Valid()
      reads this, node
    {
      Ticking(tick) && Inv(Snapshot())
    }

    constructor (node: Node, thresholds: seq<int>, clock: int, tick: Clock)
      requires Ticking(tick) && Inv(State(node.lines, node.notifications, [], thresholds, clock))
      ensures this.node == node && this.tick == tick && Valid()
      ensures Snapshot() == State(node.lines, node.notifications, [], thresholds, clock)
    {
      this.node, this.tick, this.thresholds, this.clock, reports := node, tick, thresholds, clock, [];
    }

    method Now() returns (now: int)
      modifies this`clock
      ensures now == clock == tick(old(clock))
    {
      clock := tick(clock);
      now := clock;
    }

    method CountVotesForLine(line: nat) returns (count: int)
      ensures count == Votes(reports, line)
    {
      count := 0;
      for i := 0 to |reports|
        invariant count == Votes(reports[..i], line)
      {
        assert reports[..i + 1][..i] == reports[..i];
        if reports[i].line == line {
          count := count + reports[i].weight;
        }
      }
      assert reports[..|reports|] == reports;
    }

    /** The earliest report in memory, of whatever line. */
    method GetEarliestVoteForLine(line: nat) returns (earliest: Option<Report>)
      ensures earliest.None? <==> reports == []
      ensures earliest.Some? ==> earliest.value in reports && earliest.value.time == EarliestTime(reports)
    {
      earliest := None;
      for i := 0 to |reports|
        invariant earliest.None? <==> i == 0
        invariant earliest.Some? ==> earliest.value in reports && earliest.value.time == EarliestTime(reports[..i])
      {
        assert reports[..i + 1][..i] == reports[..i];
        if earliest.None? || reports[i].time < earliest.value.time {
          earliest := Some(reports[i]);
        }
      }
      assert reports[..|reports|] == reports;
    }

    method StartDisturbance(line: nat) returns (r: Result<()>)
      requires line < |node.lines|
      modifies this`clock, node
      ensures Snapshot() == Reports.StartDisturbance(old(Snapshot()), line, tick)
      ensures r.Failure? ==> Snapshot() == old(Snapshot())
    {
      var earliestVote := GetEarliestVoteForLine(line);
      if earliestVote.None? {
        return Failure("earliest vote is nil");
      }
      var latestDisturbance := LastDisturbance(node.lines[line].disturbances);
      if latestDisturbance.None? {
        return Failure("No disturbances for this line");
      }
      var earliest := earliestVote.value.time;
      var now := Now();
      if earliest > latestDisturbance.value.uEnd {
        if earliest < now - MINUTE {
          var _ := node.AddStatus(line, Community(line, earliest, true, BEGIN_TEXT), false);
        }
        r := node.AddStatus(line, Community(line, now, true, CONFIRM_TEXT), true);
      } else {
        r := node.AddStatus(line, Community(line, now, true, RECONFIRM_TEXT), true);
      }
    }

    method EndDisturbance(line: nat)
      requires line < |node.lines|
      modifies this`clock, node
      ensures Snapshot() == Reports.EndDisturbance(old(Snapshot()), line, tick)
    {
      var now := Now();
      var _ := node.AddStatus(line, Solved(line, now), true);
    }

    /** Adds a vote, unless the submitter has one for this line already, and evaluates. */
    method AddReportManually(report: Report) returns (r: Result<()>)
      requires Valid()
      modifies this`reports, this`clock, node
      ensures Valid()
      ensures r.Failure? <==> HasReport(old(reports), report.line, report.submitter)
      ensures r.Failure? ==> Snapshot() == old(Snapshot())
      ensures r.Success? && NonNegative(old(reports)) && 0 <= report.weight ==>
                Snapshot() == Evaluate(old(Snapshot()).(reports := old(reports) + [report]), tick)
    {
      if HasReport(reports, report.line, report.submitter) {
        return Failure("HandleLineDisturbanceReport: report rate-limited");
      }
      reports := reports + [report];
      assert Inv(Snapshot()) by {
        SameLinesInv(old(Snapshot()), Snapshot());
      }
      EvaluateSituation();
      return Success(());
    }

    lemma SameLinesInv(st: State, st': State)
      requires Inv(st) && st'.lines == st.lines && st'.thresholds == st.thresholds && st'.clock == st.clock
      ensures Inv(st')
    {
      assert forall i :: 0 <= i < |st.lines| ==> Good(st.lines[i], st.clock);
    }

    /** Deletes a report and, if it was there, runs the eviction hook. */
    method Delete(line: nat, submitter: string)
      requires Valid()
      modifies this`reports, this`clock, node
      ensures Valid() && Dropped(old(Snapshot()), Snapshot(), Some(line))
      ensures !HasReport(reports, line, submitter)
      ensures !HasReport(old(reports), line, submitter) ==> Snapshot() == old(Snapshot())
      ensures HasReport(old(reports), line, submitter) && NonNegative(old(reports)) ==>
                Snapshot() == Evaluate(old(Snapshot()).(reports := Without(old(reports), line, submitter)), tick)
      decreases |reports|, 0
    {
      if HasReport(reports, line, submitter) {
        WithoutMembers(reports, line, submitter);
        WithoutIsShorter(reports, line, submitter);
        reports := Without(reports, line, submitter);
        SameLinesInv(old(Snapshot()), Snapshot());
        label Removed:
        EvaluateSituation();
        assert Dropped(old(Snapshot()), old@Removed(Snapshot()), Some(line));
        assert Dropped(old@Removed(Snapshot()), Snapshot(), Some(line));
        DroppedTransitive(old(Snapshot()), old@Removed(Snapshot()), Snapshot(), Some(line));
      }
    }

    /** Deletes every report of the line, in any order. */
    method ClearVotesForLine(line: nat)
      requires Valid()
      modifies this`reports, this`clock, node
      ensures Valid() && Dropped(old(Snapshot()), Snapshot(), Some(line))
      ensures !HasVotes(reports, line)
      ensures !HasVotes(old(reports), line) ==> Snapshot() == old(Snapshot())
      ensures IsOfficial(old(Snapshot()), line) && NonNegative(old(reports)) && QuietBelow(old(Snapshot()), line)
              && HasVotes(old(reports), line) ==>
                Snapshot() == EvaluateFrom(old(Snapshot()), line, tick)
      decreases |reports|, 1
    {
      ghost var before := Snapshot();
      ghost var done := before;
      ghost var flat := IsOfficial(before, line) && NonNegative(before.reports) && QuietBelow(before, line);
      if flat {
        done := EvaluateFrom(before, line, tick);
        RestIsQuiet(before, line, tick);
      }
      var pending := set r | r in reports && r.line == line :: r.submitter;
      while pending != {}
        invariant Valid() && Dropped(before, Snapshot(), Some(line))
        invariant forall r :: r in reports && r.line == line ==> r.submitter in pending
        invariant Snapshot() == before || HasVotes(before.reports, line)
        invariant flat ==> Snapshot() == before || Snapshot() == done
        decreases pending
      {
        var submitter :| submitter in pending;
        ghost var st := Snapshot();
        if flat && HasReport(st.reports, line, submitter) {
          DeleteThenEvaluate(before, line, submitter, tick);
        }
        Delete(line, submitter);
        pending := pending - {submitter};
        DroppedTransitive(before, st, Snapshot(), Some(line));
      }
    }

    /** Acts on one line.  There is never more than one ongoing disturbance, but the source loops. */
    method EvaluateLine(line: nat)
      requires Valid() && line < |node.lines|
      modifies this`reports, this`clock, node
      ensures Valid() && Progress(old(Snapshot()), Snapshot(), line, tick)
      decreases |reports|, 2
    {
      ghost var before := Snapshot();
      var ongoing := LatestOngoing(node.lines[line].disturbances);
      EvaluateLineQuiets(before, line, tick);
      LineDropped(before, line, tick);
      if NonNegative(before.reports) && QuietBelow(before, line) {
        RestIsQuiet(before, line, tick);
        EvaluateLineKeepsQuiet(before, line, tick);
      }
      var votes := CountVotesForLine(line);
      if ongoing.None? {
        if votes >= thresholds[line] {
          var _ := StartDisturbance(line);
        }
      } else if node.lines[line].disturbances[ongoing.value].official {
        ClearVotesForLine(line);
        NothingToDrop(before.reports, line);
      } else if !(votes >= Half(thresholds[line])) {
        EndDisturbance(line);
      }
    }

    method EvaluateSituation()
      requires Valid()
      modifies this`reports, this`clock, node
      ensures Valid() && Dropped(old(Snapshot()), Snapshot(), None)
      ensures NonNegative(old(reports)) ==> Snapshot() == Evaluate(old(Snapshot()), tick)
      decreases |reports|, 3
    {
      ghost var before := Snapshot();
      for i := 0 to |node.lines|
        invariant Valid() && Course(before, Snapshot(), i, tick)
      {
        ghost var st := Snapshot();
        EvaluateLine(i);
        StayOnCourse(before, st, Snapshot(), i, tick);
      }
    }
  }
}
