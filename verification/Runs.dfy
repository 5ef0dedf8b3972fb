/** Every run: official and other statuses, votes, expiry and evaluations in any order, on a
    clock that only moves forward; and what the recorded disturbances then say about availability. */
module Runs {
  import opened Wrappers
  import opened Measure
  import opened Schedules
  import opened Lines
  import opened Histories
  import opened Reports
  import opened ReportHandlers
  import A = Availability

  datatype Step =
    | Observe(line: nat, downtime: bool, text: string, official: bool)
    | Vote(report: Report)
    | Lapse(line: nat, submitter: string)
    | Evaluation
    | Retune(line: nat, threshold: int)

  function Take(st: State, step: Step, tick: Clock): (st': State)
    requires |st.lines| == |st.thresholds|
    ensures |st'.lines| == |st'.thresholds| == |st.lines|
  {
    match step
    case Observe(line, downtime, text, official) =>
      if line >= |st.lines| then st
      else
        var now := tick(st.clock);
        var s := Status(line, now, downtime, text, official);
        st.(lines := st.lines[line := AddTo(st.lines[line], s)],
            notifications := st.notifications + Notices(st.lines[line], s, true),
            clock := now)
    case Vote(report) =>
      if HasReport(st.reports, report.line, report.submitter) then st else st.(reports := st.reports + [report])
    case Lapse(line, submitter) => st.(reports := Without(st.reports, line, submitter))
    case Evaluation => Evaluate(st, tick)
    case Retune(line, threshold) =>
      if line >= |st.lines| then st else st.(thresholds := st.thresholds[line := threshold])
  }

  function Run(st: State, steps: seq<Step>, tick: Clock): (st': State)
    requires |st.lines| == |st.thresholds|
    ensures |st'.lines| == |st'.thresholds| == |st.lines|
  {
    if steps == [] then st else Take(Run(st, steps[..|steps| - 1], tick), steps[|steps| - 1], tick)
  }

  /** No line has any history. */
  function Initial(thresholds: seq<int>, clock: int): State {
    State(seq(|thresholds|, i => Record([], [])), [], [], thresholds, clock)
  }

  lemma InitialInv(thresholds: seq<int>, clock: int)
    ensures Inv(Initial(thresholds, clock))
  {
  }

  lemma TakeKeepsInv(st: State, step: Step, tick: Clock)
    requires Ticking(tick) && Inv(st)
    ensures Inv(Take(st, step, tick))
  {
    var st' := Take(st, step, tick);
    match step
    case Observe(line, downtime, text, official) =>
      if line < |st.lines| {
        assert Good(st.lines[line], st.clock);
        AddToKeepsGood(st.lines[line], Status(line, tick(st.clock), downtime, text, official), st.clock);
        InvAfterLine(st, st', line);
      }
    case Evaluation => EvaluateFromKeepsInv(st, 0, tick);
    case _ =>
      forall i | 0 <= i < |st'.lines|
        ensures Good(st'.lines[i], st'.clock)
      {
        assert Good(st.lines[i], st.clock);
      }
  }

  lemma {:induction false} RunKeepsInv(st: State, steps: seq<Step>, tick: Clock)
    requires Ticking(tick) && Inv(st)
    ensures Inv(Run(st, steps, tick))
    decreases |steps|
  {
    if steps != [] {
      RunKeepsInv(st, steps[..|steps| - 1], tick);
      TakeKeepsInv(Run(st, steps[..|steps| - 1], tick), steps[|steps| - 1], tick);
    }
  }

  /** What well-formedness says, in full. */
  ghost predicate Sound(ds: seq<Disturbance>) {
    && (forall i, j :: 0 <= i < j < |ds| ==> ds[i].uEnded && ds[i].uEnd < ds[j].uStart)
    && (forall d :: d in ds && d.uEnded ==> d.uStart < d.uEnd)
    && (forall d :: d in ds && d.official ==> d.uStart <= d.oStart && (d.oEnded <==> d.uEnded))
    && (forall d :: d in ds && d.oEnded ==> d.official && d.oStart < d.oEnd == d.uEnd)
  }

  lemma WellFormedIsSound(ds: seq<Disturbance>)
    requires WellFormed(ds)
    ensures Sound(ds)
  {
    forall d | d in ds
      ensures WellFormedDisturbance(d)
    {
      var i :| 0 <= i < |ds| && ds[i] == d;
      assert WellFormedDisturbance(ds[i]);
    }
  }

  /** Over every run, back-dated starts included: at most one disturbance of a line is ongoing,
      they are pairwise disjoint, the official part lies inside, an official disturbance is
      officially ended exactly when it is ended, and another one never is. */
  lemma {:induction false} DisturbancesOfRuns(thresholds: seq<int>, clock: int, steps: seq<Step>, tick: Clock,
                                              line: nat)
    requires Ticking(tick) && line < |thresholds|
    ensures Sound(Run(Initial(thresholds, clock), steps, tick).lines[line].disturbances)
  {
    InitialInv(thresholds, clock);
    RunKeepsInv(Initial(thresholds, clock), steps, tick);
    var st := Run(Initial(thresholds, clock), steps, tick);
    assert Good(st.lines[line], st.clock);
    WellFormedIsSound(st.lines[line].disturbances);
  }

  /** How many instants of the window were open, in the past and disturbed. */
  ghost function Down(ds: seq<Disturbance>, o: Openings, a: int, b: int, now: int): nat {
    Count(a, b, t => t < now && DisturbedAt(ds, t) && OpenAt(o, t))
  }

  ghost function OfficiallyDown(ds: seq<Disturbance>, o: Openings, a: int, b: int, now: int): nat {
    Count(a, b, t => t < now && OfficiallyDisturbedAt(ds, t) && OpenAt(o, t))
  }

  /** Down time is the open and disturbed part of the window up to now. */
  ghost predicate DownTimeIsRight(ds: seq<Disturbance>, o: Openings, a: int, b: int, now: int) {
    && A.TotalDownTime(ds, o, a, b, false, now) == Down(ds, o, a, b, now)
    && A.TotalDownTime(ds, o, a, b, true, now) == OfficiallyDown(ds, o, a, b, now)
    && OfficiallyDown(ds, o, a, b, now) <= Down(ds, o, a, b, now) <= A.OpenTime(o, a, b)
  }

  /** Availability is the undisturbed share of open time, official or not, and without any it is no number. */
  ghost predicate AvailabilityIsRight(ds: seq<Disturbance>, o: Openings, a: int, b: int, now: int) {
    if A.OpenTime(o, a, b) == 0 then
      A.AvailabilityOf(ds, o, a, b, false, now) == None == A.AvailabilityOf(ds, o, a, b, true, now)
    else
      var open := A.OpenTime(o, a, b) as real;
      var up := 1.0 - Down(ds, o, a, b, now) as real / open;
      var officiallyUp := 1.0 - OfficiallyDown(ds, o, a, b, now) as real / open;
      && A.AvailabilityOf(ds, o, a, b, false, now) == Some(up)
      && A.AvailabilityOf(ds, o, a, b, true, now) == Some(officiallyUp)
      && 0.0 <= up <= officiallyUp <= 1.0
  }

  /** End to end: what is computed after any run means what it should. */
  lemma {:induction false} AvailabilityOfRuns(thresholds: seq<int>, clock: int, steps: seq<Step>, tick: Clock,
                                              line: nat, o: Openings, a: int, b: int, now: int)
    requires Ticking(tick) && line < |thresholds| && Proper(o) && a <= b
    requires Run(Initial(thresholds, clock), steps, tick).clock <= now
    ensures DownTimeIsRight(Run(Initial(thresholds, clock), steps, tick).lines[line].disturbances, o, a, b, now)
    ensures AvailabilityIsRight(Run(Initial(thresholds, clock), steps, tick).lines[line].disturbances, o, a, b, now)
  {
    InitialInv(thresholds, clock);
    RunKeepsInv(Initial(thresholds, clock), steps, tick);
    var st := Run(Initial(thresholds, clock), steps, tick);
    assert Good(st.lines[line], st.clock);
    GoodLater(st.lines[line], st.clock, now);
    AvailabilityOfRecord(st.lines[line].disturbances, o, a, b, now);
  }

  lemma {:induction false} AvailabilityOfRecord(ds: seq<Disturbance>, o: Openings, a: int, b: int, now: int)
    requires WellFormed(ds) && AllHappenedBy(ds, now) && Proper(o) && a <= b
    ensures DownTimeIsRight(ds, o, a, b, now) && AvailabilityIsRight(ds, o, a, b, now)
  {
    forall t
      ensures A.DownAt(ds, false, now, t) <==> t < now && DisturbedAt(ds, t)
      ensures A.DownAt(ds, true, now, t) <==> t < now && OfficiallyDisturbedAt(ds, t)
    {
      A.DownUntilNow(ds, now, t);
    }
    CountSame(a, b, t => A.DownAt(ds, false, now, t) && OpenAt(o, t),
              t => t < now && DisturbedAt(ds, t) && OpenAt(o, t));
    CountSame(a, b, t => A.DownAt(ds, true, now, t) && OpenAt(o, t),
              t => t < now && OfficiallyDisturbedAt(ds, t) && OpenAt(o, t));
    A.DownTimeIsExact(ds, o, a, b, false, now);
    A.DownTimeIsExact(ds, o, a, b, true, now);
    A.DownTimeIsBounded(ds, o, a, b, now);
    if 0 < A.OpenTime(o, a, b) {
      A.AvailabilityIsAShare(ds, o, a, b, now);
    } else {
      A.WithoutOpenTime(ds, o, a, b, false, now);
      A.WithoutOpenTime(ds, o, a, b, true, now);
    }
  }

  // ----- What votes can start -----

  lemma {:induction false} NeverFewer(ds: seq<Disturbance>, s: Status)
    ensures |ds| <= |Lifecycle(ds, s)|
  {
  }

  lemma EvaluateStartsNoFirst(st: State, j: nat, i: nat, tick: Clock)
    requires Ticking(tick) && Inv(st) && j < |st.lines| && i < |st.lines|
    ensures EvaluateLine(st, j, tick).lines[i].disturbances == [] <==> st.lines[i].disturbances == []
  {
    EvaluateLineQuiets(st, j, tick);
    if i == j {
      var r := st.lines[i];
      assert Good(r, st.clock);
      var now := tick(st.clock);
      match ModeOf(r.disturbances)
      case Clear =>
        if LastDisturbance(r.disturbances).Some? && st.reports != [] {
          StartedIsDated(r, i, EarliestTime(st.reports), st.clock, now);
        }
      case Official =>
      case Unofficial => NeverFewer(r.disturbances, Solved(i, now));
    }
  }

  lemma {:induction false} EvaluationStartsNoFirst(st: State, j: nat, i: nat, tick: Clock)
    requires Ticking(tick) && Inv(st) && j <= |st.lines| && i < |st.lines|
    ensures EvaluateFrom(st, j, tick).lines[i].disturbances == [] <==> st.lines[i].disturbances == []
    decreases |st.lines| - j
  {
    if j < |st.lines| {
      EvaluateStartsNoFirst(st, j, i, tick);
      EvaluateLineQuiets(st, j, tick);
      EvaluationStartsNoFirst(EvaluateLine(st, j, tick), j + 1, i, tick);
    }
  }

  predicate ObservesDowntime(step: Step, i: nat) {
    step.Observe? && step.line == i && step.downtime
  }

  lemma StepStartsFirstIff(st: State, step: Step, i: nat, tick: Clock)
    requires Ticking(tick) && Inv(st) && i < |st.lines|
    ensures Take(st, step, tick).lines[i].disturbances != []
            <==> st.lines[i].disturbances != [] || ObservesDowntime(step, i)
  {
    match step
    case Observe(line, downtime, text, official) =>
      if line == i {
        var r, s := st.lines[i], Status(i, tick(st.clock), downtime, text, official);
        assert Good(r, st.clock);
        NeverFewer(r.disturbances, s);
        if r.disturbances == [] && downtime {
          DowntimeIsNoDuplicate(r, s);
        }
      }
    case Evaluation => EvaluationStartsNoFirst(st, 0, i, tick);
    case _ =>
  }

  ghost predicate DowntimeObserved(steps: seq<Step>, i: nat) {
    exists k :: 0 <= k < |steps| && ObservesDowntime(steps[k], i)
  }

  lemma ObservedMore(steps: seq<Step>, i: nat)
    requires steps != []
    ensures DowntimeObserved(steps, i)
            <==> DowntimeObserved(steps[..|steps| - 1], i) || ObservesDowntime(steps[|steps| - 1], i)
  {
    var front := steps[..|steps| - 1];
    assert forall k :: 0 <= k < |front| ==> front[k] == steps[k];
  }

  /** Over every run, a line has had a disturbance exactly if a downtime of it was observed: votes
      alone never start the first one. */
  lemma {:induction false} FirstIsObservedIff(thresholds: seq<int>, clock: int, steps: seq<Step>, tick: Clock, i: nat)
    requires Ticking(tick) && i < |thresholds|
    ensures Run(Initial(thresholds, clock), steps, tick).lines[i].disturbances != [] <==> DowntimeObserved(steps, i)
    decreases |steps|
  {
    if steps != [] {
      var front := steps[..|steps| - 1];
      FirstIsObservedIff(thresholds, clock, front, tick, i);
      InitialInv(thresholds, clock);
      RunKeepsInv(Initial(thresholds, clock), front, tick);
      StepStartsFirstIff(Run(Initial(thresholds, clock), front, tick), steps[|steps| - 1], i, tick);
      ObservedMore(steps, i);
    }
  }

  /** After every run, a start brought about by votes for line i makes the newest disturbance.  If it
      is dated back, then to the line's own earliest report exactly if no report of another line in
      memory is earlier. */
  lemma {:induction false} StartsOfRuns(thresholds: seq<int>, clock: int, steps: seq<Step>, tick: Clock, i: nat)
    requires Ticking(tick) && i < |thresholds|
    requires var st := Run(Initial(thresholds, clock), steps, tick);
             HasVotes(st.reports, i) && ModeOf(st.lines[i].disturbances).Clear? && st.lines[i].disturbances != []
    ensures var st := Run(Initial(thresholds, clock), steps, tick);
            var ds, ds' := st.lines[i].disturbances, StartDisturbance(st, i, tick).lines[i].disturbances;
            && |ds'| == |ds| + 1 && ds'[..|ds|] == ds && LastDisturbance(ds).Some?
            && var backdated := StartsEarlier(st.lines[i], EarliestTime(st.reports), tick(st.clock));
               && (!backdated ==> ds'[|ds|].uStart == tick(st.clock))
               && (backdated ==>
                     (ds'[|ds|].uStart == OwnEarliest(st.reports, i)
                      <==> forall k :: 0 <= k < |st.reports| && st.reports[k].line != i ==>
                             OwnEarliest(st.reports, i) <= st.reports[k].time))
  {
    InitialInv(thresholds, clock);
    RunKeepsInv(Initial(thresholds, clock), steps, tick);
    var st := Run(Initial(thresholds, clock), steps, tick);
    assert Good(st.lines[i], st.clock);
    LastEndedIsNewest(st.lines[i].disturbances);
    StartedIsDated(st.lines[i], i, EarliestTime(st.reports), st.clock, tick(st.clock));
    EarliestIsOwnIff(st.reports, i);
  }

  // ----- No restart after an official end -----

  /** The line is clear, nobody votes for it and it takes votes to start a disturbance. */
  predicate AtRest(st: State, i: nat)
    requires |st.lines| == |st.thresholds|
  {
    i < |st.lines| && ModeOf(st.lines[i].disturbances).Clear? && !HasVotes(st.reports, i) && 0 < st.thresholds[i]
  }

  lemma {:induction false} NoVotes(rs: seq<Report>, line: nat)
    requires !HasVotes(rs, line)
    ensures Votes(rs, line) == 0
    decreases |rs|
  {
    if rs != [] {
      NoVotes(rs[..|rs| - 1], line);
    }
  }

  lemma EvaluateOtherLine(st: State, i: nat, j: nat, tick: Clock)
    requires Ticking(tick) && Inv(st) && AtRest(st, i) && j < |st.lines|
    ensures var st' := EvaluateLine(st, j, tick); Inv(st') && AtRest(st', i) && st'.lines[i] == st.lines[i]
  {
    EvaluateLineQuiets(st, j, tick);
    DropLineMembers(st.reports, j);
    NoNewVotes(st.reports, EvaluateLine(st, j, tick).reports, i);
    if i == j {
      NoVotes(st.reports, i);
      assert Quiet(st, i);
      QuietLineStays(st, i, tick);
    }
  }

  lemma {:induction false} EvaluationAtRest(st: State, i: nat, j: nat, tick: Clock)
    requires Ticking(tick) && Inv(st) && AtRest(st, i) && j <= |st.lines|
    ensures var st' := EvaluateFrom(st, j, tick); AtRest(st', i) && st'.lines[i] == st.lines[i]
    decreases |st.lines| - j
  {
    if j < |st.lines| {
      EvaluateOtherLine(st, i, j, tick);
      EvaluationAtRest(EvaluateLine(st, j, tick), i, j + 1, tick);
    }
  }

  /** The step says nothing about line i, or makes it harder for votes to start a disturbance. */
  predicate LeavesAlone(step: Step, i: nat) {
    match step
    case Observe(line, _, _, _) => line != i
    case Vote(report) => report.line != i
    case Lapse(_, _) => true
    case Evaluation => true
    case Retune(line, threshold) => line != i || 0 < threshold
  }

  lemma StepAtRest(st: State, step: Step, i: nat, tick: Clock)
    requires Ticking(tick) && Inv(st) && AtRest(st, i) && LeavesAlone(step, i)
    ensures var st' := Take(st, step, tick); AtRest(st', i) && st'.lines[i] == st.lines[i]
  {
    match step
    case Evaluation => EvaluationAtRest(st, i, 0, tick);
    case Lapse(line, submitter) =>
      WithoutMembers(st.reports, line, submitter);
      NoNewVotes(st.reports, Take(st, step, tick).reports, i);
    case _ =>
  }

  lemma {:induction false} RunAtRest(st: State, steps: seq<Step>, i: nat, tick: Clock)
    requires Ticking(tick) && Inv(st) && AtRest(st, i) && forall step :: step in steps ==> LeavesAlone(step, i)
    ensures var st' := Run(st, steps, tick); AtRest(st', i) && st'.lines[i] == st.lines[i]
    decreases |steps|
  {
    if steps != [] {
      var front := steps[..|steps| - 1];
      RunAtRest(st, front, i, tick);
      RunKeepsInv(st, front, tick);
      StepAtRest(Run(st, front, tick), steps[|steps| - 1], i, tick);
    }
  }

  /** Line i is officially disturbed and, if the evaluation has passed it, has no votes left. */
  predicate ClearedUpTo(st: State, i: nat, j: nat) {
    IsOfficial(st, i) && (i < j ==> !HasVotes(st.reports, i))
  }

  lemma OfficialLineStep(st: State, i: nat, j: nat, tick: Clock)
    requires Ticking(tick) && Inv(st) && ClearedUpTo(st, i, j) && j < |st.lines|
    ensures var st' := EvaluateLine(st, j, tick); Inv(st') && ClearedUpTo(st', i, j + 1)
  {
    var st' := EvaluateLine(st, j, tick);
    EvaluateLineQuiets(st, j, tick);
    DropLineMembers(st.reports, j);
    NoNewVotes(st.reports, st'.reports, i);
    assert i == j ==> forall r :: r in st'.reports ==> r.line != i;
  }

  lemma {:induction false} EvaluationClearsOfficial(st: State, i: nat, j: nat, tick: Clock)
    requires Ticking(tick) && Inv(st) && ClearedUpTo(st, i, j) && j <= |st.lines|
    ensures ClearedUpTo(EvaluateFrom(st, j, tick), i, |st.lines|)
    decreases |st.lines| - j
  {
    if j < |st.lines| {
      OfficialLineStep(st, i, j, tick);
      EvaluationClearsOfficial(EvaluateLine(st, j, tick), i, j + 1, tick);
    }
  }

  /** The step may come while line i is officially disturbed and leave it so: anything but its
      official all-clear, votes for it, and a threshold that takes no votes to reach. */
  predicate KeepsOfficial(step: Step, i: nat) {
    match step
    case Observe(line, downtime, _, official) => line != i || downtime || !official
    case Vote(report) => report.line != i
    case Lapse(_, _) => true
    case Evaluation => true
    case Retune(line, threshold) => line != i || 0 < threshold
  }

  predicate Cleared(st: State, i: nat)
    requires |st.lines| == |st.thresholds|
  {
    IsOfficial(st, i) && !HasVotes(st.reports, i) && 0 < st.thresholds[i]
  }

  lemma StepStaysCleared(st: State, step: Step, i: nat, tick: Clock)
    requires Ticking(tick) && Inv(st) && Cleared(st, i) && KeepsOfficial(step, i)
    ensures Cleared(Take(st, step, tick), i)
  {
    match step
    case Observe(line, downtime, text, official) =>
      if line == i {
        assert Good(st.lines[i], st.clock);
        AddToKeepsGood(st.lines[i], Status(i, tick(st.clock), downtime, text, official), st.clock);
      }
    case Lapse(line, submitter) =>
      WithoutMembers(st.reports, line, submitter);
      NoNewVotes(st.reports, Take(st, step, tick).reports, i);
    case Evaluation => EvaluationClearsOfficial(st, i, 0, tick);
    case _ =>
  }

  lemma {:induction false} RunStaysCleared(st: State, steps: seq<Step>, i: nat, tick: Clock)
    requires Ticking(tick) && Inv(st) && Cleared(st, i) && forall step :: step in steps ==> KeepsOfficial(step, i)
    ensures Cleared(Run(st, steps, tick), i)
    decreases |steps|
  {
    if steps != [] {
      var front := steps[..|steps| - 1];
      RunStaysCleared(st, front, i, tick);
      RunKeepsInv(st, front, tick);
      StepStaysCleared(Run(st, front, tick), steps[|steps| - 1], i, tick);
    }
  }

  /** Once an evaluation has run during an official disturbance, its official end, whenever it
      comes, stays the end: without new votes for the line no evaluation starts another one. */
  lemma {:induction false} OfficialEndIsFinal(st: State, i: nat, between: seq<Step>, text: string, steps: seq<Step>,
                                              tick: Clock)
    requires Ticking(tick) && Inv(st) && IsOfficial(st, i) && 0 < st.thresholds[i]
    requires forall step :: step in between ==> KeepsOfficial(step, i)
    requires forall step :: step in steps ==> LeavesAlone(step, i)
    ensures var ended := Take(Run(Evaluate(st, tick), between, tick), Observe(i, false, text, true), tick);
            && ModeOf(ended.lines[i].disturbances).Clear?
            && Run(ended, steps, tick).lines[i] == ended.lines[i]
  {
    var st1, end := Run(Evaluate(st, tick), between, tick), Observe(i, false, text, true);
    EvaluationClearsOfficial(st, i, 0, tick);
    EvaluateFromKeepsInv(st, 0, tick);
    RunStaysCleared(Evaluate(st, tick), between, i, tick);
    RunKeepsInv(Evaluate(st, tick), between, tick);
    assert Good(st1.lines[i], st1.clock);
    AddToKeepsGood(st1.lines[i], Status(i, tick(st1.clock), false, text, true), st1.clock);
    TakeKeepsInv(st1, end, tick);
    RunAtRest(Take(st1, end, tick), steps, i, tick);
  }
}
