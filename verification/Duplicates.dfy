/** Runs without the duplicate check of AddStatus: the same steps on rows to which every status is
    added.  The check turns out never to change an interval or a flag. */
module Duplicates {
  import opened Wrappers
  import opened Measure
  import opened Lines
  import opened Histories
  import opened Reports
  import opened Runs

  // ----- The steps without the check -----

  function BegunUnchecked(r: Record, i: nat, earliest: int, now: int): Record
    requires LastDisturbance(r.disturbances).Some?
  {
    if StartsEarlier(r, earliest, now) then AddUnchecked(r, Community(i, earliest, true, BEGIN_TEXT)) else r
  }

  function StartedUnchecked(r: Record, i: nat, earliest: int, now: int): Record
    requires LastDisturbance(r.disturbances).Some?
  {
    AddUnchecked(BegunUnchecked(r, i, earliest, now), Confirmation(r, i, earliest, now))
  }

  function StartUnchecked(st: State, i: nat, tick: Clock): State
    requires i < |st.lines|
  {
    var r := st.lines[i];
    if st.reports == [] || LastDisturbance(r.disturbances).None? then st
    else
      var now := tick(st.clock);
      st.(lines := st.lines[i := StartedUnchecked(r, i, EarliestTime(st.reports), now)], clock := now)
  }

  function EndUnchecked(st: State, i: nat, tick: Clock): State
    requires i < |st.lines|
  {
    var now := tick(st.clock);
    st.(lines := st.lines[i := AddUnchecked(st.lines[i], Solved(i, now))], clock := now)
  }

  function EvaluateLineUnchecked(st: State, i: nat, tick: Clock): (st': State)
    requires i < |st.lines| == |st.thresholds|
    ensures |st'.lines| == |st.lines| && st'.thresholds == st.thresholds
  {
    match ModeOf(st.lines[i].disturbances)
    case Clear => if Votes(st.reports, i) >= st.thresholds[i] then StartUnchecked(st, i, tick) else st
    case Official => st.(reports := DropLine(st.reports, i))
    case Unofficial => if Votes(st.reports, i) >= Half(st.thresholds[i]) then st else EndUnchecked(st, i, tick)
  }

  function EvaluateUncheckedFrom(st: State, i: nat, tick: Clock): (st': State)
    requires i <= |st.lines| == |st.thresholds|
    ensures |st'.lines| == |st.lines| && st'.thresholds == st.thresholds
    decreases |st.lines| - i
  {
    if i == |st.lines| then st else EvaluateUncheckedFrom(EvaluateLineUnchecked(st, i, tick), i + 1, tick)
  }

  function TakeUnchecked(st: State, step: Step, tick: Clock): (st': State)
    requires |st.lines| == |st.thresholds|
    ensures |st'.lines| == |st'.thresholds| == |st.lines|
  {
    match step
    case Observe(line, downtime, text, official) =>
      if line >= |st.lines| then st
      else
        var now := tick(st.clock);
        var s := Status(line, now, downtime, text, official);
        st.(lines := st.lines[line := AddUnchecked(st.lines[line], s)], clock := now)
    case Evaluation => EvaluateUncheckedFrom(st, 0, tick)
    case _ => Take(st, step, tick)
  }

  function RunUnchecked(st: State, steps: seq<Step>, tick: Clock): (st': State)
    requires |st.lines| == |st.thresholds|
    ensures |st'.lines| == |st'.thresholds| == |st.lines|
  {
    if steps == [] then st else TakeUnchecked(RunUnchecked(st, steps[..|steps| - 1], tick), steps[|steps| - 1], tick)
  }

  // ----- Both stay alike -----

  lemma {:induction false} SameFactsSameEnded(ds: seq<Disturbance>, ds': seq<Disturbance>)
    requires SameFacts(ds, ds')
    ensures LatestEnded(ds) == LatestEnded(ds')
    decreases |ds|
  {
    if ds != [] {
      var n := |ds| - 1;
      assert Facts(ds[n]) == Facts(ds'[n]);
      SameFactsSameEnded(ds[..n], ds'[..n]);
      var at := LatestEnded(ds[..n]);
      assert at.Some? ==> Facts(ds[at.value]) == Facts(ds'[at.value]);
    }
  }

  /** Whatever a decision looks at is the same. */
  lemma SameFactsSameDecisions(ds: seq<Disturbance>, ds': seq<Disturbance>)
    requires SameFacts(ds, ds')
    ensures ModeOf(ds) == ModeOf(ds')
    ensures LastDisturbance(ds).Some? <==> LastDisturbance(ds').Some?
    ensures LastDisturbance(ds).Some? ==> LastDisturbance(ds).value.uEnd == LastDisturbance(ds').value.uEnd
  {
    SameFactsSameOngoing(ds, ds');
    SameFactsSameEnded(ds, ds');
    var ongoing, ended := LatestOngoing(ds), LatestEnded(ds);
    assert ongoing.Some? ==> Facts(ds[ongoing.value]) == Facts(ds'[ongoing.value]);
    assert ended.Some? ==> Facts(ds[ended.value]) == Facts(ds'[ended.value]);
  }

  /** A status with the current time. */
  lemma AddedAlike(r: Record, u: Record, s: Status, t: int)
    requires Good(r, t) && SameFacts(r.disturbances, u.disturbances)
    ensures SameFacts(AddTo(r, s).disturbances, AddUnchecked(u, s).disturbances)
  {
    DroppingIsHarmlessIff(r, s);
    LifecycleRespectsFacts(r.disturbances, u.disturbances, s);
    SameFactsTransitive(AddTo(r, s).disturbances, AddUnchecked(r, s).disturbances, AddUnchecked(u, s).disturbances);
  }

  lemma {:induction false} StartedAlike(r: Record, u: Record, i: nat, earliest: int, t: int, now: int)
    requires Good(r, t) && t < now && ModeOf(r.disturbances).Clear? && SameFacts(r.disturbances, u.disturbances)
    requires LastDisturbance(r.disturbances).Some?
    ensures LastDisturbance(u.disturbances).Some?
    ensures SameFacts(Started(r, i, earliest, now).disturbances, StartedUnchecked(u, i, earliest, now).disturbances)
  {
    SameFactsSameDecisions(r.disturbances, u.disturbances);
    var confirm := Confirmation(r, i, earliest, now);
    assert confirm == Confirmation(u, i, earliest, now);
    if StartsEarlier(r, earliest, now) {
      var begin := Community(i, earliest, true, BEGIN_TEXT);
      TextsDiffer();
      ConfirmAfterBackdated(r, begin, confirm, t);
      LifecycleRespectsFacts(r.disturbances, u.disturbances, begin);
      LifecycleRespectsFacts(AddTo(r, begin).disturbances, AddUnchecked(u, begin).disturbances, confirm);
    } else {
      AddedAlike(r, u, confirm, t);
    }
  }

  ghost predicate Alike(st: State, su: State) {
    && st.reports == su.reports && st.thresholds == su.thresholds && st.clock == su.clock && |st.lines| == |su.lines|
    && forall i {:trigger st.lines[i]} :: 0 <= i < |st.lines| ==>
         SameFacts(st.lines[i].disturbances, su.lines[i].disturbances)
  }

  lemma EvaluateLineAlike(st: State, su: State, i: nat, tick: Clock)
    requires Ticking(tick) && Inv(st) && Alike(st, su) && i < |st.lines|
    ensures Alike(EvaluateLine(st, i, tick), EvaluateLineUnchecked(su, i, tick))
  {
    var r, u := st.lines[i], su.lines[i];
    SameFactsSameDecisions(r.disturbances, u.disturbances);
    assert Good(r, st.clock);
    var now := tick(st.clock);
    match ModeOf(r.disturbances)
    case Clear =>
      if st.reports != [] && LastDisturbance(r.disturbances).Some? {
        StartedAlike(r, u, i, EarliestTime(st.reports), st.clock, now);
      }
    case Official =>
    case Unofficial => AddedAlike(r, u, Solved(i, now), st.clock);
  }

  lemma {:induction false} EvaluateAlike(st: State, su: State, i: nat, tick: Clock)
    requires Ticking(tick) && Inv(st) && Alike(st, su) && i <= |st.lines|
    ensures Alike(EvaluateFrom(st, i, tick), EvaluateUncheckedFrom(su, i, tick))
    decreases |st.lines| - i
  {
    if i < |st.lines| {
      EvaluateLineAlike(st, su, i, tick);
      EvaluateLineQuiets(st, i, tick);
      EvaluateAlike(EvaluateLine(st, i, tick), EvaluateLineUnchecked(su, i, tick), i + 1, tick);
    }
  }

  lemma TakeAlike(st: State, su: State, step: Step, tick: Clock)
    requires Ticking(tick) && Inv(st) && Alike(st, su)
    ensures Alike(Take(st, step, tick), TakeUnchecked(su, step, tick))
  {
    match step
    case Observe(line, downtime, text, official) =>
      if line < |st.lines| {
        assert Good(st.lines[line], st.clock);
        AddedAlike(st.lines[line], su.lines[line], Status(line, tick(st.clock), downtime, text, official), st.clock);
      }
    case Evaluation => EvaluateAlike(st, su, 0, tick);
    case _ =>
  }

  lemma {:induction false} RunAlike(st: State, su: State, steps: seq<Step>, tick: Clock)
    requires Ticking(tick) && Inv(st) && Alike(st, su)
    ensures Alike(Run(st, steps, tick), RunUnchecked(su, steps, tick))
    decreases |steps|
  {
    if steps != [] {
      var front := steps[..|steps| - 1];
      RunAlike(st, su, front, tick);
      RunKeepsInv(st, front, tick);
      TakeAlike(Run(st, front, tick), RunUnchecked(su, front, tick), steps[|steps| - 1], tick);
    }
  }

  /** Over every run, back-dated starts included, the rows with and without the duplicate check hold
      the same intervals and flags, and so every vote has the same effect. */
  lemma CheckIsHarmless(thresholds: seq<int>, clock: int, steps: seq<Step>, tick: Clock, line: nat)
    requires Ticking(tick) && line < |thresholds|
    ensures var start := Initial(thresholds, clock);
            SameFacts(Run(start, steps, tick).lines[line].disturbances,
                      RunUnchecked(start, steps, tick).lines[line].disturbances)
  {
    InitialInv(thresholds, clock);
    RunAlike(Initial(thresholds, clock), Initial(thresholds, clock), steps, tick);
  }
}
