/** What ends up in the log of a line (types/line.go, AddStatus): what was said, less what repeats it;
    and what a disturbance says of the statuses that made it. */
module StatusLogs {
  import opened Wrappers
  import opened Lines
  import opened Histories
  import opened Reports
  import opened Runs

  // ----- What is logged -----

  ghost predicate NoRepeats(log: seq<Status>) {
    forall i, j :: 0 <= i && j == i + 1 < |log| ==> !Agree(log[i], log[j])
  }

  /** The status says something that the one before it does not. */
  predicate IsNews(h: seq<Status>, i: nat)
    requires i < |h|
  {
    i > 0 ==> !Agree(h[i - 1], h[i])
  }

  ghost predicate ToldAsNews(h: seq<Status>, s: Status) {
    exists i :: 0 <= i < |h| && h[i] == s && IsNews(h, i)
  }

  /** The log is in order of time and holds the news of the history. */
  ghost predicate IsLogOf(log: seq<Status>, h: seq<Status>) {
    && Increasing(log) && NoRepeats(log)
    && (forall s :: s in log <==> ToldAsNews(h, s))
    && (log != [] <==> h != [])
    && (h != [] ==> Agree(log[|log| - 1], h[|h| - 1]) && log[|log| - 1].time <= h[|h| - 1].time)
  }

  lemma ToldMore(h: seq<Status>, s: Status, t: Status)
    ensures ToldAsNews(h + [s], t) <==> ToldAsNews(h, t) || (t == s && (h != [] ==> !Agree(h[|h| - 1], s)))
  {
    var more := h + [s];
    assert forall i :: 0 <= i < |h| ==> more[i] == h[i] && (IsNews(more, i) <==> IsNews(h, i));
    assert more[|h|] == s && (IsNews(more, |h|) <==> (h != [] ==> !Agree(h[|h| - 1], s)));
  }

  lemma LogOneMore(log: seq<Status>, h: seq<Status>, s: Status)
    requires IsLogOf(log, h) && Increasing(h + [s])
    ensures IsLogOf(if h != [] && Agree(h[|h| - 1], s) then log else log + [s], h + [s])
  {
    forall t
      ensures ToldAsNews(h + [s], t) <==> ToldAsNews(h, t) || (t == s && (h != [] ==> !Agree(h[|h| - 1], s)))
    {
      ToldMore(h, s, t);
    }
    if h != [] {
      assert (h + [s])[|h| - 1].time < (h + [s])[|h|].time;
    }
  }

  /** A status is added to the log exactly if it is news, and otherwise has no effect at all. */
  lemma AddedIffNews(r: Record, h: seq<Status>, s: Status)
    requires IsLogOf(r.log, h)
    ensures if h != [] && Agree(h[|h| - 1], s) then AddTo(r, s) == r && Notices(r, s, true) == []
            else AddTo(r, s) == AddUnchecked(r, s)
  {
    LastStatusIsLatest(r.log);
    if h != [] {
      var n := |r.log| - 1;
      assert r.log[n] in r.log;
      assert LastStatus(r.log) == Some(r.log[n]);
    }
  }

  /** After every increasing history the log holds, in order, exactly the statuses that do not repeat
      the one before; so no two neighbours agree. */
  lemma {:induction false} LogsAreNews(h: seq<Status>)
    requires Increasing(h)
    ensures IsLogOf(Replay(h).log, h)
    decreases |h|
  {
    if h != [] {
      var h', s := h[..|h| - 1], h[|h| - 1];
      var r := Replay(h');
      assert h == h' + [s];
      LogsAreNews(h');
      ReplayOneMore(h', s);
      assert Replay(h).log == if h' != [] && Agree(h'[|h'| - 1], s) then r.log else r.log + [s] by {
        AddedIffNews(r, h', s);
      }
      LogOneMore(r.log, h', s);
    }
  }

  /** After every increasing history a status has no effect at all exactly if it repeats the one before. */
  lemma {:induction false} RepeatsHaveNoEffectIff(h: seq<Status>, s: Status)
    requires Increasing(h)
    ensures AddTo(Replay(h), s) == Replay(h) <==> h != [] && Agree(h[|h| - 1], s)
    ensures h != [] && Agree(h[|h| - 1], s) ==> Notices(Replay(h), s, true) == []
  {
    LogsAreNews(h);
    AddedIffNews(Replay(h), h, s);
    assert AddUnchecked(Replay(h), s).log != Replay(h).log;
  }

  // ----- What a disturbance says of its statuses -----

  predicate OfficialDowntime(s: Status) {
    s.downtime && s.official
  }

  /** The first of the statuses that make a disturbance official. */
  ghost predicate IsPromotion(statuses: seq<Status>, i: nat) {
    i < |statuses| && OfficialDowntime(statuses[i]) && forall j :: 0 <= j < i ==> !OfficialDowntime(statuses[j])
  }

  ghost predicate NeverOfficial(statuses: seq<Status>) {
    forall i :: 0 <= i < |statuses| ==> !OfficialDowntime(statuses[i])
  }

  /** The disturbance starts with its first status, turns official with the first official downtime, and
      ends with its last status if that is an all-clear from a source of its own kind. */
  ghost predicate IsTold(d: Disturbance) {
    && d.statuses != []
    && var first, last := d.statuses[0], d.statuses[|d.statuses| - 1];
    && first.downtime && d.uStart == first.time && d.description == first.text
    && (!d.official ==> NeverOfficial(d.statuses) && d.oStart == UNSET_TIME)
    && (d.official ==> exists i: nat :: IsPromotion(d.statuses, i) && d.oStart == d.statuses[i].time)
    && (d.uEnded <==> !last.downtime && last.official == d.official)
    && d.uEnd == (if d.uEnded then last.time else UNSET_TIME)
    && d.oEnded == (d.uEnded && d.official)
    && d.oEnd == if d.oEnded then last.time else UNSET_TIME
  }

  ghost predicate AllTold(ds: seq<Disturbance>) {
    forall i :: 0 <= i < |ds| ==> IsTold(ds[i])
  }

  lemma UpdatedIsTold(d: Disturbance, s: Status)
    requires IsTold(d) && !d.uEnded
    ensures IsTold(Updated(d, s))
  {
    var d' := Updated(d, s);
    if !Ignored(d, s) {
      var was, now, n := d.statuses, d'.statuses, |d.statuses|;
      assert now == was + [s] && forall j :: 0 <= j < n ==> now[j] == was[j];
      if d.official {
        var i: nat :| IsPromotion(was, i) && d.oStart == was[i].time;
        assert IsPromotion(now, i) && d'.oStart == now[i].time;
      } else if OfficialDowntime(s) {
        assert IsPromotion(now, n) && d'.oStart == now[n].time;
      }
    }
  }

  lemma OpenedIsTold(s: Status)
    requires s.downtime
    ensures IsTold(Opened(s))
  {
    if s.official {
      assert IsPromotion([s], 0);
    }
  }

  lemma LifecycleIsTold(ds: seq<Disturbance>, s: Status)
    requires AllTold(ds)
    ensures AllTold(Lifecycle(ds, s))
  {
    var at := LatestOngoing(ds);
    if at.Some? {
      UpdatedIsTold(ds[at.value], s);
    } else if s.downtime {
      OpenedIsTold(s);
    }
  }

  /** After any history, in whatever order the statuses are dated, every disturbance on record is what its
      own statuses make of it. */
  lemma {:induction false} HistoriesAreTold(h: seq<Status>)
    ensures AllTold(Replay(h).disturbances)
    decreases |h|
  {
    if h != [] {
      HistoriesAreTold(h[..|h| - 1]);
      LifecycleIsTold(Replay(h[..|h| - 1]).disturbances, h[|h| - 1]);
    }
  }

  // ----- Which statuses a disturbance lists -----

  /** The statuses of all disturbances, one after another. */
  function Listed(ds: seq<Disturbance>): seq<Status> {
    if ds == [] then [] else Listed(ds[..|ds| - 1]) + ds[|ds| - 1].statuses
  }

  /** A line that is not disturbed takes no all-clears, and one that is disturbed unofficially no official ones. */
  predicate Matters(m: Mode, s: Status) {
    s.downtime || m.Official? || (m.Unofficial? && !s.official)
  }

  lemma ListedMore(ds: seq<Disturbance>, s: Status)
    requires WellFormed(ds)
    ensures Listed(Lifecycle(ds, s)) == Listed(ds) + if Matters(ModeOf(ds), s) then [s] else []
  {
    OngoingIsNewest(ds);
    var ds', n := Lifecycle(ds, s), |ds|;
    if LatestOngoing(ds).Some? {
      assert ds'[..n - 1] == ds[..n - 1];
      assert ds[n - 1].statuses + [] == ds[n - 1].statuses;
    } else if s.downtime {
      assert ds'[..n] == ds;
    }
  }

  /** The statuses of a history that bear on the line's disturbances: the news that matter to the mode
      the line is in. */
  function Effective(h: seq<Status>): seq<Status> {
    if h == [] then []
    else
      var n := |h| - 1;
      Effective(h[..n]) + if IsNews(h, n) && Matters(ModeAt(h[..n], h[n].time), h[n]) then [h[n]] else []
  }

  /** After every increasing history the disturbances list, in order, exactly these. */
  lemma {:induction false} ListedIsEffective(h: seq<Status>)
    requires Increasing(h)
    ensures Listed(Replay(h).disturbances) == Effective(h)
    decreases |h|
  {
    if h != [] {
      var h', s := h[..|h| - 1], h[|h| - 1];
      ListedIsEffective(h');
      LogsAreNews(h');
      AddedIffNews(Replay(h'), h', s);
      ReplayIsGood(h');
      ListedMore(Replay(h').disturbances, s);
      if h' != [] {
        ModeAtSettles(h', EndOf(h'), s.time);
      }
    }
  }

  // ----- Over every run, votes included -----

  /** Nothing is logged twice in a row, the newest status was logged last, and disturbances are what
      their statuses make of them. */
  ghost predicate Tidy(r: Record) {
    && NoRepeats(r.log) && (r.log != [] ==> LastStatus(r.log) == Some(r.log[|r.log| - 1]))
    && AllTold(r.disturbances)
  }

  lemma LoggedIsTidy(r: Record, s: Status)
    requires Tidy(r) && forall t :: t in r.log ==> t.time <= s.time
    ensures Tidy(AddTo(r, s))
  {
    LifecycleIsTold(r.disturbances, s);
    NewestIsLast(r.log, s);
  }

  lemma BackdatedIsLogged(r: Record, begin: Status, confirm: Status, t: int)
    requires Good(r, t) && ModeOf(r.disturbances).Clear? && LastDisturbance(r.disturbances).Some?
    requires begin.downtime && !begin.official && LastDisturbance(r.disturbances).value.uEnd < begin.time
    requires confirm.downtime && !confirm.official && confirm.text != begin.text
    requires t < confirm.time && begin.time < confirm.time
    ensures AddTo(AddTo(r, begin), confirm) == AddUnchecked(AddUnchecked(r, begin), confirm)
    ensures LastStatus(r.log + [begin] + [confirm]) == Some(confirm)
  {
    ConfirmAfterBackdated(r, begin, confirm, t);
    NewestIsLast(r.log + [begin], confirm);
  }

  lemma BackdatedIsTidy(r: Record, begin: Status, confirm: Status, t: int)
    requires Good(r, t) && ModeOf(r.disturbances).Clear? && LastDisturbance(r.disturbances).Some? && Tidy(r)
    requires begin.downtime && !begin.official && LastDisturbance(r.disturbances).value.uEnd < begin.time
    requires confirm.downtime && !confirm.official && confirm.text != begin.text
    requires t < confirm.time && begin.time < confirm.time
    ensures Tidy(AddTo(AddTo(r, begin), confirm))
  {
    BackdatedIsLogged(r, begin, confirm, t);
    LifecycleIsTold(r.disturbances, begin);
    LifecycleIsTold(Lifecycle(r.disturbances, begin), confirm);
    assert NoRepeats(r.log + [begin] + [confirm]) by {
      assert r.log != [] ==> !r.log[|r.log| - 1].downtime;
    }
  }

  lemma StartIsTidy(r: Record, i: nat, earliest: int, t: int, now: int)
    requires Good(r, t) && t < now && ModeOf(r.disturbances).Clear? && LastDisturbance(r.disturbances).Some?
    requires Tidy(r)
    ensures Tidy(Started(r, i, earliest, now))
  {
    var confirm := Confirmation(r, i, earliest, now);
    if StartsEarlier(r, earliest, now) {
      TextsDiffer();
      BackdatedIsTidy(r, Community(i, earliest, true, BEGIN_TEXT), confirm, t);
    } else {
      LoggedIsTidy(r, confirm);
    }
  }

  ghost predicate AllTidy(st: State) {
    forall i {:trigger Tidy(st.lines[i])} :: 0 <= i < |st.lines| ==> Tidy(st.lines[i])
  }

  lemma TidyAfterLine(st: State, st': State, i: nat)
    requires AllTidy(st) && i < |st.lines| && SameButLine(st, st', i) && Tidy(st'.lines[i])
    ensures AllTidy(st')
  {
    forall j | 0 <= j < |st'.lines|
      ensures Tidy(st'.lines[j])
    {
      assert Tidy(st.lines[j]);
    }
  }

  lemma EvaluatedIsTidy(st: State, i: nat, tick: Clock)
    requires Ticking(tick) && Inv(st) && AllTidy(st) && i < |st.lines|
    ensures AllTidy(EvaluateLine(st, i, tick))
  {
    var r, now := st.lines[i], tick(st.clock);
    assert Good(r, st.clock) && Tidy(r);
    EvaluateLineQuiets(st, i, tick);
    match ModeOf(r.disturbances)
    case Clear =>
      if st.reports != [] && LastDisturbance(r.disturbances).Some? {
        StartIsTidy(r, i, EarliestTime(st.reports), st.clock, now);
      }
    case Official =>
    case Unofficial => LoggedIsTidy(r, Solved(i, now));
    TidyAfterLine(st, EvaluateLine(st, i, tick), i);
  }

  lemma {:induction false} EvaluationIsTidy(st: State, i: nat, tick: Clock)
    requires Ticking(tick) && Inv(st) && AllTidy(st) && i <= |st.lines|
    ensures AllTidy(EvaluateFrom(st, i, tick))
    decreases |st.lines| - i
  {
    if i < |st.lines| {
      EvaluatedIsTidy(st, i, tick);
      EvaluateLineQuiets(st, i, tick);
      EvaluationIsTidy(EvaluateLine(st, i, tick), i + 1, tick);
    }
  }

  lemma StepIsTidy(st: State, step: Step, tick: Clock)
    requires Ticking(tick) && Inv(st) && AllTidy(st)
    ensures AllTidy(Take(st, step, tick))
  {
    match step
    case Observe(line, downtime, text, official) =>
      if line < |st.lines| {
        assert Good(st.lines[line], st.clock) && Tidy(st.lines[line]);
        LoggedIsTidy(st.lines[line], Status(line, tick(st.clock), downtime, text, official));
        TidyAfterLine(st, Take(st, step, tick), line);
      }
    case Evaluation => EvaluationIsTidy(st, 0, tick);
    case _ => assert forall i :: 0 <= i < |st.lines| ==> Tidy(st.lines[i]);
  }

  /** Over every run, back-dated starts included, no two neighbours in a log agree, and every disturbance
      is what its statuses make of it. */
  lemma {:induction false} RunsAreTidy(thresholds: seq<int>, clock: int, steps: seq<Step>, tick: Clock)
    requires Ticking(tick)
    ensures AllTidy(Run(Initial(thresholds, clock), steps, tick))
    decreases |steps|
  {
    if steps != [] {
      var front := steps[..|steps| - 1];
      RunsAreTidy(thresholds, clock, front, tick);
      InitialInv(thresholds, clock);
      RunKeepsInv(Initial(thresholds, clock), front, tick);
      StepIsTidy(Run(Initial(thresholds, clock), front, tick), steps[|steps| - 1], tick);
    }
  }
}
