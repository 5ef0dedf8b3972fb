/** What AddStatus computes over whole status histories. */
module Histories {
  import opened Wrappers
  import opened Lines

  /** Adding the newest status once more would leave the line in the mode it is in. */
  predicate StableLast(r: Record) {
    var last := LastStatus(r.log);
    last.Some? ==> Next(ModeOf(r.disturbances), last.value) == ModeOf(r.disturbances)
  }

  /** What holds of a line's rows at time t, after every run. */
  ghost predicate Good(r: Record, t: int) {
    && WellFormed(r.disturbances)
    && AllHappenedBy(r.disturbances, t)
    && (forall s :: s in r.log ==> s.time <= t)
    && StableLast(r)
  }

  lemma GoodLater(r: Record, t: int, t': int)
    requires Good(r, t) && t <= t'
    ensures Good(r, t')
  {
    HappenedLater(r.disturbances, t, t');
  }

  lemma NewestIsLast(log: seq<Status>, s: Status)
    requires forall s' :: s' in log ==> s'.time <= s.time
    ensures LastStatus(log + [s]) == Some(s)
  {
    assert (log + [s])[..|log|] == log;
    LastStatusIsLatest(log);
  }

  /** A status with the current time: the invariant holds again, the line is in the mode of the
      reference machine, and from now on the line is disturbed exactly when the mode says so. */
  lemma AddToKeepsGood(r: Record, s: Status, now: int)
    requires Good(r, now) && now < s.time
    ensures Good(AddTo(r, s), s.time)
    ensures ModeOf(AddTo(r, s).disturbances) == Next(ModeOf(r.disturbances), s)
  {
    GoodLater(r, now, s.time);
    if !Duplicate(r.log, s) {
      LifecycleKeepsWellFormed(r.disturbances, s, now);
      NewestIsLast(r.log, s);
    }
  }

  lemma AddToCoverage(r: Record, s: Status, now: int, t: int)
    requires Good(r, now) && now < s.time
    ensures DisturbedAt(AddTo(r, s).disturbances, t)
            <==> if t < s.time then DisturbedAt(r.disturbances, t) else !Next(ModeOf(r.disturbances), s).Clear?
    ensures OfficiallyDisturbedAt(AddTo(r, s).disturbances, t)
            <==> if t < s.time then OfficiallyDisturbedAt(r.disturbances, t)
                 else Next(ModeOf(r.disturbances), s).Official?
  {
    if !Duplicate(r.log, s) {
      LifecycleCoverage(r.disturbances, s, now, t);
    } else if s.time <= t {
      GoodLater(r, now, t);
      ModeCovers(r.disturbances, t);
    }
  }

  // ----- Histories on a strictly increasing clock -----

  ghost predicate Increasing(h: seq<Status>) {
    forall i, j :: 0 <= i < j < |h| ==> h[i].time < h[j].time
  }

  function Replay(h: seq<Status>): Record {
    if h == [] then Record([], []) else AddTo(Replay(h[..|h| - 1]), h[|h| - 1])
  }

  function ReplayUnchecked(h: seq<Status>): Record {
    if h == [] then Record([], []) else AddUnchecked(ReplayUnchecked(h[..|h| - 1]), h[|h| - 1])
  }

  /** The mode the reference machine is in at instant t, having read the statuses up to t. */
  function ModeAt(h: seq<Status>, t: int): Mode {
    if h == [] then Clear
    else
      var earlier := ModeAt(h[..|h| - 1], t);
      if h[|h| - 1].time <= t then Next(earlier, h[|h| - 1]) else earlier
  }

  ghost function EndOf(h: seq<Status>): int {
    if h == [] then UNSET_TIME else h[|h| - 1].time
  }

  lemma {:induction false} ReplayIsGood(h: seq<Status>)
    requires Increasing(h)
    ensures Good(Replay(h), EndOf(h))
    ensures ModeOf(Replay(h).disturbances) == ModeAt(h, EndOf(h))
    decreases |h|
  {
    if h != [] {
      var h', s := h[..|h| - 1], h[|h| - 1];
      ReplayIsGood(h');
      if h' != [] {
        ModeAtSettles(h', EndOf(h'), s.time);
        AddToKeepsGood(Replay(h'), s, EndOf(h'));
      } else {
        AddToKeepsGood(Record([], []), s, s.time - 1);
      }
    }
  }

  lemma {:induction false} ModeAtSettles(h: seq<Status>, t: int, t': int)
    requires t <= t' && forall i :: 0 <= i < |h| ==> h[i].time <= t
    ensures ModeAt(h, t) == ModeAt(h, t')
    decreases |h|
  {
    if h != [] {
      ModeAtSettles(h[..|h| - 1], t, t');
    }
  }

  /** The disturbances AddStatus records say of every instant what the reference machine says. */
  lemma {:induction false} HistoryMeaning(h: seq<Status>, t: int)
    requires Increasing(h)
    ensures DisturbedAt(Replay(h).disturbances, t) <==> !ModeAt(h, t).Clear?
    ensures OfficiallyDisturbedAt(Replay(h).disturbances, t) <==> ModeAt(h, t).Official?
    decreases |h|
  {
    if h != [] {
      var h', s := h[..|h| - 1], h[|h| - 1];
      HistoryMeaning(h', t);
      ReplayIsGood(h');
      if h' != [] {
        AddToCoverage(Replay(h'), s, EndOf(h'), t);
        if s.time <= t {
          ModeAtSettles(h', EndOf(h'), t);
        }
      } else {
        AddToCoverage(Record([], []), s, s.time - 1, t);
      }
    }
  }

  // ----- Leaving out duplicates -----

  /** A disturbance without the list of statuses that shaped it. */
  function Facts(d: Disturbance): Disturbance {
    d.(statuses := [])
  }

  ghost predicate SameFacts(ds: seq<Disturbance>, ds': seq<Disturbance>) {
    |ds| == |ds'| && forall i :: 0 <= i < |ds| ==> Facts(ds[i]) == Facts(ds'[i])
  }

  lemma {:induction false} SameFactsSameOngoing(ds: seq<Disturbance>, ds': seq<Disturbance>)
    requires SameFacts(ds, ds')
    ensures LatestOngoing(ds) == LatestOngoing(ds')
    decreases |ds|
  {
    if ds != [] {
      var n := |ds| - 1;
      assert Facts(ds[n]) == Facts(ds'[n]);
      SameFactsSameOngoing(ds[..n], ds'[..n]);
      var at := LatestOngoing(ds[..n]);
      assert at.Some? ==> Facts(ds[at.value]) == Facts(ds'[at.value]);
    }
  }

  lemma LifecycleRespectsFacts(ds: seq<Disturbance>, ds': seq<Disturbance>, s: Status)
    requires SameFacts(ds, ds')
    ensures SameFacts(Lifecycle(ds, s), Lifecycle(ds', s))
  {
    SameFactsSameOngoing(ds, ds');
    var at := LatestOngoing(ds);
    if at.Some? {
      var d, d' := ds[at.value], ds'[at.value];
      assert Facts(d) == Facts(d');
      assert Facts(Updated(d, s)) == Facts(Updated(d', s));
    }
  }

  /** A status changes some interval or flag exactly when it changes the mode. */
  lemma {:induction false} NoEffectIff(ds: seq<Disturbance>, s: Status)
    ensures SameFacts(Lifecycle(ds, s), ds) <==> Next(ModeOf(ds), s) == ModeOf(ds)
  {
    var at := LatestOngoing(ds);
    if at.Some? {
      var d, d' := ds[at.value], Lifecycle(ds, s)[at.value];
      assert Facts(d) == Facts(d') <==> Next(ModeOf(ds), s) == ModeOf(ds);
    }
  }

  /** Dropping a duplicate is harmless exactly when the newest status is already in effect. */
  lemma {:induction false} DroppingIsHarmlessIff(r: Record, s: Status)
    ensures SameFacts(AddTo(r, s).disturbances, AddUnchecked(r, s).disturbances)
            <==> (Duplicate(r.log, s) ==> StableLast(r))
  {
    NoEffectIff(r.disturbances, s);
  }

  /** On an increasing clock the duplicate check never changes an interval or a flag. */
  lemma {:induction false} DuplicatesAreHarmless(h: seq<Status>)
    requires Increasing(h)
    ensures SameFacts(Replay(h).disturbances, ReplayUnchecked(h).disturbances)
    decreases |h|
  {
    if h != [] {
      var h', s := h[..|h| - 1], h[|h| - 1];
      DuplicatesAreHarmless(h');
      ReplayIsGood(h');
      DroppingIsHarmlessIff(Replay(h'), s);
      LifecycleRespectsFacts(Replay(h').disturbances, ReplayUnchecked(h').disturbances, s);
      SameFactsTransitive(AddTo(Replay(h'), s).disturbances, AddUnchecked(Replay(h'), s).disturbances,
                          ReplayUnchecked(h).disturbances);
    }
  }

  lemma SameFactsTransitive(ds: seq<Disturbance>, ds': seq<Disturbance>, ds'': seq<Disturbance>)
    requires SameFacts(ds, ds') && SameFacts(ds', ds'')
    ensures SameFacts(ds, ds'')
  {
    forall i | 0 <= i < |ds|
      ensures Facts(ds[i]) == Facts(ds''[i])
    {
      assert Facts(ds[i]) == Facts(ds'[i]) && Facts(ds'[i]) == Facts(ds''[i]);
    }
  }

  const EARLY := Status(0, 10, true, "problems", false)
  const SOLVED := Status(0, 20, false, "solved", false)
  const LATE := Status(0, 15, true, "problems", false)
  const SOLVED_AGAIN := Status(0, 25, false, "solved", false)

  lemma ReplayOneMore(h: seq<Status>, s: Status)
    ensures Replay(h + [s]) == AddTo(Replay(h), s)
    ensures ReplayUnchecked(h + [s]) == AddUnchecked(ReplayUnchecked(h), s)
  {
    assert (h + [s])[..|h|] == h;
  }

  lemma UntilLate()
    ensures var r := Record([EARLY, SOLVED, LATE],
                            [Opened(EARLY).(uEnd := 20, uEnded := true, statuses := [EARLY, SOLVED]), Opened(LATE)]);
            Replay([EARLY, SOLVED, LATE]) == r == ReplayUnchecked([EARLY, SOLVED, LATE])
  {
    var d := Opened(EARLY);
    var e := d.(uEnd := 20, uEnded := true, statuses := [EARLY, SOLVED]);
    assert [EARLY] == [] + [EARLY] && [EARLY, SOLVED] == [EARLY] + [SOLVED];
    assert [EARLY, SOLVED, LATE] == [EARLY, SOLVED] + [LATE] && d.statuses + [SOLVED] == [EARLY, SOLVED];
    ReplayOneMore([], EARLY);
    ReplayOneMore([EARLY], SOLVED);
    ReplayOneMore([EARLY, SOLVED], LATE);
    assert Replay([EARLY]) == Record([EARLY], [d]);
    assert LatestOngoing([d]) == Some(0) && LatestOngoing([e]) == None;
    assert [d][0 := e] == [e];
  }

  /** A status that arrives late can make the check drop an all-clear that was needed. */
  lemma LateStatusBreaksTheCheck()
    ensures var h := [EARLY, SOLVED, LATE, SOLVED_AGAIN];
            ModeOf(Replay(h).disturbances).Unofficial? && ModeOf(ReplayUnchecked(h).disturbances).Clear?
  {
    UntilLate();
    ReplayOneMore([EARLY, SOLVED, LATE], SOLVED_AGAIN);
    assert [EARLY, SOLVED, LATE] + [SOLVED_AGAIN] == [EARLY, SOLVED, LATE, SOLVED_AGAIN];
    var ds := Replay([EARLY, SOLVED, LATE]).disturbances;
    assert LatestOngoing(ds[..1]) == None && LatestOngoing(ds) == Some(1);
    assert [EARLY, SOLVED, LATE][..2] == [EARLY, SOLVED] && [EARLY, SOLVED][..1] == [EARLY];
    assert LastStatus([EARLY]) == Some(EARLY) && LastStatus([EARLY, SOLVED]) == Some(SOLVED);
    assert LastStatus([EARLY, SOLVED, LATE]) == Some(SOLVED);
    var ds' := Lifecycle(ds, SOLVED_AGAIN);
    assert ds'[..1] == [ds'[0]] && ds'[0].uEnded && ds'[1].uEnded;
  }
}
