/** The disturbance life cycle of a line (types/line.go): statuses arrive, disturbances open,
    become official and close. */
module Lines {
  import opened Wrappers

  /** What a time field holds before it is set. */
  const UNSET_TIME := 0

  datatype Status = Status(line: nat, time: int, downtime: bool, text: string, official: bool)

  datatype Disturbance = Disturbance(
    official: bool, oStart: int, oEnd: int, oEnded: bool,
    uStart: int, uEnd: int, uEnded: bool,
    description: string, statuses: seq<Status>)

  /** The rows the database holds for one line, in the order they were inserted. */
  datatype Record = Record(log: seq<Status>, disturbances: seq<Disturbance>)

  datatype Notification = Notification(disturbance: Disturbance, status: Status)

  // ----- Queries -----

  /** The status with the latest time. */
  function LastStatus(log: seq<Status>): Option<Status> {
    if log == [] then None
    else
      var s, earlier := log[|log| - 1], LastStatus(log[..|log| - 1]);
      if earlier.Some? && s.time < earlier.value.time then earlier else Some(s)
  }

  lemma {:induction false} LastStatusIsLatest(log: seq<Status>)
    ensures LastStatus(log).None? <==> log == []
    ensures LastStatus(log).Some? ==> LastStatus(log).value in log
                                      && forall s :: s in log ==> s.time <= LastStatus(log).value.time
    decreases |log|
  {
    if log != [] {
      LastStatusIsLatest(log[..|log| - 1]);
    }
  }

  /** Where the ongoing disturbance with the latest start is: the last row of OngoingDisturbances. */
  function LatestOngoing(ds: seq<Disturbance>): (at: Option<nat>)
    ensures at.Some? ==> at.value < |ds| && !ds[at.value].uEnded
  {
    if ds == [] then None
    else
      var n := |ds| - 1;
      var earlier := LatestOngoing(ds[..n]);
      if ds[n].uEnded || (earlier.Some? && ds[n].uStart < ds[earlier.value].uStart) then earlier else Some(n)
  }

  lemma {:induction false} LatestOngoingIsLatest(ds: seq<Disturbance>)
    ensures match LatestOngoing(ds)
            case None => forall i :: 0 <= i < |ds| ==> ds[i].uEnded
            case Some(at) => forall i :: 0 <= i < |ds| && !ds[i].uEnded ==> ds[i].uStart <= ds[at].uStart
    decreases |ds|
  {
    if ds != [] {
      LatestOngoingIsLatest(ds[..|ds| - 1]);
    }
  }

  /** Where the ended disturbance with the latest end is. */
  function LatestEnded(ds: seq<Disturbance>): (at: Option<nat>)
    ensures at.Some? ==> at.value < |ds| && ds[at.value].uEnded
  {
    if ds == [] then None
    else
      var n := |ds| - 1;
      var earlier := LatestEnded(ds[..n]);
      if !ds[n].uEnded || (earlier.Some? && ds[n].uEnd < ds[earlier.value].uEnd) then earlier else Some(n)
  }

  lemma {:induction false} LatestEndedIsLatest(ds: seq<Disturbance>)
    ensures match LatestEnded(ds)
            case None => forall i :: 0 <= i < |ds| ==> !ds[i].uEnded
            case Some(at) => forall i :: 0 <= i < |ds| && ds[i].uEnded ==> ds[i].uEnd <= ds[at].uEnd
    decreases |ds|
  {
    if ds != [] {
      LatestEndedIsLatest(ds[..|ds| - 1]);
    }
  }

  /** The latest ongoing disturbance or, when there is none, the one that ended last. */
  function LastDisturbance(ds: seq<Disturbance>): Option<Disturbance> {
    match LatestOngoing(ds)
    case Some(i) => Some(ds[i])
    case None =>
      match LatestEnded(ds)
      case Some(i) => Some(ds[i])
      case None => None
  }

  // ----- What a status does to the disturbances -----

  predicate Duplicate(log: seq<Status>, s: Status) {
    var last := LastStatus(log);
    last.Some? && last.value.downtime == s.downtime && last.value.text == s.text
    && last.value.official == s.official
  }

  function Opened(s: Status): Disturbance {
    Disturbance(s.official, if s.official then s.time else UNSET_TIME, UNSET_TIME, false,
                s.time, UNSET_TIME, false, s.text, [s])
  }

  /** Official all-clears leave no trace in an unofficial disturbance. */
  predicate Ignored(d: Disturbance, s: Status) {
    !s.downtime && s.official && !d.official
  }

  /** The ongoing disturbance d after s, but for its list of statuses. */
  function Affected(d: Disturbance, s: Status): Disturbance {
    if s.downtime then
      if s.official && !d.official then d.(official := true, oStart := s.time) else d
    else if s.official != d.official then d
    else if s.official then d.(oEnd := s.time, oEnded := true, uEnd := s.time, uEnded := true)
    else d.(uEnd := s.time, uEnded := true)
  }

  function Updated(d: Disturbance, s: Status): Disturbance {
    if Ignored(d, s) then d else Affected(d, s).(statuses := d.statuses + [s])
  }

  function Lifecycle(ds: seq<Disturbance>, s: Status): seq<Disturbance> {
    match LatestOngoing(ds)
    case Some(i) => ds[i := Updated(ds[i], s)]
    case None => if s.downtime then ds + [Opened(s)] else ds
  }

  /** AddStatus without the duplicate check. */
  function AddUnchecked(r: Record, s: Status): Record {
    Record(r.log + [s], Lifecycle(r.disturbances, s))
  }

  function AddTo(r: Record, s: Status): Record {
    if Duplicate(r.log, s) then r else AddUnchecked(r, s)
  }

  /** The disturbance s is announced with, if it is. */
  function Announced(r: Record, s: Status): Option<Disturbance> {
    if Duplicate(r.log, s) then None
    else
      match LatestOngoing(r.disturbances)
      case Some(i) =>
        if Ignored(r.disturbances[i], s) then None else Some(Updated(r.disturbances[i], s))
      case None => if s.downtime then Some(Opened(s)) else None
  }

  /** The notifications s is sent out with. */
  function Notices(r: Record, s: Status, letNotify: bool): seq<Notification> {
    match Announced(r, s)
    case Some(d) => if letNotify then [Notification(d, s)] else []
    case None => []
  }

  /** What is announced is what is on record: where it is asked for, a status is sent out, once, exactly
      if it changed some disturbance, and with that disturbance as it now is. */
  lemma NoticesAreTrue(r: Record, s: Status)
    ensures Notices(r, s, false) == [] && |Notices(r, s, true)| <= 1
    ensures Notices(r, s, true) != [] <==> AddTo(r, s).disturbances != r.disturbances
    ensures forall n :: n in Notices(r, s, true) ==>
              n.status == s && s in n.disturbance.statuses && n.disturbance in AddTo(r, s).disturbances
  {
    var ds, at := r.disturbances, LatestOngoing(r.disturbances);
    if at.Some? && !Duplicate(r.log, s) {
      var d, d' := ds[at.value], Updated(ds[at.value], s);
      if !Ignored(d, s) {
        assert d'.statuses[|d.statuses|] == s;
        assert |d'.statuses| > |d.statuses|;
      }
      assert Lifecycle(ds, s)[at.value] == d';
    } else if s.downtime && !Duplicate(r.log, s) {
      assert Lifecycle(ds, s)[|ds|] == Opened(s);
    }
  }

  /** The statuses say the same, but for when and of which line. */
  predicate Agree(s: Status, t: Status) {
    s.(line := t.line, time := t.time) == t
  }

  ghost predicate IsNewest(log: seq<Status>, s: Status) {
    s in log && forall t :: t in log && t != s ==> t.time < s.time
  }

  /** A status that says what the newest one says has no effect at all. */
  lemma RepeatHasNoEffect(r: Record, s: Status, newest: Status)
    requires IsNewest(r.log, newest) && Agree(newest, s)
    ensures AddTo(r, s) == r && forall letNotify :: Notices(r, s, letNotify) == []
  {
    LastStatusIsLatest(r.log);
  }

  /** The database, and the channel that notifications are sent to. */
  class Node {
    var lines: seq<Record>
    var notifications: seq<Notification>

    constructor (lines: seq<Record>)
      ensures this.lines == lines && notifications == []
    {
      this.lines, notifications := lines, [];
    }

    method AddStatus(line: nat, status: Status, letNotify: bool) returns (r: Result<()>)
      requires line < |lines|
      modifies this
      ensures r.Failure? <==> status.line != line
      ensures r.Failure? ==> lines == old(lines) && notifications == old(notifications)
      ensures r.Success? ==> lines == old(lines)[line := AddTo(old(lines)[line], status)]
      ensures r.Success? ==> notifications == old(notifications) + Notices(old(lines)[line], status, letNotify)
      ensures forall newest :: IsNewest(old(lines)[line].log, newest) && Agree(newest, status) ==>
                lines == old(lines) && notifications == old(notifications)
    {
      if status.line != line {
        return Failure("The line of the status does not match the receiver line");
      }
      var log, ds := lines[line].log, lines[line].disturbances;
      forall newest | IsNewest(log, newest) && Agree(newest, status)
        ensures AddTo(lines[line], status) == lines[line] && Notices(lines[line], status, letNotify) == []
      {
        RepeatHasNoEffect(lines[line], status, newest);
      }
      var last := LastStatus(log);
      if last.None? || last.value.downtime != status.downtime || last.value.text != status.text
         || last.value.official != status.official {
        lines := lines[line := Record(log + [status], ds)];
      } else {
        return Success(());
      }
      var ongoing := LatestOngoing(ds);
      if ongoing.Some? {
        var disturbance := ds[ongoing.value];
        if !status.downtime {
          if status.official && !disturbance.official {
            assert ds[ongoing.value := disturbance] == ds;
            return Success(());
          }
        }
        disturbance := Include(disturbance, status);
        lines := lines[line := lines[line].(disturbances := ds[ongoing.value := disturbance])];
        if letNotify {
          notifications := notifications + [Notification(disturbance, status)];
        }
      } else if status.downtime {
        var disturbance := Disturbance(status.official, UNSET_TIME, UNSET_TIME, false,
                                       status.time, UNSET_TIME, false, status.text, [status]);
        if status.official {
          disturbance := disturbance.(oStart := status.time);
        }
        lines := lines[line := lines[line].(disturbances := ds + [disturbance])];
        if letNotify {
          notifications := notifications + [Notification(disturbance, status)];
        }
      }
      return Success(());
    }
  }

  /** Lets a status that is not ignored change the ongoing disturbance d. */
  method Include(d: Disturbance, status: Status) returns (disturbance: Disturbance)
    requires !Ignored(d, status)
    ensures disturbance == Updated(d, status)
  {
    disturbance := d;
    if !status.downtime {
      if !(!status.official && disturbance.official) {
        if status.official && disturbance.official {
          disturbance := disturbance.(oEnd := status.time, oEnded := true);
        }
        disturbance := disturbance.(uEnd := status.time, uEnded := true);
      }
    } else if !disturbance.official && status.official {
      disturbance := disturbance.(official := true, oStart := status.time);
    }
    disturbance := disturbance.(statuses := disturbance.statuses + [status]);
  }

  // ----- Reference: a line is clear, or disturbed unofficially, or disturbed officially -----

  datatype Mode = Clear | Unofficial | Official

  /** Only an all-clear from a source of the same kind ends a disturbance. */
  function Next(m: Mode, s: Status): Mode {
    if s.downtime then if s.official || m.Official? then Official else Unofficial
    else if s.official then if m.Official? then Clear else m
    else if m.Unofficial? then Clear else m
  }

  function ModeOf(ds: seq<Disturbance>): Mode {
    match LatestOngoing(ds)
    case Some(i) => if ds[i].official then Official else Unofficial
    case None => Clear
  }

  // ----- The invariant of every run -----

  predicate WellFormedDisturbance(d: Disturbance) {
    && (d.uEnded ==> d.uStart < d.uEnd)
    && (d.official ==> d.uStart <= d.oStart && d.oEnded == d.uEnded)
    && (d.oEnded ==> d.official && d.oEnd == d.uEnd && d.oStart < d.oEnd)
  }

  /** Each disturbance ends before the next one starts; so at most the newest is ongoing. */
  ghost predicate WellFormed(ds: seq<Disturbance>) {
    && (forall i :: 0 <= i < |ds| ==> WellFormedDisturbance(ds[i]))
    && (forall i, j :: 0 <= i < j < |ds| ==> ds[i].uEnded && ds[i].uEnd < ds[j].uStart)
  }

  /** Everything recorded about d happened at time t or earlier. */
  predicate HappenedBy(d: Disturbance, t: int) {
    d.uStart <= t && (d.uEnded ==> d.uEnd <= t) && (d.official ==> d.oStart <= t)
  }

  ghost predicate AllHappenedBy(ds: seq<Disturbance>, t: int) {
    forall i :: 0 <= i < |ds| ==> HappenedBy(ds[i], t)
  }

  predicate Going(d: Disturbance, t: int) {
    d.uStart <= t && (d.uEnded ==> t < d.uEnd)
  }

  predicate OfficiallyGoing(d: Disturbance, t: int) {
    d.official && d.oStart <= t && (d.oEnded ==> t < d.oEnd)
  }

  ghost predicate DisturbedAt(ds: seq<Disturbance>, t: int) {
    exists i :: 0 <= i < |ds| && Going(ds[i], t)
  }

  ghost predicate OfficiallyDisturbedAt(ds: seq<Disturbance>, t: int) {
    exists i :: 0 <= i < |ds| && OfficiallyGoing(ds[i], t)
  }

  lemma OngoingIsNewest(ds: seq<Disturbance>)
    requires WellFormed(ds)
    ensures LatestOngoing(ds) ==
            if ds != [] && !ds[|ds| - 1].uEnded then Some(|ds| - 1) else None
    ensures LatestOngoing(ds).None? ==> forall i :: 0 <= i < |ds| ==> ds[i].uEnded
  {
    LatestOngoingIsLatest(ds);
  }

  lemma LastEndedIsNewest(ds: seq<Disturbance>)
    requires WellFormed(ds) && ModeOf(ds).Clear?
    ensures LastDisturbance(ds) == if ds == [] then None else Some(ds[|ds| - 1])
  {
    OngoingIsNewest(ds);
    LatestEndedIsLatest(ds);
  }

  /** An ongoing disturbance may change in every way but its start. */
  lemma ReplaceNewest(ds: seq<Disturbance>, d: Disturbance, t: int, t': int)
    requires WellFormed(ds) && AllHappenedBy(ds, t) && t <= t' && ds != []
    requires WellFormedDisturbance(d) && HappenedBy(d, t') && d.uStart == ds[|ds| - 1].uStart
    ensures WellFormed(ds[|ds| - 1 := d]) && AllHappenedBy(ds[|ds| - 1 := d], t')
  {
    var ds' := ds[|ds| - 1 := d];
    forall i | 0 <= i < |ds'|
      ensures WellFormedDisturbance(ds'[i]) && HappenedBy(ds'[i], t')
    {
      assert i < |ds| - 1 ==> WellFormedDisturbance(ds[i]) && HappenedBy(ds[i], t);
    }
  }

  lemma AppendNewest(ds: seq<Disturbance>, d: Disturbance, t: int, t': int)
    requires WellFormed(ds) && AllHappenedBy(ds, t) && t < d.uStart && t <= t'
    requires forall i :: 0 <= i < |ds| ==> ds[i].uEnded
    requires WellFormedDisturbance(d) && HappenedBy(d, t')
    ensures WellFormed(ds + [d]) && AllHappenedBy(ds + [d], t')
  {
    var ds' := ds + [d];
    forall i | 0 <= i < |ds'|
      ensures WellFormedDisturbance(ds'[i]) && HappenedBy(ds'[i], t')
      ensures i < |ds| ==> ds'[i].uEnd < d.uStart
    {
      assert i < |ds| ==> WellFormedDisturbance(ds[i]) && HappenedBy(ds[i], t);
    }
  }

  lemma UpdatedIsWellFormed(d: Disturbance, s: Status, t: int)
    requires WellFormedDisturbance(d) && HappenedBy(d, t) && !d.uEnded && t < s.time
    ensures WellFormedDisturbance(Updated(d, s)) && HappenedBy(Updated(d, s), s.time)
    ensures Updated(d, s).uStart == d.uStart
  {
  }

  lemma HappenedLater(ds: seq<Disturbance>, t: int, t': int)
    requires AllHappenedBy(ds, t) && t <= t'
    ensures AllHappenedBy(ds, t')
  {
    forall i | 0 <= i < |ds|
      ensures HappenedBy(ds[i], t')
    {
      assert HappenedBy(ds[i], t);
    }
  }

  lemma LifecycleIsWellFormed(ds: seq<Disturbance>, s: Status, t: int)
    requires WellFormed(ds) && AllHappenedBy(ds, t) && t < s.time
    ensures WellFormed(Lifecycle(ds, s)) && AllHappenedBy(Lifecycle(ds, s), s.time)
  {
    OngoingIsNewest(ds);
    if LatestOngoing(ds).Some? {
      var d := ds[|ds| - 1];
      assert WellFormedDisturbance(d) && HappenedBy(d, t);
      UpdatedIsWellFormed(d, s, t);
      ReplaceNewest(ds, Updated(d, s), t, s.time);
    } else if s.downtime {
      AppendNewest(ds, Opened(s), t, s.time);
    } else {
      HappenedLater(ds, t, s.time);
    }
  }

  /** A status later than all that happened keeps the disturbances well formed and moves
      the line to the mode the reference machine moves to. */
  lemma {:induction false} LifecycleKeepsWellFormed(ds: seq<Disturbance>, s: Status, t: int)
    requires WellFormed(ds) && AllHappenedBy(ds, t) && t < s.time
    ensures WellFormed(Lifecycle(ds, s)) && AllHappenedBy(Lifecycle(ds, s), s.time)
    ensures ModeOf(Lifecycle(ds, s)) == Next(ModeOf(ds), s)
  {
    LifecycleIsWellFormed(ds, s, t);
    OngoingIsNewest(ds);
    OngoingIsNewest(Lifecycle(ds, s));
  }

  /** Once all that is recorded has happened, the line is disturbed exactly when its mode says so. */
  lemma {:induction false} ModeCovers(ds: seq<Disturbance>, t: int)
    requires WellFormed(ds) && AllHappenedBy(ds, t)
    ensures DisturbedAt(ds, t) <==> !ModeOf(ds).Clear?
    ensures OfficiallyDisturbedAt(ds, t) <==> ModeOf(ds).Official?
  {
    OngoingIsNewest(ds);
    if !ModeOf(ds).Clear? {
      assert Going(ds[|ds| - 1], t);
      assert ModeOf(ds).Official? ==> OfficiallyGoing(ds[|ds| - 1], t);
    }
  }

  lemma PastIsKept(ds: seq<Disturbance>, s: Status, now: int, t: int)
    requires WellFormed(ds) && AllHappenedBy(ds, now) && now < s.time && t < s.time
    ensures DisturbedAt(Lifecycle(ds, s), t) <==> DisturbedAt(ds, t)
    ensures OfficiallyDisturbedAt(Lifecycle(ds, s), t) <==> OfficiallyDisturbedAt(ds, t)
  {
    var ds' := Lifecycle(ds, s);
    assert |ds| <= |ds'| <= |ds| + 1;
    forall i | 0 <= i < |ds|
      ensures Going(ds[i], t) == Going(ds'[i], t)
      ensures OfficiallyGoing(ds[i], t) == OfficiallyGoing(ds'[i], t)
    {
    }
    assert |ds| < |ds'| ==> !Going(ds'[|ds|], t) && !OfficiallyGoing(ds'[|ds|], t);
  }

  /** The status rewrites no history, and from its own time on the line is disturbed
      exactly when its mode says so. */
  lemma LifecycleCoverage(ds: seq<Disturbance>, s: Status, now: int, t: int)
    requires WellFormed(ds) && AllHappenedBy(ds, now) && now < s.time
    ensures DisturbedAt(Lifecycle(ds, s), t)
            <==> if t < s.time then DisturbedAt(ds, t) else !Next(ModeOf(ds), s).Clear?
    ensures OfficiallyDisturbedAt(Lifecycle(ds, s), t)
            <==> if t < s.time then OfficiallyDisturbedAt(ds, t) else Next(ModeOf(ds), s).Official?
  {
    LifecycleKeepsWellFormed(ds, s, now);
    if t < s.time {
      PastIsKept(ds, s, now, t);
    } else {
      HappenedLater(Lifecycle(ds, s), s.time, t);
      ModeCovers(Lifecycle(ds, s), t);
    }
  }

  /** An official disturbance lasts no longer than the disturbance it is part of. */
  lemma OfficialIsDisturbed(ds: seq<Disturbance>, t: int)
    requires WellFormed(ds) && OfficiallyDisturbedAt(ds, t)
    ensures DisturbedAt(ds, t)
  {
    var i :| 0 <= i < |ds| && OfficiallyGoing(ds[i], t);
    assert Going(ds[i], t);
  }
}
