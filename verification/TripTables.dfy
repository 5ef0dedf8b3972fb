/** Storing a trip (types/trip.go, types/stationuse.go) and reading it back. */
module TripTables {
  import opened Wrappers
  import opened Identifiers
  import opened Trips

  datatype TripRow = TripRow(start: int, end: int, submitter: string, submitTime: int, editTime: Option<int>,
                             confirmed: bool)

  /** The stored uses of one trip, by station and entry time. */
  type UseRows = map<(StationId, int), Use>

  function KeyOf(u: Use): (StationId, int) {
    (u.station, u.entry)
  }

  /** Interchanges, and nothing else, go from one line to another. */
  predicate LinesFit(u: Use) {
    if u.kind.Interchange? then u.sourceLine.Some? && u.targetLine.Some? && u.sourceLine != u.targetLine
    else u.sourceLine.None? && u.targetLine.None?
  }

  function RowsOf(uses: map<TripId, UseRows>, id: TripId): UseRows {
    if id in uses then uses[id] else map[]
  }

  /** INSERT ... ON CONFLICT DO UPDATE, use by use. */
  function StoreUses(rows: UseRows, us: seq<Use>): UseRows {
    if us == [] then rows
    else
      var u := us[|us| - 1];
      StoreUses(rows, us[..|us| - 1])[KeyOf(u) := u]
  }

  function Before(i: nat, left: int): Option<int> {
    if i == 0 then None else Some(left)
  }

  /** The loop of Trip.Update after i uses: these are repaired and stored, the others as they were. */
  ghost predicate Midway(before: UseRows, was: seq<Use>, now: seq<Use>, i: nat, rows: UseRows, left: int) {
    && i <= |was| == |now|
    && now[..i] == Repair(was[..i]) && now[i..] == was[i..]
    && rows == StoreUses(before, now[..i])
    && LeftAt(now[..i]) == Before(i, left)
    && forall k :: 0 <= k < i ==> LinesFit(was[k])
  }

  lemma NextIsUntouched(before: UseRows, was: seq<Use>, now: seq<Use>, i: nat, rows: UseRows, left: int)
    requires Midway(before, was, now, i, rows, left) && i < |was|
    ensures now[i] == was[i]
  {
    assert now[i..][0] == was[i..][0];
  }

  lemma OneMoreRepaired(before: UseRows, was: seq<Use>, now: seq<Use>, i: nat, rows: UseRows, left: int, u: Use)
    requires Midway(before, was, now, i, rows, left) && i < |was| && u == Repaired(was[i], Before(i, left))
    ensures now[i := u] == Repair(was[..i + 1]) + was[i + 1..]
    ensures LinesFit(u) ==> Midway(before, was, now[i := u], i + 1, rows[KeyOf(u) := u], u.leave)
  {
    var now' := now[i := u];
    assert was[..i + 1][..i] == was[..i] && now'[..i + 1] == now[..i] + [u] && (now[..i] + [u])[..i] == now[..i];
    assert now'[i + 1..] == now[i..][1..] && was[i + 1..] == was[i..][1..];
    assert now' == now'[..i + 1] + now'[i + 1..];
  }

  lemma AllRepaired(before: UseRows, was: seq<Use>, now: seq<Use>, rows: UseRows, left: int)
    requires Midway(before, was, now, |was|, rows, left)
    ensures now == Repair(was) && rows == StoreUses(before, now)
    ensures now == Repair(was[..|was|]) + was[|was|..]
    ensures forall k :: 0 <= k < |was| ==> LinesFit(was[k])
  {
    assert was[..|was|] == was && now[..|was|] == now;
  }

  class TripTable {
    var trips: map<TripId, TripRow>
    var uses: map<TripId, UseRows>

    /** The source's checkValidAndLines, and the row of one use. */
    static method UpdateUse(rows: UseRows, u: Use) returns (r: Result<UseRows>)
      ensures r.Success? <==> u.entry <= u.leave && LinesFit(u)
      ensures r.Success? ==> r.value == rows[KeyOf(u) := u]
    {
      if u.leave < u.entry {
        return Failure("AddStationUse: leave time before entry time");
      }
      if u.kind.Interchange? && (u.sourceLine.None? || u.targetLine.None?) {
        return Failure("AddStationUse: interchange use missing source or target lines");
      }
      if !u.kind.Interchange? && (u.sourceLine.Some? || u.targetLine.Some?) {
        return Failure("AddStationUse: non-interchange use contains source or target lines");
      }
      if u.sourceLine.Some? && u.targetLine.Some? && u.sourceLine.value == u.targetLine.value {
        return Failure("AddStationUse: interchange has the same source and target");
      }
      return Success(rows[KeyOf(u) := u]);
    }

    /** The loop of Update: repairs the times in place and stores the uses one by one. */
    static method UpdateUses(before: UseRows, stationUses: array<Use>) returns (r: Result<UseRows>, ghost n: nat)
      modifies stationUses
      ensures r.Success? <==> forall k :: 0 <= k < stationUses.Length ==> LinesFit(old(stationUses[k]))
      ensures n <= stationUses.Length && stationUses[..] == Repair(old(stationUses[..n])) + old(stationUses[n..])
      ensures r.Failure? ==> 0 < n && !LinesFit(old(stationUses[n - 1]))
                             && forall k :: 0 <= k < n - 1 ==> LinesFit(old(stationUses[k]))
      ensures r.Success? ==> stationUses[..] == Repair(old(stationUses[..]))
                             && r.value == StoreUses(before, stationUses[..])
    {
      ghost var was := stationUses[..];
      var rows := before;
      var nextAdmissibleEntryTime := 0;
      for i := 0 to stationUses.Length
        invariant Midway(before, was, stationUses[..], i, rows, nextAdmissibleEntryTime)
      {
        ghost var now := stationUses[..];
        NextIsUntouched(before, was, now, i, rows, nextAdmissibleEntryTime);
        var use := stationUses[i];
        if i != 0 && use.entry < nextAdmissibleEntryTime {
          use := use.(entry := nextAdmissibleEntryTime);
        }
        if use.leave < use.entry {
          use := use.(leave := use.entry);
        }
        assert use == Repaired(was[i], Before(i, nextAdmissibleEntryTime));
        stationUses[i] := use;
        assert stationUses[..] == now[i := use];
        OneMoreRepaired(before, was, now, i, rows, nextAdmissibleEntryTime, use);
        var stored := UpdateUse(rows, use);
        if stored.Failure? {
          assert !LinesFit(was[i]) && stationUses[..] == Repair(was[..i + 1]) + was[i + 1..];
          return Failure(stored.error), i + 1;
        }
        rows := stored.value;
        nextAdmissibleEntryTime := use.leave;
      }
      AllRepaired(before, was, stationUses[..], rows, nextAdmissibleEntryTime);
      return Success(rows), stationUses.Length;
    }

    /** A failure is rolled back in the tables, though not in the times repaired before it. */
    method Update(id: TripId, validID: bool, row: TripRow, stationUses: array<Use>)
      returns (r: Result<()>, ghost n: nat)
      modifies this, stationUses
      ensures r.Success? <==> && validID && !(stationUses.Length == 1 && !old(stationUses[0]).kind.Visit?)
                              && forall k :: 0 <= k < stationUses.Length ==> LinesFit(old(stationUses[k]))
      ensures r.Failure? ==> trips == old(trips) && uses == old(uses)
      ensures n <= stationUses.Length && stationUses[..] == Repair(old(stationUses[..n])) + old(stationUses[n..])
      ensures r.Success? ==> stationUses[..] == Repair(old(stationUses[..]))
      ensures r.Success? ==> trips == old(trips)[id := row]
      ensures r.Success? ==> uses == old(uses)[id := StoreUses(RowsOf(old(uses), id), stationUses[..])]
    {
      assert stationUses[..] == Repair(stationUses[..0]) + stationUses[0..];
      if !validID {
        return Failure("AddTrip: invalid trip ID"), 0;
      }
      if stationUses.Length == 1 && !stationUses[0].kind.Visit? {
        return Failure("AddTrip: trip only has one station use, but is not a visit"), 0;
      }
      var stored;
      stored, n := UpdateUses(RowsOf(uses, id), stationUses);
      if stored.Failure? {
        return Failure("AddTrip: " + stored.error), n;
      }
      trips := trips[id := row];
      uses := uses[id := stored.value];
      return Success(()), n;
    }
  }

  // ----- Reading back -----

  ghost predicate Stored(rows: UseRows, u: Use) {
    KeyOf(u) in rows && rows[KeyOf(u)] == u
  }

  /** ORDER BY entry_time, leave_time. */
  predicate NotAfter(u: Use, v: Use) {
    u.entry < v.entry || (u.entry == v.entry && u.leave <= v.leave)
  }

  /** A way of listing the rows in that order; rows with equal times can come in any order. */
  ghost predicate IsReading(rows: UseRows, read: seq<Use>) {
    && (forall u :: u in read <==> Stored(rows, u))
    && (forall i, j :: 0 <= i < j < |read| ==> read[i] != read[j] && NotAfter(read[i], read[j]))
  }

  predicate Apart(u: Use, v: Use) {
    u.leave <= v.entry || v.leave <= u.entry
  }

  ghost predicate Coherent(rows: UseRows) {
    && (forall u :: Stored(rows, u) ==> u.entry <= u.leave)
    && (forall u, v :: Stored(rows, u) && Stored(rows, v) && u != v ==> Apart(u, v))
  }

  /** What is read is in order exactly if no two rows overlap. */
  lemma ReadInOrderIff(rows: UseRows, read: seq<Use>)
    requires IsReading(rows, read)
    ensures InOrder(read) <==> Coherent(rows)
  {
    if InOrder(read) {
      forall u, v | Stored(rows, u) && Stored(rows, v) && u != v
        ensures Apart(u, v)
      {
        assert u in read && v in read;
        var i :| 0 <= i < |read| && read[i] == u;
        var j :| 0 <= j < |read| && read[j] == v;
        assert i < j || j < i;
      }
    }
    if Coherent(rows) {
      forall i, j | 0 <= i < j < |read|
        ensures read[i].leave <= read[j].entry
      {
        assert read[i] in read && read[j] in read;
        assert Apart(read[i], read[j]) && NotAfter(read[i], read[j]);
      }
      forall i | 0 <= i < |read|
        ensures read[i].entry <= read[i].leave
      {
        assert read[i] in read;
      }
    }
  }

  ghost predicate HasKey(us: seq<Use>, u: Use) {
    exists i :: 0 <= i < |us| && KeyOf(us[i]) == KeyOf(u)
  }

  /** After storing, a row is of one of the uses stored, or was there and has not been overwritten. */
  lemma {:induction false} StoredUses(rows: UseRows, us: seq<Use>, u: Use)
    ensures Stored(StoreUses(rows, us), u) ==> u in us || (Stored(rows, u) && !HasKey(us, u))
    ensures Stored(rows, u) && !HasKey(us, u) ==> Stored(StoreUses(rows, us), u)
    decreases |us|
  {
    if us != [] {
      var front, last := us[..|us| - 1], us[|us| - 1];
      StoredUses(rows, front, u);
      assert HasKey(us, u) <==> HasKey(front, u) || KeyOf(last) == KeyOf(u) by {
        assert forall i :: 0 <= i < |front| ==> us[i] == front[i];
      }
    }
  }

  /** Every use is stored, or another one that came later in its place. */
  lemma {:induction false} LastIsStored(rows: UseRows, us: seq<Use>, i: nat) returns (j: nat)
    requires i < |us|
    ensures i <= j < |us| && KeyOf(us[j]) == KeyOf(us[i]) && Stored(StoreUses(rows, us), us[j])
    decreases |us|
  {
    j := |us| - 1;
    if i < j && KeyOf(us[j]) != KeyOf(us[i]) {
      j := LastIsStored(rows, us[..j], i);
    }
  }

  /** A row that an edit leaves in place. */
  ghost predicate LeftOver(rows: UseRows, us: seq<Use>, u: Use) {
    Stored(rows, u) && !HasKey(us, u)
  }

  /** No use that storing the trip again leaves in place overlaps a new one. */
  ghost predicate CleanEdit(rows: UseRows, uses: seq<Use>) {
    forall u, v :: LeftOver(rows, Repair(uses), u) && v in Repair(uses) ==> Apart(u, v)
  }

  lemma StoredAreApart(rows: UseRows, us: seq<Use>)
    requires Coherent(rows) && InOrder(us)
    requires forall u, v :: LeftOver(rows, us, u) && v in us ==> Apart(u, v)
    ensures Coherent(StoreUses(rows, us))
  {
    var rows' := StoreUses(rows, us);
    forall u | Stored(rows', u)
      ensures u.entry <= u.leave && (u in us || LeftOver(rows, us, u))
    {
      StoredUses(rows, us, u);
    }
    forall u, v | Stored(rows', u) && Stored(rows', v) && u != v
      ensures Apart(u, v)
    {
      if u in us && v in us {
        var i :| 0 <= i < |us| && us[i] == u;
        var j :| 0 <= j < |us| && us[j] == v;
        assert i < j || j < i;
      }
    }
  }

  lemma LeftOverIsApart(rows: UseRows, us: seq<Use>, u: Use, i: nat)
    requires InOrder(us) && Coherent(StoreUses(rows, us)) && LeftOver(rows, us, u) && i < |us|
    ensures Apart(u, us[i])
  {
    var j := LastIsStored(rows, us, i);
    StoredUses(rows, us, u);
    assert KeyOf(us[j]) != KeyOf(u);
    assert Apart(u, us[j]);
  }

  /** Storing a trip again leaves overlapping rows exactly if a use that was stored before, and stays
      because no new one has its station and entry time, overlaps a new one. */
  lemma EditIsCoherentIff(rows: UseRows, uses: seq<Use>)
    requires Coherent(rows)
    ensures Coherent(StoreUses(rows, Repair(uses))) <==> CleanEdit(rows, uses)
  {
    var us := Repair(uses);
    RepairIsInOrder(uses);
    if Coherent(StoreUses(rows, us)) {
      forall u, v | LeftOver(rows, us, u) && v in us
        ensures Apart(u, v)
      {
        var i :| 0 <= i < |us| && us[i] == v;
        LeftOverIsApart(rows, us, u, i);
      }
    } else if CleanEdit(rows, uses) {
      StoredAreApart(rows, us);
    }
  }

  /** So exactly then the edited trip is read in order. */
  lemma EditIsReadInOrderIff(rows: UseRows, uses: seq<Use>, read: seq<Use>)
    requires Coherent(rows) && IsReading(StoreUses(rows, Repair(uses)), read)
    ensures InOrder(read) <==> CleanEdit(rows, uses)
  {
    EditIsCoherentIff(rows, uses);
    ReadInOrderIff(StoreUses(rows, Repair(uses)), read);
  }

  /** A trip stored for the first time is read in order. */
  lemma NewTripIsReadInOrder(uses: seq<Use>, read: seq<Use>)
    requires IsReading(StoreUses(map[], Repair(uses)), read)
    ensures InOrder(read)
  {
    EditIsReadInOrderIff(map[], uses, read);
  }

  // ----- Over every history of a trip -----

  /** The rows of a trip that was stored with these uses, one time after another. */
  function StoreHistory(stores: seq<seq<Use>>): UseRows {
    if stores == [] then map[] else StoreUses(StoreHistory(stores[..|stores| - 1]), Repair(stores[|stores| - 1]))
  }

  ghost predicate CleanHistory(stores: seq<seq<Use>>) {
    stores != [] ==>
      var front := stores[..|stores| - 1];
      CleanHistory(front) && CleanEdit(StoreHistory(front), stores[|stores| - 1])
  }

  ghost predicate AlwaysCoherent(stores: seq<seq<Use>>) {
    Coherent(StoreHistory(stores)) && (stores != [] ==> AlwaysCoherent(stores[..|stores| - 1]))
  }

  /** A trip is free of overlaps throughout its history exactly if every time it was stored no use
      left in place overlapped a new one. */
  lemma {:induction false} HistoryIsCoherentIff(stores: seq<seq<Use>>)
    ensures AlwaysCoherent(stores) <==> CleanHistory(stores)
    decreases |stores|
  {
    if stores != [] {
      var front := stores[..|stores| - 1];
      HistoryIsCoherentIff(front);
      if AlwaysCoherent(front) {
        EditIsCoherentIff(StoreHistory(front), stores[|stores| - 1]);
      }
    }
  }

  /** Exactly the interchanges have a line they come from and one they go to, and these differ. */
  predicate HasProperLines(u: Use) {
    && (u.sourceLine != None <==> u.kind == Interchange) && (u.targetLine != None <==> u.kind == Interchange)
    && (u.sourceLine == u.targetLine ==> u.sourceLine == None)
  }

  lemma {:induction false} RepairKeepsLines(uses: seq<Use>)
    requires forall u :: u in uses ==> LinesFit(u)
    ensures forall u :: u in Repair(uses) ==> LinesFit(u)
    decreases |uses|
  {
    if uses != [] {
      var front, last := uses[..|uses| - 1], uses[|uses| - 1];
      assert last in uses && forall u :: u in front ==> u in uses;
      RepairKeepsLines(front);
      assert LinesFit(Repaired(last, LeftAt(Repair(front))));
    }
  }

  /** Uses with proper lines are all accepted, and whatever accepted stores have left in the table has
      proper lines: no interchange is ever read without its lines. */
  lemma {:induction false} StoredUsesHaveLines(stores: seq<seq<Use>>, u: Use)
    ensures LinesFit(u) <==> HasProperLines(u)
    ensures (forall uses, v :: uses in stores && v in uses ==> LinesFit(v)) && Stored(StoreHistory(stores), u) ==>
              HasProperLines(u)
    decreases |stores|
  {
    if stores != [] && forall uses, v :: uses in stores && v in uses ==> LinesFit(v) {
      var front, last := stores[..|stores| - 1], stores[|stores| - 1];
      assert forall uses :: uses in front ==> uses in stores;
      StoredUsesHaveLines(front, u);
      StoredUses(StoreHistory(front), Repair(last), u);
      assert last in stores;
      RepairKeepsLines(last);
    }
  }

  // ----- Whether all is read back -----

  ghost predicate DistinctKeys(us: seq<Use>) {
    forall i, j :: 0 <= i < j < |us| ==> KeyOf(us[i]) != KeyOf(us[j])
  }

  lemma {:induction false} CountInDistinct(us: seq<Use>, u: Use)
    requires forall i, j :: 0 <= i < j < |us| ==> us[i] != us[j]
    ensures multiset(us)[u] == if u in us then 1 else 0
    decreases |us|
  {
    if us != [] {
      var front, last := us[..|us| - 1], us[|us| - 1];
      CountInDistinct(front, u);
      assert us == front + [last];
    }
  }

  lemma AllIsRead(us: seq<Use>, read: seq<Use>, u: Use)
    requires IsReading(StoreUses(map[], us), read) && DistinctKeys(us)
    ensures u in us <==> u in read
  {
    StoredUses(map[], us, u);
    if u in us {
      var i :| 0 <= i < |us| && us[i] == u;
      var j := LastIsStored(map[], us, i);
      assert j == i && us[j] in read;
    }
  }

  lemma {:induction false} TwiceInBag(us: seq<Use>, i: nat, j: nat)
    requires i < j < |us| && us[i] == us[j]
    ensures multiset(us)[us[i]] >= 2
  {
    assert us == us[..j] + us[j..] && us[..j][i] == us[i] && us[j..][0] == us[i];
    assert us[i] in multiset(us[..j]) && us[i] in multiset(us[j..]);
  }

  lemma SameKeyIsLost(us: seq<Use>, read: seq<Use>, i: nat, j: nat)
    requires IsReading(StoreUses(map[], us), read) && i < j < |us| && KeyOf(us[i]) == KeyOf(us[j])
    ensures multiset(read) != multiset(us)
  {
    if us[i] == us[j] {
      TwiceInBag(us, i, j);
      CountInDistinct(read, us[i]);
    } else {
      assert us[i] !in read || us[j] !in read;
      assert us[i] in multiset(us) && us[j] in multiset(us);
    }
  }

  lemma SameBags(us: seq<Use>, read: seq<Use>)
    requires IsReading(StoreUses(map[], us), read) && DistinctKeys(us)
    ensures multiset(read) == multiset(us)
  {
    assert forall i, j :: 0 <= i < j < |us| ==> us[i] != us[j];
    forall u
      ensures multiset(us)[u] == multiset(read)[u]
    {
      AllIsRead(us, read, u);
      CountInDistinct(us, u);
      CountInDistinct(read, u);
    }
  }

  /** Of a trip stored for the first time, exactly the repaired uses are read exactly if no two of
      them are of one station at one entry time; otherwise some are lost. */
  lemma NewTripIsReadBackIff(uses: seq<Use>, read: seq<Use>)
    requires IsReading(StoreUses(map[], Repair(uses)), read)
    ensures multiset(read) == multiset(Repair(uses)) <==> DistinctKeys(Repair(uses))
  {
    var us := Repair(uses);
    if DistinctKeys(us) {
      SameBags(us, read);
    } else {
      var i, j :| 0 <= i < j < |us| && KeyOf(us[i]) == KeyOf(us[j]);
      SameKeyIsLost(us, read, i, j);
    }
  }

  lemma StoreOne(rows: UseRows, u: Use)
    ensures StoreUses(rows, [u]) == rows[KeyOf(u) := u]
  {
    assert [u][..0] == [];
  }

  const BEFORE := Use(1, 0, 100_000, Visit, false, None, None)
  const AFTER := Use(1, 50_000, 150_000, Visit, false, None, None)

  /** An edit that moves the entry time of a visit leaves both visits stored, overlapping. */
  lemma EditLeavesOldUses(read: seq<Use>)
    requires IsReading(StoreUses(StoreUses(map[], Repair([BEFORE])), Repair([AFTER])), read)
    ensures BEFORE in read && AFTER in read && !InOrder(read)
  {
    var rows, key: (StationId, int) := map[KeyOf(BEFORE) := BEFORE], KeyOf(AFTER);
    RepairFixes([BEFORE]);
    RepairFixes([AFTER]);
    StoreOne(map[], BEFORE);
    StoreOne(rows, AFTER);
    assert Stored(rows[key := AFTER], BEFORE) && Stored(rows[key := AFTER], AFTER);
    ReadInOrderIff(rows[key := AFTER], read);
    assert !Apart(BEFORE, AFTER);
  }
}
