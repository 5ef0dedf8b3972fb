/** Storing the typical times (compute/typseconds.go, UpdateTypicalSeconds) and reading them back from
    the rebuilt view. */
module TypicalUpdates {
  import opened Wrappers
  import opened Identifiers
  import opened Trips
  import opened TypicalSeconds
  import C = Connections
  import U = ConnectionUpdates

  function HopOf(e: C.Edge): Key {
    Hop(e.From(), e.To())
  }

  function StopOf(e: C.Edge): int {
    if e.Real? then e.row.stop else e.stop
  }

  function WithTime(e: C.Edge, quantity: Quantity, time: int): C.Edge {
    match quantity
    case Travel => if e.Real? then C.Real(e.row.(travel := time)) else e.(travel := time)
    case Stop => if e.Real? then C.Real(e.row.(stop := time)) else e.(stop := time)
    case Wait => if e.Real? then C.Real(e.row.(waiting := time)) else e.(waiting := time)
    case Transfer => e
  }

  function Updated(e: C.Edge, typical: map<Key, int>, quantity: Quantity): C.Edge {
    if HopOf(e) in typical then WithTime(e, quantity, typical[HopOf(e)]) else e
  }

  /** The connections after the loop over the averages of one quantity. */
  function UpdatedAll(edges: seq<C.Edge>, typical: map<Key, int>, quantity: Quantity): (es: seq<C.Edge>)
    ensures |es| == |edges|
  {
    if edges == [] then []
    else UpdatedAll(edges[..|edges| - 1], typical, quantity) + [Updated(edges[|edges| - 1], typical, quantity)]
  }

  /** What that loop stores. */
  function Writes(edges: seq<C.Edge>, typical: map<Key, int>, quantity: Quantity): seq<C.Edge> {
    if edges == [] then []
    else
      var e := edges[|edges| - 1];
      Writes(edges[..|edges| - 1], typical, quantity)
      + if HopOf(e) in typical then [Updated(e, typical, quantity)] else []
  }

  function AfterTwo(edges: seq<C.Edge>, travel: map<Key, int>, stop: map<Key, int>): (es: seq<C.Edge>)
    ensures |es| == |edges|
  {
    UpdatedAll(UpdatedAll(edges, travel, Travel), stop, Stop)
  }

  /** The rows after the three loops. */
  function Written(rows: seq<C.Row>, edges: seq<C.Edge>, travel: map<Key, int>, stop: map<Key, int>,
                   wait: map<Key, int>): seq<C.Row>
  {
    var rows1 := U.StoreAll(rows, Writes(edges, travel, Travel));
    var rows2 := U.StoreAll(rows1, Writes(UpdatedAll(edges, travel, Travel), stop, Stop));
    U.StoreAll(rows2, Writes(AfterTwo(edges, travel, stop), wait, Wait))
  }

  lemma StoreOneMore(rows: seq<C.Row>, stored: seq<C.Edge>, e: C.Edge)
    ensures U.StoreAll(rows, stored + [e]) == U.Stored(U.StoreAll(rows, stored), e)
  {
    assert (stored + [e])[..|stored|] == stored;
  }

  /** The rows after the loop has come to one more connection. */
  lemma WriteOneMore(rows: seq<C.Row>, front: seq<C.Edge>, e: C.Edge, typical: map<Key, int>, quantity: Quantity)
    ensures U.StoreAll(rows, Writes(front + [e], typical, quantity))
         == (var before := U.StoreAll(rows, Writes(front, typical, quantity));
             if HopOf(e) in typical then U.Stored(before, Updated(e, typical, quantity)) else before)
    ensures UpdatedAll(front + [e], typical, quantity)
         == UpdatedAll(front, typical, quantity) + [Updated(e, typical, quantity)]
  {
    var stored := Writes(front, typical, quantity);
    assert (front + [e])[..|front|] == front && stored + [] == stored;
    StoreOneMore(rows, stored, Updated(e, typical, quantity));
  }

  /** The loop over one quantity has come to connection i. */
  ghost predicate Midway(rows0: seq<C.Row>, was: seq<C.Edge>, now: seq<C.Edge>, i: nat, rows: seq<C.Row>,
                         typical: map<Key, int>, quantity: Quantity)
  {
    && i <= |was| == |now|
    && now[..i] == UpdatedAll(was[..i], typical, quantity) && now[i..] == was[i..]
    && rows == U.StoreAll(rows0, Writes(was[..i], typical, quantity))
  }

  lemma OneMoreWritten(rows0: seq<C.Row>, was: seq<C.Edge>, now: seq<C.Edge>, i: nat, rows: seq<C.Row>,
                       typical: map<Key, int>, quantity: Quantity)
    requires Midway(rows0, was, now, i, rows, typical, quantity) && i < |was|
    ensures now[i] == was[i]
    ensures var e := Updated(was[i], typical, quantity);
            Midway(rows0, was, now[i := e], i + 1, if HopOf(was[i]) in typical then U.Stored(rows, e) else rows,
                   typical, quantity)
  {
    var now' := now[i := Updated(was[i], typical, quantity)];
    assert now[i] == now[i..][0] && was[i] == was[i..][0];
    assert was[..i + 1] == was[..i] + [was[i]] && now'[..i + 1] == now[..i] + [now'[i]];
    assert was[i + 1..] == was[i..][1..] && now'[i + 1..] == now[i..][1..];
    WriteOneMore(rows0, was[..i], was[i], typical, quantity);
  }

  method WriteTimes(table: U.Table, edges: array<C.Edge>, typical: map<Key, int>, quantity: Quantity)
    modifies table, edges
    ensures edges[..] == UpdatedAll(old(edges[..]), typical, quantity)
    ensures table.rows == U.StoreAll(old(table.rows), Writes(old(edges[..]), typical, quantity))
  {
    ghost var was, rows0 := edges[..], table.rows;
    for i := 0 to edges.Length
      invariant Midway(rows0, was, edges[..], i, table.rows, typical, quantity)
    {
      ghost var now := edges[..];
      OneMoreWritten(rows0, was, now, i, table.rows, typical, quantity);
      if HopOf(edges[i]) in typical {
        edges[i] := WithTime(edges[i], quantity, typical[HopOf(edges[i])]);
        table.rows := U.Stored(table.rows, edges[i]);
      }
      assert edges[..] == now[i := Updated(was[i], typical, quantity)];
    }
    assert was[..edges.Length] == was && edges[..edges.Length] == edges[..];
  }

  // ----- Transfers -----

  /** The connection leads from the place of the change along the line changed to, and its stop
      times were measured. */
  ghost predicate LeadsAway(e: C.Edge, change: Key, ss: seq<Sample>, linesOf: StationId -> seq<LineId>)
    requires change.Change?
  {
    Number(ss, Stop, HopOf(e)) > 0 && e.From() == change.at && change.target in linesOf(e.To())
  }

  ghost function StopSum(edges: seq<C.Edge>, change: Key, ss: seq<Sample>, linesOf: StationId -> seq<LineId>): int
    requires change.Change?
  {
    if edges == [] then 0
    else
      var e := edges[|edges| - 1];
      StopSum(edges[..|edges| - 1], change, ss, linesOf) + if LeadsAway(e, change, ss, linesOf) then StopOf(e) else 0
  }

  ghost function StopCount(edges: seq<C.Edge>, change: Key, ss: seq<Sample>, linesOf: StationId -> seq<LineId>): nat
    requires change.Change?
  {
    if edges == [] then 0
    else
      var e := edges[|edges| - 1];
      StopCount(edges[..|edges| - 1], change, ss, linesOf) + if LeadsAway(e, change, ss, linesOf) then 1 else 0
  }

  /** The mean of the transfer, less the mean of the stop times that follow it. */
  function TransferTime(totalMs: int, number: nat, stops: int, count: nat): int
    requires 0 < number
  {
    if count == 0 then RoundedMean(totalMs, number)
    else MulPositive(number, count); Rounded(totalMs * count - 1000 * stops * number, 1000 * number * count)
  }

  lemma MulPositive(x: nat, y: nat)
    requires 0 < x && 0 < y
    ensures 0 < 1000 * x * y
  {
  }

  ghost predicate IsTransferTimes(times: map<Key, int>, ss: seq<Sample>, edges: seq<C.Edge>,
                                  linesOf: StationId -> seq<LineId>)
  {
    && (forall key :: key in times <==> key.Change? && Number(ss, Transfer, key) >= 2)
    && (forall key :: key in times ==>
          Number(ss, Transfer, key) > 0
          && times[key] == TransferTime(Total(ss, Transfer, key), Number(ss, Transfer, key),
                                        StopSum(edges, key, ss, linesOf), StopCount(edges, key, ss, linesOf)))
  }

  /** The connections with any measurement of their stop times. */
  ghost predicate IsMeasured(measured: set<Key>, ss: seq<Sample>) {
    forall key :: key in measured <==> Number(ss, Stop, key) > 0
  }

  method StopsAfter(edges: array<C.Edge>, change: Key, measured: set<Key>, linesOf: StationId -> seq<LineId>,
                    ghost ss: seq<Sample>) returns (stops: int, count: nat)
    requires change.Change? && IsMeasured(measured, ss)
    ensures stops == StopSum(edges[..], change, ss, linesOf) && count == StopCount(edges[..], change, ss, linesOf)
  {
    stops, count := 0, 0;
    for i := 0 to edges.Length
      invariant stops == StopSum(edges[..i], change, ss, linesOf)
      invariant count == StopCount(edges[..i], change, ss, linesOf)
    {
      assert edges[..i + 1][..i] == edges[..i];
      var e := edges[i];
      if HopOf(e) in measured && e.From() == change.at && change.target in linesOf(e.To()) {
        stops, count := stops + StopOf(e), count + 1;
      }
    }
    assert edges[..edges.Length] == edges[..];
  }

  /** The loop over the averages of transfers. */
  method TransferTimes(sums: Averages, edges: array<C.Edge>, measured: set<Key>, linesOf: StationId -> seq<LineId>,
                       ghost ss: seq<Sample>) returns (times: map<Key, int>)
    requires sums.Holds(ss, Transfer) && IsMeasured(measured, ss)
    ensures IsTransferTimes(times, ss, edges[..], linesOf)
  {
    times := map[];
    var left := set key | key in sums.denominator.Keys && key.Change?;
    while left != {}
      invariant left <= sums.denominator.Keys && forall key :: key in left ==> key.Change?
      invariant forall key :: key in times <==>
                  key in sums.denominator && key.Change? && key !in left && sums.denominator[key] >= 2
      invariant forall key :: key in times ==>
                  sums.denominator[key] > 0
                  && times[key] == TransferTime(sums.numerator[key], sums.denominator[key],
                                                StopSum(edges[..], key, ss, linesOf),
                                                StopCount(edges[..], key, ss, linesOf))
    {
      var key :| key in left;
      left := left - {key};
      if sums.denominator[key] < 2 {
        continue;
      }
      var stops, count := StopsAfter(edges, key, measured, linesOf, ss);
      times := times[key := TransferTime(sums.numerator[key], sums.denominator[key], stops, count)];
    }
  }

  // ----- The whole update -----

  /** The connections measured, as they are looked up: one for each pair of stations. */
  ghost predicate DistinctHops(edges: seq<C.Edge>) {
    forall i, j :: 0 <= i < j < |edges| ==> HopOf(edges[i]) != HopOf(edges[j])
  }

  function HopsOf(edges: seq<C.Edge>): set<Key> {
    set e | e in edges :: HopOf(e)
  }

  method UpdateTypicalSeconds(trips: seq<seq<Use>>, table: U.Table, edges: array<C.Edge>, transfers: set<Key>,
                              linesOf: StationId -> seq<LineId>)
    returns (travel: map<Key, int>, stop: map<Key, int>, wait: map<Key, int>, transfer: map<Key, int>)
    requires DistinctHops(edges[..])
    modifies table, edges
    ensures var ss := AllSamples(HopsOf(old(edges[..])) + transfers, trips);
            && IsTypical(travel, ss, Travel) && IsTypical(stop, ss, Stop) && IsTypical(wait, ss, Wait)
            && IsTransferTimes(transfer, ss, edges[..], linesOf)
    ensures table.rows == Written(old(table.rows), old(edges[..]), travel, stop, wait)
    ensures edges[..] == UpdatedAll(AfterTwo(old(edges[..]), travel, stop), wait, Wait)
  {
    var known := HopsOf(edges[..]) + transfers;
    ghost var ss := AllSamples(known, trips);
    var sums := SumUp(known, trips);
    travel := sums.travel.Typical(ss, Travel);
    WriteTimes(table, edges, travel, Travel);
    stop := sums.stop.Typical(ss, Stop);
    WriteTimes(table, edges, stop, Stop);
    wait := sums.wait.Typical(ss, Wait);
    WriteTimes(table, edges, wait, Wait);
    transfer := TransferTimes(sums.transfer, edges, sums.stop.denominator.Keys, linesOf, ss);
  }

  method SumUp(known: set<Key>, trips: seq<seq<Use>>) returns (sums: Sums)
    ensures fresh(sums) && fresh(sums.Parts()) && sums.Holds(AllSamples(known, trips))
  {
    sums := new Sums();
    for i := 0 to |trips|
      invariant fresh(sums) && fresh(sums.Parts()) && sums.Holds(AllSamples(known, trips[..i]))
    {
      assert trips[..i + 1][..i] == trips[..i];
      sums.ProcessTrip(known, trips[i], AllSamples(known, trips[..i]));
    }
    assert trips[..|trips|] == trips;
  }

  // ----- What is read back -----

  /** The view shows the two rows of the connection as one, with its times as they now are. */
  ghost predicate Shown(n: C.Network, rows: seq<C.Row>, e: C.Edge)
    requires e.Composite?
  {
    exists got :: got in C.View(n, rows) && IsShownAs(got, e)
  }

  predicate IsShownAs(got: C.Edge, e: C.Edge)
    requires e.Composite?
  {
    && got.Composite? && U.SamePair(got, e) && got.stop == e.stop && got.waiting == e.waiting
    && (0 <= e.travel || e.travel % 2 == 0 ==> got.travel == e.travel)
  }

  ghost predicate Possible(n: C.Network, edges: seq<C.Edge>) {
    forall f :: f in edges && f.Composite? ==> C.LeadsOn(n, f.first, f.second)
  }

  lemma UpdatedStaysApart(e: C.Edge, f: C.Edge, typical: map<Key, int>, quantity: Quantity)
    requires U.Apart(f, e)
    ensures U.Apart(f, Updated(e, typical, quantity)) && U.Apart(Updated(f, typical, quantity), e)
  {
    var e', f' := Updated(e, typical, quantity), Updated(f, typical, quantity);
    forall i, j | 0 <= i < |C.Halves(e)| && 0 <= j < |C.Halves(f)|
      ensures !U.SameKey(C.Halves(f)[j], C.Halves(e')[i]) && !U.SameKey(C.Halves(f')[j], C.Halves(e)[i])
    {
      assert !U.SameKey(C.Halves(f)[j], C.Halves(e)[i]);
    }
  }

  /** Storing another connection, without a row in common. */
  lemma OtherLeavesShown(n: C.Network, rows: seq<C.Row>, f: C.Edge, e: C.Edge)
    requires U.UniqueKeys(rows) && e.Composite? && Shown(n, rows, e) && U.Apart(f, e)
    requires f.Composite? ==> C.LeadsOn(n, f.first, f.second)
    ensures U.UniqueKeys(U.Stored(rows, f)) && Shown(n, U.Stored(rows, f), e)
  {
    var got :| got in C.View(n, rows) && IsShownAs(got, e);
    assert U.Apart(f, got) by {
      forall i, j | 0 <= i < |C.Halves(f)| && 0 <= j < 2
        ensures !U.SameKey(C.Halves(f)[i], C.Halves(got)[j])
      {
        assert !U.SameKey(C.Halves(f)[i], C.Halves(e)[j]);
      }
    }
    U.PutLeavesOthers(n, rows, f, got);
  }

  /** Storing the connection itself. */
  lemma StoredIsShown(n: C.Network, rows: seq<C.Row>, e: C.Edge)
    requires U.UniqueKeys(rows) && e.Composite? && C.LeadsOn(n, e.first, e.second)
    ensures U.UniqueKeys(U.Stored(rows, e)) && Shown(n, U.Stored(rows, e), e)
  {
    U.HalvesDiffer(n, e);
    U.StoredRows(rows, e);
    U.PutThenGet(n, rows, e);
    var got := C.Compose(U.FirstStored(e), U.SecondStored(e));
    assert IsShownAs(got, e);
  }

  /** Storing other connections, one after another. */
  lemma {:induction false} OthersLeaveShown(n: C.Network, rows: seq<C.Row>, stored: seq<C.Edge>, e: C.Edge)
    requires U.UniqueKeys(rows) && e.Composite? && Shown(n, rows, e) && Possible(n, stored)
    requires forall f :: f in stored ==> U.Apart(f, e)
    ensures U.UniqueKeys(U.StoreAll(rows, stored)) && Shown(n, U.StoreAll(rows, stored), e)
    decreases |stored|
  {
    if stored != [] {
      var front, f := stored[..|stored| - 1], stored[|stored| - 1];
      assert f in stored && forall g :: g in front ==> g in stored;
      OthersLeaveShown(n, rows, front, e);
      OtherLeavesShown(n, U.StoreAll(rows, front), f, e);
    }
  }

  lemma {:induction false} StoreAllConcat(rows: seq<C.Row>, xs: seq<C.Edge>, ys: seq<C.Edge>)
    ensures U.StoreAll(rows, xs + ys) == U.StoreAll(U.StoreAll(rows, xs), ys)
    decreases |ys|
  {
    if ys == [] {
      assert xs + ys == xs;
    } else {
      var front, y := ys[..|ys| - 1], ys[|ys| - 1];
      assert xs + ys == (xs + front) + [y];
      StoreAllConcat(rows, xs, front);
      StoreOneMore(rows, xs + front, y);
    }
  }

  lemma {:induction false} WritesConcat(xs: seq<C.Edge>, ys: seq<C.Edge>, typical: map<Key, int>, quantity: Quantity)
    ensures Writes(xs + ys, typical, quantity) == Writes(xs, typical, quantity) + Writes(ys, typical, quantity)
    decreases |ys|
  {
    if ys == [] {
      assert xs + ys == xs;
    } else {
      var front, y := ys[..|ys| - 1], ys[|ys| - 1];
      assert (xs + ys)[..|xs + ys| - 1] == xs + front && (xs + ys)[|xs + ys| - 1] == y;
      WritesConcat(xs, front, typical, quantity);
    }
  }

  /** What a loop stores of connections that share no row with e shares none with it either. */
  lemma {:induction false} WritesStayApart(n: C.Network, edges: seq<C.Edge>, e: C.Edge, typical: map<Key, int>,
                                           quantity: Quantity)
    requires Possible(n, edges) && forall f :: f in edges ==> U.Apart(f, e)
    ensures var stored := Writes(edges, typical, quantity);
            Possible(n, stored) && forall f :: f in stored ==> U.Apart(f, e)
    decreases |edges|
  {
    if edges != [] {
      var front, f := edges[..|edges| - 1], edges[|edges| - 1];
      assert f in edges && forall g :: g in front ==> g in edges;
      WritesStayApart(n, front, e, typical, quantity);
      UpdatedStaysApart(e, f, typical, quantity);
    }
  }

  /** The loop comes to the connection itself. */
  lemma OwnTurnIsShown(n: C.Network, rows: seq<C.Row>, e: C.Edge, typical: map<Key, int>, quantity: Quantity)
    requires U.UniqueKeys(rows) && e.Composite? && Shown(n, rows, e) && C.LeadsOn(n, e.first, e.second)
    ensures Updated(e, typical, quantity).Composite?
    ensures var rows' := U.StoreAll(rows, Writes([e], typical, quantity));
            U.UniqueKeys(rows') && Shown(n, rows', Updated(e, typical, quantity))
  {
    WriteOneMore(rows, [], e, typical, quantity);
    assert [] + [e] == [e];
    if HopOf(e) in typical {
      StoredIsShown(n, rows, Updated(e, typical, quantity));
    }
  }

  lemma LoopStores(rows: seq<C.Row>, before: seq<C.Edge>, e: C.Edge, after: seq<C.Edge>, typical: map<Key, int>,
                   quantity: Quantity)
    ensures U.StoreAll(rows, Writes(before + [e] + after, typical, quantity))
         == U.StoreAll(U.StoreAll(U.StoreAll(rows, Writes(before, typical, quantity)), Writes([e], typical, quantity)),
                       Writes(after, typical, quantity))
  {
    WritesConcat(before + [e], after, typical, quantity);
    WritesConcat(before, [e], typical, quantity);
    StoreAllConcat(rows, Writes(before + [e], typical, quantity), Writes(after, typical, quantity));
    StoreAllConcat(rows, Writes(before, typical, quantity), Writes([e], typical, quantity));
  }

  /** After the loop over one quantity the view shows the connection as it now is. */
  lemma LoopIsShown(n: C.Network, rows: seq<C.Row>, before: seq<C.Edge>, e: C.Edge, after: seq<C.Edge>,
                    typical: map<Key, int>, quantity: Quantity)
    requires U.UniqueKeys(rows) && e.Composite? && Shown(n, rows, e) && C.LeadsOn(n, e.first, e.second)
    requires Possible(n, before) && Possible(n, after)
    requires (forall f :: f in before ==> U.Apart(f, e)) && (forall f :: f in after ==> U.Apart(f, e))
    ensures Updated(e, typical, quantity).Composite?
    ensures var rows' := U.StoreAll(rows, Writes(before + [e] + after, typical, quantity));
            U.UniqueKeys(rows') && Shown(n, rows', Updated(e, typical, quantity))
  {
    var e' := Updated(e, typical, quantity);
    var rows1 := U.StoreAll(rows, Writes(before, typical, quantity));
    var rows2 := U.StoreAll(rows1, Writes([e], typical, quantity));
    WritesStayApart(n, before, e, typical, quantity);
    OthersLeaveShown(n, rows, Writes(before, typical, quantity), e);
    OwnTurnIsShown(n, rows1, e, typical, quantity);
    forall f | f in after
      ensures U.Apart(f, e')
    {
      UpdatedStaysApart(e, f, typical, quantity);
    }
    WritesStayApart(n, after, e', typical, quantity);
    OthersLeaveShown(n, rows2, Writes(after, typical, quantity), e');
    LoopStores(rows, before, e, after, typical, quantity);
  }

  lemma {:induction false} UpdatedAt(edges: seq<C.Edge>, typical: map<Key, int>, quantity: Quantity, i: nat)
    requires i < |edges|
    ensures UpdatedAll(edges, typical, quantity)[i] == Updated(edges[i], typical, quantity)
    decreases |edges|
  {
    if i < |edges| - 1 {
      UpdatedAt(edges[..|edges| - 1], typical, quantity, i);
    }
  }

  /** Connection k is composite and has no row in common with another one. */
  ghost predicate StandsApart(n: C.Network, edges: seq<C.Edge>, k: nat) {
    && k < |edges| && edges[k].Composite? && Possible(n, edges)
    && forall i :: 0 <= i < |edges| && i != k ==> U.Apart(edges[i], edges[k])
  }

  lemma UpdatedStandsApart(n: C.Network, edges: seq<C.Edge>, k: nat, typical: map<Key, int>, quantity: Quantity)
    requires StandsApart(n, edges, k)
    ensures StandsApart(n, UpdatedAll(edges, typical, quantity), k)
    ensures UpdatedAll(edges, typical, quantity)[k] == Updated(edges[k], typical, quantity)
  {
    var es := UpdatedAll(edges, typical, quantity);
    UpdatedAt(edges, typical, quantity, k);
    forall i | 0 <= i < |es|
      ensures es[i].Composite? ==> C.LeadsOn(n, es[i].first, es[i].second)
      ensures i != k ==> U.Apart(es[i], es[k])
    {
      UpdatedAt(edges, typical, quantity, i);
      assert edges[i] in edges;
      if i != k {
        UpdatedStaysApart(edges[k], edges[i], typical, quantity);
        UpdatedStaysApart(edges[k], Updated(edges[i], typical, quantity), typical, quantity);
      }
    }
  }

  lemma StandingApartIsShown(n: C.Network, rows: seq<C.Row>, edges: seq<C.Edge>, k: nat, typical: map<Key, int>,
                             quantity: Quantity)
    requires StandsApart(n, edges, k) && U.UniqueKeys(rows) && Shown(n, rows, edges[k])
    ensures StandsApart(n, UpdatedAll(edges, typical, quantity), k)
    ensures var rows' := U.StoreAll(rows, Writes(edges, typical, quantity));
            U.UniqueKeys(rows') && Shown(n, rows', UpdatedAll(edges, typical, quantity)[k])
  {
    var before, e, after := edges[..k], edges[k], edges[k + 1..];
    assert edges == before + [e] + after && e in edges;
    UpdatedStandsApart(n, edges, k, typical, quantity);
    forall f | f in before || f in after
      ensures f in edges && U.Apart(f, e)
    {
    }
    LoopIsShown(n, rows, before, e, after, typical, quantity);
  }

  /** Read from the rebuilt view, a composite connection that shares no row with another one measured
      has the times it has in memory after the three loops, whichever of these stored it. */
  lemma {:induction false} TimesAreReadBack(n: C.Network, rows: seq<C.Row>, edges: seq<C.Edge>, k: nat,
                                            travel: map<Key, int>, stop: map<Key, int>, wait: map<Key, int>)
    requires U.UniqueKeys(rows) && StandsApart(n, edges, k) && edges[k] in C.View(n, rows)
    ensures var e := UpdatedAll(AfterTwo(edges, travel, stop), wait, Wait)[k];
            e.Composite? && Shown(n, Written(rows, edges, travel, stop, wait), e)
  {
    var edges1 := UpdatedAll(edges, travel, Travel);
    var rows1 := U.StoreAll(rows, Writes(edges, travel, Travel));
    assert IsShownAs(edges[k], edges[k]);
    StandingApartIsShown(n, rows, edges, k, travel, Travel);
    StandingApartIsShown(n, rows1, edges1, k, stop, Stop);
    var rows2 := U.StoreAll(rows1, Writes(edges1, stop, Stop));
    StandingApartIsShown(n, rows2, AfterTwo(edges, travel, stop), k, wait, Wait);
  }

  lemma UpdatedTimes(edges: seq<C.Edge>, k: nat, travel: map<Key, int>, stop: map<Key, int>, wait: map<Key, int>)
    requires k < |edges| && edges[k].Composite?
    ensures var e, hop := edges[k], HopOf(edges[k]);
            UpdatedAll(AfterTwo(edges, travel, stop), wait, Wait)[k]
            == e.(travel := if hop in travel then travel[hop] else e.travel,
                  stop := if hop in stop then stop[hop] else e.stop,
                  waiting := if hop in wait then wait[hop] else e.waiting)
  {
    UpdatedAt(edges, travel, Travel, k);
    UpdatedAt(UpdatedAll(edges, travel, Travel), stop, Stop, k);
    UpdatedAt(AfterTwo(edges, travel, stop), wait, Wait, k);
  }

  /** So all typical times of such a connection are read back as they were computed. */
  lemma {:induction false} TypicalTimesAreReadBack(trips: seq<seq<Use>>, known: set<Key>, n: C.Network,
                                                   rows: seq<C.Row>, edges: seq<C.Edge>, k: nat,
                                                   travel: map<Key, int>, stop: map<Key, int>, wait: map<Key, int>)
    requires forall read :: read in trips ==> ReadFromHistory(read)
    requires IsTypical(travel, AllSamples(known, trips), Travel)
    requires U.UniqueKeys(rows) && StandsApart(n, edges, k) && edges[k] in C.View(n, rows)
    requires HopOf(edges[k]) in travel
    ensures var e, hop := edges[k], HopOf(edges[k]);
            exists got :: got in C.View(n, Written(rows, edges, travel, stop, wait))
                          && got.Composite? && U.SamePair(got, e) && got.travel == travel[hop]
                          && got.stop == (if hop in stop then stop[hop] else e.stop)
                          && got.waiting == if hop in wait then wait[hop] else e.waiting
  {
    HistoriesArePlausible(known, trips, travel, Travel, HopOf(edges[k]));
    TimesAreReadBack(n, rows, edges, k, travel, stop, wait);
    UpdatedTimes(edges, k, travel, stop, wait);
    var e := UpdatedAll(AfterTwo(edges, travel, stop), wait, Wait)[k];
    var got :| got in C.View(n, Written(rows, edges, travel, stop, wait)) && IsShownAs(got, e);
    assert got.travel == travel[HopOf(edges[k])];
  }

  // ----- Connections that are no composites -----

  /** The other connections measured have no row in common with connection k, which is a row of its own. */
  ghost predicate StandsAlone(n: C.Network, edges: seq<C.Edge>, k: nat) {
    && k < |edges| && edges[k].Real? && Possible(n, edges)
    && forall i :: 0 <= i < |edges| && i != k ==> U.Apart(edges[i], edges[k])
  }

  lemma UpdatedStandsAlone(n: C.Network, edges: seq<C.Edge>, k: nat, typical: map<Key, int>, quantity: Quantity)
    requires StandsAlone(n, edges, k)
    ensures StandsAlone(n, UpdatedAll(edges, typical, quantity), k)
    ensures UpdatedAll(edges, typical, quantity)[k] == Updated(edges[k], typical, quantity)
  {
    var es := UpdatedAll(edges, typical, quantity);
    UpdatedAt(edges, typical, quantity, k);
    forall i | 0 <= i < |es|
      ensures es[i].Composite? ==> C.LeadsOn(n, es[i].first, es[i].second)
      ensures i != k ==> U.Apart(es[i], es[k])
    {
      UpdatedAt(edges, typical, quantity, i);
      assert edges[i] in edges;
      if i != k {
        UpdatedStaysApart(edges[k], edges[i], typical, quantity);
        UpdatedStaysApart(edges[k], Updated(edges[i], typical, quantity), typical, quantity);
      }
    }
  }

  lemma OtherLeavesRow(n: C.Network, rows: seq<C.Row>, f: C.Edge, r: C.Row)
    requires U.UniqueKeys(rows) && U.Apart(f, C.Real(r)) && (f.Composite? ==> C.LeadsOn(n, f.first, f.second))
    ensures U.UniqueKeys(U.Stored(rows, f)) && (r in U.Stored(rows, f) <==> r in rows)
  {
    assert !U.SameKey(C.Halves(f)[0], C.Halves(C.Real(r))[0]);
    if f.Composite? {
      assert !U.SameKey(C.Halves(f)[1], C.Halves(C.Real(r))[0]);
      U.HalvesDiffer(n, f);
      U.StoredRows(rows, f);
    } else {
      U.UpsertRows(rows, f.row);
    }
  }

  lemma {:induction false} OthersLeaveRow(n: C.Network, rows: seq<C.Row>, stored: seq<C.Edge>, r: C.Row)
    requires U.UniqueKeys(rows) && Possible(n, stored) && forall f :: f in stored ==> U.Apart(f, C.Real(r))
    ensures U.UniqueKeys(U.StoreAll(rows, stored)) && (r in U.StoreAll(rows, stored) <==> r in rows)
    decreases |stored|
  {
    if stored != [] {
      var front, f := stored[..|stored| - 1], stored[|stored| - 1];
      assert f in stored && forall g :: g in front ==> g in stored;
      OthersLeaveRow(n, rows, front, r);
      OtherLeavesRow(n, U.StoreAll(rows, front), f, r);
    }
  }

  lemma OwnTurnIsStored(rows: seq<C.Row>, e: C.Edge, typical: map<Key, int>, quantity: Quantity)
    requires U.UniqueKeys(rows) && e.Real? && e.row in rows
    ensures Updated(e, typical, quantity).Real?
    ensures var rows' := U.StoreAll(rows, Writes([e], typical, quantity));
            U.UniqueKeys(rows') && Updated(e, typical, quantity).row in rows'
  {
    WriteOneMore(rows, [], e, typical, quantity);
    assert [] + [e] == [e];
    if HopOf(e) in typical {
      U.UpsertRows(rows, Updated(e, typical, quantity).row);
    }
  }

  lemma StandingAloneIsStored(n: C.Network, rows: seq<C.Row>, edges: seq<C.Edge>, k: nat, typical: map<Key, int>,
                              quantity: Quantity)
    requires StandsAlone(n, edges, k) && U.UniqueKeys(rows) && edges[k].row in rows
    ensures StandsAlone(n, UpdatedAll(edges, typical, quantity), k)
    ensures var rows' := U.StoreAll(rows, Writes(edges, typical, quantity));
            U.UniqueKeys(rows') && UpdatedAll(edges, typical, quantity)[k].row in rows'
  {
    var before, e, after := edges[..k], edges[k], edges[k + 1..];
    var e' := Updated(e, typical, quantity);
    assert edges == before + [e] + after && e in edges;
    UpdatedStandsAlone(n, edges, k, typical, quantity);
    forall f | f in before || f in after
      ensures f in edges && U.Apart(f, e) && U.Apart(f, e')
    {
      UpdatedStaysApart(e, f, typical, quantity);
    }
    WritesStayApart(n, before, e, typical, quantity);
    WritesStayApart(n, after, e', typical, quantity);
    var rows1 := U.StoreAll(rows, Writes(before, typical, quantity));
    OthersLeaveRow(n, rows, Writes(before, typical, quantity), e.row);
    OwnTurnIsStored(rows1, e, typical, quantity);
    OthersLeaveRow(n, U.StoreAll(rows1, Writes([e], typical, quantity)), Writes(after, typical, quantity), e'.row);
    LoopStores(rows, before, e, after, typical, quantity);
  }

  /** The row of a connection that is no composite, and shares no row with another one measured, ends up
      with the typical times there are, and with its old times where there are none. */
  lemma {:induction false} RowGetsTypicalTimes(n: C.Network, rows: seq<C.Row>, edges: seq<C.Edge>, k: nat,
                                               travel: map<Key, int>, stop: map<Key, int>, wait: map<Key, int>)
    requires StandsAlone(n, edges, k) && U.UniqueKeys(rows) && edges[k].row in rows
    ensures var r := edges[k].row;
            var hop := Hop(r.from, r.to);
            r.(travel := if hop in travel then travel[hop] else r.travel,
               stop := if hop in stop then stop[hop] else r.stop,
               waiting := if hop in wait then wait[hop] else r.waiting) in Written(rows, edges, travel, stop, wait)
  {
    var edges1 := UpdatedAll(edges, travel, Travel);
    var rows1 := U.StoreAll(rows, Writes(edges, travel, Travel));
    StandingAloneIsStored(n, rows, edges, k, travel, Travel);
    StandingAloneIsStored(n, rows1, edges1, k, stop, Stop);
    var rows2 := U.StoreAll(rows1, Writes(edges1, stop, Stop));
    StandingAloneIsStored(n, rows2, AfterTwo(edges, travel, stop), k, wait, Wait);
    UpdatedAt(edges, travel, Travel, k);
    UpdatedAt(edges1, stop, Stop, k);
    UpdatedAt(AfterTwo(edges, travel, stop), wait, Wait, k);
  }

  lemma {:induction false} WritesAreMeasured(n: C.Network, edges: seq<C.Edge>, typical: map<Key, int>,
                                             quantity: Quantity, r: C.Row)
    requires Possible(n, edges) && forall e :: e in edges && HopOf(e) in typical ==> U.Apart(e, C.Real(r))
    ensures var stored := Writes(edges, typical, quantity);
            Possible(n, stored) && forall f :: f in stored ==> U.Apart(f, C.Real(r))
    decreases |edges|
  {
    if edges != [] {
      var front, e := edges[..|edges| - 1], edges[|edges| - 1];
      assert e in edges && forall f :: f in front ==> f in edges;
      WritesAreMeasured(n, front, typical, quantity, r);
      if HopOf(e) in typical {
        UpdatedStaysApart(C.Real(r), e, typical, quantity);
      }
    }
  }

  lemma {:induction false} UpdatedMembers(n: C.Network, edges: seq<C.Edge>, typical: map<Key, int>,
                                          quantity: Quantity, r: C.Row, hops: set<Key>)
    requires Possible(n, edges) && forall e :: e in edges && HopOf(e) in hops ==> U.Apart(e, C.Real(r))
    ensures var es := UpdatedAll(edges, typical, quantity);
            Possible(n, es) && forall e :: e in es && HopOf(e) in hops ==> U.Apart(e, C.Real(r))
    decreases |edges|
  {
    if edges != [] {
      var front, e := edges[..|edges| - 1], edges[|edges| - 1];
      assert e in edges && forall f :: f in front ==> f in edges;
      UpdatedMembers(n, front, typical, quantity, r, hops);
      if HopOf(e) in hops {
        UpdatedStaysApart(C.Real(r), e, typical, quantity);
      }
    }
  }

  /** A row that belongs to no connection with a typical time of any kind is left as it is. */
  lemma {:induction false} OthersKeepTheirTimes(n: C.Network, rows: seq<C.Row>, edges: seq<C.Edge>, r: C.Row,
                                                travel: map<Key, int>, stop: map<Key, int>, wait: map<Key, int>)
    requires U.UniqueKeys(rows) && Possible(n, edges)
    requires forall e :: e in edges && HopOf(e) in travel.Keys + stop.Keys + wait.Keys ==> U.Apart(e, C.Real(r))
    ensures r in Written(rows, edges, travel, stop, wait) <==> r in rows
  {
    var hops := travel.Keys + stop.Keys + wait.Keys;
    var edges1, edges2 := UpdatedAll(edges, travel, Travel), AfterTwo(edges, travel, stop);
    UpdatedMembers(n, edges, travel, Travel, r, hops);
    UpdatedMembers(n, edges1, stop, Stop, r, hops);
    WritesAreMeasured(n, edges, travel, Travel, r);
    WritesAreMeasured(n, edges1, stop, Stop, r);
    WritesAreMeasured(n, edges2, wait, Wait, r);
    var rows1 := U.StoreAll(rows, Writes(edges, travel, Travel));
    OthersLeaveRow(n, rows, Writes(edges, travel, Travel), r);
    OthersLeaveRow(n, rows1, Writes(edges1, stop, Stop), r);
    OthersLeaveRow(n, U.StoreAll(rows1, Writes(edges1, stop, Stop)), Writes(edges2, wait, Wait), r);
  }

  /** Even where connections share rows, a typical travel time is read back with the stop and waiting
      times stored with it, whatever was stored before, the same connection included, and as long as
      what is stored after has no row in common with it. */
  lemma {:induction false} TypicalTravelIsReadBack(known: set<Key>, trips: seq<seq<Use>>, typical: map<Key, int>,
                                                   key: Key, n: C.Network, rows: seq<C.Row>, edge: C.Edge,
                                                   stop: int, waiting: int, before: seq<C.Edge>, later: seq<C.Edge>)
    requires forall read :: read in trips ==> ReadFromCoherent(read)
    requires IsTypical(typical, AllSamples(known, trips), Travel) && key in typical
    requires U.UniqueKeys(rows) && edge.Composite? && C.LeadsOn(n, edge.first, edge.second)
    requires forall f :: f in before + later && f.Composite? ==> C.LeadsOn(n, f.first, f.second)
    requires forall f :: f in later ==> U.Apart(f, edge)
    ensures var written := edge.(travel := typical[key], stop := stop, waiting := waiting);
            exists got :: got in C.View(n, U.StoreAll(U.Stored(U.StoreAll(rows, before), written), later))
                          && got.Composite? && U.SamePair(got, edge) && U.SameTimes(got, written)
  {
    StoredTripsArePlausible(known, trips, typical, Travel, key);
    var written := edge.(travel := typical[key], stop := stop, waiting := waiting);
    U.StoreAllKeepsKeys(n, rows, before);
    U.PutThenGet(n, U.StoreAll(rows, before), written);
    forall f | f in later
      ensures U.Apart(f, written)
    {
      assert U.Apart(f, edge) && C.Halves(edge) == C.Halves(written);
    }
    U.PutIsStable(n, U.StoreAll(rows, before), written, later);
    var got := C.Compose(U.FirstStored(written), U.SecondStored(written));
    assert U.SameTimes(got, written);
  }

  // ----- Bounds on transfers -----

  lemma {:induction false} StopsInBounds(edges: seq<C.Edge>, change: Key, ss: seq<Sample>,
                                         linesOf: StationId -> seq<LineId>, lo: int, hi: int)
    requires change.Change?
    requires forall e :: e in edges && LeadsAway(e, change, ss, linesOf) ==> lo <= StopOf(e) <= hi
    ensures var count := StopCount(edges, change, ss, linesOf);
            count * lo <= StopSum(edges, change, ss, linesOf) <= count * hi
    decreases |edges|
  {
    if edges != [] {
      var front := edges[..|edges| - 1];
      StopsInBounds(front, change, ss, linesOf, lo, hi);
      var count := StopCount(front, change, ss, linesOf);
      assert (count + 1) * lo == count * lo + lo && (count + 1) * hi == count * hi + hi;
      assert edges[|edges| - 1] in edges;
    }
  }

  lemma DifferenceFromBelow(m: int, count: int, total: int, stops: int, least: int, hi: int)
    requires 0 < m && 0 < count && m * least <= total && stops <= count * hi
    ensures (m * count) * (least - hi) <= total * count - m * stops
  {
    ScalingKeepsOrder(count, m * least, total);
    ScalingKeepsOrder(m, stops, count * hi);
    assert count * (m * least) == (m * count) * least;
    assert m * (count * hi) == (m * count) * hi;
  }

  lemma DifferenceInBounds(total: int, number: nat, stops: int, count: nat, lo: int, hi: int, least: int, most: int)
    requires 0 < number && 0 < count && count * lo <= stops <= count * hi
    requires number * (1000 * least) <= total <= number * (1000 * most)
    ensures least - hi <= TransferTime(total, number, stops, count) <= most - lo
  {
    var m := 1000 * number;
    assert number * (1000 * least) == m * least && number * (1000 * most) == m * most;
    DifferenceFromBelow(m, count, total, stops, least, hi);
    DifferenceFromBelow(m, count, -total, -stops, -most, -lo);
    MulPositive(number, count);
    assert 1000 * stops * number == m * stops;
    RoundedInBounds(total * count - m * stops, m * count, least - hi, most - lo);
  }

  /** With stop times in these bounds, a typical transfer time is within 20 s and 880 s of them. */
  lemma {:induction false} TransferTimesArePlausible(known: set<Key>, trips: seq<seq<Use>>, times: map<Key, int>,
                                                     edges: seq<C.Edge>, linesOf: StationId -> seq<LineId>,
                                                     change: Key, lo: int, hi: int)
    requires forall read :: read in trips ==> ReadFromHistory(read)
    requires IsTransferTimes(times, AllSamples(known, trips), edges, linesOf) && change in times && lo <= 0 <= hi
    requires forall e :: e in edges && LeadsAway(e, change, AllSamples(known, trips), linesOf) ==> lo <= StopOf(e) <= hi
    ensures -20 - hi <= times[change] <= 880 - lo
  {
    var ss := AllSamples(known, trips);
    HistoriesInOrder(trips);
    AllInBounds(known, trips);
    TotalInBounds(ss, Transfer, change);
    StopsInBounds(edges, change, ss, linesOf, lo, hi);
    if StopCount(edges, change, ss, linesOf) == 0 {
      MeanInBounds(Total(ss, Transfer, change), Number(ss, Transfer, change), -20, 880);
    } else {
      DifferenceInBounds(Total(ss, Transfer, change), Number(ss, Transfer, change), StopSum(edges, change, ss, linesOf),
                         StopCount(edges, change, ss, linesOf), lo, hi, -20, 880);
    }
  }
}
