/** Of what a typical time is the mean (compute/typseconds.go), in terms of the uses of the trips. */
module Measurements {
  import opened Wrappers
  import opened Identifiers
  import opened Trips
  import opened TypicalSeconds
  import opened TypicalUpdates
  import C = Connections

  // ----- Which steps of a trip are measured -----

  /** A change of lines, not added by hand, that the network does not have. */
  predicate IsUnknownChange(known: set<Key>, u: Use) {
    && !u.manual && u.kind == Interchange
    && !(u.sourceLine.Some? && u.targetLine.Some?
         && Change(u.station, u.sourceLine.value, u.targetLine.value) in known)
  }

  /** Use i is not the last one, and neither it nor one before it is an unknown change. */
  ghost predicate IsReached(known: set<Key>, uses: seq<Use>, i: nat) {
    i + 1 < |uses| && forall j :: 0 <= j <= i ==> !IsUnknownChange(known, uses[j])
  }

  /** The step from use i to the next one goes along a known connection from a to b; neither use was added
      by hand, and the use after these, if there is one, begins a second or more later than the next one. */
  ghost predicate GoesAlong(known: set<Key>, uses: seq<Use>, i: nat, a: StationId, b: StationId) {
    && IsReached(known, uses, i) && !uses[i].manual && !uses[i + 1].manual
    && uses[i].station == a && uses[i + 1].station == b && Hop(a, b) in known
    && (i + 2 < |uses| ==> 1000 <= uses[i + 2].entry - uses[i + 1].entry)
  }

  function Gap(uses: seq<Use>, i: nat): int
    requires i + 1 < |uses|
  {
    uses[i + 1].entry - uses[i].leave
  }

  function Stay(u: Use): int {
    u.leave - u.entry
  }

  /** Travel times are of steps of less than ten minutes; waiting times of entries, and stop times of
      stations gone through, of less than three minutes; and transfer times of changes of less than
      fifteen. */
  ghost predicate IsMeasured(known: set<Key>, quantity: Quantity, key: Key, uses: seq<Use>, i: nat) {
    IsReached(known, uses, i)
    && match (quantity, key)
       case (Travel, Hop(a, b)) => GoesAlong(known, uses, i, a, b) && Gap(uses, i) < 600_000
       case (Wait, Hop(a, b)) =>
         GoesAlong(known, uses, i, a, b) && uses[i].kind == NetworkEntry && Stay(uses[i]) < 180_000
       case (Stop, Hop(a, b)) =>
         GoesAlong(known, uses, i, a, b) && uses[i].kind == GoneThrough && Stay(uses[i]) < 180_000
       case (Transfer, Change(at, source, target)) =>
         && !uses[i].manual && uses[i].kind == Interchange && uses[i].station == at
         && uses[i].sourceLine == Some(source) && uses[i].targetLine == Some(target) && Stay(uses[i]) < 900_000
       case _ => false
  }

  /** What such a step counts: 20 s more than the gap, or 20 s less than the stay. */
  function Worth(quantity: Quantity, uses: seq<Use>, i: nat): int
    requires i + 1 < |uses|
  {
    if quantity.Travel? then Gap(uses, i) + 20_000 else Stay(uses[i]) - 20_000
  }

  // ----- Adding them up -----

  /** How many of the first n steps of a trip are measured, and what these come to. */
  ghost function StepCount(known: set<Key>, quantity: Quantity, key: Key, uses: seq<Use>, n: nat): nat {
    if n == 0 then 0
    else StepCount(known, quantity, key, uses, n - 1) + if IsMeasured(known, quantity, key, uses, n - 1) then 1 else 0
  }

  ghost function StepSum(known: set<Key>, quantity: Quantity, key: Key, uses: seq<Use>, n: nat): int {
    if n == 0 then 0
    else StepSum(known, quantity, key, uses, n - 1)
         + if IsMeasured(known, quantity, key, uses, n - 1) then Worth(quantity, uses, n - 1) else 0
  }

  /** The same over all steps of all trips. */
  ghost function CountOver(known: set<Key>, quantity: Quantity, key: Key, trips: seq<seq<Use>>): nat {
    if trips == [] then 0
    else
      var uses := trips[|trips| - 1];
      CountOver(known, quantity, key, trips[..|trips| - 1]) + StepCount(known, quantity, key, uses, |uses|)
  }

  ghost function SumOver(known: set<Key>, quantity: Quantity, key: Key, trips: seq<seq<Use>>): int {
    if trips == [] then 0
    else
      var uses := trips[|trips| - 1];
      SumOver(known, quantity, key, trips[..|trips| - 1]) + StepSum(known, quantity, key, uses, |uses|)
  }

  lemma OneSample(s: Sample, quantity: Quantity, key: Key)
    ensures Total([s], quantity, key) == if s.quantity == quantity && s.key == key then s.ms else 0
    ensures Number([s], quantity, key) == if s.quantity == quantity && s.key == key then 1 else 0
  {
    assert [s][..0] == [];
  }

  lemma ConnectionSums(source: Use, target: Use, quantity: Quantity, key: Key)
    ensures var ss, gap, stay := FromConnection(source, target), target.entry - source.leave, Stay(source);
            var counts := && key == Hop(source.station, target.station)
                          && (if quantity.Travel? then gap < 600_000
                              else if quantity.Wait? then source.kind == NetworkEntry && stay < 180_000
                              else quantity.Stop? && source.kind == GoneThrough && stay < 180_000);
            && Number(ss, quantity, key) == (if counts then 1 else 0)
            && Total(ss, quantity, key)
               == if counts then if quantity.Travel? then gap + 20_000 else stay - 20_000 else 0
  {
    var hop, gap, stay := Hop(source.station, target.station), target.entry - source.leave, Stay(source);
    var travel := if gap < 600_000 then [Sample(hop, Travel, gap + 20_000)] else [];
    var rest := FromConnection(source, target)[|travel|..];
    assert FromConnection(source, target) == travel + rest;
    SumsAppend(travel, rest, quantity, key);
    OneSample(Sample(hop, Travel, gap + 20_000), quantity, key);
    OneSample(Sample(hop, Wait, stay - 20_000), quantity, key);
    OneSample(Sample(hop, Stop, stay - 20_000), quantity, key);
  }

  lemma TransferSums(u: Use, quantity: Quantity, key: Key)
    ensures var counts := && quantity.Transfer? && !u.manual && u.kind == Interchange && Stay(u) < 900_000
                          && u.sourceLine.Some? && u.targetLine.Some?
                          && key == Change(u.station, u.sourceLine.value, u.targetLine.value);
            && Number(FromTransfer(u), quantity, key) == (if counts then 1 else 0)
            && Total(FromTransfer(u), quantity, key) == if counts then Stay(u) - 20_000 else 0
  {
    if ChangeOf(u).Some? {
      OneSample(Sample(ChangeOf(u).value, Transfer, Stay(u) - 20_000), quantity, key);
    }
  }

  lemma StepSums(known: set<Key>, uses: seq<Use>, i: nat, quantity: Quantity, key: Key)
    requires IsReached(known, uses, i)
    ensures var ss, measured := StepSamples(known, uses, i), IsMeasured(known, quantity, key, uses, i);
            && Number(ss, quantity, key) == (if measured then 1 else 0)
            && Total(ss, quantity, key) == if measured then Worth(quantity, uses, i) else 0
  {
    var rest := if Measured(known, uses, i) then FromConnection(uses[i], uses[i + 1]) else [];
    SumsAppend(FromTransfer(uses[i]), rest, quantity, key);
    TransferSums(uses[i], quantity, key);
    ConnectionSums(uses[i], uses[i + 1], quantity, key);
  }

  /** Once a step is not reached none is. */
  lemma {:induction false} NothingMore(known: set<Key>, uses: seq<Use>, i: nat, n: nat, quantity: Quantity, key: Key)
    requires i <= n && !IsReached(known, uses, i)
    ensures StepCount(known, quantity, key, uses, n) == StepCount(known, quantity, key, uses, i)
    ensures StepSum(known, quantity, key, uses, n) == StepSum(known, quantity, key, uses, i)
    decreases n
  {
    if i < n {
      NothingMore(known, uses, i, n - 1, quantity, key);
      assert !IsReached(known, uses, n - 1);
    }
  }

  lemma OneMoreStep(known: set<Key>, uses: seq<Use>, i: nat, quantity: Quantity, key: Key)
    requires IsReached(known, uses, i)
    ensures StepCount(known, quantity, key, uses, i + 1) + Number(TripSamples(known, uses, i + 1), quantity, key)
         == StepCount(known, quantity, key, uses, i) + Number(TripSamples(known, uses, i), quantity, key)
    ensures StepSum(known, quantity, key, uses, i + 1) + Total(TripSamples(known, uses, i + 1), quantity, key)
         == StepSum(known, quantity, key, uses, i) + Total(TripSamples(known, uses, i), quantity, key)
  {
    var step, rest := StepSamples(known, uses, i), TripSamples(known, uses, i + 1);
    assert TripSamples(known, uses, i) == step + rest by {
      assert !IsUnknownChange(known, uses[i]);
    }
    SumsAppend(step, rest, quantity, key);
    StepSums(known, uses, i, quantity, key);
  }

  lemma {:induction false} TripSums(known: set<Key>, uses: seq<Use>, i: nat, quantity: Quantity, key: Key)
    requires i <= |uses| && forall j :: 0 <= j < i ==> !IsUnknownChange(known, uses[j])
    ensures StepCount(known, quantity, key, uses, |uses|)
         == StepCount(known, quantity, key, uses, i) + Number(TripSamples(known, uses, i), quantity, key)
    ensures StepSum(known, quantity, key, uses, |uses|)
         == StepSum(known, quantity, key, uses, i) + Total(TripSamples(known, uses, i), quantity, key)
    decreases |uses| - i
  {
    if !IsReached(known, uses, i) {
      NothingMore(known, uses, i, |uses|, quantity, key);
      assert TripSamples(known, uses, i) == [];
    } else {
      assert forall j :: 0 <= j < i + 1 ==> !IsUnknownChange(known, uses[j]);
      TripSums(known, uses, i + 1, quantity, key);
      OneMoreStep(known, uses, i, quantity, key);
    }
  }

  /** What is added up of all trips is what the measured steps come to. */
  lemma {:induction false} SumsAreOfSteps(known: set<Key>, trips: seq<seq<Use>>, quantity: Quantity, key: Key)
    ensures Number(AllSamples(known, trips), quantity, key) == CountOver(known, quantity, key, trips)
    ensures Total(AllSamples(known, trips), quantity, key) == SumOver(known, quantity, key, trips)
    decreases |trips|
  {
    if trips != [] {
      var front, uses := trips[..|trips| - 1], trips[|trips| - 1];
      SumsAreOfSteps(known, front, quantity, key);
      SumsAppend(AllSamples(known, front), TripSamples(known, uses, 0), quantity, key);
      TripSums(known, uses, 0, quantity, key);
    }
  }

  // ----- The mean -----

  /** r is the whole number nearest to x / d, and of two the one farther from zero. */
  predicate IsNearest(r: int, x: int, d: int) {
    -d <= 2 * (d * r - x) <= d && (2 * (d * r - x) == d ==> 0 < x) && (2 * (d * r - x) == -d ==> x < 0)
  }

  lemma QuotientIsNearest(x: nat, d: nat)
    requires 0 < d
    ensures IsNearest((2 * x + d) / (2 * d), x, d)
  {
    var q, r := (2 * x + d) / (2 * d), (2 * x + d) % (2 * d);
    assert 2 * (d * q) + r == 2 * x + d;
  }

  lemma RoundedIsNearest(x: int, d: nat)
    requires 0 < d
    ensures IsNearest(Rounded(x, d), x, d)
  {
    if 0 <= x {
      QuotientIsNearest(x, d);
    } else {
      var y: nat := -x;
      QuotientIsNearest(y, d);
      assert d * Rounded(x, d) == -(d * ((2 * y + d) / (2 * d)));
    }
  }

  /** Exactly the connections and changes with two measured steps or more have a typical time, and that is
      the mean of those steps, to the nearest second. */
  lemma TypicalIsMeanOfSteps(known: set<Key>, trips: seq<seq<Use>>, typical: map<Key, int>, quantity: Quantity,
                             key: Key)
    requires IsTypical(typical, AllSamples(known, trips), quantity)
    ensures key in typical <==> CountOver(known, quantity, key, trips) >= 2
    ensures key in typical ==>
              IsNearest(typical[key], SumOver(known, quantity, key, trips),
                        1000 * CountOver(known, quantity, key, trips))
  {
    SumsAreOfSteps(known, trips, quantity, key);
    if key in typical {
      RoundedIsNearest(Total(AllSamples(known, trips), quantity, key),
                       1000 * Number(AllSamples(known, trips), quantity, key));
    }
  }

  // ----- Transfers -----

  /** The connection leads away from the place of a change to a station of the line changed to, and its stop
      time was measured at least once. */
  ghost predicate IsOnward(e: C.Edge, at: StationId, target: LineId, known: set<Key>, trips: seq<seq<Use>>,
                           linesOf: StationId -> seq<LineId>)
  {
    && e.From() == at && target in linesOf(e.To())
    && 0 < CountOver(known, Stop, Hop(e.From(), e.To()), trips)
  }

  ghost function OnwardCount(edges: seq<C.Edge>, at: StationId, target: LineId, known: set<Key>, trips: seq<seq<Use>>,
                             linesOf: StationId -> seq<LineId>): nat
  {
    if edges == [] then 0
    else OnwardCount(edges[..|edges| - 1], at, target, known, trips, linesOf)
         + if IsOnward(edges[|edges| - 1], at, target, known, trips, linesOf) then 1 else 0
  }

  /** The sum of their stop times, as they are in memory. */
  ghost function OnwardStops(edges: seq<C.Edge>, at: StationId, target: LineId, known: set<Key>, trips: seq<seq<Use>>,
                             linesOf: StationId -> seq<LineId>): int
  {
    if edges == [] then 0
    else
      var e := edges[|edges| - 1];
      OnwardStops(edges[..|edges| - 1], at, target, known, trips, linesOf)
      + if !IsOnward(e, at, target, known, trips, linesOf) then 0 else if e.Real? then e.row.stop else e.stop
  }

  lemma {:induction false} OnwardIsStops(edges: seq<C.Edge>, change: Key, known: set<Key>, trips: seq<seq<Use>>,
                                         linesOf: StationId -> seq<LineId>)
    requires change.Change?
    ensures StopCount(edges, change, AllSamples(known, trips), linesOf)
         == OnwardCount(edges, change.at, change.target, known, trips, linesOf)
    ensures StopSum(edges, change, AllSamples(known, trips), linesOf)
         == OnwardStops(edges, change.at, change.target, known, trips, linesOf)
    decreases |edges|
  {
    if edges != [] {
      OnwardIsStops(edges[..|edges| - 1], change, known, trips, linesOf);
      SumsAreOfSteps(known, trips, Stop, HopOf(edges[|edges| - 1]));
    }
  }

  /** A transfer time is the mean of the measured changes less the mean stop time of the connections that
      lead on, to the nearest second. */
  lemma TransferTimesAreNet(known: set<Key>, trips: seq<seq<Use>>, times: map<Key, int>, edges: seq<C.Edge>,
                            linesOf: StationId -> seq<LineId>, at: StationId, source: LineId, target: LineId)
    requires IsTransferTimes(times, AllSamples(known, trips), edges, linesOf)
    ensures var key := Change(at, source, target);
            var count, total := CountOver(known, Transfer, key, trips), SumOver(known, Transfer, key, trips);
            var onward := OnwardCount(edges, at, target, known, trips, linesOf);
            var stops := OnwardStops(edges, at, target, known, trips, linesOf);
            && (key in times <==> count >= 2)
            && (key in times ==>
                  if onward == 0 then IsNearest(times[key], total, 1000 * count)
                  else IsNearest(times[key], total * onward - 1000 * stops * count, 1000 * count * onward))
  {
    var key, ss := Change(at, source, target), AllSamples(known, trips);
    SumsAreOfSteps(known, trips, Transfer, key);
    OnwardIsStops(edges, key, known, trips, linesOf);
    if key in times {
      var count, onward := Number(ss, Transfer, key), StopCount(edges, key, ss, linesOf);
      if onward == 0 {
        RoundedIsNearest(Total(ss, Transfer, key), 1000 * count);
      } else {
        MulPositive(count, onward);
        RoundedIsNearest(Total(ss, Transfer, key) * onward - 1000 * StopSum(edges, key, ss, linesOf) * count,
                         1000 * count * onward);
      }
    }
  }
}
