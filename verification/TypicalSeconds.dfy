/** Measurements of the trips of the past month, and their means
    (compute/typseconds.go, the first half of UpdateTypicalSeconds). */
module TypicalSeconds {
  import opened Wrappers
  import opened Identifiers
  import opened Trips
  import opened TripTables

  /** What is measured: a connection, or a change from one line to another at a station. */
  datatype Key = Hop(from: StationId, to: StationId) | Change(at: StationId, source: LineId, target: LineId)

  datatype Quantity = Travel | Stop | Wait | Transfer

  /** One measurement, in milliseconds. */
  datatype Sample = Sample(key: Key, quantity: Quantity, ms: int)

  /** What one connection of a trip is evidence of. */
  function FromConnection(source: Use, target: Use): seq<Sample> {
    var key := Hop(source.station, target.station);
    var gap, wait := target.entry - source.leave, source.leave - source.entry;
    (if gap < 600_000 then [Sample(key, Travel, gap + 20_000)] else [])
    + if source.kind.NetworkEntry? && wait < 180_000 then [Sample(key, Wait, wait - 20_000)]
      else if source.kind.GoneThrough? && wait < 180_000 then [Sample(key, Stop, wait - 20_000)]
      else []
  }

  function ChangeOf(u: Use): Option<Key> {
    if u.sourceLine.None? || u.targetLine.None? then None
    else Some(Change(u.station, u.sourceLine.value, u.targetLine.value))
  }

  predicate Transfers(u: Use) {
    !u.manual && u.kind.Interchange?
  }

  /** What a change of lines is evidence of. */
  function FromTransfer(u: Use): seq<Sample> {
    if Transfers(u) && ChangeOf(u).Some? && u.leave - u.entry < 900_000 then
      [Sample(ChangeOf(u).value, Transfer, u.leave - u.entry - 20_000)]
    else []
  }

  /** Whether the step from use i to the next one is measured at all. */
  predicate Measured(known: set<Key>, uses: seq<Use>, i: nat)
    requires i + 1 < |uses|
  {
    && !uses[i].manual && !uses[i + 1].manual && Hop(uses[i].station, uses[i + 1].station) in known
    && !(i + 2 < |uses| && uses[i + 2].entry - uses[i + 1].entry < 1000)
  }

  /** A transfer the network no longer has ends the processing of the trip. */
  predicate Abandoned(known: set<Key>, u: Use) {
    Transfers(u) && (ChangeOf(u).None? || ChangeOf(u).value !in known)
  }

  /** What use i, and the step from it to the next one, are evidence of. */
  function StepSamples(known: set<Key>, uses: seq<Use>, i: nat): seq<Sample>
    requires i + 1 < |uses|
  {
    FromTransfer(uses[i]) + if Measured(known, uses, i) then FromConnection(uses[i], uses[i + 1]) else []
  }

  /** The measurements of a trip from use i on. */
  function TripSamples(known: set<Key>, uses: seq<Use>, i: nat): seq<Sample>
    decreases |uses| - i
  {
    if i + 1 >= |uses| || Abandoned(known, uses[i]) then []
    else StepSamples(known, uses, i) + TripSamples(known, uses, i + 1)
  }

  function AllSamples(known: set<Key>, trips: seq<seq<Use>>): seq<Sample> {
    if trips == [] then [] else AllSamples(known, trips[..|trips| - 1]) + TripSamples(known, trips[|trips| - 1], 0)
  }

  function Total(ss: seq<Sample>, quantity: Quantity, key: Key): int {
    if ss == [] then 0
    else Total(ss[..|ss| - 1], quantity, key)
         + if ss[|ss| - 1].quantity == quantity && ss[|ss| - 1].key == key then ss[|ss| - 1].ms else 0
  }

  function Number(ss: seq<Sample>, quantity: Quantity, key: Key): nat {
    if ss == [] then 0
    else Number(ss[..|ss| - 1], quantity, key)
         + if ss[|ss| - 1].quantity == quantity && ss[|ss| - 1].key == key then 1 else 0
  }

  /** The quotient rounded to a whole number, halves away from zero. */
  function Rounded(x: int, d: nat): int
    requires 0 < d
  {
    if 0 <= x then (2 * x + d) / (2 * d) else -((-2 * x + d) / (2 * d))
  }

  /** The mean in whole seconds. */
  function RoundedMean(totalMs: int, number: nat): int
    requires 0 < number
  {
    Rounded(totalMs, 1000 * number)
  }

  lemma {:induction false} SumsAppend(ss: seq<Sample>, more: seq<Sample>, quantity: Quantity, key: Key)
    ensures Total(ss + more, quantity, key) == Total(ss, quantity, key) + Total(more, quantity, key)
    ensures Number(ss + more, quantity, key) == Number(ss, quantity, key) + Number(more, quantity, key)
    decreases |more|
  {
    if more == [] {
      assert ss + more == ss;
    } else {
      var n := |more| - 1;
      assert ss + more == (ss + more[..n]) + [more[n]] && (ss + more)[..|ss + more| - 1] == ss + more[..n];
      SumsAppend(ss, more[..n], quantity, key);
    }
  }

  // ----- Adding up -----

  /** Numerators and denominators of the averages of one quantity. */
  class Averages {
    var numerator: map<Key, int>
    var denominator: map<Key, nat>

    constructor ()
      ensures numerator == map[] && denominator == map[]
    {
      numerator, denominator := map[], map[];
    }

    ghost predicate Holds(ss: seq<Sample>, quantity: Quantity)
      reads this
    {
      && numerator.Keys == denominator.Keys
      && forall key :: if key in denominator then numerator[key] == Total(ss, quantity, key)
                                                  && denominator[key] == Number(ss, quantity, key) > 0
                       else Total(ss, quantity, key) == 0 && Number(ss, quantity, key) == 0
    }

    method Add(s: Sample, ghost ss: seq<Sample>, quantity: Quantity)
      requires Holds(ss, quantity)
      modifies this
      ensures Holds(ss + [s], quantity)
    {
      ghost var was, wasNumber := numerator, denominator;
      if s.quantity == quantity {
        numerator := numerator[s.key := (if s.key in numerator then numerator[s.key] else 0) + s.ms];
        denominator := denominator[s.key := (if s.key in denominator then denominator[s.key] else 0) + 1];
      }
      assert (ss + [s])[..|ss|] == ss;
      forall key
        ensures if key in denominator then numerator[key] == Total(ss + [s], quantity, key)
                                           && denominator[key] == Number(ss + [s], quantity, key) > 0
                else Total(ss + [s], quantity, key) == 0 && Number(ss + [s], quantity, key) == 0
      {
        assert if key in wasNumber then was[key] == Total(ss, quantity, key)
                                        && wasNumber[key] == Number(ss, quantity, key) > 0
               else Total(ss, quantity, key) == 0 && Number(ss, quantity, key) == 0;
      }
    }

    /** The averages of the connections with at least two measurements. */
    method Typical(ghost ss: seq<Sample>, quantity: Quantity) returns (typical: map<Key, int>)
      requires Holds(ss, quantity)
      ensures IsTypical(typical, ss, quantity)
    {
      typical := map[];
      var left := denominator.Keys;
      while left != {}
        invariant left <= denominator.Keys
        invariant forall key :: key in typical <==> key in denominator && key !in left && denominator[key] >= 2
        invariant forall key :: key in typical ==>
                    denominator[key] > 0 && typical[key] == RoundedMean(numerator[key], denominator[key])
      {
        var key :| key in left;
        left := left - {key};
        if denominator[key] < 2 {
          continue;
        }
        typical := typical[key := RoundedMean(numerator[key], denominator[key])];
      }
    }
  }

  /** Exactly the connections with two measurements or more get their rounded mean. */
  ghost predicate IsTypical(typical: map<Key, int>, ss: seq<Sample>, quantity: Quantity) {
    && (forall key :: key in typical <==> Number(ss, quantity, key) >= 2)
    && (forall key :: key in typical ==>
          Number(ss, quantity, key) > 0
          && typical[key] == RoundedMean(Total(ss, quantity, key), Number(ss, quantity, key)))
  }

  /** The averages of all quantities. */
  class Sums {
    const travel: Averages
    const stop: Averages
    const wait: Averages
    const transfer: Averages

    constructor ()
      ensures fresh(Parts()) && Holds([])
    {
      travel := new Averages();
      stop := new Averages();
      wait := new Averages();
      transfer := new Averages();
    }

    function Parts(): set<Averages> {
      {travel, stop, wait, transfer}
    }

    ghost predicate Holds(ss: seq<Sample>)
      reads Parts()
    {
      && |Parts()| == 4
      && travel.Holds(ss, Travel) && stop.Holds(ss, Stop) && wait.Holds(ss, Wait) && transfer.Holds(ss, Transfer)
    }

    method Add(s: Sample, ghost ss: seq<Sample>)
      requires Holds(ss)
      modifies Parts()
      ensures Holds(ss + [s])
    {
      travel.Add(s, ss, Travel);
      stop.Add(s, ss, Stop);
      wait.Add(s, ss, Wait);
      transfer.Add(s, ss, Transfer);
    }

    method ProcessTransfer(use: Use, ghost ss: seq<Sample>)
      requires Holds(ss) && Transfers(use) && ChangeOf(use).Some?
      modifies Parts()
      ensures Holds(ss + FromTransfer(use))
    {
      ghost var goal := ss + FromTransfer(use);
      var seconds := use.leave - use.entry;
      if seconds < 900_000 {
        Add(Sample(ChangeOf(use).value, Transfer, seconds - 20_000), ss);
      } else {
        assert goal == ss;
      }
    }

    method ProcessConnection(source: Use, target: Use, ghost ss: seq<Sample>)
      requires Holds(ss)
      modifies Parts()
      ensures Holds(ss + FromConnection(source, target))
    {
      var key := Hop(source.station, target.station);
      ghost var ss1 := ss;
      var seconds := target.entry - source.leave;
      if seconds < 600_000 {
        Add(Sample(key, Travel, seconds + 20_000), ss1);
        ss1 := ss1 + [Sample(key, Travel, seconds + 20_000)];
      }
      var waitSeconds := source.leave - source.entry;
      if source.kind.NetworkEntry? && waitSeconds < 180_000 {
        Add(Sample(key, Wait, waitSeconds - 20_000), ss1);
        ss1 := ss1 + [Sample(key, Wait, waitSeconds - 20_000)];
      } else if source.kind.GoneThrough? && waitSeconds < 180_000 {
        Add(Sample(key, Stop, waitSeconds - 20_000), ss1);
        ss1 := ss1 + [Sample(key, Stop, waitSeconds - 20_000)];
      }
      assert ss1 == ss + FromConnection(source, target);
    }

    method ProcessTrip(known: set<Key>, uses: seq<Use>, ghost ss: seq<Sample>)
      requires Holds(ss)
      modifies Parts()
      ensures Holds(ss + TripSamples(known, uses, 0))
    {
      ghost var done, goal := ss, ss + TripSamples(known, uses, 0);
      var useIdx := 0;
      while useIdx + 1 < |uses|
        invariant done + TripSamples(known, uses, useIdx) == goal && Holds(done)
        decreases |uses| - useIdx
      {
        var sourceUse, targetUse := uses[useIdx], uses[useIdx + 1];
        ghost var rest := TripSamples(known, uses, useIdx + 1);
        if Abandoned(known, sourceUse) {
          break;
        }
        if Transfers(sourceUse) {
          ProcessTransfer(sourceUse, done);
        } else {
          assert done + FromTransfer(sourceUse) == done;
        }
        ghost var done' := done + FromTransfer(sourceUse);
        if Measured(known, uses, useIdx) {
          ProcessConnection(sourceUse, targetUse, done');
        } else {
          assert done' + [] == done';
        }
        Regroup(done, FromTransfer(sourceUse), StepSamples(known, uses, useIdx)[|FromTransfer(sourceUse)|..], rest);
        done, useIdx := done + StepSamples(known, uses, useIdx), useIdx + 1;
      }
      assert done + [] == done;
    }
  }

  lemma Regroup(a: seq<Sample>, b: seq<Sample>, c: seq<Sample>, d: seq<Sample>)
    ensures a + (b + c) == a + b + c && a + ((b + c) + d) == a + (b + c) + d
  {
  }

  // ----- What repaired trips give -----

  /** In whole seconds, the smallest and the largest measurement a trip in order can give. */
  function LeastSeconds(quantity: Quantity): int {
    if quantity.Travel? then 20 else -20
  }

  function MostSeconds(quantity: Quantity): int {
    if quantity.Travel? then 620 else if quantity.Transfer? then 880 else 160
  }

  ghost predicate InBounds(ss: seq<Sample>) {
    forall s :: s in ss ==> 1000 * LeastSeconds(s.quantity) <= s.ms <= 1000 * MostSeconds(s.quantity)
  }

  lemma StepInBounds(known: set<Key>, uses: seq<Use>, i: nat)
    requires InOrder(uses) && i + 1 < |uses|
    ensures InBounds(StepSamples(known, uses, i))
  {
    assert uses[i].entry <= uses[i].leave <= uses[i + 1].entry;
  }

  lemma {:induction false} TripInBounds(known: set<Key>, uses: seq<Use>, i: nat)
    requires InOrder(uses)
    ensures InBounds(TripSamples(known, uses, i))
    decreases |uses| - i
  {
    if i + 1 < |uses| && !Abandoned(known, uses[i]) {
      StepInBounds(known, uses, i);
      TripInBounds(known, uses, i + 1);
    }
  }

  lemma {:induction false} AllInBounds(known: set<Key>, trips: seq<seq<Use>>)
    requires forall uses :: uses in trips ==> InOrder(uses)
    ensures InBounds(AllSamples(known, trips))
    decreases |trips|
  {
    if trips != [] {
      AllInBounds(known, trips[..|trips| - 1]);
      TripInBounds(known, trips[|trips| - 1], 0);
    }
  }

  lemma {:induction false} TotalInBounds(ss: seq<Sample>, quantity: Quantity, key: Key)
    requires InBounds(ss)
    ensures Number(ss, quantity, key) * (1000 * LeastSeconds(quantity)) <= Total(ss, quantity, key)
    ensures Total(ss, quantity, key) <= Number(ss, quantity, key) * (1000 * MostSeconds(quantity))
    decreases |ss|
  {
    if ss != [] {
      var front, s := ss[..|ss| - 1], ss[|ss| - 1];
      TotalInBounds(front, quantity, key);
      assert s in ss;
    }
  }

  lemma ScalingKeepsOrder(d: int, x: int, y: int)
    requires 0 <= d && x <= y
    ensures d * x <= d * y
  {
  }

  lemma RoundUp(x: nat, d: nat, lo: int, hi: int)
    requires 0 < d && d * lo <= x <= d * hi
    ensures lo <= (2 * x + d) / (2 * d) <= hi
  {
    var q, r := (2 * x + d) / (2 * d), (2 * x + d) % (2 * d);
    assert 2 * (d * q) + r == 2 * x + d;
    if q > hi {
      ScalingKeepsOrder(d, hi + 1, q);
    } else if q < lo {
      ScalingKeepsOrder(d, q, lo - 1);
    }
  }

  lemma RoundedInBounds(x: int, d: nat, lo: int, hi: int)
    requires 0 < d && d * lo <= x <= d * hi
    ensures lo <= Rounded(x, d) <= hi
  {
    if 0 <= x {
      if hi < 0 {
        ScalingKeepsOrder(d, hi, -1);
      }
      RoundUp(x, d, lo, hi);
    } else {
      if 0 < lo {
        ScalingKeepsOrder(d, 1, lo);
      }
      RoundUp(-x, d, -hi, -lo);
    }
  }

  lemma MeanInBounds(total: int, number: nat, lo: int, hi: int)
    requires 0 < number && number * (1000 * lo) <= total <= number * (1000 * hi)
    ensures lo <= RoundedMean(total, number) <= hi
  {
    var d := 1000 * number;
    assert number * (1000 * lo) == d * lo && number * (1000 * hi) == d * hi;
    RoundedInBounds(total, d, lo, hi);
  }

  /** From trips in order, every typical travel time lies between 20 s and 620 s, every typical stop
      or waiting time between -20 s and 160 s, and every mean of a transfer between -20 s and 880 s. */
  lemma {:induction false} TypicalIsPlausible(known: set<Key>, trips: seq<seq<Use>>, typical: map<Key, int>,
                                              quantity: Quantity, key: Key)
    requires forall uses :: uses in trips ==> InOrder(uses)
    requires IsTypical(typical, AllSamples(known, trips), quantity) && key in typical
    ensures LeastSeconds(quantity) <= typical[key] <= MostSeconds(quantity)
  {
    var ss := AllSamples(known, trips);
    AllInBounds(known, trips);
    TotalInBounds(ss, quantity, key);
    MeanInBounds(Total(ss, quantity, key), Number(ss, quantity, key), LeastSeconds(quantity), MostSeconds(quantity));
  }

  /** The trip was read from rows that do not overlap. */
  ghost predicate ReadFromCoherent(read: seq<Use>) {
    exists rows :: Coherent(rows) && IsReading(rows, read)
  }

  /** Trips read from the table give plausible times if no edit left uses that overlap. */
  lemma {:induction false} StoredTripsArePlausible(known: set<Key>, trips: seq<seq<Use>>, typical: map<Key, int>,
                                                   quantity: Quantity, key: Key)
    requires forall read :: read in trips ==> ReadFromCoherent(read)
    requires IsTypical(typical, AllSamples(known, trips), quantity) && key in typical
    ensures match quantity
            case Travel => 20 <= typical[key] <= 620
            case Transfer => -20 <= typical[key] <= 880
            case _ => -20 <= typical[key] <= 160
  {
    forall read | read in trips
      ensures InOrder(read)
    {
      assert ReadFromCoherent(read);
      var rows :| Coherent(rows) && IsReading(rows, read);
      ReadInOrderIff(rows, read);
    }
    TypicalIsPlausible(known, trips, typical, quantity, key);
  }

  /** The trip was read from the rows that a clean history of stores left. */
  ghost predicate ReadFromHistory(read: seq<Use>) {
    exists stores :: CleanHistory(stores) && IsReading(StoreHistory(stores), read)
  }

  lemma HistoriesInOrder(trips: seq<seq<Use>>)
    requires forall read :: read in trips ==> ReadFromHistory(read)
    ensures forall read :: read in trips ==> ReadFromCoherent(read) && InOrder(read)
  {
    forall read | read in trips
      ensures ReadFromCoherent(read) && InOrder(read)
    {
      assert ReadFromHistory(read);
      var stores :| CleanHistory(stores) && IsReading(StoreHistory(stores), read);
      HistoryIsCoherentIff(stores);
      ReadInOrderIff(StoreHistory(stores), read);
    }
  }

  /** So trips give plausible times whatever their histories, as long as no edit left a use in place
      that overlaps a new one. */
  lemma {:induction false} HistoriesArePlausible(known: set<Key>, trips: seq<seq<Use>>, typical: map<Key, int>,
                                                 quantity: Quantity, key: Key)
    requires forall read :: read in trips ==> ReadFromHistory(read)
    requires IsTypical(typical, AllSamples(known, trips), quantity) && key in typical
    ensures match quantity
            case Travel => 20 <= typical[key] <= 620
            case Transfer => -20 <= typical[key] <= 880
            case _ => -20 <= typical[key] <= 160
  {
    HistoriesInOrder(trips);
    StoredTripsArePlausible(known, trips, typical, quantity, key);
  }
}
