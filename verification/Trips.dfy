/** Repairing the times of a trip (types/trip.go, the loop of Trip.Update). */
module Trips {
  import opened Wrappers
  import opened Identifiers
  import opened Measure

  datatype UseKind = NetworkEntry | NetworkExit | Interchange | GoneThrough | Visit

  /** How a trip used a station; times in milliseconds. */
  datatype Use = Use(station: StationId, entry: int, leave: int, kind: UseKind, manual: bool,
                     sourceLine: Option<LineId>, targetLine: Option<LineId>)

  /** Read in sequence, entry and leave times never go back. */
  ghost predicate InOrder(uses: seq<Use>) {
    && (forall i :: 0 <= i < |uses| ==> uses[i].entry <= uses[i].leave)
    && (forall i, j :: 0 <= i < j < |uses| ==> uses[i].leave <= uses[j].entry)
  }

  /** The same uses, but for their times, and none of the times earlier. */
  ghost predicate NoEarlier(uses: seq<Use>, was: seq<Use>) {
    |uses| == |was|
    && forall i :: 0 <= i < |was| ==>
         && uses[i] == was[i].(entry := uses[i].entry, leave := uses[i].leave)
         && was[i].entry <= uses[i].entry && was[i].leave <= uses[i].leave
  }

  /** The use, given when the one before it was left. */
  function Repaired(u: Use, earlier: Option<int>): Use {
    var entry := if earlier.Some? then Max(earlier.value, u.entry) else u.entry;
    u.(entry := entry, leave := Max(entry, u.leave))
  }

  function LeftAt(uses: seq<Use>): Option<int> {
    if uses == [] then None else Some(uses[|uses| - 1].leave)
  }

  /** Every time raised to the latest of the times up to it. */
  function Repair(uses: seq<Use>): (fixed: seq<Use>)
    ensures |fixed| == |uses|
  {
    if uses == [] then []
    else
      var front := Repair(uses[..|uses| - 1]);
      front + [Repaired(uses[|uses| - 1], LeftAt(front))]
  }

  lemma OneMoreUse(front: seq<Use>, was: seq<Use>, u: Use)
    requires InOrder(front) && NoEarlier(front, was)
    ensures var u' := Repaired(u, LeftAt(front)); InOrder(front + [u']) && NoEarlier(front + [u'], was + [u])
  {
    assert forall i :: 0 <= i < |front| ==> front[i].leave <= front[|front| - 1].leave;
  }

  lemma {:induction false} RepairIsInOrder(uses: seq<Use>)
    ensures InOrder(Repair(uses)) && NoEarlier(Repair(uses), uses)
    decreases |uses|
  {
    if uses != [] {
      var was := uses[..|uses| - 1];
      RepairIsInOrder(was);
      OneMoreUse(Repair(was), was, uses[|uses| - 1]);
      assert was + [uses[|uses| - 1]] == uses;
    }
  }

  /** Of all trips in order with no time earlier, the repaired one is the earliest. */
  lemma {:induction false} RepairIsLeast(uses: seq<Use>, other: seq<Use>)
    requires InOrder(other) && NoEarlier(other, uses)
    ensures NoEarlier(other, Repair(uses))
    decreases |uses|
  {
    if uses != [] {
      var n := |uses| - 1;
      RepairIsLeast(uses[..n], other[..n]);
      RepairIsInOrder(uses);
    }
  }

  lemma NoEarlierBothWays(uses: seq<Use>, other: seq<Use>)
    requires NoEarlier(uses, other) && NoEarlier(other, uses)
    ensures uses == other
  {
  }

  /** Trips with their times in order are left as they are, and only those. */
  lemma {:induction false} RepairFixes(uses: seq<Use>)
    ensures Repair(uses) == uses <==> InOrder(uses)
  {
    RepairIsInOrder(uses);
    if InOrder(uses) {
      RepairIsLeast(uses, uses);
      NoEarlierBothWays(Repair(uses), uses);
    }
  }

  lemma {:induction false} RepairIsIdempotent(uses: seq<Use>)
    ensures Repair(Repair(uses)) == Repair(uses)
  {
    RepairIsInOrder(uses);
    RepairFixes(Repair(uses));
  }
}
