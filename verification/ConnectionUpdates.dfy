/** Storing a connection (types/connection.go, Connection.Update) and reading the view back. */
module ConnectionUpdates {
  import opened Identifiers
  import opened Measure
  import opened Connections

  predicate SameKey(r: Row, s: Row) {
    r.from == s.from && r.to == s.to
  }

  ghost predicate UniqueKeys(rows: seq<Row>) {
    forall i, j :: 0 <= i < j < |rows| ==> !SameKey(rows[i], rows[j])
  }

  /** INSERT ... ON CONFLICT DO UPDATE. */
  function Upsert(rows: seq<Row>, r: Row): seq<Row> {
    if rows == [] then [r]
    else if SameKey(rows[0], r) then [r] + rows[1..]
    else [rows[0]] + Upsert(rows[1..], r)
  }

  /** What the second half of a composite edge is left with. */
  function Remainder(t: int): int {
    if t - Half(t) < Half(t) then Half(t) else t - Half(t)
  }

  function FirstStored(edge: Edge): Row
    requires edge.Composite?
  {
    edge.first.(travel := Half(edge.travel), stop := edge.stop, waiting := edge.waiting)
  }

  function SecondStored(edge: Edge): Row
    requires edge.Composite?
  {
    edge.second.(travel := Remainder(edge.travel))
  }

  /** The table after an edge, changed or not since it was read, is stored. */
  function Stored(rows: seq<Row>, edge: Edge): seq<Row> {
    if edge.Real? then Upsert(rows, edge.row) else Upsert(Upsert(rows, FirstStored(edge)), SecondStored(edge))
  }

  class Table {
    var rows: seq<Row>
  }

  class Connection {
    var from: StationId
    var to: StationId
    var waiting: int
    var stop: int
    var travel: int
    var length: int
    var fromPlatform: string
    var toPlatform: string
    const isCompatFake: bool
    const compatOrigFirst: Connection?
    const compatOrigSecond: Connection?

    constructor Plain(r: Row)
      ensures !isCompatFake && AsRow() == r
    {
      from, to, waiting, stop, travel, length := r.from, r.to, r.waiting, r.stop, r.travel, r.length;
      fromPlatform, toPlatform := r.fromPlatform, r.toPlatform;
      isCompatFake, compatOrigFirst, compatOrigSecond := false, null, null;
    }

    constructor Fake(edge: Edge, first: Connection, second: Connection)
      requires edge.Composite? && !first.isCompatFake && !second.isCompatFake && first != second
      requires first.AsRow() == edge.first && second.AsRow() == edge.second
      ensures Valid() && isCompatFake && AsEdge() == edge
      ensures compatOrigFirst == first && compatOrigSecond == second
    {
      from, to, waiting, stop, travel, length :=
        edge.first.from, edge.second.to, edge.waiting, edge.stop, edge.travel, edge.length;
      fromPlatform, toPlatform := edge.fromPlatform, edge.toPlatform;
      isCompatFake, compatOrigFirst, compatOrigSecond := true, first, second;
    }

    function AsRow(): Row
      reads this
    {
      Row(from, to, waiting, stop, travel, length, fromPlatform, toPlatform)
    }

    predicate Valid() {
      isCompatFake ==>
        && compatOrigFirst != null && compatOrigSecond != null && compatOrigFirst != compatOrigSecond
        && !compatOrigFirst.isCompatFake && !compatOrigSecond.isCompatFake
    }

    function AsEdge(): Edge
      requires Valid()
      reads this, compatOrigFirst, compatOrigSecond
    {
      if isCompatFake then
        Composite(compatOrigFirst.AsRow(), compatOrigSecond.AsRow(), waiting, stop, travel, length,
                  fromPlatform, toPlatform)
      else Real(AsRow())
    }

    method Write(table: Table)
      modifies table
      ensures table.rows == Upsert(old(table.rows), AsRow())
    {
      table.rows := Upsert(table.rows, AsRow());
    }

    method Update(table: Table)
      requires Valid()
      modifies table, compatOrigFirst, compatOrigSecond
      ensures table.rows == Stored(old(table.rows), old(AsEdge()))
      ensures isCompatFake ==> compatOrigFirst.AsRow() == FirstStored(old(AsEdge()))
                               && compatOrigSecond.AsRow() == SecondStored(old(AsEdge()))
      ensures AsRow() == old(AsRow())
    {
      if isCompatFake {
        compatOrigFirst.travel := Half(travel);
        compatOrigSecond.travel := Half(travel);
        while compatOrigFirst.travel + compatOrigSecond.travel < travel
          modifies compatOrigSecond`travel
          invariant Half(travel) <= compatOrigSecond.travel <= Remainder(travel)
          decreases travel - compatOrigSecond.travel
        {
          compatOrigSecond.travel := compatOrigSecond.travel + 1;
        }
        compatOrigFirst.stop := stop;
        compatOrigFirst.waiting := waiting;
        compatOrigFirst.Write(table);
        compatOrigSecond.Write(table);
      } else {
        Write(table);
      }
    }
  }

  // ----- The table -----

  lemma {:induction false} UpsertMembers(rows: seq<Row>, r: Row, s: Row)
    requires UniqueKeys(rows)
    ensures s in Upsert(rows, r) <==> s == r || (s in rows && !SameKey(s, r))
    decreases |rows|
  {
    if rows != [] {
      var rest := rows[1..];
      UpsertMembers(rest, r, s);
      assert rows == [rows[0]] + rest;
      if SameKey(rows[0], r) && s in rest {
        var i :| 0 <= i < |rest| && rest[i] == s;
        assert rows[i + 1] == s && !SameKey(rows[0], rows[i + 1]);
      }
    }
  }

  lemma {:induction false} UpsertKeepsKeys(rows: seq<Row>, r: Row)
    requires UniqueKeys(rows)
    ensures UniqueKeys(Upsert(rows, r))
    decreases |rows|
  {
    if rows != [] {
      var rest := rows[1..];
      var rest' := if SameKey(rows[0], r) then rest else Upsert(rest, r);
      var head := if SameKey(rows[0], r) then r else rows[0];
      UpsertKeepsKeys(rest, r);
      forall j | 0 <= j < |rest'|
        ensures !SameKey(head, rest'[j])
      {
        UpsertMembers(rest, r, rest'[j]);
        assert rest'[j] in rest';
        assert forall i :: 0 <= i < |rest| ==> rest[i] == rows[i + 1] && !SameKey(rows[0], rows[i + 1]);
      }
      assert Upsert(rows, r) == [head] + rest';
    }
  }

  lemma UpsertRows(rows: seq<Row>, r: Row)
    requires UniqueKeys(rows)
    ensures UniqueKeys(Upsert(rows, r))
    ensures forall s :: s in Upsert(rows, r) <==> s == r || (s in rows && !SameKey(s, r))
  {
    UpsertKeepsKeys(rows, r);
    forall s
      ensures s in Upsert(rows, r) <==> s == r || (s in rows && !SameKey(s, r))
    {
      UpsertMembers(rows, r, s);
    }
  }

  /** Storing a composite edge puts its halves in the table and keeps all other rows. */
  lemma StoredRows(rows: seq<Row>, edge: Edge)
    requires UniqueKeys(rows) && edge.Composite? && !SameKey(edge.first, edge.second)
    ensures var rows' := Stored(rows, edge);
            && UniqueKeys(rows')
            && forall s :: s in rows' <==> || s == FirstStored(edge) || s == SecondStored(edge)
                                           || (s in rows && !SameKey(s, edge.first) && !SameKey(s, edge.second))
  {
    UpsertRows(rows, FirstStored(edge));
    UpsertRows(Upsert(rows, FirstStored(edge)), SecondStored(edge));
  }

  lemma KeyDetermines(rows: seq<Row>, r: Row, s: Row)
    requires UniqueKeys(rows) && r in rows && s in rows && SameKey(r, s)
    ensures r == s
  {
    var i :| 0 <= i < |rows| && rows[i] == r;
    var j :| 0 <= j < |rows| && rows[j] == s;
    assert !(i < j) && !(j < i);
  }

  // ----- Put and get -----

  /** Two composite edges that stand for the same pair of rows. */
  predicate SamePair(e: Edge, f: Edge)
    requires e.Composite? && f.Composite?
  {
    SameKey(e.first, f.first) && SameKey(e.second, f.second)
  }

  /** The times and waits a composite edge shows. */
  predicate SameTimes(e: Edge, f: Edge)
    requires e.Composite? && f.Composite?
  {
    e.travel == f.travel && e.stop == f.stop && e.waiting == f.waiting
  }

  lemma HalvesDiffer(n: Network, edge: Edge)
    requires edge.Composite? && LeadsOn(n, edge.first, edge.second)
    ensures !SameKey(edge.first, edge.second)
  {
  }

  /** The halves make up the stored time exactly for what Go's division splits without loss. */
  lemma SplitIsExactIff(t: int)
    ensures Half(t) + Remainder(t) == t <==> (0 <= t || t % 2 == 0)
    ensures t <= Half(t) + Remainder(t) <= t + 1
  {
  }

  /** The halves divide the time evenly: between them lies a second at most, which the second one takes, and
      what is lost of a negative time is a second at most.  The waits are those of the way out of the
      first station alone, and everything else stays as it was. */
  lemma HalvesAreEven(edge: Edge)
    requires edge.Composite?
    ensures var t, first, second := edge.travel, FirstStored(edge), SecondStored(edge);
            && first == edge.first.(travel := first.travel, stop := edge.stop, waiting := edge.waiting)
            && second == edge.second.(travel := second.travel)
            && if 0 <= t then first.travel <= second.travel <= first.travel + 1 && first.travel + second.travel == t
               else first.travel == second.travel && t <= first.travel + second.travel <= t + 1
  {
  }

  /** Rebuilding the view shows the composite edge that was stored, once; it shows the stored stop
      and waiting times, and the stored travel time exactly when that is non-negative or even. */
  lemma PutThenGet(n: Network, rows: seq<Row>, edge: Edge)
    requires UniqueKeys(rows) && edge.Composite? && LeadsOn(n, edge.first, edge.second)
    ensures var got := Compose(FirstStored(edge), SecondStored(edge));
            && got in View(n, Stored(rows, edge)) && SamePair(got, edge)
            && (forall f :: f in View(n, Stored(rows, edge)) && f.Composite? && SamePair(f, edge) ==> f == got)
            && got.stop == edge.stop && got.waiting == edge.waiting
            && (got.travel == edge.travel <==> 0 <= edge.travel || edge.travel % 2 == 0)
  {
    var rows', got := Stored(rows, edge), Compose(FirstStored(edge), SecondStored(edge));
    HalvesDiffer(n, edge);
    StoredRows(rows, edge);
    InView(n, rows', got);
    SplitIsExactIff(edge.travel);
    forall f | f in View(n, rows') && f.Composite? && SamePair(f, edge)
      ensures f == got
    {
      InView(n, rows', f);
      KeyDetermines(rows', f.first, FirstStored(edge));
      KeyDetermines(rows', f.second, SecondStored(edge));
    }
  }

  /** Two edges have no row in common. */
  predicate Apart(e: Edge, f: Edge) {
    forall i, j :: 0 <= i < |Halves(e)| && 0 <= j < |Halves(f)| ==> !SameKey(Halves(e)[i], Halves(f)[j])
  }

  /** Storing an edge changes no edge of the view that has no row in common with it. */
  lemma PutLeavesOthers(n: Network, rows: seq<Row>, edge: Edge, other: Edge)
    requires UniqueKeys(rows) && (edge.Composite? ==> LeadsOn(n, edge.first, edge.second)) && Apart(edge, other)
    ensures UniqueKeys(Stored(rows, edge))
    ensures other in View(n, Stored(rows, edge)) <==> other in View(n, rows)
  {
    InView(n, rows, other);
    InView(n, Stored(rows, edge), other);
    if edge.Composite? {
      HalvesDiffer(n, edge);
      StoredRows(rows, edge);
    } else {
      UpsertRows(rows, edge.row);
    }
    assert forall i :: 0 <= i < |Halves(other)| ==> !SameKey(Halves(edge)[0], Halves(other)[i]);
    assert edge.Composite? ==> forall i :: 0 <= i < |Halves(other)| ==> !SameKey(Halves(edge)[1], Halves(other)[i]);
    assert Halves(other)[0] in rows <==> Halves(other)[0] in Stored(rows, edge);
    if other.Composite? {
      assert Halves(other)[1] in rows <==> Halves(other)[1] in Stored(rows, edge);
    }
  }

  function StoreAll(rows: seq<Row>, edges: seq<Edge>): seq<Row> {
    if edges == [] then rows else Stored(StoreAll(rows, edges[..|edges| - 1]), edges[|edges| - 1])
  }

  lemma {:induction false} StoreAllKeepsKeys(n: Network, rows: seq<Row>, edges: seq<Edge>)
    requires UniqueKeys(rows) && forall f :: f in edges && f.Composite? ==> LeadsOn(n, f.first, f.second)
    ensures UniqueKeys(StoreAll(rows, edges))
    decreases |edges|
  {
    if edges != [] {
      var front, f := edges[..|edges| - 1], edges[|edges| - 1];
      StoreAllKeepsKeys(n, rows, front);
      if f.Composite? {
        HalvesDiffer(n, f);
        StoredRows(StoreAll(rows, front), f);
      } else {
        UpsertRows(StoreAll(rows, front), f.row);
      }
    }
  }

  /** What was put is still got after any number of edges apart from it have been stored. */
  lemma {:induction false} PutIsStable(n: Network, rows: seq<Row>, edge: Edge, later: seq<Edge>)
    requires UniqueKeys(rows) && edge.Composite? && LeadsOn(n, edge.first, edge.second)
    requires forall f :: f in later ==> Apart(f, edge) && (f.Composite? ==> LeadsOn(n, f.first, f.second))
    ensures var rows' := StoreAll(Stored(rows, edge), later);
            && UniqueKeys(rows')
            && Compose(FirstStored(edge), SecondStored(edge)) in View(n, rows')
    decreases |later|
  {
    var got := Compose(FirstStored(edge), SecondStored(edge));
    if later == [] {
      HalvesDiffer(n, edge);
      StoredRows(rows, edge);
      PutThenGet(n, rows, edge);
    } else {
      var front, f := later[..|later| - 1], later[|later| - 1];
      PutIsStable(n, rows, edge, front);
      assert Apart(f, edge);
      assert Apart(f, got) by {
        assert Halves(edge)[0] == edge.first && Halves(edge)[1] == edge.second;
      }
      PutLeavesOthers(n, StoreAll(Stored(rows, edge), front), f, got);
    }
  }

  /** A stored time that Go's division does not split exactly comes back one second longer. */
  lemma OddNegativeTravelIsLost(n: Network, rows: seq<Row>, edge: Edge)
    requires UniqueKeys(rows) && edge.Composite? && LeadsOn(n, edge.first, edge.second) && edge.travel == -3
    ensures Compose(FirstStored(edge), SecondStored(edge)) in View(n, Stored(rows, edge))
    ensures Compose(FirstStored(edge), SecondStored(edge)).travel == -2
  {
    PutThenGet(n, rows, edge);
  }
}
