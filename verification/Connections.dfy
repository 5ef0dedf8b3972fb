/** Connections between stations (types/connection.go).  While a station is closed, a view of the
    network replaces the edges into it by composite edges to the stations beyond, and storing a
    composite edge writes to the two edges it stands for. */
module Connections {
  import opened Identifiers

  /** A row of the connection table; the two stations are its key. */
  datatype Row = Row(from: StationId, to: StationId, waiting: int, stop: int, travel: int, length: int,
                     fromPlatform: string, toPlatform: string)

  /** What the network says of its stations. */
  datatype Network = Network(closed: StationId -> bool, linesOf: StationId -> seq<LineId>)

  /** A connection of the compatibility view. */
  datatype Edge =
    | Real(row: Row)
    | Composite(first: Row, second: Row, waiting: int, stop: int, travel: int, length: int,
                fromPlatform: string, toPlatform: string)
  {
    function From(): StationId {
      if Real? then row.from else first.from
    }

    function To(): StationId {
      if Real? then row.to else second.to
    }

    function Travel(): int {
      if Real? then row.travel else travel
    }

    function Length(): int {
      if Real? then row.length else length
    }
  }

  predicate ShareLine(n: Network, a: StationId, b: StationId) {
    exists i, j :: 0 <= i < |n.linesOf(a)| && 0 <= j < |n.linesOf(b)| && n.linesOf(a)[i] == n.linesOf(b)[j]
  }

  /** c leads on from the closed station that e leads to, and not straight back. */
  predicate LeadsOn(n: Network, e: Row, c: Row) {
    n.closed(e.to) && c.from == e.to && c.to != e.from && ShareLine(n, e.from, c.to)
  }

  function Compose(e: Row, c: Row): Edge {
    Composite(e, c, e.waiting, e.stop, e.travel + c.travel, e.length + c.length, e.fromPlatform, e.toPlatform)
  }

  function RowsFrom(rows: seq<Row>, from: StationId): seq<Row> {
    if rows == [] then []
    else RowsFrom(rows[..|rows| - 1], from) + if rows[|rows| - 1].from == from then [rows[|rows| - 1]] else []
  }

  function Candidates(n: Network, e: Row, cs: seq<Row>): seq<Row> {
    if cs == [] then []
    else
      var c := cs[|cs| - 1];
      Candidates(n, e, cs[..|cs| - 1]) + if LeadsOn(n, e, c) then [c] else []
  }

  function Composites(e: Row, cs: seq<Row>): seq<Edge> {
    if cs == [] then [] else Composites(e, cs[..|cs| - 1]) + [Compose(e, cs[|cs| - 1])]
  }

  /** The edges that stand for e followed by one of the rows. */
  function Replacements(n: Network, rows: seq<Row>, e: Row): seq<Edge> {
    Composites(e, Candidates(n, e, RowsFrom(rows, e.to)))
  }

  /** What the view shows in the place of row e. */
  function Part(n: Network, rows: seq<Row>, e: Row): seq<Edge> {
    if n.closed(e.to) then Replacements(n, rows, e) else [Real(e)]
  }

  /** The view of the first k rows. */
  function ViewUpTo(n: Network, rows: seq<Row>, k: nat): seq<Edge>
    requires k <= |rows|
  {
    if k == 0 then []
    else
      ViewUpTo(n, rows, k - 1) + Part(n, rows, rows[k - 1])
  }

  function View(n: Network, rows: seq<Row>): seq<Edge> {
    ViewUpTo(n, rows, |rows|)
  }

  method GetConnectionsFrom(rows: seq<Row>, from: StationId) returns (found: seq<Row>)
    ensures found == RowsFrom(rows, from)
  {
    found := [];
    for i := 0 to |rows|
      invariant found == RowsFrom(rows[..i], from)
    {
      assert rows[..i + 1][..i] == rows[..i];
      if rows[i].from == from {
        found := found + [rows[i]];
      }
    }
    assert rows[..|rows|] == rows;
  }

  method FindCandidates(n: Network, connection: Row, connFromClosed: seq<Row>) returns (candidates: seq<Row>)
    requires n.closed(connection.to) && forall c :: c in connFromClosed ==> c.from == connection.to
    ensures candidates == Candidates(n, connection, connFromClosed)
  {
    candidates := [];
    for i := 0 to |connFromClosed|
      invariant candidates == Candidates(n, connection, connFromClosed[..i])
    {
      var c := connFromClosed[i];
      assert c in connFromClosed && connFromClosed[..i + 1][..i] == connFromClosed[..i];
      if c.to == connection.from {
        continue;
      }
      if ShareLine(n, connection.from, c.to) {
        candidates := candidates + [c];
      }
    }
    assert connFromClosed[..|connFromClosed|] == connFromClosed;
  }

  method ProvideClosedCompat(n: Network, origConnections: seq<Row>) returns (connections: seq<Edge>)
    ensures connections == View(n, origConnections)
  {
    connections := [];
    for k := 0 to |origConnections|
      invariant connections == ViewUpTo(n, origConnections, k)
    {
      var connection := origConnections[k];
      if n.closed(connection.to) {
        var connFromClosed := GetConnectionsFrom(origConnections, connection.to);
        FromAreFrom(origConnections, connection.to);
        var candidates := FindCandidates(n, connection, connFromClosed);
        var composites: seq<Edge> := [];
        for i := 0 to |candidates|
          invariant composites == Composites(connection, candidates[..i])
        {
          assert candidates[..i + 1][..i] == candidates[..i];
          composites := composites + [Compose(connection, candidates[i])];
        }
        assert candidates[..|candidates|] == candidates;
        connections := connections + composites;
      } else {
        connections := connections + [Real(connection)];
      }
    }
  }

  // ----- What is in the view -----

  lemma {:induction false} FromAreFrom(rows: seq<Row>, from: StationId)
    ensures forall r :: r in RowsFrom(rows, from) <==> r in rows && r.from == from
    decreases |rows|
  {
    if rows != [] {
      FromAreFrom(rows[..|rows| - 1], from);
    }
  }

  lemma {:induction false} CandidatesLeadOn(n: Network, e: Row, cs: seq<Row>, c: Row)
    ensures c in Candidates(n, e, cs) <==> c in cs && LeadsOn(n, e, c)
    decreases |cs|
  {
    if cs != [] {
      CandidatesLeadOn(n, e, cs[..|cs| - 1], c);
    }
  }

  lemma {:induction false} InComposites(e: Row, cs: seq<Row>, edge: Edge)
    ensures edge in Composites(e, cs) <==> edge.Composite? && edge.second in cs && edge == Compose(e, edge.second)
    decreases |cs|
  {
    if cs != [] {
      InComposites(e, cs[..|cs| - 1], edge);
    }
  }

  lemma InReplacements(n: Network, rows: seq<Row>, e: Row, edge: Edge)
    ensures edge in Replacements(n, rows, e)
            <==> edge.Composite? && edge.second in rows && LeadsOn(n, e, edge.second) && edge == Compose(e, edge.second)
  {
    InComposites(e, Candidates(n, e, RowsFrom(rows, e.to)), edge);
    if edge.Composite? {
      CandidatesLeadOn(n, e, RowsFrom(rows, e.to), edge.second);
      FromAreFrom(rows, e.to);
    }
  }

  /** What the view holds: the rows to open stations, and all that lead on from closed ones. */
  predicate Belongs(n: Network, rows: seq<Row>, edge: Edge) {
    match edge
    case Real(row) => row in rows && !n.closed(row.to)
    case Composite(first, second, _, _, _, _, _, _) =>
      first in rows && second in rows && LeadsOn(n, first, second) && edge == Compose(first, second)
  }

  function FirstHalf(edge: Edge): Row {
    if edge.Real? then edge.row else edge.first
  }

  lemma InPart(n: Network, rows: seq<Row>, e: Row, edge: Edge)
    requires e in rows
    ensures edge in Part(n, rows, e) <==> Belongs(n, rows, edge) && FirstHalf(edge) == e
  {
    InReplacements(n, rows, e, edge);
  }

  lemma InEither(xs: seq<Edge>, ys: seq<Edge>, edge: Edge)
    ensures edge in xs + ys <==> edge in xs || edge in ys
  {
  }

  /** An edge that belongs in the view is there once the row it comes from has been seen. */
  lemma {:induction false} InViewUpTo(n: Network, rows: seq<Row>, k: nat, edge: Edge, belongs: bool, half: Row)
    requires k <= |rows| && forall e :: e in rows ==> (edge in Part(n, rows, e) <==> belongs && half == e)
    ensures edge in ViewUpTo(n, rows, k) <==> belongs && half in rows[..k]
    decreases k
  {
    if 0 < k {
      var e := rows[k - 1];
      assert e in rows && rows[..k] == rows[..k - 1] + [e];
      InViewUpTo(n, rows, k - 1, edge, belongs, half);
      InEither(ViewUpTo(n, rows, k - 1), Part(n, rows, e), edge);
    }
  }

  lemma InView(n: Network, rows: seq<Row>, edge: Edge)
    ensures edge in View(n, rows) <==> Belongs(n, rows, edge)
  {
    forall e | e in rows
      ensures edge in Part(n, rows, e) <==> Belongs(n, rows, edge) && FirstHalf(edge) == e
    {
      InPart(n, rows, e, edge);
    }
    InViewUpTo(n, rows, |rows|, edge, Belongs(n, rows, edge), FirstHalf(edge));
    assert rows[..|rows|] == rows;
  }

  /** Composite edges end at open stations exactly when no row leads on from one closed station
      to another. */
  lemma NoEdgeEndsClosedIff(n: Network, rows: seq<Row>)
    ensures (forall edge :: edge in View(n, rows) ==> !n.closed(edge.To()))
            <==> (forall e, c :: e in rows && c in rows && LeadsOn(n, e, c) ==> !n.closed(c.to))
  {
    if forall edge :: edge in View(n, rows) ==> !n.closed(edge.To()) {
      forall e, c | e in rows && c in rows && LeadsOn(n, e, c)
        ensures !n.closed(c.to)
      {
        InView(n, rows, Compose(e, c));
        assert !n.closed(Compose(e, c).To());
      }
    }
    if forall e, c :: e in rows && c in rows && LeadsOn(n, e, c) ==> !n.closed(c.to) {
      forall edge | edge in View(n, rows)
        ensures !n.closed(edge.To())
      {
        InView(n, rows, edge);
      }
    }
  }

  // ----- Walks -----

  ghost predicate IsWalk(rows: seq<Row>, w: seq<Row>) {
    && (forall k :: 0 <= k < |w| ==> w[k] in rows)
    && (forall k, m :: 0 <= k && m == k + 1 < |w| ==> w[k].to == w[m].from)
  }

  ghost predicate IsCompatWalk(n: Network, rows: seq<Row>, cw: seq<Edge>) {
    && (forall k :: 0 <= k < |cw| ==> cw[k] in View(n, rows))
    && (forall k, m :: 0 <= k && m == k + 1 < |cw| ==> cw[k].To() == cw[m].From())
  }

  function RowTravel(w: seq<Row>): int {
    if w == [] then 0 else w[0].travel + RowTravel(w[1..])
  }

  function RowLength(w: seq<Row>): int {
    if w == [] then 0 else w[0].length + RowLength(w[1..])
  }

  function TotalTravel(cw: seq<Edge>): int {
    if cw == [] then 0 else cw[0].Travel() + TotalTravel(cw[1..])
  }

  function TotalLength(cw: seq<Edge>): int {
    if cw == [] then 0 else cw[0].Length() + TotalLength(cw[1..])
  }

  function Halves(edge: Edge): seq<Row> {
    if edge.Real? then [edge.row] else [edge.first, edge.second]
  }

  function Expand(cw: seq<Edge>): seq<Row> {
    if cw == [] then [] else Halves(cw[0]) + Expand(cw[1..])
  }

  /** Walks the original edges and never stops at a closed station, nor turns back there, nor
      passes it from a station to another that no line serves both of.  Stations are taken in
      pairs from the start: a closed station reached from a closed one ends a composite edge. */
  predicate Contractible(n: Network, w: seq<Row>)
    decreases |w|
  {
    if w == [] then true
    else if !n.closed(w[0].to) then Contractible(n, w[1..])
    else |w| >= 2 && LeadsOn(n, w[0], w[1]) && Contractible(n, w[2..])
  }

  function Contract(n: Network, w: seq<Row>): seq<Edge>
    requires Contractible(n, w)
    decreases |w|
  {
    if w == [] then []
    else if !n.closed(w[0].to) then [Real(w[0])] + Contract(n, w[1..])
    else [Compose(w[0], w[1])] + Contract(n, w[2..])
  }

  lemma {:induction false} TotalsOfExpansion(cw: seq<Edge>)
    requires forall k :: 0 <= k < |cw| ==> cw[k].Composite? ==> cw[k] == Compose(cw[k].first, cw[k].second)
    ensures RowTravel(Expand(cw)) == TotalTravel(cw) && RowLength(Expand(cw)) == TotalLength(cw)
    decreases |cw|
  {
    if cw != [] {
      var w, rest := Expand(cw), Expand(cw[1..]);
      TotalsOfExpansion(cw[1..]);
      if cw[0].Real? {
        assert w[1..] == rest;
      } else {
        assert w[1..] == [cw[0].second] + rest && w[1..][1..] == rest;
      }
    }
  }

  /** What joins the parts of a walk, and what keeps joining its tails. */
  lemma WalkTail(rows: seq<Row>, w: seq<Row>, k: nat)
    requires IsWalk(rows, w) && k <= |w|
    ensures IsWalk(rows, w[k..])
  {
  }

  lemma CompatTail(n: Network, rows: seq<Row>, cw: seq<Edge>)
    requires IsCompatWalk(n, rows, cw) && cw != []
    ensures IsCompatWalk(n, rows, cw[1..])
  {
  }

  lemma Prepend(rows: seq<Row>, front: seq<Row>, w: seq<Row>)
    requires IsWalk(rows, front) && IsWalk(rows, w) && front != []
    requires w != [] ==> front[|front| - 1].to == w[0].from
    ensures IsWalk(rows, front + w)
  {
  }

  lemma {:induction false} ExpansionIsWalk(n: Network, rows: seq<Row>, cw: seq<Edge>)
    requires IsCompatWalk(n, rows, cw)
    ensures var w := Expand(cw);
            && IsWalk(rows, w) && (cw == [] <==> w == [])
            && (cw != [] ==> w[0].from == cw[0].From() && w[|w| - 1].to == cw[|cw| - 1].To())
    decreases |cw|
  {
    if cw != [] {
      CompatTail(n, rows, cw);
      ExpansionIsWalk(n, rows, cw[1..]);
      InView(n, rows, cw[0]);
      assert |cw| > 1 ==> cw[0].To() == cw[1].From();
      Prepend(rows, Halves(cw[0]), Expand(cw[1..]));
    }
  }

  lemma {:induction false} ContractionOfExpansion(n: Network, rows: seq<Row>, cw: seq<Edge>)
    requires IsCompatWalk(n, rows, cw)
    ensures Contractible(n, Expand(cw)) && Contract(n, Expand(cw)) == cw
    decreases |cw|
  {
    if cw != [] {
      var w, rest := Expand(cw), Expand(cw[1..]);
      CompatTail(n, rows, cw);
      ContractionOfExpansion(n, rows, cw[1..]);
      InView(n, rows, cw[0]);
      assert if cw[0].Real? then w[1..] == rest else w[2..] == rest;
      assert [cw[0]] + cw[1..] == cw;
    }
  }

  /** Every walk of the view stands for a walk of the original network between the same stations,
      as long in time and in space; and contracting that walk gives it back. */
  lemma ExpansionOfWalk(n: Network, rows: seq<Row>, cw: seq<Edge>)
    requires IsCompatWalk(n, rows, cw)
    ensures var w := Expand(cw);
            && IsWalk(rows, w) && Contractible(n, w) && Contract(n, w) == cw
            && RowTravel(w) == TotalTravel(cw) && RowLength(w) == TotalLength(cw)
            && (cw == [] <==> w == [])
            && (cw != [] ==> w[0].from == cw[0].From() && w[|w| - 1].to == cw[|cw| - 1].To())
  {
    ExpansionIsWalk(n, rows, cw);
    ContractionOfExpansion(n, rows, cw);
    forall k | 0 <= k < |cw|
      ensures cw[k].Composite? ==> cw[k] == Compose(cw[k].first, cw[k].second)
    {
      InView(n, rows, cw[k]);
    }
    TotalsOfExpansion(cw);
  }

  /** Every contractible walk of the original network is the expansion of a walk of the view. */
  lemma {:induction false} ContractionOfWalk(n: Network, rows: seq<Row>, w: seq<Row>)
    requires IsWalk(rows, w) && Contractible(n, w)
    ensures var cw := Contract(n, w);
            && IsCompatWalk(n, rows, cw) && Expand(cw) == w
            && (cw == [] <==> w == []) && (w != [] ==> cw[0].From() == w[0].from)
    decreases |w|
  {
    if w != [] {
      var k := if n.closed(w[0].to) then 2 else 1;
      var edge := if n.closed(w[0].to) then Compose(w[0], w[1]) else Real(w[0]);
      WalkTail(rows, w, k);
      ContractionOfWalk(n, rows, w[k..]);
      InView(n, rows, edge);
      var rest := Contract(n, w[k..]);
      assert rest != [] ==> edge.To() == rest[0].From();
      assert ([edge] + rest)[1..] == rest && Halves(edge) + w[k..] == w;
    }
  }

  /** The walks the view stands for are exactly the contractible ones. */
  lemma WalksOfTheView(n: Network, rows: seq<Row>, w: seq<Row>)
    ensures (exists cw :: IsCompatWalk(n, rows, cw) && Expand(cw) == w) <==> IsWalk(rows, w) && Contractible(n, w)
  {
    if IsWalk(rows, w) && Contractible(n, w) {
      ContractionOfWalk(n, rows, w);
      assert IsCompatWalk(n, rows, Contract(n, w));
    }
    if exists cw :: IsCompatWalk(n, rows, cw) && Expand(cw) == w {
      var cw :| IsCompatWalk(n, rows, cw) && Expand(cw) == w;
      ExpansionOfWalk(n, rows, cw);
    }
  }

  /** A walk that ends at an open station, turns back at no closed one and passes each only
      between stations of one line. */
  ghost predicate Passes(n: Network, w: seq<Row>) {
    && (w != [] ==> !n.closed(w[|w| - 1].to))
    && (forall k, m :: 0 <= k && m == k + 1 < |w| && n.closed(w[k].to) ==> LeadsOn(n, w[k], w[m]))
  }

  lemma {:induction false} PassingIsContractible(n: Network, w: seq<Row>)
    requires Passes(n, w)
    ensures Contractible(n, w)
    decreases |w|
  {
    if w != [] {
      if n.closed(w[0].to) {
        assert |w| >= 2 && LeadsOn(n, w[0], w[1]);
        PassingIsContractible(n, w[2..]);
      } else {
        PassingIsContractible(n, w[1..]);
      }
    }
  }

  lemma {:induction false} ContractiblePasses(n: Network, rows: seq<Row>, w: seq<Row>)
    requires IsWalk(rows, w) && Contractible(n, w)
    requires forall r :: r in rows ==> !(n.closed(r.from) && n.closed(r.to))
    ensures Passes(n, w)
    decreases |w|
  {
    if w != [] {
      var j := if n.closed(w[0].to) then 2 else 1;
      WalkTail(rows, w, j);
      ContractiblePasses(n, rows, w[j..]);
      assert j == 2 ==> w[1] in rows && !n.closed(w[1].to);
      forall k, m | 0 <= k && m == k + 1 < |w| && n.closed(w[k].to)
        ensures LeadsOn(n, w[k], w[m])
      {
        if k >= j {
          assert w[j..][k - j] == w[k] && w[j..][m - j] == w[m];
        }
      }
    }
  }

  /** If no edge joins two closed stations, the view stands for exactly the walks that pass. */
  lemma WalksThatPass(n: Network, rows: seq<Row>, w: seq<Row>)
    requires forall r :: r in rows ==> !(n.closed(r.from) && n.closed(r.to))
    ensures (exists cw :: IsCompatWalk(n, rows, cw) && Expand(cw) == w) <==> IsWalk(rows, w) && Passes(n, w)
  {
    WalksOfTheView(n, rows, w);
    if IsWalk(rows, w) {
      if Passes(n, w) {
        PassingIsContractible(n, w);
      } else if Contractible(n, w) {
        ContractiblePasses(n, rows, w);
      }
    }
  }
}
