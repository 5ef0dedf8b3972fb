/** What the compatibility view lists, how often and in what order (types/connection.go,
    provideClosedCompat). */
module Views {
  import opened Identifiers
  import opened Connections

  /** The places in the table of the two rows that a composite edge stands for; an edge that is a row of its
      own comes from the first place, and the second is zero. */
  datatype Origin = Origin(first: nat, second: nat)

  /** Into a closed station, and on from there, though not back, to a station that some line serves together
      with the first one. */
  ghost predicate LeadsPast(n: Network, e: Row, c: Row) {
    && n.closed(e.to) && c.from == e.to && c.to != e.from
    && exists line :: line in n.linesOf(e.from) && line in n.linesOf(c.to)
  }

  ghost predicate IsOrigin(n: Network, rows: seq<Row>, o: Origin) {
    && o.first < |rows|
    && if n.closed(rows[o.first].to) then o.second < |rows| && LeadsPast(n, rows[o.first], rows[o.second])
       else o.second == 0
  }

  /** A row to an open station as it is, or two rows as one: with the waits and both platforms of the first,
      and the times and lengths of both. */
  predicate IsMadeOf(n: Network, rows: seq<Row>, edge: Edge, o: Origin)
    requires o.first < |rows| && o.second < |rows|
  {
    var e, c := rows[o.first], rows[o.second];
    if !n.closed(e.to) then edge == Real(e)
    else
      && edge.Composite? && edge.first == e && edge.second == c
      && edge.waiting == e.waiting && edge.stop == e.stop && edge.travel == e.travel + c.travel
      && edge.length == e.length + c.length && edge.fromPlatform == e.fromPlatform && edge.toPlatform == e.toPlatform
  }

  predicate Precedes(o: Origin, p: Origin) {
    o.first < p.first || (o.first == p.first && o.second < p.second)
  }

  ghost predicate Ascending(origins: seq<Origin>) {
    forall i, j :: 0 <= i < j < |origins| ==> Precedes(origins[i], origins[j])
  }

  /** One edge for each of these origins. */
  ghost predicate AreMadeOf(n: Network, rows: seq<Row>, edges: seq<Edge>, origins: seq<Origin>) {
    && |origins| == |edges|
    && forall i :: 0 <= i < |edges| ==>
         origins[i].first < |rows| && origins[i].second < |rows| && IsMadeOf(n, rows, edges[i], origins[i])
  }

  lemma LeadsPastIff(n: Network, e: Row, c: Row)
    ensures LeadsPast(n, e, c) <==> LeadsOn(n, e, c)
  {
    var a, b := n.linesOf(e.from), n.linesOf(c.to);
    if line :| line in a && line in b {
      var i :| 0 <= i < |a| && a[i] == line;
      var j :| 0 <= j < |b| && b[j] == line;
      assert a[i] == b[j];
    }
    if ShareLine(n, e.from, c.to) {
      var i, j :| 0 <= i < |a| && 0 <= j < |b| && a[i] == b[j];
      assert a[i] in a && a[i] in b;
    }
  }

  // ----- Places in the table -----

  /** The rows picked are those at these places, which ascend. */
  ghost predicate AreAt(rows: seq<Row>, picked: seq<Row>, places: seq<nat>) {
    && |places| == |picked|
    && (forall i :: 0 <= i < |picked| ==> places[i] < |rows| && rows[places[i]] == picked[i])
    && forall i, j :: 0 <= i < j < |places| ==> places[i] < places[j]
  }

  lemma OnePlaceMore(rows: seq<Row>, picked: seq<Row>, places: seq<nat>, k: nat)
    requires AreAt(rows, picked, places) && k < |rows| && forall i :: 0 <= i < |places| ==> places[i] < k
    ensures AreAt(rows, picked + [rows[k]], places + [k])
  {
  }

  lemma {:induction false} PlacesFrom(rows: seq<Row>, k: nat, from: StationId) returns (places: seq<nat>)
    requires k <= |rows|
    ensures AreAt(rows, RowsFrom(rows[..k], from), places)
    ensures forall p: nat :: p in places <==> p < k && rows[p].from == from
    decreases k
  {
    places := [];
    if 0 < k {
      places := PlacesFrom(rows, k - 1, from);
      var before := RowsFrom(rows[..k - 1], from);
      assert rows[..k][..k - 1] == rows[..k - 1] && before + [] == before;
      if rows[k - 1].from == from {
        assert forall i :: 0 <= i < |places| ==> places[i] in places;
        OnePlaceMore(rows, before, places, k - 1);
        places := places + [k - 1];
      }
    }
  }

  lemma {:induction false} PlacesOfCandidates(n: Network, e: Row, rows: seq<Row>, cs: seq<Row>, all: seq<nat>)
    returns (places: seq<nat>)
    requires AreAt(rows, cs, all)
    ensures AreAt(rows, Candidates(n, e, cs), places)
    ensures forall p: nat :: p in places <==> p in all && p < |rows| && LeadsOn(n, e, rows[p])
    decreases |cs|
  {
    places := [];
    if cs != [] {
      var m := |cs| - 1;
      places := PlacesOfCandidates(n, e, rows, cs[..m], all[..m]);
      var before := Candidates(n, e, cs[..m]);
      assert before + [] == before && all == all[..m] + [all[m]] && rows[all[m]] == cs[m];
      if LeadsOn(n, e, cs[m]) {
        forall i | 0 <= i < |places|
          ensures places[i] < all[m]
        {
          assert places[i] in places;
        }
        OnePlaceMore(rows, before, places, all[m]);
        places := places + [all[m]];
      }
    }
  }

  lemma {:induction false} CompositesAt(e: Row, cs: seq<Row>, i: nat)
    ensures |Composites(e, cs)| == |cs|
    ensures i < |cs| ==> Composites(e, cs)[i] == Compose(e, cs[i])
    decreases |cs|
  {
    if cs != [] {
      CompositesAt(e, cs[..|cs| - 1], i);
    }
  }

  // ----- The view -----

  /** The origins with the first place given. */
  function Paired(k: nat, places: seq<nat>): (origins: seq<Origin>)
    ensures |origins| == |places| && forall i :: 0 <= i < |places| ==> origins[i] == Origin(k, places[i])
  {
    seq(|places|, i requires 0 <= i < |places| => Origin(k, places[i]))
  }

  lemma ReplacementsAreMadeOf(n: Network, rows: seq<Row>, k: nat, cs: seq<Row>, places: seq<nat>)
    requires k < |rows| && n.closed(rows[k].to) && AreAt(rows, cs, places)
    ensures AreMadeOf(n, rows, Composites(rows[k], cs), Paired(k, places)) && Ascending(Paired(k, places))
  {
    CompositesAt(rows[k], cs, 0);
    forall i | 0 <= i < |cs|
      ensures IsMadeOf(n, rows, Composites(rows[k], cs)[i], Origin(k, places[i]))
    {
      CompositesAt(rows[k], cs, i);
    }
  }

  lemma PairedIff(n: Network, rows: seq<Row>, k: nat, places: seq<nat>, o: Origin)
    requires k < |rows| && n.closed(rows[k].to)
    requires forall p: nat :: p in places <==> p < |rows| && rows[p].from == rows[k].to && LeadsOn(n, rows[k], rows[p])
    ensures o in Paired(k, places) <==> o.first == k && IsOrigin(n, rows, o)
  {
    if o.first == k && o.second in places {
      var i :| 0 <= i < |places| && places[i] == o.second;
      assert Paired(k, places)[i] == o;
    }
    if o in Paired(k, places) {
      var i :| 0 <= i < |places| && Paired(k, places)[i] == o;
      assert places[i] in places;
    }
    if o.first == k && o.second < |rows| {
      LeadsPastIff(n, rows[k], rows[o.second]);
    }
  }

  /** What the view shows in the place of row k has all the origins with that first place. */
  lemma PartIsComplete(n: Network, rows: seq<Row>, k: nat) returns (origins: seq<Origin>)
    requires k < |rows|
    ensures AreMadeOf(n, rows, Part(n, rows, rows[k]), origins) && Ascending(origins)
    ensures forall o: Origin :: o in origins <==> o.first == k && IsOrigin(n, rows, o)
  {
    if n.closed(rows[k].to) {
      var from := RowsFrom(rows, rows[k].to);
      var all := PlacesFrom(rows, |rows|, rows[k].to);
      assert rows[..|rows|] == rows;
      var places := PlacesOfCandidates(n, rows[k], rows, from, all);
      origins := Paired(k, places);
      ReplacementsAreMadeOf(n, rows, k, Candidates(n, rows[k], from), places);
      forall o
        ensures o in origins <==> o.first == k && IsOrigin(n, rows, o)
      {
        PairedIff(n, rows, k, places, o);
      }
    } else {
      origins := [Origin(k, 0)];
    }
  }

  lemma Joined(n: Network, rows: seq<Row>, xs: seq<Edge>, os: seq<Origin>, ys: seq<Edge>, ps: seq<Origin>, k: nat)
    requires AreMadeOf(n, rows, xs, os) && AreMadeOf(n, rows, ys, ps) && Ascending(os) && Ascending(ps)
    requires (forall o: Origin :: o in os ==> o.first < k) && forall p :: p in ps ==> p.first == k
    ensures AreMadeOf(n, rows, xs + ys, os + ps) && Ascending(os + ps)
  {
    var both := os + ps;
    forall i, j | 0 <= i < j < |both|
      ensures Precedes(both[i], both[j])
    {
      assert i < |os| ==> both[i] in os;
      assert |os| <= j ==> both[j] in ps;
    }
  }

  lemma {:induction false} UpToIsComplete(n: Network, rows: seq<Row>, k: nat) returns (origins: seq<Origin>)
    requires k <= |rows|
    ensures AreMadeOf(n, rows, ViewUpTo(n, rows, k), origins) && Ascending(origins)
    ensures forall o: Origin :: o in origins <==> o.first < k && IsOrigin(n, rows, o)
    decreases k
  {
    origins := [];
    if 0 < k {
      var before := UpToIsComplete(n, rows, k - 1);
      var more := PartIsComplete(n, rows, k - 1);
      Joined(n, rows, ViewUpTo(n, rows, k - 1), before, Part(n, rows, rows[k - 1]), more, k - 1);
      origins := before + more;
    }
  }

  /** The view lists one edge for every row to an open station and one for every two rows that lead past a
      closed one, and nothing else; and it lists them in the order of their places in the table. */
  lemma ViewIsComplete(n: Network, rows: seq<Row>)
    ensures exists origins :: && AreMadeOf(n, rows, View(n, rows), origins) && Ascending(origins)
                              && forall o: Origin :: o in origins <==> IsOrigin(n, rows, o)
  {
    var origins := UpToIsComplete(n, rows, |rows|);
    assert AreMadeOf(n, rows, View(n, rows), origins);
  }
}
