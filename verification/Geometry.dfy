/** Points in polygons on a planar map. A ring is the list of its corners; its
    edges join each corner to the next and the last to the first. */
module Geometry {
  import opened Coords

  type Ring = seq<Coordinates>

  /** Twice the signed area of the triangle a, b, p: zero when the three are in line. */
  function Side(a: Coordinates, b: Coordinates, p: Coordinates): int {
    (b.longitude - a.longitude) * (p.latitude - a.latitude) - (p.longitude - a.longitude) * (b.latitude - a.latitude)
  }

  predicate Between(x: int, a: int, b: int) {
    a <= x <= b || b <= x <= a
  }

  predicate OnEdge(a: Coordinates, b: Coordinates, p: Coordinates) {
    && Side(a, b, p) == 0
    && Between(p.latitude, a.latitude, b.latitude)
    && Between(p.longitude, a.longitude, b.longitude)
  }

  /** The edge passes from one side of the parallel through p to the other. */
  predicate Straddles(a: Coordinates, b: Coordinates, p: Coordinates) {
    (a.latitude > p.latitude) != (b.latitude > p.latitude)
  }

  /** ... and does so to the east of p. */
  predicate CrossesEast(a: Coordinates, b: Coordinates, p: Coordinates) {
    Straddles(a, b, p) && if b.latitude > a.latitude then Side(a, b, p) > 0 else Side(a, b, p) < 0
  }

  function Next(ring: Ring, i: nat): Coordinates
    requires i < |ring|
  {
    if i + 1 < |ring| then ring[i + 1] else ring[0]
  }

  /** How many of the first k edges satisfy the test. */
  function CountEdges(ring: Ring, test: (Coordinates, Coordinates) -> bool, k: nat): (n: nat)
    requires k <= |ring|
    ensures n <= k
  {
    if k == 0 then 0
    else CountEdges(ring, test, k - 1) + if test(ring[k - 1], Next(ring, k - 1)) then 1 else 0
  }

  function Crossings(ring: Ring, p: Coordinates): nat {
    CountEdges(ring, (a, b) => CrossesEast(a, b, p), |ring|)
  }

  predicate OnBoundary(ring: Ring, p: Coordinates) {
    exists i :: 0 <= i < |ring| && OnEdge(ring[i], Next(ring, i), p)
  }

  /** Strictly inside, by the even-odd rule. */
  predicate Within(p: Coordinates, ring: Ring) {
    !OnBoundary(ring, p) && Crossings(ring, p) % 2 == 1
  }

  // ---------- parity ----------

  lemma {:induction false} ChangesSoFar(ring: Ring, mark: Coordinates -> bool, test: (Coordinates, Coordinates) -> bool, k: nat)
    requires 0 < |ring| && k <= |ring|
    requires forall i :: 0 <= i < k ==> (test(ring[i], Next(ring, i)) <==> mark(ring[i]) != mark(Next(ring, i)))
    ensures CountEdges(ring, test, k) % 2 == 1 <==> mark(ring[0]) != mark(if k < |ring| then ring[k] else ring[0])
  {
    if k > 0 {
      ChangesSoFar(ring, mark, test, k - 1);
    }
  }

  /** Going once round a ring, a mark on its corners changes an even number of times. */
  lemma ChangesAreEven(ring: Ring, mark: Coordinates -> bool, test: (Coordinates, Coordinates) -> bool)
    requires forall i :: 0 <= i < |ring| ==> (test(ring[i], Next(ring, i)) <==> mark(ring[i]) != mark(Next(ring, i)))
    ensures CountEdges(ring, test, |ring|) % 2 == 0
  {
    if |ring| > 0 {
      ChangesSoFar(ring, mark, test, |ring|);
    }
  }

  /** A ring crosses any parallel an even number of times. */
  lemma ParallelCrossedEvenly(ring: Ring, p: Coordinates)
    ensures CountEdges(ring, (a, b) => Straddles(a, b, p), |ring|) % 2 == 0
  {
    ChangesAreEven(ring, (v: Coordinates) => v.latitude > p.latitude, (a, b) => Straddles(a, b, p));
  }

  // ---------- single edges ----------

  lemma SideReversed(a: Coordinates, b: Coordinates, p: Coordinates)
    ensures Side(b, a, p) == -Side(a, b, p)
  {
  }

  lemma CrossingIsUndirected(a: Coordinates, b: Coordinates, p: Coordinates)
    ensures CrossesEast(a, b, p) <==> CrossesEast(b, a, p)
    ensures OnEdge(a, b, p) <==> OnEdge(b, a, p)
  {
    SideReversed(a, b, p);
  }

  /** No edge lies to the east of a point that no corner lies east of. */
  lemma EdgeToTheWest(a: Coordinates, b: Coordinates, p: Coordinates)
    requires a.longitude <= p.longitude && b.longitude <= p.longitude
    ensures !CrossesEast(a, b, p)
  {
    if a.latitude <= p.latitude < b.latitude {
      RisingEdgeToTheWest(a, b, p);
    } else if b.latitude <= p.latitude < a.latitude {
      RisingEdgeToTheWest(b, a, p);
      SideReversed(a, b, p);
    }
  }

  lemma RisingEdgeToTheWest(a: Coordinates, b: Coordinates, p: Coordinates)
    requires a.longitude <= p.longitude && b.longitude <= p.longitude
    requires a.latitude <= p.latitude < b.latitude
    ensures Side(a, b, p) <= 0
  {
    var d, u, h := p.longitude - a.longitude, p.latitude - a.latitude, b.latitude - a.latitude;
    assert (b.longitude - a.longitude) * u <= d * u;
    assert d * u <= d * h;
  }

  lemma RisingEdgeToTheEast(a: Coordinates, b: Coordinates, p: Coordinates)
    requires a.longitude >= p.longitude && b.longitude >= p.longitude
    requires a.latitude <= p.latitude < b.latitude
    requires !OnEdge(a, b, p)
    ensures Side(a, b, p) > 0
  {
    var e, g := a.longitude - p.longitude, b.longitude - p.longitude;
    var u, rest := p.latitude - a.latitude, b.latitude - p.latitude;
    SideSplit(e, g, u, rest);
    assert Side(a, b, p) == (g - e) * u - (-e) * (u + rest);
    if e == 0 {
      assert Between(p.longitude, a.longitude, b.longitude);
    }
  }

  lemma SideSplit(e: int, g: int, u: int, rest: int)
    requires 0 <= e && 0 <= g && 0 <= u && 0 < rest
    ensures (g - e) * u - (-e) * (u + rest) == g * u + e * rest
    ensures g * u >= 0 && e * rest >= 0
    ensures e > 0 ==> e * rest > 0
  {
  }

  /** Every edge that crosses the parallel of a point with no corner west of it
      does so to its east, unless the point is on the edge. */
  lemma EdgeToTheEast(a: Coordinates, b: Coordinates, p: Coordinates)
    requires a.longitude >= p.longitude && b.longitude >= p.longitude && !OnEdge(a, b, p)
    ensures CrossesEast(a, b, p) <==> Straddles(a, b, p)
  {
    CrossingIsUndirected(a, b, p);
    if a.latitude <= p.latitude < b.latitude {
      RisingEdgeToTheEast(a, b, p);
    } else if b.latitude <= p.latitude < a.latitude {
      RisingEdgeToTheEast(b, a, p);
    }
  }

  predicate LowAndEast(v: Coordinates, p: Coordinates) {
    v.latitude == p.latitude && p.longitude < v.longitude
  }

  /** Along the southern border only the corners on the parallel matter. */
  lemma EdgeToTheNorth(a: Coordinates, b: Coordinates, p: Coordinates)
    requires a.latitude >= p.latitude && b.latitude >= p.latitude && !OnEdge(a, b, p)
    ensures CrossesEast(a, b, p) <==> LowAndEast(a, p) != LowAndEast(b, p)
  {
    if a.latitude == p.latitude && b.latitude == p.latitude {
      assert !Between(p.longitude, a.longitude, b.longitude);
    } else if a.latitude == p.latitude {
      SideAtStart(a, b, p);
    } else if b.latitude == p.latitude {
      SideReversed(a, b, p);
      SideAtStart(b, a, p);
    }
  }

  lemma SideAtStart(a: Coordinates, b: Coordinates, p: Coordinates)
    requires a.latitude == p.latitude < b.latitude
    ensures Side(a, b, p) > 0 <==> p.longitude < a.longitude
    ensures Side(a, b, p) < 0 <==> p.longitude > a.longitude
  {
    var d, h := a.longitude - p.longitude, b.latitude - a.latitude;
    assert Side(a, b, p) == d * h;
    PositiveFactor(d, h);
  }

  lemma PositiveFactor(d: int, h: int)
    requires h > 0
    ensures d * h > 0 <==> d > 0
    ensures d * h < 0 <==> d < 0
  {
  }

  // ---------- the envelope ----------

  /** The smallest box around a ring; a ring without corners has none. */
  datatype Box = Nowhere | Box(south: int, west: int, north: int, east: int)

  function Min(a: int, b: int): int { if a <= b then a else b }

  function Max(a: int, b: int): int { if a >= b then a else b }

  function Envelope(ring: Ring): (box: Box)
    ensures box.Nowhere? <==> ring == []
    ensures box.Box? ==> forall i :: 0 <= i < |ring| ==>
              box.south <= ring[i].latitude <= box.north && box.west <= ring[i].longitude <= box.east
    ensures box.Box? ==>
              && (exists i :: 0 <= i < |ring| && ring[i].latitude == box.south)
              && (exists i :: 0 <= i < |ring| && ring[i].latitude == box.north)
              && (exists i :: 0 <= i < |ring| && ring[i].longitude == box.west)
              && (exists i :: 0 <= i < |ring| && ring[i].longitude == box.east)
  {
    if ring == [] then Nowhere
    else
      var v := ring[|ring| - 1];
      match Envelope(ring[..|ring| - 1])
      case Nowhere => Box(v.latitude, v.longitude, v.latitude, v.longitude)
      case Box(s, w, n, e) =>
        Box(Min(s, v.latitude), Min(w, v.longitude), Max(n, v.latitude), Max(e, v.longitude))
  }

  predicate StrictlyInside(p: Coordinates, box: Box) {
    box.Box? && box.south < p.latitude < box.north && box.west < p.longitude < box.east
  }

  lemma NorthIsOutside(ring: Ring, p: Coordinates)
    requires forall i :: 0 <= i < |ring| ==> ring[i].latitude <= p.latitude
    ensures !Within(p, ring)
  {
    ChangesAreEven(ring, v => false, (a, b) => CrossesEast(a, b, p));
  }

  lemma SouthIsOutside(ring: Ring, p: Coordinates)
    requires forall i :: 0 <= i < |ring| ==> ring[i].latitude >= p.latitude
    ensures !Within(p, ring)
  {
    if !OnBoundary(ring, p) {
      forall i | 0 <= i < |ring|
        ensures CrossesEast(ring[i], Next(ring, i), p) <==> LowAndEast(ring[i], p) != LowAndEast(Next(ring, i), p)
      {
        EdgeToTheNorth(ring[i], Next(ring, i), p);
      }
      ChangesAreEven(ring, v => LowAndEast(v, p), (a, b) => CrossesEast(a, b, p));
    }
  }

  lemma EastIsOutside(ring: Ring, p: Coordinates)
    requires forall i :: 0 <= i < |ring| ==> ring[i].longitude <= p.longitude
    ensures !Within(p, ring)
  {
    forall i | 0 <= i < |ring| ensures !CrossesEast(ring[i], Next(ring, i), p) {
      EdgeToTheWest(ring[i], Next(ring, i), p);
    }
    ChangesAreEven(ring, v => false, (a, b) => CrossesEast(a, b, p));
  }

  lemma WestIsOutside(ring: Ring, p: Coordinates)
    requires forall i :: 0 <= i < |ring| ==> ring[i].longitude >= p.longitude
    ensures !Within(p, ring)
  {
    if !OnBoundary(ring, p) {
      forall i | 0 <= i < |ring|
        ensures CrossesEast(ring[i], Next(ring, i), p) <==> Straddles(ring[i], Next(ring, i), p)
      {
        EdgeToTheEast(ring[i], Next(ring, i), p);
      }
      ChangesAreEven(ring, (v: Coordinates) => v.latitude > p.latitude, (a, b) => CrossesEast(a, b, p));
    }
  }

  /** A point inside a ring is strictly inside its envelope. */
  lemma WithinIsInsideEnvelope(p: Coordinates, ring: Ring)
    requires Within(p, ring)
    ensures StrictlyInside(p, Envelope(ring))
  {
    var box := Envelope(ring);
    if box.Nowhere? || p.latitude >= box.north {
      NorthIsOutside(ring, p);
    } else if p.latitude <= box.south {
      SouthIsOutside(ring, p);
    } else if p.longitude >= box.east {
      EastIsOutside(ring, p);
    } else if p.longitude <= box.west {
      WestIsOutside(ring, p);
    }
  }

  // ---------- the test means what it should ----------

  /** In a rectangle, `Within` is what everyone expects. */
  lemma WithinRectangle(p: Coordinates, south: int, west: int, north: int, east: int)
    requires south < north && west < east
    ensures var ring := [Coordinates(south, west), Coordinates(south, east), Coordinates(north, east), Coordinates(north, west)];
            Within(p, ring) <==> south < p.latitude < north && west < p.longitude < east
  {
    var sw, se := Coordinates(south, west), Coordinates(south, east);
    var ne, nw := Coordinates(north, east), Coordinates(north, west);
    var ring := [sw, se, ne, nw];
    var test := (a, b) => CrossesEast(a, b, p);
    VerticalSide(south, north, east, p);
    VerticalSide(south, north, west, p);
    CrossingIsUndirected(nw, sw, p);
    assert CountEdges(ring, test, 1) == CountEdges(ring, test, 0) == 0;
    assert CountEdges(ring, test, 2) == if CrossesEast(se, ne, p) then 1 else 0;
    assert CountEdges(ring, test, 3) == CountEdges(ring, test, 2);
    assert CountEdges(ring, test, 4) == CountEdges(ring, test, 3) + if CrossesEast(nw, sw, p) then 1 else 0;
    if south < p.latitude < north && west < p.longitude < east {
      forall i | 0 <= i < |ring| ensures !OnEdge(ring[i], Next(ring, i), p) {
        assert i == 0 || i == 1 || i == 2 || i == 3;
      }
    } else if Within(p, ring) {
      WithinIsInsideEnvelope(p, ring);
    }
  }

  lemma VerticalSide(south: int, north: int, lng: int, p: Coordinates)
    requires south < north
    ensures CrossesEast(Coordinates(south, lng), Coordinates(north, lng), p)
            <==> south <= p.latitude < north && p.longitude < lng
  {
    PositiveFactor(lng - p.longitude, north - south);
  }

  /** Edges that two rings share, from the a-th of one and the b-th of the other on. */
  lemma {:induction false} SharedEdges(ring: Ring, other: Ring, test: (Coordinates, Coordinates) -> bool, a: nat, b: nat, m: nat)
    requires a + m <= |ring| && b + m <= |other|
    requires forall k :: a <= k < a + m ==> ring[k] == other[b + (k - a)] && Next(ring, k) == Next(other, b + (k - a))
    ensures CountEdges(ring, test, a + m) - CountEdges(ring, test, a)
            == CountEdges(other, test, b + m) - CountEdges(other, test, b)
  {
    if m > 0 {
      SharedEdges(ring, other, test, a, b, m - 1);
      assert ring[a + (m - 1)] == other[b + (m - 1)];
    }
  }

  /** Repeating the first corner at the end changes nothing. */
  lemma ClosingPointIsRedundant(p: Coordinates, ring: Ring)
    requires ring != []
    ensures Within(p, ring + [ring[0]]) <==> Within(p, ring)
  {
    var closed := ring + [ring[0]];
    SharedEdges(ring, closed, (a, b) => CrossesEast(a, b, p), 0, 0, |ring|);
    assert Next(closed, |ring|) == ring[0];
    forall i | 0 <= i < |ring| ensures closed[i] == ring[i] && Next(closed, i) == Next(ring, i) {}
    if OnBoundary(ring, p) {
      var i :| 0 <= i < |ring| && OnEdge(ring[i], Next(ring, i), p);
      assert OnEdge(closed[i], Next(closed, i), p);
    }
    if OnBoundary(closed, p) {
      var i :| 0 <= i < |closed| && OnEdge(closed[i], Next(closed, i), p);
      if i == |ring| {
        assert p == ring[0];
        assert OnEdge(ring[0], Next(ring, 0), p);
      } else {
        assert OnEdge(ring[i], Next(ring, i), p);
      }
    }
  }
}
