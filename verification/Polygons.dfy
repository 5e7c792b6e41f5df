/** What being within a ring means, without counting any crossings: a triangle
    holds the points that lie on the same side of its three edges, and a chord
    divides a ring into two whose insides make up its own. As every polygon falls
    into triangles by its chords, this says for any ring which points are within. */
module Polygons {
  import opened Coords
  import opened Geometry

  // ---------- a corner that the parallel cuts off ----------

  /** The edge passes the parallel of p on the line through p: p is on it. */
  lemma StraddlingLineIsEdge(a: Coordinates, b: Coordinates, p: Coordinates)
    requires Straddles(a, b, p) && Side(a, b, p) == 0
    ensures OnEdge(a, b, p)
  {
    var xa, ya := a.longitude - p.longitude, a.latitude - p.latitude;
    var xb, yb := b.longitude - p.longitude, b.latitude - p.latitude;
    SideIsCross(a, b, p);
    assert xa * yb == xb * ya;
    if ya > 0 { OppositeSigns(xb, yb, xa, ya); } else { OppositeSigns(xa, ya, xb, yb); }
  }

  lemma OppositeSigns(x: int, y: int, u: int, v: int)
    requires y <= 0 < v && x * v == u * y
    ensures x <= 0 <= u || u <= 0 <= x
  {
    assert x > 0 ==> x * v > 0;
    assert x < 0 ==> x * v < 0;
    assert u > 0 ==> u * y <= 0;
    assert u < 0 ==> u * y >= 0;
  }

  /** The side of a point, seen from that point. */
  lemma SideIsCross(a: Coordinates, b: Coordinates, p: Coordinates)
    ensures Side(a, b, p) == (a.longitude - p.longitude) * (b.latitude - p.latitude)
                             - (b.longitude - p.longitude) * (a.latitude - p.latitude)
  {
    var xa, ya := a.longitude - p.longitude, a.latitude - p.latitude;
    var xb, yb := b.longitude - p.longitude, b.latitude - p.latitude;
    assert Side(a, b, p) == (xb - xa) * (-ya) - (-xa) * (yb - ya);
  }

  /** The three sides weigh the corners so that they balance in p. */
  lemma SidesBalance(a: Coordinates, b: Coordinates, c: Coordinates, p: Coordinates)
    ensures Side(b, c, p) * (a.latitude - p.latitude) + Side(c, a, p) * (b.latitude - p.latitude)
            + Side(a, b, p) * (c.latitude - p.latitude) == 0
    ensures Side(b, c, p) * (a.longitude - p.longitude) + Side(c, a, p) * (b.longitude - p.longitude)
            + Side(a, b, p) * (c.longitude - p.longitude) == 0
  {
    SideIsCross(a, b, p);
    SideIsCross(b, c, p);
    SideIsCross(c, a, p);
    CrossesBalance(a.longitude - p.longitude, a.latitude - p.latitude, b.longitude - p.longitude, b.latitude - p.latitude,
                   c.longitude - p.longitude, c.latitude - p.latitude);
  }

  lemma CrossesBalance(xa: int, ya: int, xb: int, yb: int, xc: int, yc: int)
    ensures (xb * yc - xc * yb) * ya + (xc * ya - xa * yc) * yb + (xa * yb - xb * ya) * yc == 0
    ensures (xb * yc - xc * yb) * xa + (xc * ya - xa * yc) * xb + (xa * yb - xb * ya) * xc == 0
  {
  }

  /** p is strictly on the same side of all three edges of the triangle. */
  predicate SameSide(a: Coordinates, b: Coordinates, c: Coordinates, p: Coordinates) {
    || (Side(a, b, p) > 0 && Side(b, c, p) > 0 && Side(c, a, p) > 0)
    || (Side(a, b, p) < 0 && Side(b, c, p) < 0 && Side(c, a, p) < 0)
  }

  /** Two weights of one sign determine the sign of the third, by which side the
      third corner is on. */
  lemma ThirdWeight(f: int, t: int, r: int, u: int, v: int, w: int)
    requires f * u + t * v + r * w == 0 && ((f > 0 && r > 0) || (f < 0 && r < 0))
    requires (u <= 0 && w <= 0 && v > 0) || (u > 0 && w > 0 && v <= 0)
    ensures u > 0 || w > 0 || u < 0 || w < 0 ==> if f > 0 then t > 0 else t < 0
    ensures u == 0 && w == 0 ==> t == 0
  {
    if f > 0 {
      PositiveWeights(f, t, r, u, v, w);
    } else {
      assert (-f) * u + (-t) * v + (-r) * w == -(f * u + t * v + r * w);
      PositiveWeights(-f, -t, -r, u, v, w);
    }
  }

  lemma PositiveWeights(f: int, t: int, r: int, u: int, v: int, w: int)
    requires f * u + t * v + r * w == 0 && f > 0 && r > 0
    requires (u <= 0 && w <= 0 && v > 0) || (u > 0 && w > 0 && v <= 0)
    ensures u != 0 || w != 0 ==> t > 0
    ensures u == 0 && w == 0 ==> t == 0
  {
    SignOfProduct(f, u);
    SignOfProduct(r, w);
    if v > 0 { PositiveFactor(t, v); } else if v < 0 { PositiveFactor(t, -v); assert t * (-v) == -(t * v); }
  }

  lemma SignOfProduct(f: int, u: int)
    requires f > 0
    ensures u > 0 ==> f * u > 0
    ensures u < 0 ==> f * u < 0
  {
  }

  /** p is between two corners on its own parallel whose weights have one sign. */
  lemma BalancedIsBetween(f: int, r: int, x: int, z: int)
    requires f * x + r * z == 0 && ((f > 0 && r > 0) || (f < 0 && r < 0))
    ensures x <= 0 <= z || z <= 0 <= x
  {
    if f > 0 {
      SignOfProduct(f, x);
      SignOfProduct(r, z);
    } else {
      SignOfProduct(-f, x);
      SignOfProduct(-r, z);
      assert (-f) * x == -(f * x) && (-r) * z == -(r * z);
    }
  }

  /** The corner v alone is on the other side of the parallel through p. */
  predicate CutsOff(u: Coordinates, v: Coordinates, w: Coordinates, p: Coordinates) {
    Straddles(u, v, p) && Straddles(v, w, p)
  }

  predicate OnNoEdge(u: Coordinates, v: Coordinates, w: Coordinates, p: Coordinates) {
    !OnEdge(u, v, p) && !OnEdge(v, w, p) && !OnEdge(w, u, p)
  }

  /** If the sides of the two edges that meet in v agree, so does the third. */
  lemma ThirdSideAgrees(u: Coordinates, v: Coordinates, w: Coordinates, p: Coordinates)
    requires CutsOff(u, v, w, p) && OnNoEdge(u, v, w, p)
    requires (Side(u, v, p) > 0 && Side(v, w, p) > 0) || (Side(u, v, p) < 0 && Side(v, w, p) < 0)
    ensures SameSide(u, v, w, p)
  {
    var f, t, r := Side(v, w, p), Side(w, u, p), Side(u, v, p);
    SidesBalance(u, v, w, p);
    ThirdWeight(f, t, r, u.latitude - p.latitude, v.latitude - p.latitude, w.latitude - p.latitude);
    if u.latitude == p.latitude && w.latitude == p.latitude {
      assert t == 0;
      BalancedIsBetween(f, r, u.longitude - p.longitude, w.longitude - p.longitude);
      assert OnEdge(w, u, p);
    }
  }

  /** Exactly one of the two edges that straddle is crossed in the east if and only
      if p is on the same side of all three. */
  lemma CutCornerDecides(u: Coordinates, v: Coordinates, w: Coordinates, p: Coordinates)
    requires CutsOff(u, v, w, p) && OnNoEdge(u, v, w, p)
    ensures CrossesEast(u, v, p) != CrossesEast(v, w, p) <==> SameSide(u, v, w, p)
    ensures !CrossesEast(w, u, p)
  {
    if Side(u, v, p) == 0 { StraddlingLineIsEdge(u, v, p); }
    if Side(v, w, p) == 0 { StraddlingLineIsEdge(v, w, p); }
    if (Side(u, v, p) > 0) == (Side(v, w, p) > 0) {
      ThirdSideAgrees(u, v, w, p);
    }
  }

  /** If no edge straddles, p is not on the same side of all three. */
  lemma UncutIsOutside(a: Coordinates, b: Coordinates, c: Coordinates, p: Coordinates)
    requires !Straddles(a, b, p) && !Straddles(b, c, p)
    ensures !SameSide(a, b, c, p)
  {
    var f, t, r := Side(b, c, p), Side(c, a, p), Side(a, b, p);
    var u, v, w := a.latitude - p.latitude, b.latitude - p.latitude, c.latitude - p.latitude;
    SidesBalance(a, b, c, p);
    assert (-f) * u + (-t) * v + (-r) * w == -(f * u + t * v + r * w);
    if f > 0 && t > 0 && r > 0 {
      NoBalance(f, t, r, u, v, w);
    } else if f < 0 && t < 0 && r < 0 {
      NoBalance(-f, -t, -r, u, v, w);
    }
  }

  lemma NoBalance(f: int, t: int, r: int, u: int, v: int, w: int)
    requires f > 0 && t > 0 && r > 0 && f * u + t * v + r * w == 0
    requires (u > 0 && v > 0 && w > 0) || (u <= 0 && v <= 0 && w <= 0)
    ensures u == 0 && v == 0 && w == 0
  {
    SignOfProduct(f, u);
    SignOfProduct(t, v);
    SignOfProduct(r, w);
  }

  /** A triangle holds exactly the points strictly on the same side of its edges. */
  lemma WithinTriangle(a: Coordinates, b: Coordinates, c: Coordinates, p: Coordinates)
    ensures Within(p, [a, b, c])
            <==> || (Side(a, b, p) > 0 && Side(b, c, p) > 0 && Side(c, a, p) > 0)
                 || (Side(a, b, p) < 0 && Side(b, c, p) < 0 && Side(c, a, p) < 0)
  {
    TriangleCrossings(a, b, c, p);
    if !OnNoEdge(a, b, c, p) {
      assert OnBoundary([a, b, c], p);
    } else if Straddles(a, b, p) && Straddles(b, c, p) {
      CutCornerDecides(a, b, c, p);
    } else if Straddles(b, c, p) && Straddles(c, a, p) {
      CutCornerDecides(b, c, a, p);
    } else if Straddles(c, a, p) && Straddles(a, b, p) {
      CutCornerDecides(c, a, b, p);
    } else {
      UncutIsOutside(a, b, c, p);
    }
  }

  lemma TriangleCrossings(a: Coordinates, b: Coordinates, c: Coordinates, p: Coordinates)
    ensures OnBoundary([a, b, c], p) <==> !OnNoEdge(a, b, c, p)
    ensures Crossings([a, b, c], p) == (if CrossesEast(a, b, p) then 1 else 0) + (if CrossesEast(b, c, p) then 1 else 0)
                                       + (if CrossesEast(c, a, p) then 1 else 0)
  {
    var ring := [a, b, c];
    var test := (a, b) => CrossesEast(a, b, p);
    assert ring[0] == a && Next(ring, 0) == b && ring[1] == b && Next(ring, 1) == c && ring[2] == c && Next(ring, 2) == a;
    assert CountEdges(ring, test, 0) == 0;
    assert CountEdges(ring, test, 1) == if CrossesEast(a, b, p) then 1 else 0;
    assert CountEdges(ring, test, 2) == CountEdges(ring, test, 1) + if CrossesEast(b, c, p) then 1 else 0;
    assert CountEdges(ring, test, 3) == CountEdges(ring, test, 2) + if CrossesEast(c, a, p) then 1 else 0;
  }

  // ---------- chords ----------

  /** The part between the i-th corner and the j-th, and the rest of the ring. */
  function Part(ring: Ring, i: nat, j: nat): Ring
    requires i < j < |ring|
  {
    ring[i..j + 1]
  }

  function Rest(ring: Ring, i: nat, j: nat): Ring
    requires i < j < |ring|
  {
    ring[..i + 1] + ring[j..]
  }

  lemma PartShares(ring: Ring, i: nat, j: nat, part: Ring)
    requires i < j < |ring| && part == Part(ring, i, j)
    ensures |part| == j - i + 1 && part[j - i] == ring[j] && Next(part, j - i) == ring[i]
    ensures forall k :: 0 <= k < j - i ==> part[k] == ring[i + (k - 0)] && Next(part, k) == Next(ring, i + (k - 0))
  {
  }

  lemma PartCounts(ring: Ring, i: nat, j: nat, test: (Coordinates, Coordinates) -> bool, part: Ring)
    requires i < j < |ring| && |part| == j - i + 1 && part[j - i] == ring[j] && Next(part, j - i) == ring[i]
    requires forall k :: 0 <= k < j - i ==> part[k] == ring[i + (k - 0)] && Next(part, k) == Next(ring, i + (k - 0))
    ensures CountEdges(part, test, |part|)
            == CountEdges(ring, test, j) - CountEdges(ring, test, i) + if test(ring[j], ring[i]) then 1 else 0
  {
    SharedEdges(part, ring, test, 0, i, j - i);
    assert CountEdges(part, test, 0) == 0;
  }

  lemma RestShares(ring: Ring, i: nat, j: nat, rest: Ring)
    requires i < j < |ring| && rest == Rest(ring, i, j)
    ensures |rest| == i + 1 + (|ring| - j) && rest[i] == ring[i] && Next(rest, i) == ring[j]
    ensures forall k :: 0 <= k < i ==> rest[k] == ring[0 + (k - 0)] && Next(rest, k) == Next(ring, 0 + (k - 0))
    ensures forall k :: i + 1 <= k < i + 1 + (|ring| - j) ==>
              rest[k] == ring[j + (k - (i + 1))] && Next(rest, k) == Next(ring, j + (k - (i + 1)))
  {
  }

  lemma RestCounts(ring: Ring, i: nat, j: nat, test: (Coordinates, Coordinates) -> bool, rest: Ring)
    requires i < j < |ring| && |rest| == i + 1 + (|ring| - j) && rest[i] == ring[i] && Next(rest, i) == ring[j]
    requires forall k :: 0 <= k < i ==> rest[k] == ring[0 + (k - 0)] && Next(rest, k) == Next(ring, 0 + (k - 0))
    requires forall k :: i + 1 <= k < i + 1 + (|ring| - j) ==>
               rest[k] == ring[j + (k - (i + 1))] && Next(rest, k) == Next(ring, j + (k - (i + 1)))
    ensures CountEdges(rest, test, |rest|)
            == CountEdges(ring, test, |ring|) - CountEdges(ring, test, j) + CountEdges(ring, test, i)
               + if test(ring[i], ring[j]) then 1 else 0
  {
    SharedEdges(rest, ring, test, 0, 0, i);
    SharedEdges(rest, ring, test, i + 1, j, |ring| - j);
    assert CountEdges(rest, test, 0) == 0 && CountEdges(ring, test, 0) == 0;
  }

  lemma PartBoundary(ring: Ring, i: nat, j: nat, p: Coordinates, part: Ring)
    requires i < j < |ring| && !OnBoundary(ring, p) && !OnEdge(ring[i], ring[j], p) && part == Part(ring, i, j)
    ensures !OnBoundary(part, p)
  {
    CrossingIsUndirected(ring[i], ring[j], p);
    forall k | 0 <= k < |part| ensures !OnEdge(part[k], Next(part, k), p) {
      if k < j - i { assert part[k] == ring[i + k] && Next(part, k) == Next(ring, i + k); }
    }
  }

  lemma RestBoundary(ring: Ring, i: nat, j: nat, p: Coordinates, rest: Ring)
    requires i < j < |ring| && !OnBoundary(ring, p) && !OnEdge(ring[i], ring[j], p) && rest == Rest(ring, i, j)
    ensures !OnBoundary(rest, p)
  {
    RestShares(ring, i, j, rest);
    forall k | 0 <= k < |rest| ensures !OnEdge(rest[k], Next(rest, k), p) {
      if k < i {
        assert rest[k] == ring[k] && Next(rest, k) == Next(ring, k);
      } else if k > i {
        assert rest[k] == ring[j + (k - (i + 1))];
      }
    }
  }

  /** A point neither on the ring nor on the chord from its i-th corner to its j-th
      is within the ring if and only if it is within exactly one of the two parts. */
  lemma ChordDivides(ring: Ring, i: nat, j: nat, p: Coordinates)
    requires i < j < |ring| && !OnBoundary(ring, p) && !OnEdge(ring[i], ring[j], p)
    ensures Within(p, ring) <==> Within(p, ring[i..j + 1]) != Within(p, ring[..i + 1] + ring[j..])
  {
    var part, rest, test := Part(ring, i, j), Rest(ring, i, j), (a, b) => CrossesEast(a, b, p);
    PartBoundary(ring, i, j, p, part);
    RestBoundary(ring, i, j, p, rest);
    CrossingIsUndirected(ring[i], ring[j], p);
    PartShares(ring, i, j, part);
    PartCounts(ring, i, j, test, part);
    RestShares(ring, i, j, rest);
    RestCounts(ring, i, j, test, rest);
    Parity(Crossings(part, p), Crossings(rest, p), Crossings(ring, p), if CrossesEast(ring[i], ring[j], p) then 1 else 0);
  }

  lemma Parity(part: nat, rest: nat, ring: nat, chord: nat)
    requires part + rest == ring + 2 * chord
    ensures ring % 2 == 1 <==> (part % 2 == 1) != (rest % 2 == 1)
  {
  }
}
