/** The spatial index of regions: a box for each region, queried first, and an
    exact test of the candidates it leaves. */
module RegionIndex {
  import opened Coords
  import opened Geometry
  import opened Permutations
  import opened PolyFile
  import opened Wrappers

  datatype Region = Region(name: string, bounds: Ring) {
    predicate Contains(p: Coordinates) {
      Within(p, bounds)
    }
  }

  datatype Node = Node(box: Box, region: Region)

  datatype IndexError = DuplicateRegion

  /** The name of a region and the text of its polygon file. */
  datatype Source = Source(name: string, poly: string)

  function Names(sources: seq<Source>): seq<string> {
    seq(|sources|, i requires 0 <= i < |sources| => sources[i].name)
  }

  function RegionsOf(sources: seq<Source>, scan: string -> Scan): seq<Region> {
    seq(|sources|, i requires 0 <= i < |sources| =>
      Region(sources[i].name, Polygon(sources[i].poly, sources[i].name, scan)))
  }

  function RegionsIn(nodes: seq<Node>): seq<Region> {
    seq(|nodes|, i requires 0 <= i < |nodes| => nodes[i].region)
  }

  function NamesOf(regions: seq<Region>): seq<string> {
    seq(|regions|, i requires 0 <= i < |regions| => regions[i].name)
  }

  lemma InNames(regions: seq<Region>, name: string)
    ensures name in NamesOf(regions) <==> exists i :: 0 <= i < |regions| && regions[i].name == name
  {
    assert forall i :: 0 <= i < |regions| ==> NamesOf(regions)[i] == regions[i].name;
  }

  lemma DistinctInPairs(sources: seq<Source>)
    ensures Distinct(Names(sources)) <==> forall i, j :: 0 <= i < j < |sources| ==> sources[i].name != sources[j].name
  {
    assert forall i :: 0 <= i < |sources| ==> Names(sources)[i] == sources[i].name;
  }

  /** With distinct names, comparing regions by name is comparing regions. */
  lemma NameDenotesOneRegion(regions: seq<Region>, a: Region, b: Region)
    requires Distinct(NamesOf(regions)) && a in regions && b in regions
    ensures a == b <==> a.name == b.name
  {
    var i, j :| 0 <= i < |regions| && 0 <= j < |regions| && regions[i] == a && regions[j] == b;
    assert NamesOf(regions)[i] == a.name && NamesOf(regions)[j] == b.name;
  }

  /** The first node from the i-th on whose region contains the point. */
  function FirstHit(nodes: seq<Node>, p: Coordinates, i: nat): nat
    requires i <= |nodes|
    decreases |nodes| - i
  {
    if i == |nodes| || nodes[i].region.Contains(p) then i else FirstHit(nodes, p, i + 1)
  }

  lemma {:induction false} NoHit(nodes: seq<Node>, p: Coordinates, i: nat, k: nat)
    requires i <= k < |nodes| && FirstHit(nodes, p, i) == |nodes|
    ensures !nodes[k].region.Contains(p)
    decreases k - i
  {
    if i < k { NoHit(nodes, p, i + 1, k); }
  }

  class Index {
    var nodes: seq<Node>

    ghost predicate Valid()
      reads this
    {
      && (forall i :: 0 <= i < |nodes| ==> nodes[i].box == Envelope(nodes[i].region.bounds))
      && Distinct(NamesOf(Regions()))
    }

    ghost function Regions(): seq<Region>
      reads this
    {
      RegionsIn(nodes)
    }

    constructor ()
      ensures Valid() && Regions() == []
    {
      nodes := [];
    }

    /** Adds a region unless one of that name is there already. */
    method Insert(r: Region) returns (error: Option<IndexError>)
      requires Valid()
      modifies this
      ensures Valid()
      ensures error.Some? <==> exists i :: 0 <= i < |old(Regions())| && old(Regions())[i].name == r.name
      ensures Regions() == if error.Some? then old(Regions()) else old(Regions()) + [r]
    {
      InNames(Regions(), r.name);
      var box := Envelope(r.bounds);
      for i := 0 to |nodes|
        invariant r.name !in NamesOf(Regions())[..i]
      {
        assert NamesOf(Regions())[i] == nodes[i].region.name;
        if nodes[i].region.name == r.name {
          return Some(DuplicateRegion);
        }
      }
      assert NamesOf(Regions())[..|nodes|] == NamesOf(Regions());
      assert NamesOf(RegionsIn(nodes + [Node(box, r)])) == NamesOf(Regions()) + [r.name];
      nodes := nodes + [Node(box, r)];
      return None;
    }

    /** The nodes whose box holds the point, in no promised order: the tree
        decides. */
    method Query(p: Coordinates) returns (candidates: seq<Node>)
      ensures forall n :: n in candidates <==> n in nodes && StrictlyInside(p, n.box)
      ensures forall n :: n in candidates ==>
                && n.box.Box?
                && n.box.south < p.latitude < n.box.north && n.box.west < p.longitude < n.box.east
    {
      candidates := [];
      for i := 0 to |nodes|
        invariant forall n :: n in candidates <==> n in nodes[..i] && StrictlyInside(p, n.box)
      {
        assert nodes[..i + 1] == nodes[..i] + [nodes[i]];
        if StrictlyInside(p, nodes[i].box) {
          candidates := candidates + [nodes[i]];
        }
      }
      assert nodes[..|nodes|] == nodes;
    }

    /** Finds a region that contains the point, or nothing when none of all the
        regions does. */
    method Locate(p: Coordinates) returns (r: Option<Region>)
      requires Valid()
      ensures r.Some? ==> r.value in Regions() && Within(p, r.value.bounds)
      ensures r.None? ==> forall g :: g in Regions() ==> !Within(p, g.bounds)
    {
      var candidates := Query(p);
      if candidates == [] {
        BoxesDropNothing(nodes, candidates, p);
        return None;
      }
      for i := 0 to |candidates|
        invariant FirstHit(candidates, p, i) == FirstHit(candidates, p, 0)
      {
        if candidates[i].region.Contains(p) {
          InRegions(nodes, candidates[i]);
          return Some(candidates[i].region);
        }
      }
      BoxesDropNothing(nodes, candidates, p);
      return None;
    }

    /** The index over all sources, unless two of them share a name. */
    static method Build(sources: seq<Source>, scan: string -> Scan) returns (r: Result<Index, IndexError>)
      ensures r.Success? <==> forall i, j :: 0 <= i < j < |sources| ==> sources[i].name != sources[j].name
      ensures r.Success? ==> fresh(r.value) && r.value.Valid() && |r.value.Regions()| == |sources|
      ensures r.Success? ==> forall i :: 0 <= i < |sources| ==>
                r.value.Regions()[i] == Region(sources[i].name, Polygon(sources[i].poly, sources[i].name, scan))
    {
      DistinctInPairs(sources);
      var index := new Index();
      for i := 0 to |sources|
        invariant fresh(index) && index.Valid()
        invariant index.Regions() == RegionsOf(sources[..i], scan)
      {
        var bounds := ToPolygon(sources[i].poly, sources[i].name, scan);
        NamesSoFar(sources, scan, i);
        var error := index.Insert(Region(sources[i].name, bounds));
        if error.Some? {
          return Failure(DuplicateRegion);
        }
      }
      NamesSoFar(sources, scan, |sources|);
      return Success(index);
    }
  }

  /** The regions of the first i sources, their names, and the next region. */
  lemma NamesSoFar(sources: seq<Source>, scan: string -> Scan, i: nat)
    requires i <= |sources|
    ensures NamesOf(RegionsOf(sources[..i], scan)) == Names(sources)[..i]
    ensures i == |sources| ==> sources[..i] == sources && Names(sources)[..i] == Names(sources)
    ensures i < |sources| ==>
              RegionsOf(sources[..i + 1], scan)
              == RegionsOf(sources[..i], scan) + [Region(sources[i].name, Polygon(sources[i].poly, sources[i].name, scan))]
    ensures i < |sources| && Names(sources)[i] in Names(sources)[..i] ==> !Distinct(Names(sources))
  {
  }

  lemma InRegions(nodes: seq<Node>, n: Node)
    requires n in nodes
    ensures n.region in RegionsIn(nodes)
  {
    var i :| 0 <= i < |nodes| && nodes[i] == n;
    assert RegionsIn(nodes)[i] == n.region;
  }

  /** The prefilter by boxes drops no answer: when no candidate contains the
      point, no region at all does. */
  lemma BoxesDropNothing(nodes: seq<Node>, candidates: seq<Node>, p: Coordinates)
    requires forall i :: 0 <= i < |nodes| ==> nodes[i].box == Envelope(nodes[i].region.bounds)
    requires forall n :: n in nodes && StrictlyInside(p, n.box) ==> n in candidates
    requires FirstHit(candidates, p, 0) == |candidates|
    ensures forall g :: g in RegionsIn(nodes) ==> !g.Contains(p)
  {
    forall g | g in RegionsIn(nodes) ensures !g.Contains(p) {
      var i :| 0 <= i < |nodes| && RegionsIn(nodes)[i] == g;
      assert nodes[i] in nodes;
      if g.Contains(p) {
        WithinIsInsideEnvelope(p, g.bounds);
        var j :| 0 <= j < |candidates| && candidates[j] == nodes[i];
        NoHit(candidates, p, 0, j);
      }
    }
  }
}
