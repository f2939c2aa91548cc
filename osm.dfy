/** The administrative-hierarchy builder of the importer: polygon assembly
    from relations and ways, the country -> city -> district hierarchy built
    with a representative-point containment test, and string de-duplication. */
module Osm {
  import opened Gosmparse
  import opened Geo

  /** The parser's accumulator, read-only while the hierarchy is built.
      The relation and district collections are taken in one fixed iteration order. */
  datatype Handler = Handler(
    nodes: map<int, Node>,
    fullWays: map<int, Way>,
    countries: seq<Relation>,
    areas: seq<Relation>,
    districts: seq<Way>)

  /** A district: its name tag and its polygon. */
  datatype District = District(name: string, geom: Polygon)

  /** A city: its name and place tags, its polygon and the districts placed inside it. */
  datatype City = City(name: string, placeType: string, geom: Polygon, districts: seq<District>)

  /** A country: its name tag, the towns placed inside it and its polygon. */
  datatype Country = Country(name: string, towns: seq<City>, geom: Polygon)

  /** The point-in-polygon test of the geometry library, taken as a parameter. */
  type Contains = (Polygon, Point) -> bool

  // ---------------------------------------------------------------------------
  // Polygon assembly: specification

  /** `Nodes[id]`, with the zero node when the id is missing. */
  function NodeAt(h: Handler, id: int): Node
  {
    if id in h.nodes then h.nodes[id] else ZeroNode
  }

  /** `FullWays[id]`, with the zero way (no node ids) when the id is missing. */
  function WayAt(h: Handler, id: int): Way
  {
    if id in h.fullWays then h.fullWays[id] else ZeroWay
  }

  /** `geo.NewPoint(node.Lat, node.Lon)`. */
  function NewPoint(n: Node): Point
  {
    Point(n.lat, n.lon)
  }

  /** The point a node reference resolves to. */
  function NodePoint(h: Handler, id: int): Point
  {
    NewPoint(NodeAt(h, id))
  }

  /** The ring of a node-id list: one point per id, in the same order. */
  function WayRing(h: Handler, ids: seq<int>): seq<Point>
  {
    seq(|ids|, k requires 0 <= k < |ids| => NodePoint(h, ids[k]))
  }

  /** What one relation member contributes to the ring: the node's point when
      the id names a node, otherwise the points of the way with that id. */
  function MemberPoints(h: Handler, m: Member): seq<Point>
  {
    if m.id in h.nodes then [NewPoint(h.nodes[m.id])] else WayRing(h, WayAt(h, m.id).nodeIDs)
  }

  /** The ring of a relation: the members' contributions, concatenated in member order. */
  function RelationRing(h: Handler, ms: seq<Member>): seq<Point>
  {
    if ms == [] then [] else RelationRing(h, ms[..|ms| - 1]) + MemberPoints(h, ms[|ms| - 1])
  }

  // ---------------------------------------------------------------------------
  // Polygon assembly: properties

  /** Assembly distributes over concatenation of member lists: nothing is
      reordered, closed or de-duplicated across members. */
  lemma {:induction false} RelationRingConcat(h: Handler, a: seq<Member>, b: seq<Member>)
    ensures RelationRing(h, a + b) == RelationRing(h, a) + RelationRing(h, b)
  {
    if b == [] {
      assert a + b == a;
    } else {
      var b' := b[..|b| - 1];
      assert (a + b)[..|a + b| - 1] == a + b';
      assert (a + b)[|a + b| - 1] == b[|b| - 1];
      RelationRingConcat(h, a, b');
    }
  }

  /** The ring splits around any member into the part before it, its own
      contribution and the part after it. */
  lemma RelationRingSplit(h: Handler, ms: seq<Member>, k: nat)
    requires k < |ms|
    ensures RelationRing(h, ms) == RelationRing(h, ms[..k]) + MemberPoints(h, ms[k]) + RelationRing(h, ms[k + 1..])
  {
    assert ms == ms[..k] + [ms[k]] + ms[k + 1..];
    RelationRingConcat(h, ms[..k] + [ms[k]], ms[k + 1..]);
    RelationRingConcat(h, ms[..k], [ms[k]]);
    assert [ms[k]][..0] == [];
  }

  /** The three cases of a member's contribution. A node id gives exactly that
      node's point, whatever the way table holds; any other id gives the
      points of its way, or nothing when there is no such way. */
  lemma MemberContribution(h: Handler, m: Member, otherWays: map<int, Way>)
    ensures m.id in h.nodes ==>
      MemberPoints(h, m) == MemberPoints(h.(fullWays := otherWays), m) == [NewPoint(h.nodes[m.id])]
    ensures m.id !in h.nodes && m.id in h.fullWays ==>
      MemberPoints(h, m) == WayRing(h, h.fullWays[m.id].nodeIDs)
    ensures m.id !in h.nodes && m.id !in h.fullWays ==> MemberPoints(h, m) == []
  {
  }

  /** A relation made only of node members has one point per member, in order. */
  lemma {:induction false} RelationRingOfNodes(h: Handler, ms: seq<Member>)
    requires forall k :: 0 <= k < |ms| ==> ms[k].id in h.nodes
    ensures |RelationRing(h, ms)| == |ms|
    ensures forall k :: 0 <= k < |ms| ==> RelationRing(h, ms)[k] == NewPoint(h.nodes[ms[k].id])
  {
    if ms != [] {
      RelationRingOfNodes(h, ms[..|ms| - 1]);
    }
  }

  /** A node member followed by a way member gives the node's point followed
      by the way's points: [P, way(A, B)] assembles to [P, A, B]. */
  lemma NodeThenWayRing(h: Handler, p: Member, w: Member)
    requires p.id in h.nodes && w.id !in h.nodes && w.id in h.fullWays
    ensures RelationRing(h, [p, w]) == [NewPoint(h.nodes[p.id])] + WayRing(h, h.fullWays[w.id].nodeIDs)
  {
    assert [p, w][..1] == [p];
    assert [p][..0] == [];
    assert RelationRing(h, [p]) == [NewPoint(h.nodes[p.id])];
    assert MemberPoints(h, w) == WayRing(h, h.fullWays[w.id].nodeIDs);
  }

  // ---------------------------------------------------------------------------
  // Hierarchy: specification

  /** The representative point of a ring used for every containment test: its
      second point. The source indexes it without a length check. */
  function RepresentativePoint(ring: seq<Point>): Point
    requires |ring| >= 2
  {
    ring[1]
  }

  /** Every district's ring has a second point. */
  predicate DistrictRingsIndexable(h: Handler, dists: seq<Way>)
  {
    forall k :: 0 <= k < |dists| ==> |WayRing(h, dists[k].nodeIDs)| >= 2
  }

  /** Every area's ring has a second point. */
  predicate AreaRingsIndexable(h: Handler, areas: seq<Relation>)
  {
    forall k :: 0 <= k < |areas| ==> |RelationRing(h, areas[k].members)| >= 2
  }

  /** What building the towns from `areas` needs: once any area is visited,
      every area ring and every district ring is indexed at position 1. */
  predicate TownsIndexable(h: Handler, areas: seq<Relation>, dists: seq<Way>)
  {
    areas != [] ==> AreaRingsIndexable(h, areas) && DistrictRingsIndexable(h, dists)
  }

  /** What building one country needs of the accumulator. */
  predicate RingsIndexable(h: Handler)
  {
    TownsIndexable(h, h.areas, h.districts)
  }

  /** A country relation is imported when its name tag equals the configured country. */
  predicate Matches(importCountry: string, cn: Relation)
  {
    Tag(cn.tags, "name") == importCountry
  }

  /** Building from `cs` reaches no out-of-range index: no relation of `cs`
      is imported, or every ring visited has a second point. */
  predicate SafeFor(h: Handler, importCountry: string, cs: seq<Relation>)
  {
    (exists cn :: cn in cs && Matches(importCountry, cn)) ==> RingsIndexable(h)
  }

  /** The district built from a district way. */
  function DistrictOf(h: Handler, w: Way): District
  {
    District(Tag(w.tags, "name"), Polygon(WayRing(h, w.nodeIDs)))
  }

  /** The districts a city keeps: those whose representative point the city
      polygon contains, in district order. */
  function CityDistricts(contains: Contains, h: Handler, cityGeom: Polygon, dists: seq<Way>): seq<District>
    requires DistrictRingsIndexable(h, dists)
  {
    if dists == [] then []
    else
      var d := dists[|dists| - 1];
      CityDistricts(contains, h, cityGeom, dists[..|dists| - 1])
        + (if contains(cityGeom, RepresentativePoint(WayRing(h, d.nodeIDs))) then [DistrictOf(h, d)] else [])
  }

  /** The city built from an area relation, with its districts computed
      whether or not it is later attached to the country. */
  function CityOf(contains: Contains, h: Handler, area: Relation, dists: seq<Way>): City
    requires DistrictRingsIndexable(h, dists)
  {
    var geom := Polygon(RelationRing(h, area.members));
    City(Tag(area.tags, "name"), Tag(area.tags, "place"), geom, CityDistricts(contains, h, geom, dists))
  }

  /** The towns a country keeps: the cities of those areas whose representative
      point the country polygon contains, in area order. */
  function Towns(contains: Contains, h: Handler, countryGeom: Polygon, areas: seq<Relation>, dists: seq<Way>): seq<City>
    requires TownsIndexable(h, areas, dists)
  {
    if areas == [] then []
    else
      var a := areas[|areas| - 1];
      Towns(contains, h, countryGeom, areas[..|areas| - 1], dists)
        + (if contains(countryGeom, RepresentativePoint(RelationRing(h, a.members)))
           then [CityOf(contains, h, a, dists)] else [])
  }

  /** The country built from a country relation. */
  function CountryOf(contains: Contains, h: Handler, cn: Relation): Country
    requires RingsIndexable(h)
  {
    var geom := Polygon(RelationRing(h, cn.members));
    Country(Tag(cn.tags, "name"), Towns(contains, h, geom, h.areas, h.districts), geom)
  }

  /** The countries built from the country relations `cs`: one per imported
      relation, in relation order. */
  function BuildCountries(contains: Contains, h: Handler, importCountry: string, cs: seq<Relation>): seq<Country>
    requires SafeFor(h, importCountry, cs)
  {
    if cs == [] then []
    else
      var cn := cs[|cs| - 1];
      assert cn in cs;
      BuildCountries(contains, h, importCountry, cs[..|cs| - 1])
        + (if Matches(importCountry, cn) then [CountryOf(contains, h, cn)] else [])
  }

  // ---------------------------------------------------------------------------
  // Hierarchy: properties

  /** Districts are kept in district order: filtering distributes over concatenation. */
  lemma {:induction false} CityDistrictsConcat(contains: Contains, h: Handler, g: Polygon, a: seq<Way>, b: seq<Way>)
    requires DistrictRingsIndexable(h, a + b)
    ensures DistrictRingsIndexable(h, a) && DistrictRingsIndexable(h, b)
    ensures CityDistricts(contains, h, g, a + b) == CityDistricts(contains, h, g, a) + CityDistricts(contains, h, g, b)
  {
    assert forall k :: 0 <= k < |a| ==> (a + b)[k] == a[k];
    assert forall k :: 0 <= k < |b| ==> (a + b)[|a| + k] == b[k];
    if b == [] {
      assert a + b == a;
    } else {
      var b' := b[..|b| - 1];
      assert (a + b)[..|a + b| - 1] == a + b';
      CityDistrictsConcat(contains, h, g, a, b');
    }
  }

  /** Every kept district is built from some district way whose representative
      point the city polygon contains. */
  lemma {:induction false} CityDistrictsElements(contains: Contains, h: Handler, g: Polygon, dists: seq<Way>)
    requires DistrictRingsIndexable(h, dists)
    ensures forall d :: d in CityDistricts(contains, h, g, dists) ==>
      exists j :: 0 <= j < |dists| && d == DistrictOf(h, dists[j])
                  && contains(g, RepresentativePoint(WayRing(h, dists[j].nodeIDs)))
  {
    if dists != [] {
      CityDistrictsElements(contains, h, g, dists[..|dists| - 1]);
    }
  }

  /** A district is kept by a city iff the city polygon contains the
      district's representative point. */
  lemma {:induction false} CityDistrictsMembership(contains: Contains, h: Handler, g: Polygon, dists: seq<Way>, k: nat)
    requires DistrictRingsIndexable(h, dists) && k < |dists|
    ensures DistrictOf(h, dists[k]) in CityDistricts(contains, h, g, dists)
        <==> contains(g, RepresentativePoint(WayRing(h, dists[k].nodeIDs)))
  {
    CityDistrictsElements(contains, h, g, dists);
    if k < |dists| - 1 {
      CityDistrictsMembership(contains, h, g, dists[..|dists| - 1], k);
    }
  }

  /** Towns are kept in area order: filtering distributes over concatenation. */
  lemma {:induction false} TownsConcat(contains: Contains, h: Handler, g: Polygon, a: seq<Relation>, b: seq<Relation>, dists: seq<Way>)
    requires TownsIndexable(h, a + b, dists)
    ensures TownsIndexable(h, a, dists) && TownsIndexable(h, b, dists)
    ensures Towns(contains, h, g, a + b, dists) == Towns(contains, h, g, a, dists) + Towns(contains, h, g, b, dists)
  {
    if a + b != [] {
      assert forall k :: 0 <= k < |a| ==> (a + b)[k] == a[k];
      assert forall k :: 0 <= k < |b| ==> (a + b)[|a| + k] == b[k];
    }
    if b == [] {
      assert a + b == a;
    } else {
      var b' := b[..|b| - 1];
      assert (a + b)[..|a + b| - 1] == a + b';
      assert (a + b)[|a + b| - 1] == b[|b| - 1];
      TownsConcat(contains, h, g, a, b', dists);
    }
  }

  /** Every town is the city of some area whose representative point the
      country polygon contains; it carries that area's name and place tags,
      its ring and the districts computed for it. */
  lemma {:induction false} TownsElements(contains: Contains, h: Handler, g: Polygon, areas: seq<Relation>, dists: seq<Way>)
    requires TownsIndexable(h, areas, dists)
    ensures forall t :: t in Towns(contains, h, g, areas, dists) ==>
      exists j :: 0 <= j < |areas| && t == CityOf(contains, h, areas[j], dists)
                  && contains(g, RepresentativePoint(RelationRing(h, areas[j].members)))
                  && t.name == Tag(areas[j].tags, "name") && t.placeType == Tag(areas[j].tags, "place")
                  && t.geom.points == RelationRing(h, areas[j].members)
  {
    if areas != [] {
      TownsElements(contains, h, g, areas[..|areas| - 1], dists);
    }
  }

  /** An area's city is a town of the country iff the country polygon
      contains the area's representative point. */
  lemma {:induction false} TownsMembership(contains: Contains, h: Handler, g: Polygon, areas: seq<Relation>, dists: seq<Way>, k: nat)
    requires TownsIndexable(h, areas, dists) && k < |areas|
    ensures CityOf(contains, h, areas[k], dists) in Towns(contains, h, g, areas, dists)
        <==> contains(g, RepresentativePoint(RelationRing(h, areas[k].members)))
  {
    TownsElements(contains, h, g, areas, dists);
    if k < |areas| - 1 {
      TownsMembership(contains, h, g, areas[..|areas| - 1], dists, k);
    }
  }

  /** Districts are not exclusive to one city: a district whose representative
      point lies in two city polygons is kept by both cities. */
  lemma DistrictSharedByCities(contains: Contains, h: Handler, a1: Relation, a2: Relation, dists: seq<Way>, k: nat)
    requires DistrictRingsIndexable(h, dists) && k < |dists|
    requires contains(Polygon(RelationRing(h, a1.members)), RepresentativePoint(WayRing(h, dists[k].nodeIDs)))
    requires contains(Polygon(RelationRing(h, a2.members)), RepresentativePoint(WayRing(h, dists[k].nodeIDs)))
    ensures DistrictOf(h, dists[k]) in CityOf(contains, h, a1, dists).districts
    ensures DistrictOf(h, dists[k]) in CityOf(contains, h, a2, dists).districts
  {
    CityDistrictsMembership(contains, h, Polygon(RelationRing(h, a1.members)), dists, k);
    CityDistrictsMembership(contains, h, Polygon(RelationRing(h, a2.members)), dists, k);
  }

  /** Countries are built in relation order: building distributes over
      concatenation of the country relations. */
  lemma {:induction false} BuildCountriesConcat(contains: Contains, h: Handler, importCountry: string, a: seq<Relation>, b: seq<Relation>)
    requires SafeFor(h, importCountry, a + b)
    ensures SafeFor(h, importCountry, a) && SafeFor(h, importCountry, b)
    ensures BuildCountries(contains, h, importCountry, a + b)
         == BuildCountries(contains, h, importCountry, a) + BuildCountries(contains, h, importCountry, b)
  {
    assert forall cn :: cn in a ==> cn in a + b;
    assert forall cn :: cn in b ==> cn in a + b;
    if b == [] {
      assert a + b == a;
    } else {
      var b' := b[..|b| - 1];
      assert (a + b)[..|a + b| - 1] == a + b';
      BuildCountriesConcat(contains, h, importCountry, a, b');
    }
  }

  /** One relation yields exactly one country when its name matches the
      configured country, and none otherwise. */
  lemma BuildCountriesSingle(contains: Contains, h: Handler, importCountry: string, cn: Relation)
    requires SafeFor(h, importCountry, [cn])
    ensures Matches(importCountry, cn) ==> RingsIndexable(h)
    ensures BuildCountries(contains, h, importCountry, [cn])
         == if Matches(importCountry, cn) then [CountryOf(contains, h, cn)] else []
  {
  }

  /** Every built country comes from a relation whose name tag equals the
      configured country, and carries that name. */
  lemma {:induction false} BuildCountriesElements(contains: Contains, h: Handler, importCountry: string, cs: seq<Relation>)
    requires RingsIndexable(h)
    ensures forall c :: c in BuildCountries(contains, h, importCountry, cs) ==>
      c.name == importCountry &&
      exists j :: 0 <= j < |cs| && Matches(importCountry, cs[j]) && c == CountryOf(contains, h, cs[j])
  {
    if cs != [] {
      BuildCountriesElements(contains, h, importCountry, cs[..|cs| - 1]);
    }
  }

  /** A country relation is built into a country iff its name tag equals the
      configured country; every other relation is left unused. */
  lemma {:induction false} BuildCountriesMembership(contains: Contains, h: Handler, importCountry: string, cs: seq<Relation>, k: nat)
    requires RingsIndexable(h) && k < |cs|
    ensures CountryOf(contains, h, cs[k]) in BuildCountries(contains, h, importCountry, cs) <==> Matches(importCountry, cs[k])
  {
    BuildCountriesElements(contains, h, importCountry, cs);
    if k < |cs| - 1 {
      BuildCountriesMembership(contains, h, importCountry, cs[..|cs| - 1], k);
    }
  }

  /** One more district way visited: the kept districts grow by at most that
      district. */
  lemma CityDistrictsStep(contains: Contains, h: Handler, g: Polygon, dists: seq<Way>, d: nat)
    requires DistrictRingsIndexable(h, dists) && d < |dists|
    ensures DistrictRingsIndexable(h, dists[..d]) && |WayRing(h, dists[d].nodeIDs)| >= 2
    ensures CityDistricts(contains, h, g, dists[..d + 1])
         == CityDistricts(contains, h, g, dists[..d])
            + (if contains(g, RepresentativePoint(WayRing(h, dists[d].nodeIDs))) then [DistrictOf(h, dists[d])] else [])
  {
    assert dists[..d + 1][..d] == dists[..d];
  }

  /** One more area visited: the towns grow by at most that area's city. */
  lemma TownsStep(contains: Contains, h: Handler, g: Polygon, areas: seq<Relation>, dists: seq<Way>, a: nat)
    requires TownsIndexable(h, areas, dists) && a < |areas|
    ensures TownsIndexable(h, areas[..a], dists) && DistrictRingsIndexable(h, dists)
    ensures |RelationRing(h, areas[a].members)| >= 2
    ensures Towns(contains, h, g, areas[..a + 1], dists)
         == Towns(contains, h, g, areas[..a], dists)
            + (if contains(g, RepresentativePoint(RelationRing(h, areas[a].members)))
               then [CityOf(contains, h, areas[a], dists)] else [])
  {
    assert areas[..a + 1][..a] == areas[..a];
  }

  /** One more country relation visited: the countries grow by at most that
      relation's country. */
  lemma BuildCountriesStep(contains: Contains, h: Handler, importCountry: string, cs: seq<Relation>, n: nat)
    requires SafeFor(h, importCountry, cs) && n < |cs|
    ensures SafeFor(h, importCountry, cs[..n]) && SafeFor(h, importCountry, cs[..n + 1])
    ensures Matches(importCountry, cs[n]) ==> RingsIndexable(h)
    ensures BuildCountries(contains, h, importCountry, cs[..n + 1])
         == BuildCountries(contains, h, importCountry, cs[..n])
            + (if Matches(importCountry, cs[n]) then [CountryOf(contains, h, cs[n])] else [])
  {
    assert cs[..n + 1][..n] == cs[..n];
    assert cs[..n + 1][n] == cs[n];
    assert cs[n] in cs;
    assert forall cn :: cn in cs[..n + 1] ==> cn in cs;
  }

  // ---------------------------------------------------------------------------
  // The importer

  /** The importer's state that the hierarchy builder uses: the parser's
      accumulator, the configured country and the countries built so far. */
  class Importer {
    const handler: Handler
    const importCountry: string
    var countries: seq<Country>

    constructor (handler: Handler, importCountry: string)
      ensures this.handler == handler && this.importCountry == importCountry
      ensures countries == []
    {
      this.handler := handler;
      this.importCountry := importCountry;
      countries := [];
    }

    /** The polygon of a district way: one point per node id, in order; a
        missing node gives the zero node's point. */
    method WayToPolygon(way: Way) returns (p: Polygon)
      ensures |p.points| == |way.nodeIDs|
      ensures forall k :: 0 <= k < |way.nodeIDs| ==> p.points[k] == NewPoint(NodeAt(handler, way.nodeIDs[k]))
      ensures p.points == WayRing(handler, way.nodeIDs)
    {
      var points: seq<Point> := [];
      for j := 0 to |way.nodeIDs|
        invariant points == WayRing(handler, way.nodeIDs[..j])
      {
        var node := NodeAt(handler, way.nodeIDs[j]);
        points := points + [NewPoint(node)];
      }
      assert way.nodeIDs[..|way.nodeIDs|] == way.nodeIDs;
      p := Polygon(points);
    }

    /** The polygon of a relation: the members' contributions concatenated in
        member order. */
    method RelationToPolygon(area: Relation) returns (p: Polygon)
      ensures p.points == RelationRing(handler, area.members)
    {
      var points: seq<Point> := [];
      for m := 0 to |area.members|
        invariant points == RelationRing(handler, area.members[..m])
      {
        var member := area.members[m];
        assert area.members[..m + 1][..m] == area.members[..m];
        if member.id in handler.nodes {
          var node := handler.nodes[member.id];
          points := points + [NewPoint(node)];
        }
        if member.id !in handler.nodes {
          var way := WayAt(handler, member.id);
          for j := 0 to |way.nodeIDs|
            invariant points == RelationRing(handler, area.members[..m]) + WayRing(handler, way.nodeIDs[..j])
          {
            var node := NodeAt(handler, way.nodeIDs[j]);
            points := points + [NewPoint(node)];
          }
          assert way.nodeIDs[..|way.nodeIDs|] == way.nodeIDs;
        }
      }
      assert area.members[..|area.members|] == area.members;
      p := Polygon(points);
    }

    /** The city of one area, as the body of the area loop builds it: every
        district way is tested against the area polygon, whether or not the
        city is attached to the country afterwards. */
    method BuildCity(contains: Contains, area: Relation) returns (city: City)
      requires DistrictRingsIndexable(handler, handler.districts)
      ensures city == CityOf(contains, handler, area, handler.districts)
      ensures city.name == Tag(area.tags, "name") && city.placeType == Tag(area.tags, "place")
      ensures city.geom.points == RelationRing(handler, area.members)
    {
      var h := handler;
      var areaPolygon := RelationToPolygon(area);
      city := City(Tag(area.tags, "name"), Tag(area.tags, "place"), areaPolygon, []);
      for d := 0 to |h.districts|
        invariant city.name == Tag(area.tags, "name") && city.placeType == Tag(area.tags, "place")
        invariant city.geom == areaPolygon
        invariant city.districts == CityDistricts(contains, h, areaPolygon, h.districts[..d])
      {
        CityDistrictsStep(contains, h, areaPolygon, h.districts, d);
        var dist := h.districts[d];
        var districtPolygon := WayToPolygon(dist);
        if contains(areaPolygon, districtPolygon.points[1]) {
          city := city.(districts := city.districts + [District(Tag(dist.tags, "name"), districtPolygon)]);
        }
      }
      assert h.districts[..|h.districts|] == h.districts;
    }

    /** The country of one imported country relation, as the body of the
        country loop builds it: the city of every area is built, and kept
        when the country polygon contains the area's representative point. */
    method BuildCountry(contains: Contains, cn: Relation) returns (c: Country)
      requires RingsIndexable(handler)
      ensures c == CountryOf(contains, handler, cn)
      ensures c.name == Tag(cn.tags, "name") && c.geom.points == RelationRing(handler, cn.members)
    {
      var h := handler;
      var countryPolygon := RelationToPolygon(cn);
      c := Country(Tag(cn.tags, "name"), [], countryPolygon);
      for a := 0 to |h.areas|
        invariant c.name == Tag(cn.tags, "name") && c.geom == countryPolygon
        invariant c.towns == Towns(contains, h, countryPolygon, h.areas[..a], h.districts)
      {
        TownsStep(contains, h, countryPolygon, h.areas, h.districts, a);
        var area := h.areas[a];
        var city := BuildCity(contains, area);
        if contains(countryPolygon, city.geom.points[1]) {
          c := c.(towns := c.towns + [city]);
        }
      }
      assert h.areas[..|h.areas|] == h.areas;
    }

    /** Builds the hierarchy: appends, after the existing entries, one country
        per country relation named like the configured country, in relation
        order. The source panics on a ring without a second point; the
        precondition is exactly the condition under which it does not. */
    method AreasToPolygons(contains: Contains)
      requires SafeFor(handler, importCountry, handler.countries)
      modifies this
      ensures countries == old(countries) + BuildCountries(contains, handler, importCountry, handler.countries)
    {
      var h := handler;
      for n := 0 to |h.countries|
        invariant countries == old(countries) + BuildCountries(contains, h, importCountry, h.countries[..n])
      {
        BuildCountriesStep(contains, h, importCountry, h.countries, n);
        var cn := h.countries[n];
        if Tag(cn.tags, "name") != importCountry {
          continue;
        }
        var c := BuildCountry(contains, cn);
        countries := countries + [c];
      }
      assert h.countries[..|h.countries|] == h.countries;
    }
  }

  // ---------------------------------------------------------------------------
  // String de-duplication

  /** No element occurs twice. */
  predicate NoDuplicates(s: seq<string>)
  {
    forall i, j :: 0 <= i < j < |s| ==> s[i] != s[j]
  }

  /** The distinct elements of `list`, each once, in an order the model
      leaves open (the source reads them back from a hash map). */
  method UniqString(list: seq<string>) returns (result: seq<string>)
    ensures NoDuplicates(result)
    ensures forall x :: x in result <==> x in list
    ensures |result| <= |list|
  {
    var uniqueSet: map<string, bool> := map[];
    for i := 0 to |list|
      invariant uniqueSet.Keys == set x | x in list[..i]
      invariant |uniqueSet| <= i
    {
      assert list[..i + 1] == list[..i] + [list[i]];
      uniqueSet := uniqueSet[list[i] := true];
    }
    assert list[..|list|] == list;
    result := [];
    var remaining := uniqueSet.Keys;
    while remaining != {}
      invariant remaining <= uniqueSet.Keys
      invariant forall x :: x in result ==> x in uniqueSet && x !in remaining
      invariant forall x :: x in uniqueSet && x !in remaining ==> x in result
      invariant NoDuplicates(result)
      invariant |result| + |remaining| == |uniqueSet|
      decreases remaining
    {
      var x :| x in remaining;
      result := result + [x];
      remaining := remaining - {x};
    }
  }
}
