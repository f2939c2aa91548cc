# Administrative hierarchy of the OSM importer, modelled in Dafny

This project models the hierarchy builder of the ariadna geocoder's OSM
importer (`osm/osm.go`). After the parser has filled its accumulator (the
*handler*: nodes and full ways by id, and the country, area and district
collections), the importer

- assembles a polygon ring from a boundary relation (`relationToPolygon`):
  each member id is looked up first among the nodes (one point) and otherwise
  among the full ways (the way's points in node-id order);
- assembles a polygon ring from a district way (`wayToPolygon`);
- builds the country -> city -> district hierarchy (`areasToPolygons`):
  only country relations whose `name` tag equals the configured import
  country are built; every area becomes a city whose districts are the
  district ways whose ring's second point the city polygon contains; a city
  is attached to the country when the country polygon contains the second
  point of the city's ring; the finished country is appended to the
  importer's `countries`;
- de-duplicates a list of strings through a set (`uniqString`).

Files:

- `gosmparse.dfy` — module `Gosmparse`: the parser's `Node`, `Way`,
  `Member` and `Relation` records (only the fields used), their Go zero
  values, and `Tag`, the Go map lookup of a tag (empty string when absent).
- `geo.dfy` — module `Geo`: `Point` (latitude, longitude) and `Polygon`
  (the ring it was built from).
- `osm.dfy` — module `Osm`: the `Handler` accumulator, the `Country`,
  `City` and `District` records, the specification functions
  (`WayRing`, `MemberPoints`, `RelationRing`, `CityDistricts`, `CityOf`,
  `Towns`, `CountryOf`, `BuildCountries`), the lemmas about them, the
  `Importer` class whose methods carry the source's loops, and `UniqString`.

Modelling decisions:

- The point-in-polygon test of the geometry library is a parameter
  `contains: (Polygon, Point) -> bool`; every filtering and attachment rule is
  stated exactly in terms of it, independent of geometry.
- Go map indexing yields a zero value for a missing key. A node id missing
  from `Nodes` therefore gives the zero node's point `(0, 0)`; a member id
  found in neither table gives the zero way, which contributes no points.
  Assembling a way therefore neither faults on nor skips a missing node: the
  node contributes the point `(0, 0)`.
- The accumulator's `Countries`, `Areas` and `Districts` collections are
  sequences in one fixed iteration order; the source iterates Go maps, whose
  order is not fixed from run to run.
- The source indexes `Points()[1]` without a length check, which panics on a
  ring of fewer than two points. `AreasToPolygons` requires exactly the
  condition under which no such panic happens: no country relation is
  imported, or there are no areas, or every area ring and every district
  ring has at least two points (once one area is visited, the district loop
  visits every district, and every area is visited).
- The hierarchy is not a strict tree: the code tests every district against
  every city independently, so a district can be kept by several cities;
  `DistrictSharedByCities` states this.
- The nested loops of `areasToPolygons` are split into three methods —
  `AreasToPolygons` (the country loop), `BuildCountry` (the area loop) and
  `BuildCity` (the district loop) — which compute the same values in the
  same order; the split keeps each proof small.
- Coordinates are `real`: they are carried, never computed with.

## Model

| member | source | states |
|---|---|---|
| `Osm.Importer.constructor` | osm/osm.go:22-30 | a fresh importer holds the given accumulator and configured country and no countries yet |
| `Osm.Importer.WayToPolygon` | osm/osm.go:170-177 | the ring has exactly one point per node id of the way, and point k is the point of the node named by the k-th node id (the zero node's point when missing) |
| `Osm.Importer.RelationToPolygon` | osm/osm.go:152-169 | the ring built by the member loop equals the concatenation, in member order, of every member's contribution |
| `Osm.RelationRingConcat` | osm/osm.go:152-169 | assembling the concatenation of two member lists gives the concatenation of their rings: no reordering, closing or de-duplication across members |
| `Osm.RelationRingSplit` | osm/osm.go:154-167 | the ring is the part before any member, that member's own contribution, and the part after it |
| `Osm.MemberContribution` | osm/osm.go:155-165 | a member whose id is a node contributes exactly that node's point whatever the way table holds; otherwise it contributes its way's points in node-id order, or nothing when no way has that id |
| `Osm.RelationRingOfNodes` | osm/osm.go:154-158 | a relation of node members only has one point per member, point k being member k's node |
| `Osm.NodeThenWayRing` | osm/osm.go:154-165 | a node member followed by a way member assembles to the node's point followed by the way's points |
| `Osm.CityDistrictsConcat` | osm/osm.go:135-141 | the districts a city keeps follow district order: keeping distributes over concatenation of the district list |
| `Osm.CityDistrictsElements` | osm/osm.go:135-141 | every kept district is built from some district way whose ring's second point the city polygon contains |
| `Osm.CityDistrictsMembership` | osm/osm.go:136-140 | a district way's district is kept by a city iff the city polygon contains that district ring's second point |
| `Osm.DistrictSharedByCities` | osm/osm.go:128-141 | a district whose second point lies in two city polygons is kept by both cities: the hierarchy is not a strict tree |
| `Osm.TownsConcat` | osm/osm.go:128-145 | towns follow area order: keeping distributes over concatenation of the area list |
| `Osm.TownsElements` | osm/osm.go:128-145 | every town is the city of some area whose ring's second point the country polygon contains, carrying that area's name and place tags and ring |
| `Osm.TownsMembership` | osm/osm.go:128-144 | an area's city is a town of the country iff the country polygon contains the second point of the area's ring |
| `Osm.BuildCountriesConcat` | osm/osm.go:110-148 | countries are built in relation order: building distributes over concatenation of the country relations |
| `Osm.BuildCountriesSingle` | osm/osm.go:110-147 | one relation yields exactly one country when its name tag equals the import country and none otherwise |
| `Osm.BuildCountriesElements` | osm/osm.go:110-127 | every built country carries the import country's name and is built from a relation whose name tag matches |
| `Osm.BuildCountriesMembership` | osm/osm.go:110-127 | a relation's country is built iff its name tag equals the import country; other relations are unused |
| `Osm.Importer.BuildCity` | osm/osm.go:129-141 | the city of an area carries its name and place tags and its ring, and keeps exactly the districts `CityDistricts` keeps, computed whether or not it is later attached |
| `Osm.Importer.BuildCountry` | osm/osm.go:114-146 | the country of a matching relation carries its name tag and ring and exactly the towns `Towns` keeps |
| `Osm.Importer.AreasToPolygons` | osm/osm.go:108-151 | when no ring index is out of range, `countries` becomes its old value followed by the countries built from the matching relations, in relation order |
| `Osm.UniqString` | osm/osm.go:97-107 | the result has no duplicates, holds exactly the elements of the input, and is no longer than the input; its order is left open |

## Left out

- `NewImporter`, `download`, `parse`, `updateIndices` and `Done`: they call the downloader, the parser and the search-index client, which are not part of this model.
- The debug export of each country's ring to a file and the process exit on failure to create it (osm/osm.go:116-123): file I/O.
- `Start`'s fan-out of the three index pushes to an error group and `WaitStop`: concurrency over functions (`crossRoadsToElastic`, `nodesToElastic`, `waysToElastic`) that are not part of this model.
- `StartWebServer` and the search and reverse-geocoding handlers: HTTP plumbing whose handlers are not part of this model.
- The geometry library's `Contains` and point construction: floating-point geometry, abstracted as the `contains` parameter and the `Point` record.
- The logger calls of `areasToPolygons`: they only write log lines.
- `Osm.Importer.AreasToPolygons`: the panic on a ring of fewer than two points is not modelled as a behaviour; the method requires the condition under which it does not happen.
- `Osm.UniqString`: the order of the result (Go map iteration order) is not modelled; any order is allowed.
