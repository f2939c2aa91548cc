/** The record types of the OpenStreetMap parser that the importer reads.
    Only the fields the importer uses are kept. Identifiers are OSM int64 ids;
    no arithmetic is done on them, so they are unbounded here. */
module Gosmparse {

  /** A node: a point record with its coordinates in degrees. */
  datatype Node = Node(id: int, lat: real, lon: real)

  /** A way: an ordered list of node references, with its tags. */
  datatype Way = Way(id: int, nodeIDs: seq<int>, tags: map<string, string>)

  /** A relation member: only its referenced id is consulted. */
  datatype Member = Member(id: int)

  /** A relation: its ordered members and its tags. */
  datatype Relation = Relation(id: int, members: seq<Member>, tags: map<string, string>)

  /** The zero value of a Go `Node`, which indexing a Go map with a missing key yields. */
  const ZeroNode := Node(0, 0.0, 0.0)

  /** The zero value of a Go `Way`: it has no node ids. */
  const ZeroWay := Way(0, [], map[])

  /** Go's `tags[key]`: the tag's value, or the empty string when the tag is absent. */
  function Tag(tags: map<string, string>, key: string): string
  {
    if key in tags then tags[key] else ""
  }
}
