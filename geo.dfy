/** The geometry values the importer builds. Coordinates are floating-point
    degrees in the source; they are only carried here, never computed with,
    so `real` stands for them. Point-in-polygon containment is not defined
    here: the importer receives it as a parameter. */
module Geo {

  /** A point, latitude first, as `geo.NewPoint(lat, lng)` builds it. */
  datatype Point = Point(lat: real, lng: real)

  /** A polygon: the ring of points it was built from, in order, with no
      closing or de-duplication step. */
  datatype Polygon = Polygon(points: seq<Point>)
}
