/**
 * The shapely objects the diagram code builds. Their vertices are kept;
 * shapely's predicates (`intersects`, `contains`) stay abstract and are
 * passed in as function parameters by every operation that uses them.
 */
module Geometry {
  import opened PyOps

  /** A point in voltage space: (gate 1 volt, gate 2 volt). */
  datatype VoltPoint = VoltPoint(x: real, y: real)

  /** `shapely.geometry.LineString`: a polyline through its vertices, in order. */
  datatype LineString = LineString(vertices: seq<VoltPoint>)

  /** `shapely.geometry.Polygon`: the closed ring through its vertices, in order. */
  datatype Polygon = Polygon(shell: seq<VoltPoint>)

  /** `zip(xs, ys)` as points: pairs the coordinates up to the shorter of the two sequences. */
  function ZipPoints(xs: seq<real>, ys: seq<real>): (ps: seq<VoltPoint>)
    ensures |ps| == Min(|xs|, |ys|)
    ensures forall k :: 0 <= k < |ps| ==> ps[k] == VoltPoint(xs[k], ys[k])
  {
    if |xs| == 0 || |ys| == 0 then []
    else [VoltPoint(xs[0], ys[0])] + ZipPoints(xs[1..], ys[1..])
  }

  /**
   * The patch shape: the rectangle with corners (startX, startY), (endX, startY),
   * (endX, endY), (startX, endY), in that order.
   */
  function Rectangle(startX: real, startY: real, endX: real, endY: real): Polygon
  {
    Polygon([VoltPoint(startX, startY), VoltPoint(endX, startY), VoltPoint(endX, endY), VoltPoint(startX, endY)])
  }

  /** `any([line.intersects(shape) for line in lines])`. */
  function AnyIntersects(lines: seq<LineString>, shape: Polygon, intersects: (LineString, Polygon) -> bool): (b: bool)
    ensures b <==> exists i :: 0 <= i < |lines| && intersects(lines[i], shape)
  {
    if lines == [] then false
    else intersects(lines[0], shape) || AnyIntersects(lines[1..], shape, intersects)
  }
}
