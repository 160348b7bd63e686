/** Points and orthogonal lines of the grid. */
module Geometry {
  import opened PartSelections

  datatype Point = Point(x: int, y: int)

  datatype Axis = Horizontal | Vertical

  /** The coordinate of a point along an axis, and the one across it. */
  function Along(axis: Axis, p: Point): int {
    if axis == Horizontal then p.x else p.y
  }

  function Across(axis: Axis, p: Point): int {
    if axis == Horizontal then p.y else p.x
  }

  function At(axis: Axis, row: int, k: int): Point {
    if axis == Horizontal then Point(k, row) else Point(row, k)
  }

  datatype LineValue = Line(axis: Axis, row: int, begin: int, end: int)

  /** A horizontal or vertical line of positive length whose points are ordered. */
  type OrderedLine = l: LineValue | l.begin < l.end witness Line(Horizontal, 0, 0, 1)

  function P0(l: OrderedLine): Point { At(l.axis, l.row, l.begin) }

  function P1(l: OrderedLine): Point { At(l.axis, l.row, l.end) }

  predicate IsOrthogonalLine(p0: Point, p1: Point) {
    (p0.x == p1.x) != (p0.y == p1.y)
  }

  /** The order of points: by x, then by y. */
  predicate IsLess(a: Point, b: Point) {
    a.x < b.x || (a.x == b.x && a.y < b.y)
  }

  /** The points that are accepted for a line are exactly the end points of one line. */
  lemma LinesAreTheirPoints(p0: Point, p1: Point)
    ensures IsOrthogonalLine(p0, p1) && IsLess(p0, p1) <==> exists l: OrderedLine :: P0(l) == p0 && P1(l) == p1
    ensures forall a: OrderedLine, b: OrderedLine :: P0(a) == P0(b) && P1(a) == P1(b) ==> a == b
  {
    if IsOrthogonalLine(p0, p1) && IsLess(p0, p1) {
      var axis := if p0.y == p1.y then Horizontal else Vertical;
      var l: OrderedLine := Line(axis, Across(axis, p0), Along(axis, p0), Along(axis, p1));
      assert P0(l) == p0 && P1(l) == p1;
    }
  }

  predicate IsEndPoint(p: Point, l: OrderedLine) { p == P0(l) || p == P1(l) }

  /** Inside the line, without its end points. */
  predicate IsInside(p: Point, l: OrderedLine) {
    Across(l.axis, p) == l.row && l.begin < Along(l.axis, p) < l.end
  }

  predicate IsColliding(p: Point, l: OrderedLine) {
    Across(l.axis, p) == l.row && l.begin <= Along(l.axis, p) <= l.end
  }

  function Length(l: OrderedLine): nat { l.end - l.begin }

  /** A line as a part of itself. */
  function ToPart(l: OrderedLine): Part {
    Part(0, Length(l))
  }
}
