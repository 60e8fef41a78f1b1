/** The geometry the flattener relies on without defining it: points, the
    distance between two points, the flatness of a cubic and its split at
    parameter one half.  The three operations are supplied as values of
    `Space`; the model assumes nothing about them except, where stated, that
    distances are never negative. */
module Geometry {

  /** A position in space (a `Vector3`). */
  datatype Point = Point(x: real, y: real, z: real)

  /** What splitting the cubic (a, c1, c2, b) at parameter one half yields:
      the left half is (a, c1, c12, m) and the right half (m, c21, c2, b),
      so the two halves share the point m on the curve and keep the outer
      end points a and b. */
  datatype Halves = Halves(c1: Point, c12: Point, m: Point, c21: Point, c2: Point)

  /** The geometric operations the flattener calls but does not define:
      `dist(p, q)` is `p.distanceFrom(q)`, `flatness` is the measure computed
      by `flatnessFor`, and `split` is the de Casteljau split at one half. */
  datatype Space = Space(
    dist: (Point, Point) -> real,
    flatness: (Point, Point, Point, Point) -> real,
    split: (Point, Point, Point, Point) -> Halves)

  /** The one property of the distance that the model relies on. */
  ghost predicate NonNegative(dist: (Point, Point) -> real) {
    forall p, q :: dist(p, q) >= 0.0
  }
}
