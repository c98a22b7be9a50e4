/** Points of the training set and of the queries. */
module Points {

  /** What the program reaches through a `float*`: num_dimensions coordinates, never written again. */
  type Point = seq<real>

  /** Coordinate d of p. The program only asks for coordinates that exist; the value 0.0 of the
      others keeps the specification functions total. */
  function Coord(p: Point, d: nat): real {
    if d < |p| then p[d] else 0.0
  }

  ghost predicate Shaped(pts: seq<Point>, dims: nat) {
    forall i :: 0 <= i < |pts| ==> |pts[i]| == dims
  }
}
