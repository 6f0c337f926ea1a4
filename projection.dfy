/**
 * What the core needs of the PROJ library: the degree-to-radian factor and
 * `pj_transform` applied to an interleaved x, y coordinate buffer. The
 * projection itself is foreign code; it is modelled as a function
 * parameter `project` from a (longitude, latitude) pair in radians to a
 * projected (x, y) pair, applied to every pair of the buffer.
 */
module Projection {

  /** DEG_TO_RAD as proj_api.h defines it. */
  const DegToRad: real := 0.0174532925199432958

  /** A projection from geographic radians to planar coordinates. */
  type Projector = (real, real) -> (real, real)

  /** `pj_transform(src, dst, count, 2, buf, buf + 1, nullptr)`: every
      (x, y) pair of the interleaved buffer is replaced by its projection;
      the buffer keeps its length. */
  function Transform(project: Projector, coords: seq<real>): (r: seq<real>)
    requires |coords| % 2 == 0
    ensures |r| == |coords|
  {
    if coords == [] then []
    else
      var n := |coords|;
      var p := project(coords[n - 2], coords[n - 1]);
      Transform(project, coords[..n - 2]) + [p.0, p.1]
  }

  /** Pair k of the result is the projection of pair k of the input. */
  lemma {:induction false} TransformPair(project: Projector, coords: seq<real>, k: nat)
    requires |coords| % 2 == 0 && 2 * k + 1 < |coords|
    ensures var r := Transform(project, coords);
            (r[2 * k], r[2 * k + 1]) == project(coords[2 * k], coords[2 * k + 1])
  {
    var n := |coords|;
    if 2 * k + 1 < n - 2 {
      var init := coords[..n - 2];
      TransformPair(project, init, k);
    }
  }
}
