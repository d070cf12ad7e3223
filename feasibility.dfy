/** The feasibility evaluator: a candidate site must lie inside the country polygon, outside the
    clipped exclusion region, and no closer than the buffer radius to any sensitive point. */
module Feasibility {
  import opened Geometry

  /** The buffer radius the geometry loader fixes, in coordinate units (degrees). */
  const BufferDistance: real := 0.0001

  /** The geometric data the evaluator consults. The two containment tests are foreign polygon
      routines and enter the model as opaque predicates; `sensitive` lists the sensitive points
      in the order the loader returns them. */
  datatype SitingGeometry = SitingGeometry(
    country: Coord -> bool,
    exclusion: Coord -> bool,
    sensitive: seq<Coord>,
    bufferDistance: real)

  /** True when no sensitive point lies strictly closer to `p` than `radius`. */
  predicate RespectsBuffer(sqrt: real -> real, sensitive: seq<Coord>, radius: real, p: Coord)
  {
    forall i :: 0 <= i < |sensitive| ==> !(Dist(sqrt, p, sensitive[i]) < radius)
  }

  /** The buffer check: scans the sensitive points in order and rejects at the first one that
      lies strictly within the radius. */
  method RespectBuffer(sqrt: real -> real, sensitive: seq<Coord>, radius: real, p: Coord) returns (ok: bool)
    ensures ok == RespectsBuffer(sqrt, sensitive, radius, p)
    ensures !ok <==> exists i :: 0 <= i < |sensitive| && Dist(sqrt, p, sensitive[i]) < radius
    ensures sensitive == [] ==> ok
  {
    for i := 0 to |sensitive|
      invariant forall j :: 0 <= j < i ==> !(Dist(sqrt, p, sensitive[j]) < radius)
    {
      if Dist(sqrt, p, sensitive[i]) < radius {
        return false;
      }
    }
    return true;
  }

  /** With a genuine square root and a non-negative radius the buffer check is a comparison of
      squared distances against the squared radius. */
  lemma {:induction false} BufferBySquares(sqrt: real -> real, sensitive: seq<Coord>, radius: real, p: Coord)
    requires IsSqrt(sqrt)
    requires 0.0 <= radius
    ensures RespectsBuffer(sqrt, sensitive, radius, p) <==>
            forall i :: 0 <= i < |sensitive| ==> Sq(radius) <= SqDist(p, sensitive[i])
  {
    forall i | 0 <= i < |sensitive|
      ensures Dist(sqrt, p, sensitive[i]) < radius <==> SqDist(p, sensitive[i]) < Sq(radius)
    {
      SqrtBelow(sqrt, SqDist(p, sensitive[i]), radius);
    }
  }

  /** A sensitive point at exactly the buffer radius does not reject the candidate. */
  lemma BufferAtRadiusPasses(sqrt: real -> real, f: Coord, radius: real, p: Coord)
    requires IsSqrt(sqrt)
    requires 0.0 <= radius
    requires SqDist(p, f) == Sq(radius)
    ensures RespectsBuffer(sqrt, [f], radius, p)
  {
    SqrtBelow(sqrt, SqDist(p, f), radius);
  }

  /** With the loader's radius of 0.0001, a candidate passes the buffer check exactly when every
      sensitive point is at squared distance at least 1e-8. */
  lemma LoadedBufferBySquares(sqrt: real -> real, g: SitingGeometry, p: Coord)
    requires IsSqrt(sqrt)
    requires g.bufferDistance == BufferDistance
    ensures RespectsBuffer(sqrt, g.sensitive, g.bufferDistance, p) <==>
            forall i :: 0 <= i < |g.sensitive| ==> 0.00000001 <= SqDist(p, g.sensitive[i])
  {
    BufferBySquares(sqrt, g.sensitive, g.bufferDistance, p);
  }

  /** A candidate is feasible when all three checks pass. */
  function IsFeasible(g: SitingGeometry, sqrt: real -> real, p: Coord): (feasible: bool)
    ensures !g.country(p) ==> !feasible
    ensures g.exclusion(p) ==> !feasible
    ensures (exists i :: 0 <= i < |g.sensitive| && Dist(sqrt, p, g.sensitive[i]) < g.bufferDistance) ==> !feasible
    ensures g.country(p) && !g.exclusion(p) && RespectsBuffer(sqrt, g.sensitive, g.bufferDistance, p) ==> feasible
  {
    g.country(p) && !g.exclusion(p) && RespectsBuffer(sqrt, g.sensitive, g.bufferDistance, p)
  }

  /** The evaluator as the source runs it: short-circuits, so the buffer scan runs only for a
      point inside the country and outside the exclusion region. */
  method CheckFeasible(g: SitingGeometry, sqrt: real -> real, p: Coord) returns (feasible: bool)
    ensures feasible == IsFeasible(g, sqrt, p)
  {
    if !g.country(p) {
      return false;
    }
    if g.exclusion(p) {
      return false;
    }
    feasible := RespectBuffer(sqrt, g.sensitive, g.bufferDistance, p);
  }
}
