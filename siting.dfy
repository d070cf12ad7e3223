/** One optimisation run: build the objective, seed and box, hand them to the bounded local
    minimiser, and keep a result only when the run succeeded. */
module Siting {
  import opened Geometry
  import opened Feasibility
  import opened CostModel
  import opened Search

  datatype Option<T> = None | Some(value: T)

  /** What the minimiser reports: the point it stopped at and whether it claims success. */
  datatype SolverReport = SolverReport(x: Coord, success: bool)

  /** The bounded local minimiser, a foreign numeric routine: it receives the objective, the
      seed and the search box, and reports a point and a success flag. */
  type Minimizer = (Coord -> real, Coord, Box) -> SolverReport

  /** A stored result: the chosen location and the zone table it was computed from. */
  datatype SitingResult = SitingResult(x: real, y: real, zones: seq<Zone>)

  /** The objective handed to the minimiser. */
  function ObjectiveOf(g: SitingGeometry, sqrt: real -> real, zones: seq<Zone>): Coord -> real
  {
    p => Cost(g, sqrt, zones, p)
  }

  /** The minimiser's report for this zone table, started at the centroid inside the box. */
  function Solve(g: SitingGeometry, sqrt: real -> real, zones: seq<Zone>, minimize: Minimizer): SolverReport
    requires |zones| > 0
  {
    minimize(ObjectiveOf(g, sqrt, zones), Seed(zones), Bounds(zones))
  }

  /** Result selection as written: whatever point the minimiser reports success at is stored,
      together with the zone table; nothing is stored on failure. */
  function SelectAsWritten(report: SolverReport, zones: seq<Zone>): (r: Option<SitingResult>)
    ensures r.Some? <==> report.success
    ensures r.Some? ==> r.value == SitingResult(report.x.x, report.x.y, zones)
  {
    if report.success then Some(SitingResult(report.x.x, report.x.y, zones)) else None
  }

  /** A minimiser that stops at its seed and claims success, as a quasi-Newton method does on an
      objective that is flat around the seed. */
  function StopAtSeed(f: Coord -> real, x0: Coord, b: Box): SolverReport
  {
    SolverReport(x0, true)
  }

  /** The as-written selection stores an infeasible point: one zone outside the country polygon,
      where every candidate costs the penalty and the minimiser stops at the seed with success. */
  lemma AsWrittenStoresInfeasiblePoint(sqrt: real -> real)
    ensures var g := SitingGeometry(p => false, p => false, [], BufferDistance);
            var zones := [Zone("Zone 1", 80.0, 6.9, 2000.0)];
            var stored := SelectAsWritten(Solve(g, sqrt, zones, StopAtSeed), zones);
            && stored == Some(SitingResult(80.0, 6.9, zones))
            && !IsFeasible(g, sqrt, Coord(80.0, 6.9))
            && Cost(g, sqrt, zones, Coord(80.0, 6.9)) == Penalty
  {
    var zones := [Zone("Zone 1", 80.0, 6.9, 2000.0)];
    SingleZoneSearch(zones[0]);
  }

  /** Result selection as intended: a point is stored only when the minimiser reports success
      AND the point is feasible, so a stored location never carries the penalty. */
  function Select(g: SitingGeometry, sqrt: real -> real, report: SolverReport, zones: seq<Zone>): (r: Option<SitingResult>)
    ensures r.Some? <==> report.success && IsFeasible(g, sqrt, report.x)
    ensures r.Some? ==> r.value == SitingResult(report.x.x, report.x.y, zones)
    ensures r.Some? ==> Cost(g, sqrt, zones, Coord(r.value.x, r.value.y)) == TransportCost(sqrt, zones, report.x)
  {
    if report.success && IsFeasible(g, sqrt, report.x) then Some(SitingResult(report.x.x, report.x.y, zones)) else None
  }

  /** The outcome of one run on a non-empty zone table, with the corrected selection: the
      minimiser's point is stored exactly when it reports success there and the point is
      feasible. */
  function Optimize(g: SitingGeometry, sqrt: real -> real, zones: seq<Zone>, minimize: Minimizer): (r: Option<SitingResult>)
    requires |zones| > 0
    ensures r.Some? ==> Solve(g, sqrt, zones, minimize).success
    ensures r.Some? ==> IsFeasible(g, sqrt, Coord(r.value.x, r.value.y))
    ensures r.Some? ==> r.value.zones == zones
    ensures r.Some? <==> Solve(g, sqrt, zones, minimize).success && IsFeasible(g, sqrt, Solve(g, sqrt, zones, minimize).x)
    ensures r.Some? ==> r.value == SitingResult(Solve(g, sqrt, zones, minimize).x.x, Solve(g, sqrt, zones, minimize).x.y, zones)
  {
    Select(g, sqrt, Solve(g, sqrt, zones, minimize), zones)
  }

  /** With one zone the box is a single point; a minimiser that keeps its answer inside the box
      can only return the zone itself. The run then succeeds at zero cost, or fails when that
      point is infeasible. */
  lemma SingleZoneRun(g: SitingGeometry, sqrt: real -> real, z: Zone, minimize: Minimizer)
    requires IsSqrt(sqrt)
    requires InBox(Bounds([z]), Solve(g, sqrt, [z], minimize).x)
    ensures Solve(g, sqrt, [z], minimize).x == Location(z)
    ensures !IsFeasible(g, sqrt, Location(z)) ==> Optimize(g, sqrt, [z], minimize) == None
    ensures Optimize(g, sqrt, [z], minimize).Some? ==>
              Optimize(g, sqrt, [z], minimize).value == SitingResult(z.lon, z.lat, [z]) &&
              Cost(g, sqrt, [z], Location(z)) == 0.0
    ensures Solve(g, sqrt, [z], minimize).success && IsFeasible(g, sqrt, Location(z)) ==>
              Optimize(g, sqrt, [z], minimize) == Some(SitingResult(z.lon, z.lat, [z]))
  {
    SingleZoneSearch(z);
    if IsFeasible(g, sqrt, Location(z)) {
      CostZeroAtOwnLocation(g, sqrt, z);
    }
  }

  /** The page's session state: the result of the latest successful run, if any. */
  class Session {
    var result: Option<SitingResult>

    constructor ()
      ensures result == None
    {
      result := None;
    }

    /** One press of the run button, with the corrected selection. With no zones nothing
        happens; otherwise the previous result is removed first and replaced by this run's
        result, never merged with it. */
    method RunOptimization(g: SitingGeometry, sqrt: real -> real, zones: seq<Zone>, minimize: Minimizer)
      returns (succeeded: bool)
      modifies this
      ensures |zones| == 0 ==> !succeeded && result == old(result)
      ensures |zones| > 0 ==> result == Optimize(g, sqrt, zones, minimize)
      ensures succeeded <==> result.Some? && |zones| > 0
    {
      if |zones| == 0 {
        return false;
      }
      result := None;
      var x0 := Seed(zones);
      var bounds := Bounds(zones);
      var report := minimize(ObjectiveOf(g, sqrt, zones), x0, bounds);
      var feasible := CheckFeasible(g, sqrt, report.x);
      succeeded := report.success && feasible;
      if succeeded {
        result := Some(SitingResult(report.x.x, report.x.y, zones));
      }
    }
  }
}
