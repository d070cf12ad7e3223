/** The cost model: the transport cost of serving every zone from one candidate site, with a
    fixed penalty for an infeasible candidate. */
module CostModel {
  import opened Geometry
  import opened Feasibility

  /** Tons per transport unit: daily waste is divided by this before trips are counted. */
  const WasteUnit: real := 1000.0
  /** Capacity of one vehicle, in transport units (5 tons). */
  const VehicleCapacity: real := 5.0 / 1000.0
  /** Cost per unit of distance for one trip. */
  const CostPerKm: real := 20.0 / 1000.0
  /** The finite cost that stands in for an infeasible candidate. */
  const Penalty: real := 1000000000.0

  /** A zone as entered in the form: its name, location and daily waste in tons. */
  datatype Zone = Zone(name: string, lon: real, lat: real, waste: real)

  function Location(z: Zone): Coord
  {
    Coord(z.lon, z.lat)
  }

  /** The form only admits non-negative waste quantities. */
  predicate WasteNonNegative(zones: seq<Zone>)
  {
    forall i :: 0 <= i < |zones| ==> 0.0 <= zones[i].waste
  }

  /** The least integer that is at least `v`. */
  function Ceil(v: real): (n: int)
    ensures v <= n as real < v + 1.0
  {
    -((-v).Floor)
  }

  /** The number of vehicle trips a zone needs: the least integer at least its waste in
      transport units divided by the vehicle capacity, i.e. at least its waste in tons over 5. */
  function Trips(waste: real): (n: int)
    ensures waste / 5.0 <= n as real < waste / 5.0 + 1.0
    ensures 0.0 <= waste ==> 0 <= n
    ensures waste == 0.0 ==> n == 0
  {
    assert (waste / WasteUnit) / VehicleCapacity == waste / 5.0;
    Ceil((waste / WasteUnit) / VehicleCapacity)
  }

  /** The cost of carrying one zone's waste to the candidate site. */
  function SiteCost(sqrt: real -> real, z: Zone, p: Coord): real
  {
    CostPerKm * Trips(z.waste) as real * Dist(sqrt, Location(z), p)
  }

  /** The summed transport cost of the zones, accumulated in order. */
  function TransportCost(sqrt: real -> real, zones: seq<Zone>, p: Coord): real
  {
    if |zones| == 0 then 0.0
    else TransportCost(sqrt, zones[..|zones| - 1], p) + SiteCost(sqrt, zones[|zones| - 1], p)
  }

  /** The objective: the penalty for an infeasible candidate, whatever the zones; otherwise
      the transport cost. */
  function Cost(g: SitingGeometry, sqrt: real -> real, zones: seq<Zone>, p: Coord): (c: real)
    ensures !IsFeasible(g, sqrt, p) ==> c == Penalty
    ensures IsFeasible(g, sqrt, p) ==> c == TransportCost(sqrt, zones, p)
  {
    if !IsFeasible(g, sqrt, p) then Penalty else TransportCost(sqrt, zones, p)
  }

  /** The objective as the source computes it: the feasibility test first, then a running total
      over the zones. */
  method Objective(g: SitingGeometry, sqrt: real -> real, zones: seq<Zone>, p: Coord) returns (cost: real)
    ensures cost == Cost(g, sqrt, zones, p)
  {
    var feasible := CheckFeasible(g, sqrt, p);
    if !feasible {
      return Penalty;
    }
    var total := 0.0;
    for i := 0 to |zones|
      invariant total == TransportCost(sqrt, zones[..i], p)
    {
      var z := zones[i];
      var n := Trips(z.waste);
      var t := Dist(sqrt, Location(z), p);
      assert zones[..i + 1][..i] == zones[..i];
      total := total + CostPerKm * n as real * t;
    }
    assert zones[..|zones|] == zones;
    return total;
  }

  lemma ProductMonotone(a: real, b: real, c: real)
    requires 0.0 <= a && b <= c
    ensures a * b <= a * c
  {
  }

  /** For a zone with non-negative waste the cost grows with the distance travelled. */
  lemma SiteCostMonotone(sqrt: real -> real, z: Zone, p1: Coord, p2: Coord)
    requires 0.0 <= z.waste
    requires Dist(sqrt, Location(z), p1) <= Dist(sqrt, Location(z), p2)
    ensures SiteCost(sqrt, z, p1) <= SiteCost(sqrt, z, p2)
  {
    ProductMonotone(CostPerKm * Trips(z.waste) as real, Dist(sqrt, Location(z), p1), Dist(sqrt, Location(z), p2));
  }

  /** One zone's cost is non-negative when its waste is. */
  lemma SiteCostNonNegative(sqrt: real -> real, z: Zone, p: Coord)
    requires IsSqrt(sqrt)
    requires 0.0 <= z.waste
    ensures 0.0 <= SiteCost(sqrt, z, p)
  {
    DistProperties(sqrt, Location(z), p);
    var a := CostPerKm * Trips(z.waste) as real;
    assert 0.0 <= a;
    ProductMonotone(a, 0.0, Dist(sqrt, Location(z), p));
  }

  /** A zone with no waste needs no trips and adds nothing to the transport cost. */
  lemma ZeroWasteZoneCostsNothing(sqrt: real -> real, zones: seq<Zone>, z: Zone, p: Coord)
    requires z.waste == 0.0
    ensures SiteCost(sqrt, z, p) == 0.0
    ensures TransportCost(sqrt, zones + [z], p) == TransportCost(sqrt, zones, p)
  {
    assert (zones + [z])[..|zones|] == zones;
  }

  /** The transport cost is a sum of non-negative terms. */
  lemma {:induction false} TransportCostNonNegative(sqrt: real -> real, zones: seq<Zone>, p: Coord)
    requires IsSqrt(sqrt)
    requires WasteNonNegative(zones)
    ensures 0.0 <= TransportCost(sqrt, zones, p)
  {
    if |zones| > 0 {
      var n := |zones| - 1;
      TransportCostNonNegative(sqrt, zones[..n], p);
      SiteCostNonNegative(sqrt, zones[n], p);
    }
  }

  /** With non-negative waste the objective is never negative, feasible or not. */
  lemma CostNonNegative(g: SitingGeometry, sqrt: real -> real, zones: seq<Zone>, p: Coord)
    requires IsSqrt(sqrt)
    requires WasteNonNegative(zones)
    ensures 0.0 <= Cost(g, sqrt, zones, p)
  {
    TransportCostNonNegative(sqrt, zones, p);
  }

  /** When every zone lies at the candidate site nothing has to travel. */
  lemma {:induction false} TransportCostZeroAtZones(sqrt: real -> real, zones: seq<Zone>, p: Coord)
    requires IsSqrt(sqrt)
    requires forall i :: 0 <= i < |zones| ==> Location(zones[i]) == p
    ensures TransportCost(sqrt, zones, p) == 0.0
  {
    if |zones| > 0 {
      var n := |zones| - 1;
      TransportCostZeroAtZones(sqrt, zones[..n], p);
      DistProperties(sqrt, Location(zones[n]), p);
    }
  }

  /** A single zone evaluated at its own, feasible, location costs nothing. */
  lemma CostZeroAtOwnLocation(g: SitingGeometry, sqrt: real -> real, z: Zone)
    requires IsSqrt(sqrt)
    requires IsFeasible(g, sqrt, Location(z))
    ensures Cost(g, sqrt, [z], Location(z)) == 0.0
  {
    TransportCostZeroAtZones(sqrt, [z], Location(z));
  }

  /** A candidate no farther from any zone than another candidate is never costlier. */
  lemma {:induction false} TransportCostMonotone(sqrt: real -> real, zones: seq<Zone>, p1: Coord, p2: Coord)
    requires WasteNonNegative(zones)
    requires forall i :: 0 <= i < |zones| ==> Dist(sqrt, Location(zones[i]), p1) <= Dist(sqrt, Location(zones[i]), p2)
    ensures TransportCost(sqrt, zones, p1) <= TransportCost(sqrt, zones, p2)
  {
    if |zones| > 0 {
      var n := |zones| - 1;
      TransportCostMonotone(sqrt, zones[..n], p1, p2);
      SiteCostMonotone(sqrt, zones[n], p1, p2);
    }
  }

  /** For one zone and two feasible candidates, the nearer candidate never costs more. */
  lemma NearerFeasibleSiteNoCostlier(g: SitingGeometry, sqrt: real -> real, z: Zone, p1: Coord, p2: Coord)
    requires 0.0 <= z.waste
    requires IsFeasible(g, sqrt, p1) && IsFeasible(g, sqrt, p2)
    requires Dist(sqrt, Location(z), p1) <= Dist(sqrt, Location(z), p2)
    ensures Cost(g, sqrt, [z], p1) <= Cost(g, sqrt, [z], p2)
  {
    TransportCostMonotone(sqrt, [z], p1, p2);
  }
}
