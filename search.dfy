/** The search setup: the seed of the local search is the centroid of the zones, and the search
    box spans the smallest and largest coordinate of the zones on each axis. */
module Search {
  import opened Geometry
  import opened CostModel

  /** A closed interval [lo, hi] on one axis. */
  datatype Interval = Interval(lo: real, hi: real)

  /** The search box: longitude bounds, then latitude bounds. */
  datatype Box = Box(lon: Interval, lat: Interval)

  predicate InBox(b: Box, p: Coord)
  {
    b.lon.lo <= p.x <= b.lon.hi && b.lat.lo <= p.y <= b.lat.hi
  }

  /** The longitude column of the zone table. */
  function Lons(zones: seq<Zone>): (s: seq<real>)
    ensures |s| == |zones|
    ensures forall i :: 0 <= i < |zones| ==> s[i] == zones[i].lon
  {
    seq(|zones|, i requires 0 <= i < |zones| => zones[i].lon)
  }

  /** The latitude column of the zone table. */
  function Lats(zones: seq<Zone>): (s: seq<real>)
    ensures |s| == |zones|
    ensures forall i :: 0 <= i < |zones| ==> s[i] == zones[i].lat
  {
    seq(|zones|, i requires 0 <= i < |zones| => zones[i].lat)
  }

  function Sum(s: seq<real>): real
  {
    if |s| == 0 then 0.0 else Sum(s[..|s| - 1]) + s[|s| - 1]
  }

  /** The arithmetic mean of a non-empty column. */
  function Mean(s: seq<real>): real
    requires |s| > 0
  {
    Sum(s) / |s| as real
  }

  /** The smallest entry of a non-empty column. */
  function Min(s: seq<real>): (m: real)
    requires |s| > 0
    ensures exists i :: 0 <= i < |s| && s[i] == m
    ensures forall i :: 0 <= i < |s| ==> m <= s[i]
  {
    if |s| == 1 then s[0]
    else
      var m := Min(s[1..]);
      assert forall i :: 1 <= i < |s| ==> s[1..][i - 1] == s[i];
      if s[0] <= m then s[0] else m
  }

  /** The largest entry of a non-empty column. */
  function Max(s: seq<real>): (m: real)
    requires |s| > 0
    ensures exists i :: 0 <= i < |s| && s[i] == m
    ensures forall i :: 0 <= i < |s| ==> s[i] <= m
  {
    if |s| == 1 then s[0]
    else
      var m := Max(s[1..]);
      assert forall i :: 1 <= i < |s| ==> s[1..][i - 1] == s[i];
      if m <= s[0] then s[0] else m
  }

  /** A sum of entries that are each at least `lo` (at most `hi`) is at least (at most) that
      many times `lo` (`hi`). */
  lemma {:induction false} SumBetween(s: seq<real>, lo: real, hi: real)
    requires forall i :: 0 <= i < |s| ==> lo <= s[i] <= hi
    ensures |s| as real * lo <= Sum(s) <= |s| as real * hi
  {
    if |s| > 0 {
      var k := |s| - 1;
      SumBetween(s[..k], lo, hi);
      assert k as real * lo + lo == (k + 1) as real * lo;
      assert k as real * hi + hi == (k + 1) as real * hi;
    }
  }

  lemma QuotientBetween(lo: real, hi: real, total: real, n: real)
    requires 0.0 < n
    requires n * lo <= total <= n * hi
    ensures lo <= total / n <= hi
  {
  }

  lemma MeanOfSum(s: seq<real>, lo: real, hi: real)
    requires |s| > 0
    requires |s| as real * lo <= Sum(s) <= |s| as real * hi
    ensures lo <= Mean(s) <= hi
  {
    QuotientBetween(lo, hi, Sum(s), |s| as real);
  }

  /** The mean of a non-empty column lies between its minimum and its maximum. */
  lemma MeanBetweenMinMax(s: seq<real>)
    requires |s| > 0
    ensures Min(s) <= Mean(s) <= Max(s)
  {
    var lo, hi := Min(s), Max(s);
    SumBetween(s, lo, hi);
    MeanOfSum(s, lo, hi);
  }

  /** The seed of the search: the per-axis mean of the zone coordinates. */
  function Seed(zones: seq<Zone>): Coord
    requires |zones| > 0
  {
    Coord(Mean(Lons(zones)), Mean(Lats(zones)))
  }

  /** The search box: per axis, the smallest and the largest zone coordinate. It holds every
      zone, and each of its four bounds is the coordinate of some zone. */
  function Bounds(zones: seq<Zone>): (b: Box)
    requires |zones| > 0
    ensures forall i :: 0 <= i < |zones| ==> InBox(b, Location(zones[i]))
    ensures exists i :: 0 <= i < |zones| && b.lon.lo == zones[i].lon
    ensures exists i :: 0 <= i < |zones| && b.lon.hi == zones[i].lon
    ensures exists i :: 0 <= i < |zones| && b.lat.lo == zones[i].lat
    ensures exists i :: 0 <= i < |zones| && b.lat.hi == zones[i].lat
  {
    Box(Interval(Min(Lons(zones)), Max(Lons(zones))), Interval(Min(Lats(zones)), Max(Lats(zones))))
  }

  lemma SingletonMean(v: real)
    ensures Mean([v]) == v
  {
    assert [v][..0] == [];
    assert Sum([v]) == v;
  }

  /** The seed lies inside the search box. */
  lemma SeedInBounds(zones: seq<Zone>)
    requires |zones| > 0
    ensures InBox(Bounds(zones), Seed(zones))
  {
    MeanBetweenMinMax(Lons(zones));
    MeanBetweenMinMax(Lats(zones));
  }

  /** With a single zone the box collapses to that zone's location, and so does the seed. */
  lemma SingleZoneSearch(z: Zone)
    ensures Bounds([z]) == Box(Interval(z.lon, z.lon), Interval(z.lat, z.lat))
    ensures Seed([z]) == Location(z)
    ensures forall p :: InBox(Bounds([z]), p) <==> p == Location(z)
  {
    assert Lons([z]) == [z.lon];
    assert Lats([z]) == [z.lat];
    SingletonMean(z.lon);
    SingletonMean(z.lat);
  }
}
