# Waste processing zone siting — a Dafny model

This project models the optimisation core of the Waste Processing Zone Optimizer (`app.py`). The core picks one location for a central waste processing facility that serves a set of BOI zones. Each zone has a name, a longitude, a latitude and a daily waste quantity in tons. A candidate location is feasible when three checks all pass:

- it lies inside the country polygon;
- it lies outside the clipped exclusion region;
- no sensitive point is strictly closer to it than the buffer radius (0.0001).

A feasible candidate costs the sum over zones of `cost_per_km * ceil(Q / vehicle_capacity) * distance`, where `Q` is the waste divided by 1000. An infeasible candidate costs the fixed penalty 1e9. A bounded local minimiser searches from the centroid of the zones, inside the box spanned by their smallest and largest coordinates. The page keeps a result only when a run succeeds. Each run first removes the previous result.

Modules, leaf first:

- `Geometry` (`geometry.dfy`): coordinates, squared distance, and the square-root routine. The routine is a parameter, constrained by `IsSqrt`.
- `Feasibility` (`feasibility.dfy`): the buffer scan as a loop with an early exit, the feasibility predicate, and its short-circuit evaluation. The two polygon containment tests are function-valued fields of `SitingGeometry`.
- `CostModel` (`cost.dfy`): the unit constants, the trip count, the cost as a specification function, and the objective as the loop the source runs.
- `Search` (`search.dfy`): mean, minimum and maximum of the coordinate columns, the seed and the search box.
- `Siting` (`siting.dfy`): the minimiser as a function parameter, result selection, and the page's session state as a class whose run method replaces the stored result.

Everything is over exact reals. Functions specify. The buffer scan, the feasibility test and the objective are methods that do what the source does step by step, and each method's `ensures` ties it to its specification function. Result selection departs from the code: `Siting.Optimize` and `Siting.Session.RunOptimization` store a point only when the minimiser reports success there AND the point is feasible, while app.py:145-147 stores it on success alone. `Siting.SelectAsWritten` models the code as written, and "## Findings" explains the difference.

Two collaborators become parameters: the polygon tests (foreign geometry) and `scipy.optimize.minimize` (a foreign numeric routine). The model proves nothing about where the minimiser goes. `np.sqrt` is also a parameter, and the model assumes only that it returns the non-negative root of a non-negative number.

On failure the code shows an error and stores nothing; it returns no typed failure reason. The cost constants and the penalty are literals.

## Model

| member | source | states |
|---|---|---|
| `Geometry.SqDist` | app.py:114 | the sum of squared coordinate differences is non-negative and zero exactly when the two points coincide |
| `Geometry.SqrtBelow` | app.py:114 | for a genuine square root and a non-negative threshold, `sqrt(d) < r` holds exactly when `d < r²` |
| `Geometry.DistProperties` | app.py:135 | the Euclidean distance is non-negative and zero exactly between equal points |
| `Feasibility.RespectBuffer` | app.py:112-116 | the scan returns false exactly when some sensitive point is strictly closer than the radius; an empty list of sensitive points passes |
| `Feasibility.BufferBySquares` | app.py:112-116 | with a non-negative radius the buffer check is the same as every sensitive point being at squared distance at least radius² |
| `Feasibility.BufferAtRadiusPasses` | app.py:114 | a sensitive point at exactly the radius does not reject the candidate (the comparison is strict) |
| `Feasibility.LoadedBufferBySquares` | app.py:63 | with the loaded radius 0.0001 a candidate passes exactly when every sensitive point is at squared distance at least 1e-8 |
| `Feasibility.IsFeasible` | app.py:106-120 | a point outside the country polygon, inside the exclusion region, or strictly within the radius of a sensitive point is infeasible; a point passing all three checks is feasible |
| `Feasibility.CheckFeasible` | app.py:118-120 | the short-circuit evaluation, which runs the buffer scan only when the first two checks pass, agrees with `IsFeasible` |
| `CostModel.Ceil` | app.py:134 | the result is the least integer not below its argument |
| `CostModel.Trips` | app.py:123-134 | the trip count `ceil((w/1000)/(5/1000))` is the least integer not below `w/5`; it is non-negative for non-negative waste and zero for zero waste |
| `CostModel.Cost` | app.py:127-137 | an infeasible point costs exactly the penalty 1e9 whatever the zones; a feasible point costs the summed transport cost |
| `CostModel.Objective` | app.py:127-137 | the running-total loop, with its feasibility test first, returns `Cost` for every input |
| `CostModel.SiteCostMonotone` | app.py:134-136 | for a zone with non-negative waste, a shorter distance never gives a higher per-zone cost |
| `CostModel.SiteCostNonNegative` | app.py:134-136 | a zone with non-negative waste has a non-negative cost term |
| `CostModel.ZeroWasteZoneCostsNothing` | app.py:134-136 | a zone with zero waste needs no trips, and appending it leaves the transport cost unchanged |
| `CostModel.TransportCostNonNegative` | app.py:131-137 | with non-negative waste the summed transport cost is non-negative |
| `CostModel.CostNonNegative` | app.py:127-137 | with non-negative waste the objective is non-negative at every point, feasible or not |
| `CostModel.TransportCostZeroAtZones` | app.py:131-137 | when every zone lies at the candidate the transport cost is zero |
| `CostModel.CostZeroAtOwnLocation` | app.py:127-137 | a single zone evaluated at its own feasible location costs zero |
| `CostModel.TransportCostMonotone` | app.py:131-137 | a candidate no farther from each zone than another candidate never has a higher transport cost |
| `CostModel.NearerFeasibleSiteNoCostlier` | app.py:129-137 | for one zone and two feasible candidates, the nearer candidate never costs more |
| `Search.Min` | app.py:141-142 | the minimum of a non-empty column is one of its entries and no entry is smaller |
| `Search.Max` | app.py:141-142 | the maximum of a non-empty column is one of its entries and no entry is larger |
| `Search.SumBetween` | app.py:140 | a sum of n entries, each between lo and hi, lies between n·lo and n·hi |
| `Search.MeanBetweenMinMax` | app.py:140-142 | the mean of a non-empty column lies between its minimum and its maximum |
| `Search.Bounds` | app.py:141-142 | the search box contains every zone, and each of its four bounds is some zone's coordinate |
| `Search.SeedInBounds` | app.py:140-142 | the centroid seed lies inside the search box on both axes |
| `Search.SingleZoneSearch` | app.py:140-142 | with one zone the box collapses to that zone's location and the seed is that location |
| `Siting.SelectAsWritten` | app.py:145-150 | as written: a result holding the minimiser's point and the same zone table is stored exactly when the minimiser reports success |
| `Siting.AsWrittenStoresInfeasiblePoint` | app.py:143-147 | as written, one zone outside the country and a minimiser that stops at its seed with success lead to a stored location whose cost is the penalty |
| `Siting.Select` | app.py:145-150 | corrected selection: a result is stored exactly when the minimiser reports success at a feasible point; it holds that point and the zone table, and its cost is the transport cost |
| `Siting.Optimize` | app.py:140-150 | corrected selection: a result is stored exactly when the minimiser, started at the centroid inside the box, reports success at a feasible point; the stored result holds the minimiser's point and the run's zone table |
| `Siting.SingleZoneRun` | app.py:140-150 | with one zone, a minimiser that keeps its answer in the box returns the zone's location; the run fails if that point is infeasible; a successful run at a feasible zone stores exactly that location, at zero cost |
| `Siting.Session.constructor` | app.py:158 | a fresh session holds no result |
| `Siting.Session.RunOptimization` | app.py:98-150 | corrected selection: with no zones nothing changes; otherwise the previous result is removed and replaced by this run's result, never merged; the run reports success exactly when it stores a result |

## Left out

- Page configuration, header, layout and the input form (app.py:17-36, 77-93). The form guarantees two things, and both enter the model as preconditions. Waste is non-negative (`WasteNonNegative`). At least one zone exists, because the run guard at app.py:98 rejects an empty table. The upper limit of 20 zones is not needed by any property.
- Loading the geographic data (app.py:41-72): file reading, reprojection, union and clipping. The country polygon and the exclusion region enter the model as opaque containment predicates. The sensitive points are a sequence. The radius is the constant 0.0001.
- Polygon containment semantics, including boundary handling: the model makes no claim about them.
- The internals of `scipy.optimize.minimize` with L-BFGS-B. The minimiser is an opaque function parameter, so nothing is claimed about optimality, convergence or staying inside the box. `Siting.SingleZoneRun` takes "stays inside the box" as a hypothesis.
- The minimiser receives the specification function `Cost` as its objective, not the method `Objective`, because a method cannot be passed as a value. `Objective` is proved equal to `Cost` for every input.
- IEEE floating point, `np.sqrt` and `np.ceil` rounding. All arithmetic is over exact reals. For example, `(w/1000)/(5/1000)` is exactly `w/5` here but need not be in floats. `Search.SeedInBounds` likewise holds only over exact reals: three zones at longitude 0.1 have a floating-point mean of 0.10000000000000002, just above the box's upper bound.
- The success and error banners (app.py:148, 150) appear only as the boolean that `RunOptimization` returns.
- The map cache (the removal at app.py:101 and app.py:155-201) and map rendering: presentation only.

## Findings

| source | as written | input that shows it | evidently intended | confidence | as-written member | corrected member |
|---|---|---|---|---|---|---|
| app.py:145-147 | the minimiser's point is stored whenever the minimiser reports success; its feasibility is never checked | one zone at (80.0, 6.9) outside the country polygon: the box is that single point, every candidate costs the penalty 1e9, and a minimiser that stops at its seed reporting success (as L-BFGS-B does when the projected gradient is zero on a flat objective) gets that infeasible point stored and shown as optimal | a run that ends at an infeasible point reports failure and stores nothing | medium, not executed | `Siting.SelectAsWritten` (exhibited by `Siting.AsWrittenStoresInfeasiblePoint`) | `Siting.Select` (used by `Siting.Optimize` and `Siting.Session.RunOptimization`) |
