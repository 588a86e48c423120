# Rain map interpolation core, in Dafny

This project models the interpolation core of a browser rain-accumulation map.
The map colours space by estimating rainfall at arbitrary coordinates from a
sparse list of gauge readings. The estimator is inverse-distance weighting
(IDW), and the repository carries it twice:

- `invDist` in the rain map works on `Point {position: [lon, lat], value}` objects.
  `IDWInterpolator` wraps it.
- `invDist(lat1, long1, data)` in the IDW layer works on `[lat, lon, value]` rows.

Both scan the samples in order. A sample whose coordinates equal the query
exactly returns its value at once. Otherwise the scan accumulates
`ponderedSum = Σ value/d` and `invDistSum = Σ 1/d` and returns their ratio.

The project also models the visualisation-selection store: the chosen layer,
map division and accumulation interval, and the three updaters that each
replace one field.

Files and modules:

- `interpolator.dfy` (`Interpolator`): coordinates, points, the `Prediction`
  result (a number or NaN), the abstract distance `Metric`, and the final division.
- `sums.dfy` (`Sums`): finite sums over sequences, with splitting, permutation,
  positivity and weighted-average bounds.
- `rain_map_idw.dfy` (`RainMapIdw`): the reference meaning `Estimate` (first
  exact match, else ratio of sums). Also the source's loop `InvDist`, proved
  equal to it, and the properties of the estimate.
- `idw_layer.dfy` (`IdwLayer`): the row-based copy as a fold with accumulators.
  It is proved equal to the rain-map estimator on re-encoded rows.
- `viz_store.dfy` (`Viz`): the selection record, its updaters, and a run of
  successive selections.
- `wrappers.dfy` (`Wrappers`): `Option`.

Modelling choices:

- Numbers are `real`. Floating-point rounding is not modelled.
- The Haversine distance is a function parameter `dist(lat1, lat2, lon1, lon2)`
  with no body assumed. Its one assumed property is that it is positive when the
  coordinates differ (`Interpolator.PositiveOffDiagonal`). The estimators need
  less than that: `Separated` asks only that every sample the scan looks at
  before the first exact match is at positive distance.
  `RainMapIdw.SeparatedFromPositive` shows that the global assumption implies
  `Separated` for every query.
- JavaScript's `0/0 = NaN` on an empty list is the explicit `NotANumber` result.
  It is never replaced by a default number.
- A general "exact match" claim, that querying any point's position returns that
  point's value, holds only for the first point at that position. When two points
  share a position with different values, the earlier one wins
  (`RainMapIdw.OrderDecidesExactTies`). The model follows the code.
- The rain map's doc comment describes `[lat, lon, value]` rows. That is stale
  for that file: the code destructures `[lon, lat]` positions, and the model
  follows the code.

## Model

| member | source | states |
|---|---|---|
| Interpolator.Divide | src/components/rain-map/idw.ts:51 | the final `ponderedSum / invDistSum` is NaN exactly when the denominator is 0; otherwise it is a number that times the denominator gives the numerator |
| RainMapIdw.FirstMatch | src/components/rain-map/idw.ts:41-45 | finds the index of the first point whose `[lon, lat]` equals the query; it is absent exactly when no point matches |
| RainMapIdw.Estimate | src/components/rain-map/idw.ts:26-52 | the estimate is NaN if and only if the point list is empty |
| RainMapIdw.InvDist | src/components/rain-map/idw.ts:38-51 | the single pass with an early return computes the first exact match's value, or else the ratio of the full sums; loop invariant: after a match-free prefix, `ponderedSum` and `invDistSum` are that prefix's sums of v/d and 1/d |
| RainMapIdw.IdwInterpolator.Interpolate | src/components/rain-map/idw.ts:54-59 | `interpolate(coord)` is the estimate for the points the interpolator was built with; the model holds a snapshot of those points |
| RainMapIdw.SeparatedFromPositive | src/components/rain-map/idw.ts:46-48 | if the distance is positive for distinct coordinates, no query ever makes the scan divide by zero |
| RainMapIdw.FirstMatchWins | src/components/rain-map/idw.ts:41-45 | if a point equals the query and no earlier one does, its value is the result; the later points are ignored, later exact matches included |
| RainMapIdw.OrderDecidesExactTies | src/components/rain-map/idw.ts:41-45 | two exact matches with different values give the first one's value, so swapping them changes the result |
| RainMapIdw.NoMatchIsRatio | src/components/rain-map/idw.ts:38-51 | with no match on a non-empty list, `Σ 1/d` is positive and the result is `Σ(v/d) / Σ(1/d)` |
| RainMapIdw.EstimateBetween | src/components/rain-map/idw.ts:41-51 | on a non-empty list the result, by either path, lies within any bounds that hold for every value |
| RainMapIdw.EstimateBounded | src/components/rain-map/idw.ts:46-51 | with no match on a non-empty list, the result lies between the minimum and the maximum value |
| RainMapIdw.TwoGauges | src/components/rain-map/idw.ts:41-51 | gauges reading 10 at (0, 0) and 20 at (1, 1), queried at (0.5, 0.5): the estimate is strictly between 10 and 20 |
| RainMapIdw.SinglePoint | src/components/rain-map/idw.ts:41-51 | a one-point list yields that point's value for every query |
| RainMapIdw.ConstantValues | src/components/rain-map/idw.ts:46-51 | if every value is c, the result is c for every query |
| RainMapIdw.PermutationInvariant | src/components/rain-map/idw.ts:41-51 | with no exact match, any reordering of the points keeps the scan division-safe and gives the same result |
| IdwLayer.InvDist | src/components/idw-layer/functions.ts:25-54 | the layer's `invDist` is NaN if and only if `data` is empty |
| IdwLayer.ScanIsEstimate | src/components/idw-layer/functions.ts:40-53 | from any accumulator values, the loop returns the first matching row's value, or else the accumulators plus the remaining rows' sums, divided |
| IdwLayer.InvDistAgrees | src/components/idw-layer/functions.ts:25-54 | `invDist(lat, lon, rows)` equals the rain map's `invDist([lon, lat], points)` on the re-encoded rows, in the same order |
| IdwLayer.FirstRowWins | src/components/idw-layer/functions.ts:43-47 | the first row with `lat2 == lat1 && long2 == long1` gives its third entry |
| IdwLayer.NoRowMatchIsRatio | src/components/idw-layer/functions.ts:40-53 | with no matching row, the result is `Σ(value/d) / Σ(1/d)` over the rows, with `d = distance(lat1, lat2, long1, long2)` and a positive denominator |
| IdwLayer.RowsBounded | src/components/idw-layer/functions.ts:43-53 | on non-empty data the result lies within any bounds on the third entries, so between their minimum and maximum |
| IdwLayer.SingleRow | src/components/idw-layer/functions.ts:43-53 | single-row data yields that row's value for any query |
| IdwLayer.RowPermutation | src/components/idw-layer/functions.ts:43-51 | with no matching row, permuting the rows does not change the result |
| Viz.SelectLayer | src/stores/viz/index.ts:28-33 | `selectLayer(l)` sets the layer to l and leaves shape and interval unchanged |
| Viz.SelectShape | src/stores/viz/index.ts:35-40 | `selectShape(s)` sets the shape to s and leaves layer and interval unchanged |
| Viz.SelectInterval | src/stores/viz/index.ts:42-47 | `selectInterval(i)` sets the interval to i and leaves layer and shape unchanged |
| Viz.InitialAndIntervals | src/stores/viz/index.ts:13-26 | the initial store is `{idw, regions, 1}`; `intervals` is `[1, 3, …, 120]` and strictly increasing |
| Viz.SelectorsIdempotent | src/stores/viz/index.ts:28-47 | applying a selector twice with the same argument equals applying it once |
| Viz.SelectorsCommute | src/stores/viz/index.ts:28-47 | selectors on different fields commute |
| Viz.RunKeepsLatest | src/stores/viz/index.ts:22-47 | after any sequence of selections, each field holds the latest value chosen for it, or its earlier value if none was chosen |

`selectedInterval` is always one of `intervals` because the `Interval` type only
admits members of that list. This holds initially and after every update.

## Left out

- The Haversine body (sin, cos, asin, sqrt on doubles, Earth radius 6371 km).
  It is floating point. Its NaN when the asin argument rounds above 1 is not modelled.
  Symmetry of the distance and zero distance at equal points are not modelled either,
  because the distance is abstract.
- RainMapIdw.InvDist: requires `Separated`, which the source does not demand. In the
  JavaScript original, a point at zero distance whose coordinates differ from the query
  makes `invDistSum` +Infinity. It makes `ponderedSum` ±Infinity, or NaN when the value is 0.
  The call then returns NaN, unless a later exact match returns first. The model excludes
  this case rather than model IEEE infinities.
- RainMapIdw.Estimate: requires `Separated` for the same reason.
- IdwLayer.InvDist: requires `Separated` for the same reason.
- RainMapIdw.IdwInterpolator.Interpolate: requires `Separated`, inherited from `InvDist`,
  for the same reason.
- RainMapIdw.IdwInterpolator: holds a snapshot of the points. The source keeps the
  caller's array by reference in a public, reassignable `points` field. So changing that
  array, or assigning `points`, between calls changes later answers. That aliasing is not
  modelled.
- Interpolator.Divide: reads every division by zero as NaN. Under `Separated` the
  denominator is zero only for an empty list, where the numerator is zero too,
  so `x/0 = ±Infinity` with `x ≠ 0` never arises.
- The per-point terms `Weight` and `Weighted` answer 0 at distance 0 so that they are total.
  `Separated` rules out that case wherever a term enters a sum.
- The kriging interpolator: a thin wrapper over an external library's `train`/`predict`.
- Data loading over the network, DOM and resize listeners, the map projection and
  the d3 colour scale. These are I/O or foreign-library code.
- The svelte `writable` container and its subscriptions. Only the pure updaters are
  modelled, plus `Viz.Run` for a sequence of updates.
- The display strings of the `Layer` and `Shape` enums. Only which member is selected matters.
