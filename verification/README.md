# District–sensor spatial join, in Dafny

This project models the one piece of logic in the Madrid air-quality map
scripts that is more than a library call: the join between district polygons
and sensor points in `code/show-results-in-madrid-districts.py`. There are two
variants of it:

- `add_sensors_to_districts` gives each district row a `sensors` column. The
  column holds the positions of the sensors whose point the district's
  geometry contains, in scan order.
- `add_sensors_and_values_to_districts` gives each district row a `sensors`
  column and a `values` column. The `sensors` column holds the index labels
  of the contained sensors. The `values` column holds the arithmetic mean of
  one metric (`"GAP"` by default) over those sensors, or a missing-value
  marker when the district contains no sensor. The script appends Python's
  `None` there. Once the list becomes a column, pandas keeps `None` only when
  no district has a mean. Otherwise the column is float64 and the marker is
  NaN. The model writes `Option.None` for the marker in both cases.

The geometric test `row.geometry.contains(point)` is a parameter
`contains: (G, P) -> bool` over opaque geometry types. Nothing here depends on
how polygons or points are represented. Metric values are `real`, so the mean
is exact.

## Layout

- `wrappers.dfy` (`Wrappers`): `Option` and `Result`. `Option.None` stands for
  the missing-value marker: `None`, or NaN once pandas stores the column as
  float64. `Result.Failure` stands for a raised exception.
- `stats.dfy` (`Stats`): Python's `sum` as a left fold from `0.0`, plus
  minimum, maximum, and the guarded mean of line 37 with its properties. The
  sum, and so the mean, do not depend on the order of the values.
- `districts.dfy` (`Districts`): the rows of both tables, the per-district
  scans, and both operations as pure functions.
  - A district row is its geometry, its shapefile attributes (an opaque type)
    and a map from column name to cell.
  - Assigning `districts['sensors'] = ...` is a map update. It overwrites an
    existing column of that name.
- `loops.dfy` (`DistrictLoops`): both operations written as the nested loops
  the script runs. Each loop is proved to compute exactly the pure function.
- `properties.dfy` (`DistrictProperties`): lemmas relating several calls.
  They cover uniqueness of each list, the count, membership, idempotence,
  the missing-value marker exactly when the list is empty, the range of the
  mean, and the two operations agreeing when labels equal positions.
- `ordering.dfy` (`SensorOrder`): the order of the sensor rows does not
  matter. Reordering them leaves every district with the same number of
  sensors, the same labels (in some order), the same key error and the same
  mean.

## Model

| member | source | states |
|---|---|---|
| Districts.ContainedPositions | code/show-results-in-madrid-districts.py:15-17 | a district's list is strictly increasing, so it is in ascending scan order with no duplicates; every entry is a position below the number of sensors whose point the district contains; every such position is in it |
| DistrictProperties.ContainedPositionsUnique | code/show-results-in-madrid-districts.py:15-17 | any increasing list holding exactly the contained positions is the district's list, so the list is fully determined by the containment test |
| DistrictProperties.ContainedPositionsCount | code/show-results-in-madrid-districts.py:15-17 | the list's elements are the set of contained positions, and its length is the number of sensors inside the district |
| DistrictProperties.OnlyOnePosition | code/show-results-in-madrid-districts.py:15-17 | a district whose geometry contains exactly one sensor gets the one-element list holding that sensor's position |
| Districts.AddSensors | code/show-results-in-madrid-districts.py:12-20 | one output row per input district, in input order; geometry, attributes and every other column are unchanged; only `sensors` is added, holding the district's contained positions |
| DistrictLoops.PositionsLoop | code/show-results-in-madrid-districts.py:15-17 | the inner loop over `range(sensors.shape[0])` appending `i` when contained builds exactly the district's position list |
| DistrictLoops.AddSensorsLoop | code/show-results-in-madrid-districts.py:12-20 | the nested loop with per-district accumulators produces exactly the table of the pure operation |
| DistrictProperties.AddSensorsMembership | code/show-results-in-madrid-districts.py:14-18 | sensor i is listed for district j if and only if district j's geometry contains sensor i's point; each district is tested against every sensor, so a sensor may appear under no, one or several districts with no deduplication |
| DistrictProperties.OutsideEveryDistrict | code/show-results-in-madrid-districts.py:14-18 | a sensor that no district contains appears in no district's list |
| DistrictProperties.AddSensorsIdempotent | code/show-results-in-madrid-districts.py:12-20 | running the first operation on its own output returns the same table |
| Districts.Collect | code/show-results-in-madrid-districts.py:28-33 | one district's scan yields the labels and metric values of exactly the contained sensors, position by position in scan order; it raises `KeyError(metric)` if and only if some contained sensor lacks the metric |
| Districts.AnnotateRow | code/show-results-in-madrid-districts.py:28-38 | one district row gains its label list and mean of the metric, everything else unchanged, or fails exactly when a contained sensor lacks the metric |
| Districts.AddSensorsAndValues | code/show-results-in-madrid-districts.py:24-42 | fails with `KeyError(metric)` if and only if some district contains a sensor without the metric; otherwise there is one row per district in input order; each row keeps its geometry, attributes and other columns and gains `sensors` (labels of the contained sensors in scan order) and `values` (the mean of their metric) |
| DistrictLoops.CollectLoop | code/show-results-in-madrid-districts.py:28-33 | the inner loop over `iterrows` appending label and metric value when contained computes exactly `Collect`, including the key error |
| DistrictLoops.AnnotateRowLoop | code/show-results-in-madrid-districts.py:28-38 | the loop body computing `sum(values)/len(values) if len(values)>0 else None` gives exactly the row of `AnnotateRow` |
| DistrictLoops.AddSensorsAndValuesLoop | code/show-results-in-madrid-districts.py:24-42 | the nested loop produces exactly the result of the pure operation, including aborting with the same error |
| Stats.Mean | code/show-results-in-madrid-districts.py:37 | the mean is `None` exactly when there are no values; otherwise the mean times the count equals the sum |
| Stats.MeanBetween | code/show-results-in-madrid-districts.py:37 | a present mean stays within any lower and upper bound that every averaged value obeys |
| Stats.MeanWithinRange | code/show-results-in-madrid-districts.py:37 | a present mean lies between the smallest and the largest averaged value |
| Stats.MeanOfConstant | code/show-results-in-madrid-districts.py:37 | averaging copies of one value returns that value unchanged |
| Stats.MeanOfTwoAndFour | code/show-results-in-madrid-districts.py:37 | the values 2 and 4 average to 3 |
| DistrictProperties.ValueNoneIffNoSensors | code/show-results-in-madrid-districts.py:35-38 | after a successful run, a district's `values` cell is the missing-value marker if and only if its `sensors` list is empty |
| DistrictProperties.ValueWithinRange | code/show-results-in-madrid-districts.py:30-37 | a present `values` cell lies between the minimum and maximum metric value of the district's contained sensors |
| DistrictProperties.SingleSensorValue | code/show-results-in-madrid-districts.py:30-37 | a district containing exactly one sensor lists that sensor's label alone and takes its metric value unchanged |
| DistrictProperties.LabelsArePositions | code/show-results-in-madrid-districts.py:16-17 | when every sensor's index label is its position (the default index of `read_csv(index_col=None)`, line 45), both operations write the same `sensors` column |
| DistrictProperties.AddSensorsAndValuesIdempotent | code/show-results-in-madrid-districts.py:24-42 | running the second operation on its own successful output returns that output unchanged |
| Stats.SumPermutation | code/show-results-in-madrid-districts.py:37 | `sum` over two orderings of the same values gives the same total |
| Stats.MeanPermutation | code/show-results-in-madrid-districts.py:37 | the guarded mean over two orderings of the same values is the same, `None` included |
| SensorOrder.InsideCount | code/show-results-in-madrid-districts.py:30-31 | the sensor rows a district's scan keeps are those its geometry contains, each as often as in the table, and no others |
| SensorOrder.MissingPermutation | code/show-results-in-madrid-districts.py:30-33 | whether a contained sensor lacks the metric, and so whether the scan raises `KeyError`, is the same for any ordering of the sensor rows |
| SensorOrder.ContainedOrderInvariant | code/show-results-in-madrid-districts.py:30-37 | for one district and two orderings of the same sensor rows: the same number of contained sensors, the same labels as a multiset, the same key error, and the same mean |
| SensorOrder.AddSensorsAndValuesOrderInvariant | code/show-results-in-madrid-districts.py:24-42 | running the second operation on two orderings of the same sensor rows fails for both or neither; on success every district gets the same `values` cell and the same `sensors` labels up to order |

## Notes on the source

- The two operations store different things in `sensors`. The first stores
  positions (`range(sensors.shape[0])`, read with `iloc`). The second stores
  index labels (`iterrows`). Both are modelled as written.
  `LabelsArePositions` gives the condition under which they agree.
- A missing metric raises `KeyError` only for a sensor inside the district
  being scanned, because `row_sensors[metric]` is read only inside the
  containment test (line 33). So if the metric is absent but no district
  contains any sensor, the operation succeeds and every value is `None`. The
  model keeps this: it fails exactly when some district contains a sensor
  that lacks the metric.
- When the key error is raised, the assignments of lines 40-41 are never
  reached and the table is left as it was. The model returns the failure
  without a table.
- The metric is a parameter. Its default in the source is `"GAP"`, which is
  also the metric that line 70 passes.

## Left out

- The point-in-polygon test itself (shapely `contains`, lines 17 and 31),
  including how it treats points on a boundary. It is the `contains`
  parameter.
- Loading the CSV and the shapefile, building the point geometries, and
  reprojecting to EPSG:3857 (lines 45-53, 64-68). These are I/O and
  floating-point coordinate transforms done by external libraries.
- Plotting and saving figures (lines 55-82), and the two other scripts,
  `code/show-sensors-in-madrid-districts.py` and `code/show-air-quality-sensors.py`.
  They only draw and contain no logic of their own.
- IEEE floating-point rounding of `sum(...)/len(...)`, and NaN metric cells.
  Values are exact reals.
- Index labels are integers. pandas allows any hashable label.
- Updating the district table in place and returning the same object
  (lines 19-20, 40-42). The model returns a new sequence of rows instead, and
  proves that every row differs from its input row only in the added columns.
  Aliasing between the argument and the result is not modelled.
- Errors raised by the geometry test. `contains` is a total function, so an
  exception from shapely (for an invalid or empty geometry) is not modelled;
  the only modelled failure is the missing metric.
- The column type pandas infers for `values`. `Option.None` is the
  missing-value marker whether pandas stores it as `None` (no district has a
  mean) or as NaN in a float64 column (some district has one).
- Stats.Mean: the sum is exact real arithmetic, not a floating-point sum, so
  its promise is stated over reals only.
