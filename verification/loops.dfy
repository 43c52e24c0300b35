/** The two operations as the nested loops the script runs: an outer loop over
    the district rows, an inner loop over the sensor rows, and per-district
    accumulators appended to a list that becomes the new column. */
module DistrictLoops {
  import opened Wrappers
  import opened Stats
  import opened Districts

  /** The inner loop of the first operation: positions whose sensor g contains. */
  method PositionsLoop<G, P>(contains: (G, P) -> bool, g: G, sensors: seq<Sensor<P>>) returns (list: seq<nat>)
    ensures list == ContainedPositions(contains, g, sensors)
  {
    list := [];
    var i := 0;
    while i < |sensors|
      invariant 0 <= i <= |sensors|
      invariant list == ContainedPositions(contains, g, sensors[..i])
    {
      assert sensors[..i + 1][..i] == sensors[..i];
      if contains(g, sensors[i].geometry) {
        list := list + [i];
      }
      i := i + 1;
    }
    assert sensors[..i] == sensors;
  }

  /** The loop form of the first operation computes the same table. */
  method AddSensorsLoop<G, A, P>(contains: (G, P) -> bool, districts: seq<District<G, A>>, sensors: seq<Sensor<P>>)
    returns (r: seq<District<G, A>>)
    ensures r == AddSensors(contains, districts, sensors)
  {
    var lists: seq<seq<nat>> := [];
    var j := 0;
    while j < |districts|
      invariant 0 <= j <= |districts|
      invariant |lists| == j
      invariant forall k :: 0 <= k < j ==> lists[k] == ContainedPositions(contains, districts[k].geometry, sensors)
    {
      var list := PositionsLoop(contains, districts[j].geometry, sensors);
      lists := lists + [list];
      j := j + 1;
    }
    r := seq(|districts|, k requires 0 <= k < |districts| => WithSensors(districts[k], lists[k]));
  }

  /** The inner loop of the second operation: labels and metric values of the
      sensors g contains, or the key error of the first one lacking the metric. */
  method CollectLoop<G, P>(contains: (G, P) -> bool, g: G, sensors: seq<Sensor<P>>, metric: string)
    returns (r: Result<Collected, Error>)
    ensures r == Collect(contains, g, sensors, metric)
  {
    var labels: seq<int> := [];
    var values: seq<real> := [];
    var i := 0;
    while i < |sensors|
      invariant 0 <= i <= |sensors|
      invariant Collect(contains, g, sensors[..i], metric) == Success(Collected(labels, values))
    {
      CollectStep(contains, g, sensors, metric, i, Collected(labels, values));
      var s := sensors[i];
      if contains(g, s.geometry) {
        if metric !in s.metrics {
          assert MissingMetric(contains, g, sensors, metric);
          return Failure(KeyError(metric));
        }
        labels := labels + [s.indexLabel];
        values := values + [s.metrics[metric]];
      }
      i := i + 1;
    }
    assert sensors[..i] == sensors;
    return Success(Collected(labels, values));
  }

  /** The body of the outer loop of the second operation: scan, then the mean
      of the collected values, or None when nothing was collected. */
  method AnnotateRowLoop<G, A, P>(contains: (G, P) -> bool, sensors: seq<Sensor<P>>, metric: string, d: District<G, A>)
    returns (r: Result<District<G, A>, Error>)
    ensures r == AnnotateRow(contains, sensors, metric, d)
  {
    var c := CollectLoop(contains, d.geometry, sensors, metric);
    if c.Failure? {
      return Failure(c.error);
    }
    var values := c.value.values;
    var value := if |values| > 0 then Some(Sum(values) / (|values| as real)) else None;
    assert value == Mean(values);
    r := Success(WithSensorsAndValue(d, c.value.labels, value));
  }

  /** The loop form of the second operation computes the same table, or raises
      the same key error. */
  method AddSensorsAndValuesLoop<G, A, P>(contains: (G, P) -> bool, districts: seq<District<G, A>>, sensors: seq<Sensor<P>>, metric: string)
    returns (r: Result<seq<District<G, A>>, Error>)
    ensures r == AddSensorsAndValues(contains, districts, sensors, metric)
  {
    var annotated: seq<District<G, A>> := [];
    var j := 0;
    while j < |districts|
      invariant 0 <= j <= |districts|
      invariant AddSensorsAndValues(contains, districts[..j], sensors, metric) == Success(annotated)
    {
      var row := AnnotateRowLoop(contains, sensors, metric, districts[j]);
      if row.Failure? {
        ValuesAbort(contains, districts, sensors, metric, j);
        return Failure(row.error);
      }
      ValuesStep(contains, districts, sensors, metric, j, annotated, row.value);
      annotated := annotated + [row.value];
      j := j + 1;
    }
    assert districts[..j] == districts;
    r := Success(annotated);
  }

  /** One more district row appends its annotation, when neither part fails. */
  lemma ValuesStep<G, A, P>(contains: (G, P) -> bool, districts: seq<District<G, A>>, sensors: seq<Sensor<P>>, metric: string,
                            j: nat, annotated: seq<District<G, A>>, row: District<G, A>)
    requires j < |districts|
    requires AddSensorsAndValues(contains, districts[..j], sensors, metric) == Success(annotated)
    requires AnnotateRow(contains, sensors, metric, districts[j]) == Success(row)
    ensures AddSensorsAndValues(contains, districts[..j + 1], sensors, metric) == Success(annotated + [row])
  {
    assert districts[..j + 1][..j] == districts[..j];
  }

  /** A district row whose scan fails makes the whole operation fail with the same error. */
  lemma ValuesAbort<G, A, P>(contains: (G, P) -> bool, districts: seq<District<G, A>>, sensors: seq<Sensor<P>>, metric: string, j: nat)
    requires j < |districts|
    requires AnnotateRow(contains, sensors, metric, districts[j]).Failure?
    ensures AddSensorsAndValues(contains, districts, sensors, metric) == Failure(KeyError(metric))
  {
  }

  /** Scanning one more sensor row: skipped when outside, appended when inside. */
  lemma CollectStep<G, P>(contains: (G, P) -> bool, g: G, sensors: seq<Sensor<P>>, metric: string, i: nat, c: Collected)
    requires i < |sensors|
    requires Collect(contains, g, sensors[..i], metric) == Success(c)
    ensures var s := sensors[i];
      Collect(contains, g, sensors[..i + 1], metric)
      == if !contains(g, s.geometry) then Success(c)
         else if metric !in s.metrics then Failure(KeyError(metric))
         else Success(Collected(c.labels + [s.indexLabel], c.values + [s.metrics[metric]]))
  {
    assert sensors[..i + 1][..i] == sensors[..i];
  }
}
