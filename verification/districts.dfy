/** The district/sensor spatial join of the results script: for every district,
    the sensors whose point the district's geometry contains, and the mean of
    one metric over them. The geometric containment test is a parameter
    `contains(districtGeometry, sensorGeometry)`; its semantics (including
    points on the boundary) belong to the geometry library. */
module Districts {
  import opened Wrappers
  import opened Stats

  /** Column written by both operations. */
  const SensorsColumn: string := "sensors"
  /** Column written by the valued operation. */
  const ValuesColumn: string := "values"

  /** One row of the sensor table: its index label, its point, and its numeric columns. */
  datatype Sensor<P> = Sensor(indexLabel: int, geometry: P, metrics: map<string, real>)

  /** A value stored in a column added to the district table. */
  datatype Cell = SensorIds(ids: seq<int>) | MeanValue(value: Option<real>)

  /** One row of the district table: its polygon, the attributes read with it,
      and the columns assigned to the table so far. */
  datatype District<G, A> = District(geometry: G, attrs: A, columns: map<string, Cell>)

  /** Reading a metric a contained sensor does not have raises a key error. */
  datatype Error = KeyError(key: string)

  /** What one district's scan collects in the valued operation. */
  datatype Collected = Collected(labels: seq<int>, values: seq<real>)

  /** Strictly ascending, hence free of duplicates. */
  predicate Increasing(s: seq<int>)
  {
    forall k, l :: 0 <= k < l < |s| ==> s[k] < s[l]
  }

  /** Some sensor inside g lacks the metric. */
  predicate MissingMetric<G, P>(contains: (G, P) -> bool, g: G, sensors: seq<Sensor<P>>, metric: string)
  {
    exists i :: 0 <= i < |sensors| && contains(g, sensors[i].geometry) && metric !in sensors[i].metrics
  }

  /** `after` is `before` with the columns in `added` assigned: same geometry,
      same attributes, every other column untouched. */
  ghost predicate OnlyColumnsAdded<G, A>(before: District<G, A>, after: District<G, A>, added: set<string>)
  {
    && after.geometry == before.geometry
    && after.attrs == before.attrs
    && after.columns.Keys == before.columns.Keys + added
    && forall c :: c in before.columns && c !in added ==> after.columns[c] == before.columns[c]
  }

  /** The positions of the sensors inside g, in scan order. */
  function ContainedPositions<G, P>(contains: (G, P) -> bool, g: G, sensors: seq<Sensor<P>>): (r: seq<nat>)
    ensures Increasing(r)
    ensures forall k :: 0 <= k < |r| ==> r[k] < |sensors| && contains(g, sensors[r[k]].geometry)
    ensures forall i :: 0 <= i < |sensors| && contains(g, sensors[i].geometry) ==> i in r
    decreases |sensors|
  {
    if |sensors| == 0 then []
    else
      var last := |sensors| - 1;
      var before := ContainedPositions(contains, g, sensors[..last]);
      if contains(g, sensors[last].geometry) then before + [last] else before
  }

  /** The index labels of the sensors at positions ps. */
  function LabelsAt<P>(sensors: seq<Sensor<P>>, ps: seq<nat>): seq<int>
    requires forall k :: 0 <= k < |ps| ==> ps[k] < |sensors|
  {
    seq(|ps|, k requires 0 <= k < |ps| => sensors[ps[k]].indexLabel)
  }

  /** The metric values of the sensors at positions ps. */
  function MetricAt<P>(sensors: seq<Sensor<P>>, ps: seq<nat>, metric: string): seq<real>
    requires forall k :: 0 <= k < |ps| ==> ps[k] < |sensors| && metric in sensors[ps[k]].metrics
  {
    seq(|ps|, k requires 0 <= k < |ps| => sensors[ps[k]].metrics[metric])
  }

  /** One district's scan in the valued operation: the labels and metric values
      of the sensors inside g, in scan order; the first contained sensor without
      the metric aborts the scan. */
  function Collect<G, P>(contains: (G, P) -> bool, g: G, sensors: seq<Sensor<P>>, metric: string): (r: Result<Collected, Error>)
    ensures r.Failure? <==> MissingMetric(contains, g, sensors, metric)
    ensures r.Failure? ==> r.error == KeyError(metric)
    ensures r.Success? ==> CollectedAt(sensors, ContainedPositions(contains, g, sensors), metric, r.value)
    decreases |sensors|
  {
    if |sensors| == 0 then Success(Collected([], []))
    else
      var last := |sensors| - 1;
      var init := sensors[..last];
      var s := sensors[last];
      MissingStep(contains, g, sensors, metric);
      match Collect(contains, g, init, metric)
      case Failure(e) =>
        Failure(e)
      case Success(before) =>
        if !contains(g, s.geometry) then
          Success(before)
        else if metric !in s.metrics then
          Failure(KeyError(metric))
        else
          CollectedAtExtend(sensors, ContainedPositions(contains, g, init), metric, before);
          Success(Collected(before.labels + [s.indexLabel], before.values + [s.metrics[metric]]))
  }

  /** c holds, entry by entry, the labels and metric values of the sensors at positions ps. */
  ghost predicate CollectedAt<P>(sensors: seq<Sensor<P>>, ps: seq<nat>, metric: string, c: Collected)
  {
    && |c.labels| == |ps|
    && |c.values| == |ps|
    && forall k :: 0 <= k < |ps| ==>
      && ps[k] < |sensors|
      && c.labels[k] == sensors[ps[k]].indexLabel
      && metric in sensors[ps[k]].metrics
      && c.values[k] == sensors[ps[k]].metrics[metric]
  }

  /** Collecting one more sensor, the last one, extends both lists by its entry. */
  lemma CollectedAtExtend<P>(sensors: seq<Sensor<P>>, ps: seq<nat>, metric: string, c: Collected)
    requires |sensors| > 0
    requires CollectedAt(sensors[..|sensors| - 1], ps, metric, c)
    requires metric in sensors[|sensors| - 1].metrics
    ensures var s := sensors[|sensors| - 1];
      CollectedAt(sensors, ps + [|sensors| - 1], metric,
                  Collected(c.labels + [s.indexLabel], c.values + [s.metrics[metric]]))
  {
  }

  /** A scan misses the metric exactly when its prefix does or its last contained sensor does. */
  lemma MissingStep<G, P>(contains: (G, P) -> bool, g: G, sensors: seq<Sensor<P>>, metric: string)
    requires |sensors| > 0
    ensures var last := |sensors| - 1;
      MissingMetric(contains, g, sensors, metric) <==>
        || MissingMetric(contains, g, sensors[..last], metric)
        || (contains(g, sensors[last].geometry) && metric !in sensors[last].metrics)
  {
  }

  function WithSensors<G, A>(d: District<G, A>, ids: seq<int>): District<G, A>
  {
    d.(columns := d.columns[SensorsColumn := SensorIds(ids)])
  }

  function WithSensorsAndValue<G, A>(d: District<G, A>, ids: seq<int>, value: Option<real>): District<G, A>
  {
    d.(columns := d.columns[SensorsColumn := SensorIds(ids)][ValuesColumn := MeanValue(value)])
  }

  /** The first operation: every district gains a `sensors` column holding the
      positions of the sensors its geometry contains. */
  function AddSensors<G, A, P>(contains: (G, P) -> bool, districts: seq<District<G, A>>, sensors: seq<Sensor<P>>): (r: seq<District<G, A>>)
    ensures |r| == |districts|
    ensures forall j :: 0 <= j < |r| ==>
      && OnlyColumnsAdded(districts[j], r[j], {SensorsColumn})
      && r[j].columns[SensorsColumn] == SensorIds(ContainedPositions(contains, districts[j].geometry, sensors))
  {
    seq(|districts|, j requires 0 <= j < |districts| =>
      WithSensors(districts[j], ContainedPositions(contains, districts[j].geometry, sensors)))
  }

  /** The second operation: every district gains a `sensors` column holding the
      labels of the sensors its geometry contains and a `values` column holding
      the mean of their metric, or None when it contains none. A contained
      sensor without the metric aborts the whole operation. */
  function AddSensorsAndValues<G, A, P>(contains: (G, P) -> bool, districts: seq<District<G, A>>, sensors: seq<Sensor<P>>, metric: string): (r: Result<seq<District<G, A>>, Error>)
    ensures r.Failure? <==> AnyMissingMetric(contains, districts, sensors, metric)
    ensures r.Failure? ==> r.error == KeyError(metric)
    ensures r.Success? ==>
      && |r.value| == |districts|
      && forall j :: 0 <= j < |districts| ==> Valued(contains, sensors, metric, districts[j], r.value[j])
    decreases |districts|
  {
    if |districts| == 0 then Success([])
    else
      var last := |districts| - 1;
      var init := districts[..last];
      var d := districts[last];
      match AddSensorsAndValues(contains, init, sensors, metric)
      case Failure(e) =>
        MissingSplit(contains, districts, sensors, metric);
        Failure(e)
      case Success(before) =>
        MissingSplit(contains, districts, sensors, metric);
        match AnnotateRow(contains, sensors, metric, d)
        case Failure(e) =>
          Failure(e)
        case Success(row) =>
          ValuedAppend(contains, sensors, metric, districts, before, row);
          Success(before + [row])
  }

  /** One district row of the valued operation: its scan, then the guarded mean. */
  function AnnotateRow<G, A, P>(contains: (G, P) -> bool, sensors: seq<Sensor<P>>, metric: string, d: District<G, A>): (r: Result<District<G, A>, Error>)
    ensures r.Failure? <==> MissingMetric(contains, d.geometry, sensors, metric)
    ensures r.Failure? ==> r.error == KeyError(metric)
    ensures r.Success? ==> Valued(contains, sensors, metric, d, r.value)
  {
    match Collect(contains, d.geometry, sensors, metric)
    case Failure(e) =>
      Failure(e)
    case Success(c) =>
      CollectIsValued(contains, sensors, metric, d);
      Success(WithSensorsAndValue(d, c.labels, Mean(c.values)))
  }

  /** Some district contains a sensor that lacks the metric. */
  ghost predicate AnyMissingMetric<G, A, P>(contains: (G, P) -> bool, districts: seq<District<G, A>>, sensors: seq<Sensor<P>>, metric: string)
  {
    exists j :: 0 <= j < |districts| && MissingMetric(contains, districts[j].geometry, sensors, metric)
  }

  lemma MissingSplit<G, A, P>(contains: (G, P) -> bool, districts: seq<District<G, A>>, sensors: seq<Sensor<P>>, metric: string)
    requires |districts| > 0
    ensures AnyMissingMetric(contains, districts, sensors, metric) <==>
      || AnyMissingMetric(contains, districts[..|districts| - 1], sensors, metric)
      || MissingMetric(contains, districts[|districts| - 1].geometry, sensors, metric)
  {
  }

  lemma ValuedAppend<G, A, P>(contains: (G, P) -> bool, sensors: seq<Sensor<P>>, metric: string,
                              districts: seq<District<G, A>>, before: seq<District<G, A>>, d': District<G, A>)
    requires |districts| > 0 && |before| == |districts| - 1
    requires forall j :: 0 <= j < |before| ==> Valued(contains, sensors, metric, districts[..|before|][j], before[j])
    requires Valued(contains, sensors, metric, districts[|before|], d')
    ensures forall j :: 0 <= j < |districts| ==> Valued(contains, sensors, metric, districts[j], (before + [d'])[j])
  {
  }

  /** `after` is `before` annotated by the valued operation: the labels of the
      contained sensors, in scan order, and the mean of their metric. */
  ghost predicate Valued<G, A, P>(contains: (G, P) -> bool, sensors: seq<Sensor<P>>, metric: string, before: District<G, A>, after: District<G, A>)
  {
    var ps := ContainedPositions(contains, before.geometry, sensors);
    && (forall k :: 0 <= k < |ps| ==> metric in sensors[ps[k]].metrics)
    && OnlyColumnsAdded(before, after, {SensorsColumn, ValuesColumn})
    && after.columns[SensorsColumn] == SensorIds(LabelsAt(sensors, ps))
    && after.columns[ValuesColumn] == MeanValue(Mean(MetricAt(sensors, ps, metric)))
  }

  /** A successful scan of one district yields its valued annotation. */
  lemma {:induction false} CollectIsValued<G, A, P>(contains: (G, P) -> bool, sensors: seq<Sensor<P>>, metric: string, d: District<G, A>)
    requires Collect(contains, d.geometry, sensors, metric).Success?
    ensures var c := Collect(contains, d.geometry, sensors, metric).value;
      Valued(contains, sensors, metric, d, WithSensorsAndValue(d, c.labels, Mean(c.values)))
  {
    var c := Collect(contains, d.geometry, sensors, metric).value;
    var ps := ContainedPositions(contains, d.geometry, sensors);
    assert c.labels == LabelsAt(sensors, ps);
    assert c.values == MetricAt(sensors, ps, metric);
  }
}
