/** The join does not depend on the order of the sensor rows: reordering them
    changes only the order of each district's label list, never its contents,
    its length, whether the metric is missing, or the mean. */
module SensorOrder {
  import opened Wrappers
  import opened Stats
  import opened Districts

  /** f applied to every entry. */
  function Map<T, U>(f: T -> U, s: seq<T>): seq<U>
  {
    seq(|s|, k requires 0 <= k < |s| => f(s[k]))
  }

  /** Reordering the entries reorders their images. */
  lemma {:induction false} MapPermutation<T, U>(f: T -> U, a: seq<T>, b: seq<T>)
    requires multiset(a) == multiset(b)
    ensures multiset(Map(f, a)) == multiset(Map(f, b))
    decreases |a|
  {
    assert |a| == |b| by {
      assert |a| == |multiset(a)| && |b| == |multiset(b)|;
    }
    if |a| > 0 {
      var init, x := a[..|a| - 1], a[|a| - 1];
      var k := IndexOf(b, x);
      var rest := b[..k] + b[k + 1..];
      assert multiset(init) == multiset(rest) by {
        assert a == init + [x];
        RemovedMultiset(b, k);
      }
      MapPermutation(f, init, rest);
      calc {
        multiset(Map(f, a));
        { assert a == init + [x]; MapSnoc(f, init, x); }
        multiset(Map(f, init)) + multiset{f(x)};
        multiset(Map(f, rest)) + multiset{f(x)};
        { MapRemoved(f, b, k); }
        multiset(Map(f, b)[..k] + Map(f, b)[k + 1..]) + multiset{Map(f, b)[k]};
        { RemovedMultiset(Map(f, b), k); }
        multiset(Map(f, b));
      }
    }
  }

  /** Mapping commutes with appending one entry. */
  lemma MapSnoc<T, U>(f: T -> U, s: seq<T>, x: T)
    ensures Map(f, s + [x]) == Map(f, s) + [f(x)]
  {
  }

  /** Mapping commutes with dropping one entry. */
  lemma MapRemoved<T, U>(f: T -> U, s: seq<T>, k: nat)
    requires k < |s|
    ensures Map(f, s[..k] + s[k + 1..]) == Map(f, s)[..k] + Map(f, s)[k + 1..]
    ensures Map(f, s)[k] == f(s[k])
  {
  }

  /** The sensor rows inside g, in scan order. */
  function Inside<G, P>(contains: (G, P) -> bool, g: G, sensors: seq<Sensor<P>>): seq<Sensor<P>>
    decreases |sensors|
  {
    if |sensors| == 0 then []
    else
      var last := |sensors| - 1;
      var before := Inside(contains, g, sensors[..last]);
      if contains(g, sensors[last].geometry) then before + [sensors[last]] else before
  }

  /** Each row occurs inside g as often as in the table when g contains it, and never otherwise. */
  lemma {:induction false} InsideCount<G, P>(contains: (G, P) -> bool, g: G, sensors: seq<Sensor<P>>, x: Sensor<P>)
    ensures multiset(Inside(contains, g, sensors))[x] == if contains(g, x.geometry) then multiset(sensors)[x] else 0
    decreases |sensors|
  {
    if |sensors| > 0 {
      var last := |sensors| - 1;
      InsideCount(contains, g, sensors[..last], x);
      assert sensors == sensors[..last] + [sensors[last]];
    }
  }

  /** The rows inside g are the rows at the contained positions. */
  lemma {:induction false} InsideAtPositions<G, P>(contains: (G, P) -> bool, g: G, sensors: seq<Sensor<P>>)
    ensures var ps := ContainedPositions(contains, g, sensors);
      && |Inside(contains, g, sensors)| == |ps|
      && forall k :: 0 <= k < |ps| ==> Inside(contains, g, sensors)[k] == sensors[ps[k]]
    decreases |sensors|
  {
    if |sensors| > 0 {
      InsideAtPositions(contains, g, sensors[..|sensors| - 1]);
    }
  }

  /** Reordering the sensor rows reorders the rows inside g. */
  lemma InsidePermutation<G, P>(contains: (G, P) -> bool, g: G, s1: seq<Sensor<P>>, s2: seq<Sensor<P>>)
    requires multiset(s1) == multiset(s2)
    ensures multiset(Inside(contains, g, s1)) == multiset(Inside(contains, g, s2))
  {
    var m1, m2 := multiset(Inside(contains, g, s1)), multiset(Inside(contains, g, s2));
    forall x: Sensor<P>
      ensures m1[x] == m2[x]
    {
      InsideCount(contains, g, s1, x);
      InsideCount(contains, g, s2, x);
    }
    SameCounts(m1, m2);
  }

  /** Multisets that count every element alike are equal. */
  lemma SameCounts<T>(m1: multiset<T>, m2: multiset<T>)
    requires forall x :: m1[x] == m2[x]
    ensures m1 == m2
  {
  }

  /** Whether a contained sensor lacks the metric does not depend on the order of the rows. */
  lemma MissingPermutation<G, P>(contains: (G, P) -> bool, g: G, s1: seq<Sensor<P>>, s2: seq<Sensor<P>>, metric: string)
    requires multiset(s1) == multiset(s2)
    ensures MissingMetric(contains, g, s1, metric) <==> MissingMetric(contains, g, s2, metric)
  {
    if MissingMetric(contains, g, s1, metric) {
      var i :| 0 <= i < |s1| && contains(g, s1[i].geometry) && metric !in s1[i].metrics;
      assert s1[i] in multiset(s2);
      var k := IndexOf(s2, s1[i]);
    }
    if MissingMetric(contains, g, s2, metric) {
      var i :| 0 <= i < |s2| && contains(g, s2[i].geometry) && metric !in s2[i].metrics;
      assert s2[i] in multiset(s1);
      var k := IndexOf(s1, s2[i]);
    }
  }

  function LabelOf<P>(s: Sensor<P>): int
  {
    s.indexLabel
  }

  /** The metric of a row, which the valued operation reads only for rows that have it. */
  function ValueOf<P>(metric: string): Sensor<P> -> real
  {
    (s: Sensor<P>) => if metric in s.metrics then s.metrics[metric] else 0.0
  }

  /** The labels at the contained positions are the labels of the rows inside g. */
  lemma LabelsAreInsideLabels<G, P>(contains: (G, P) -> bool, g: G, sensors: seq<Sensor<P>>)
    ensures LabelsAt(sensors, ContainedPositions(contains, g, sensors)) == Map(LabelOf, Inside(contains, g, sensors))
  {
    InsideAtPositions(contains, g, sensors);
    var ps, rows := ContainedPositions(contains, g, sensors), Inside(contains, g, sensors);
    var a, b := LabelsAt(sensors, ps), Map(LabelOf, rows);
    assert |a| == |b|;
    forall k | 0 <= k < |a|
      ensures a[k] == b[k]
    {
      assert rows[k] == sensors[ps[k]];
    }
  }

  /** The metric values at the contained positions are the values of the rows inside g. */
  lemma ValuesAreInsideValues<G, P>(contains: (G, P) -> bool, g: G, sensors: seq<Sensor<P>>, metric: string)
    requires !MissingMetric(contains, g, sensors, metric)
    ensures var ps := ContainedPositions(contains, g, sensors);
      && (forall k :: 0 <= k < |ps| ==> metric in sensors[ps[k]].metrics)
      && MetricAt(sensors, ps, metric) == Map(ValueOf(metric), Inside(contains, g, sensors))
  {
    InsideAtPositions(contains, g, sensors);
    var ps, rows := ContainedPositions(contains, g, sensors), Inside(contains, g, sensors);
    var a, b := MetricAt(sensors, ps, metric), Map(ValueOf(metric), rows);
    assert |a| == |b|;
    forall k | 0 <= k < |a|
      ensures a[k] == b[k]
    {
      assert rows[k] == sensors[ps[k]];
    }
  }

  /** One district against reordered sensor rows: the same number of contained
      sensors, the same labels in some order, the same failure, and the same mean. */
  lemma ContainedOrderInvariant<G, P>(contains: (G, P) -> bool, g: G, s1: seq<Sensor<P>>, s2: seq<Sensor<P>>, metric: string)
    requires multiset(s1) == multiset(s2)
    ensures |ContainedPositions(contains, g, s1)| == |ContainedPositions(contains, g, s2)|
    ensures multiset(LabelsAt(s1, ContainedPositions(contains, g, s1)))
         == multiset(LabelsAt(s2, ContainedPositions(contains, g, s2)))
    ensures MissingMetric(contains, g, s1, metric) <==> MissingMetric(contains, g, s2, metric)
    ensures !MissingMetric(contains, g, s1, metric) ==>
      var ps1, ps2 := ContainedPositions(contains, g, s1), ContainedPositions(contains, g, s2);
      && (forall k :: 0 <= k < |ps1| ==> metric in s1[ps1[k]].metrics)
      && (forall k :: 0 <= k < |ps2| ==> metric in s2[ps2[k]].metrics)
      && Mean(MetricAt(s1, ps1, metric)) == Mean(MetricAt(s2, ps2, metric))
  {
    InsidePermutation(contains, g, s1, s2);
    InsideAtPositions(contains, g, s1);
    InsideAtPositions(contains, g, s2);
    var in1, in2 := Inside(contains, g, s1), Inside(contains, g, s2);
    assert |in1| == |multiset(in1)| == |multiset(in2)| == |in2|;
    LabelsAreInsideLabels(contains, g, s1);
    LabelsAreInsideLabels(contains, g, s2);
    MapPermutation(LabelOf, in1, in2);
    MissingPermutation(contains, g, s1, s2, metric);
    if !MissingMetric(contains, g, s1, metric) {
      ValuesAreInsideValues(contains, g, s1, metric);
      ValuesAreInsideValues(contains, g, s2, metric);
      MapPermutation(ValueOf(metric), in1, in2);
      MeanPermutation(Map(ValueOf(metric), in1), Map(ValueOf(metric), in2));
    }
  }

  /** The whole valued join against reordered sensor rows: it fails for the same
      tables, and otherwise gives every district the same mean and the same labels
      in some order. */
  lemma AddSensorsAndValuesOrderInvariant<G, A, P>(contains: (G, P) -> bool, districts: seq<District<G, A>>, s1: seq<Sensor<P>>, s2: seq<Sensor<P>>, metric: string)
    requires multiset(s1) == multiset(s2)
    ensures var r1, r2 := AddSensorsAndValues(contains, districts, s1, metric), AddSensorsAndValues(contains, districts, s2, metric);
      && (r1.Failure? <==> r2.Failure?)
      && (r1.Success? ==>
            forall j :: 0 <= j < |districts| ==>
              && r1.value[j].columns[ValuesColumn] == r2.value[j].columns[ValuesColumn]
              && r1.value[j].columns[SensorsColumn].SensorIds?
              && r2.value[j].columns[SensorsColumn].SensorIds?
              && multiset(r1.value[j].columns[SensorsColumn].ids) == multiset(r2.value[j].columns[SensorsColumn].ids))
  {
    var r1, r2 := AddSensorsAndValues(contains, districts, s1, metric), AddSensorsAndValues(contains, districts, s2, metric);
    forall j | 0 <= j < |districts|
      ensures MissingMetric(contains, districts[j].geometry, s1, metric) <==> MissingMetric(contains, districts[j].geometry, s2, metric)
    {
      MissingPermutation(contains, districts[j].geometry, s1, s2, metric);
    }
    if r1.Success? {
      forall j | 0 <= j < |districts|
        ensures r1.value[j].columns[ValuesColumn] == r2.value[j].columns[ValuesColumn]
        ensures r1.value[j].columns[SensorsColumn].SensorIds? && r2.value[j].columns[SensorsColumn].SensorIds?
        ensures multiset(r1.value[j].columns[SensorsColumn].ids) == multiset(r2.value[j].columns[SensorsColumn].ids)
      {
        ContainedOrderInvariant(contains, districts[j].geometry, s1, s2, metric);
      }
    }
  }
}
