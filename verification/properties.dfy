/** Properties of the spatial join that relate several calls or pin its
    results down completely. */
module DistrictProperties {
  import opened Wrappers
  import opened Stats
  import opened Districts

  /** The positions of the sensors inside g, as a set. */
  function ContainedSet<G, P>(contains: (G, P) -> bool, g: G, sensors: seq<Sensor<P>>): set<nat>
  {
    set i: nat | i < |sensors| && contains(g, sensors[i].geometry)
  }

  /** Two increasing sequences with the same elements are equal. */
  lemma {:induction false} IncreasingUnique(a: seq<int>, b: seq<int>)
    requires Increasing(a) && Increasing(b)
    requires forall x :: x in a <==> x in b
    ensures a == b
    decreases |a|
  {
    SameElementsSameLength(a, b);
    if |a| > 0 {
      SameHeads(a, b);
      SameTailElements(a, b);
      IncreasingUnique(a[1..], b[1..]);
      assert a == [a[0]] + a[1..];
      assert b == [b[0]] + b[1..];
    }
  }

  lemma SameElementsSameLength(a: seq<int>, b: seq<int>)
    requires Increasing(a) && Increasing(b)
    requires forall x :: x in a <==> x in b
    ensures |a| == |b|
  {
    IncreasingElementsCount(a);
    IncreasingElementsCount(b);
    forall x | x in Elements(a)
      ensures x in Elements(b)
    {
      var k :| 0 <= k < |a| && a[k] == x;
      assert x in a;
      var m :| 0 <= m < |b| && b[m] == x;
    }
    forall x | x in Elements(b)
      ensures x in Elements(a)
    {
      var k :| 0 <= k < |b| && b[k] == x;
      assert x in b;
      var m :| 0 <= m < |a| && a[m] == x;
    }
    assert Elements(a) == Elements(b);
  }

  /** The least element of both is the head of both. */
  lemma SameHeads(a: seq<int>, b: seq<int>)
    requires Increasing(a) && Increasing(b)
    requires forall x :: x in a <==> x in b
    requires |a| > 0 && |b| > 0
    ensures a[0] == b[0]
  {
    assert a[0] in a && b[0] in b;
    var k :| 0 <= k < |b| && b[k] == a[0];
    var l :| 0 <= l < |a| && a[l] == b[0];
  }

  lemma SameTailElements(a: seq<int>, b: seq<int>)
    requires Increasing(a) && Increasing(b)
    requires forall x :: x in a <==> x in b
    requires |a| > 0 && |b| > 0 && a[0] == b[0]
    ensures forall x :: x in a[1..] <==> x in b[1..]
  {
    forall x
      ensures x in a[1..] ==> x in b[1..]
    {
      if x in a[1..] {
        var k :| 1 <= k < |a| && a[k] == x;
        assert x in a;
        var m :| 0 <= m < |b| && b[m] == x;
        assert m != 0;
        assert b[1..][m - 1] == x;
      }
    }
    forall x
      ensures x in b[1..] ==> x in a[1..]
    {
      if x in b[1..] {
        var k :| 1 <= k < |b| && b[k] == x;
        assert x in b;
        var m :| 0 <= m < |a| && a[m] == x;
        assert m != 0;
        assert a[1..][m - 1] == x;
      }
    }
  }

  /** A district's position list is the only increasing list holding exactly
      the positions of the sensors inside it. */
  lemma {:induction false} ContainedPositionsUnique<G, P>(contains: (G, P) -> bool, g: G, sensors: seq<Sensor<P>>, r: seq<nat>)
    requires Increasing(r)
    requires forall x: int :: x in r <==> 0 <= x < |sensors| && contains(g, sensors[x].geometry)
    ensures r == ContainedPositions(contains, g, sensors)
  {
    var ps := ContainedPositions(contains, g, sensors);
    forall x: int
      ensures x in r <==> x in ps
    {
      if x in ps {
        var k :| 0 <= k < |ps| && ps[k] == x;
      }
    }
    IncreasingUnique(r, ps);
  }

  /** The set of elements of a sequence. */
  function Elements(s: seq<int>): set<int>
  {
    set k | 0 <= k < |s| :: s[k]
  }

  /** An increasing sequence has as many distinct elements as entries. */
  lemma {:induction false} IncreasingElementsCount(s: seq<int>)
    requires Increasing(s)
    ensures |Elements(s)| == |s|
    decreases |s|
  {
    if |s| > 0 {
      var init := s[..|s| - 1];
      IncreasingElementsCount(init);
      assert Elements(s) == Elements(init) + {s[|s| - 1]};
      assert s[|s| - 1] !in Elements(init);
    }
  }

  /** The list holds each contained position once, so its length is the
      number of sensors inside the district. */
  lemma ContainedPositionsCount<G, P>(contains: (G, P) -> bool, g: G, sensors: seq<Sensor<P>>)
    ensures Elements(ContainedPositions(contains, g, sensors)) == ContainedSet(contains, g, sensors)
    ensures |ContainedPositions(contains, g, sensors)| == |ContainedSet(contains, g, sensors)|
  {
    var ps := ContainedPositions(contains, g, sensors);
    assert Elements(ps) == ContainedSet(contains, g, sensors) by {
      forall x | x in ContainedSet(contains, g, sensors)
        ensures x in Elements(ps)
      {
        var k :| 0 <= k < |ps| && ps[k] == x;
      }
    }
    IncreasingElementsCount(ps);
  }

  /** Sensor i is listed for district j exactly when district j contains it:
      every district is tested against every sensor, so a sensor is listed by
      no district, one, or several, and never merged across districts. */
  lemma AddSensorsMembership<G, A, P>(contains: (G, P) -> bool, districts: seq<District<G, A>>, sensors: seq<Sensor<P>>, j: int, i: int)
    requires 0 <= j < |districts|
    ensures var r := AddSensors(contains, districts, sensors);
      && r[j].columns[SensorsColumn].SensorIds?
      && Increasing(r[j].columns[SensorsColumn].ids)
      && (i in r[j].columns[SensorsColumn].ids <==> 0 <= i < |sensors| && contains(districts[j].geometry, sensors[i].geometry))
  {
  }

  /** A sensor outside every district is listed by none of them. */
  lemma OutsideEveryDistrict<G, A, P>(contains: (G, P) -> bool, districts: seq<District<G, A>>, sensors: seq<Sensor<P>>, i: int)
    requires 0 <= i < |sensors|
    requires forall j :: 0 <= j < |districts| ==> !contains(districts[j].geometry, sensors[i].geometry)
    ensures forall j :: 0 <= j < |districts| ==> i !in AddSensors(contains, districts, sensors)[j].columns[SensorsColumn].ids
  {
  }

  /** Running the first operation on its own output changes nothing. */
  lemma AddSensorsIdempotent<G, A, P>(contains: (G, P) -> bool, districts: seq<District<G, A>>, sensors: seq<Sensor<P>>)
    ensures AddSensors(contains, AddSensors(contains, districts, sensors), sensors) == AddSensors(contains, districts, sensors)
  {
    var once := AddSensors(contains, districts, sensors);
    var twice := AddSensors(contains, once, sensors);
    forall j | 0 <= j < |districts|
      ensures twice[j] == once[j]
    {
      assert twice[j].columns == once[j].columns;
    }
  }

  /** An annotation of the valued operation is determined by the row it annotates. */
  lemma ValuedDeterministic<G, A, P>(contains: (G, P) -> bool, sensors: seq<Sensor<P>>, metric: string, d: District<G, A>, x: District<G, A>, y: District<G, A>)
    requires Valued(contains, sensors, metric, d, x)
    requires Valued(contains, sensors, metric, d, y)
    ensures x == y
  {
  }

  /** An annotated row annotates to itself again. */
  lemma ValuedFixpoint<G, A, P>(contains: (G, P) -> bool, sensors: seq<Sensor<P>>, metric: string, d: District<G, A>, x: District<G, A>)
    requires Valued(contains, sensors, metric, d, x)
    ensures Valued(contains, sensors, metric, x, x)
  {
  }

  /** Running the second operation on its own output changes nothing. */
  lemma AddSensorsAndValuesIdempotent<G, A, P>(contains: (G, P) -> bool, districts: seq<District<G, A>>, sensors: seq<Sensor<P>>, metric: string)
    requires AddSensorsAndValues(contains, districts, sensors, metric).Success?
    ensures var once := AddSensorsAndValues(contains, districts, sensors, metric).value;
      AddSensorsAndValues(contains, once, sensors, metric) == Success(once)
  {
    var once := AddSensorsAndValues(contains, districts, sensors, metric).value;
    assert forall j :: 0 <= j < |once| ==> once[j].geometry == districts[j].geometry;
    var twice := AddSensorsAndValues(contains, once, sensors, metric).value;
    forall j | 0 <= j < |once|
      ensures twice[j] == once[j]
    {
      ValuedFixpoint(contains, sensors, metric, districts[j], once[j]);
      ValuedDeterministic(contains, sensors, metric, once[j], twice[j], once[j]);
    }
  }

  /** A district's value is None exactly when its sensor list is empty. */
  lemma ValueNoneIffNoSensors<G, A, P>(contains: (G, P) -> bool, districts: seq<District<G, A>>, sensors: seq<Sensor<P>>, metric: string, j: int)
    requires AddSensorsAndValues(contains, districts, sensors, metric).Success?
    requires 0 <= j < |districts|
    ensures var d := AddSensorsAndValues(contains, districts, sensors, metric).value[j];
      && d.columns[SensorsColumn].SensorIds?
      && d.columns[ValuesColumn].MeanValue?
      && (d.columns[ValuesColumn].value.None? <==> |d.columns[SensorsColumn].ids| == 0)
  {
  }

  /** A present value lies between the smallest and the largest metric value
      of the sensors inside the district. */
  lemma {:induction false} ValueWithinRange<G, A, P>(contains: (G, P) -> bool, districts: seq<District<G, A>>, sensors: seq<Sensor<P>>, metric: string, j: int)
    requires AddSensorsAndValues(contains, districts, sensors, metric).Success?
    requires 0 <= j < |districts|
    ensures var d := AddSensorsAndValues(contains, districts, sensors, metric).value[j];
      var ps := ContainedPositions(contains, districts[j].geometry, sensors);
      d.columns[ValuesColumn].MeanValue? && d.columns[ValuesColumn].value.Some? ==>
        && |ps| > 0
        && (forall k :: 0 <= k < |ps| ==> metric in sensors[ps[k]].metrics)
        && Min(MetricAt(sensors, ps, metric)) <= d.columns[ValuesColumn].value.value <= Max(MetricAt(sensors, ps, metric))
  {
    var r := AddSensorsAndValues(contains, districts, sensors, metric).value;
    assert Valued(contains, sensors, metric, districts[j], r[j]);
    var ps := ContainedPositions(contains, districts[j].geometry, sensors);
    if |ps| > 0 {
      MeanWithinRange(MetricAt(sensors, ps, metric));
    }
  }

  /** A district containing exactly one sensor lists that position alone. */
  lemma OnlyOnePosition<G, P>(contains: (G, P) -> bool, g: G, sensors: seq<Sensor<P>>, i: nat)
    requires i < |sensors| && contains(g, sensors[i].geometry)
    requires forall x :: 0 <= x < |sensors| && x != i ==> !contains(g, sensors[x].geometry)
    ensures ContainedPositions(contains, g, sensors) == [i]
  {
    ContainedPositionsUnique(contains, g, sensors, [i]);
  }

  /** A district containing exactly one sensor takes that sensor's metric value unchanged. */
  lemma SingleSensorValue<G, A, P>(contains: (G, P) -> bool, districts: seq<District<G, A>>, sensors: seq<Sensor<P>>, metric: string, j: int, i: nat)
    requires AddSensorsAndValues(contains, districts, sensors, metric).Success?
    requires 0 <= j < |districts|
    requires i < |sensors| && contains(districts[j].geometry, sensors[i].geometry)
    requires forall x :: 0 <= x < |sensors| && x != i ==> !contains(districts[j].geometry, sensors[x].geometry)
    ensures metric in sensors[i].metrics
    ensures var d := AddSensorsAndValues(contains, districts, sensors, metric).value[j];
      && d.columns[SensorsColumn] == SensorIds([sensors[i].indexLabel])
      && d.columns[ValuesColumn] == MeanValue(Some(sensors[i].metrics[metric]))
  {
    var r := AddSensorsAndValues(contains, districts, sensors, metric).value;
    assert Valued(contains, sensors, metric, districts[j], r[j]);
    var ps := ContainedPositions(contains, districts[j].geometry, sensors);
    OnlyOnePosition(contains, districts[j].geometry, sensors, i);
    var vs := MetricAt(sensors, ps, metric);
    assert vs == [sensors[i].metrics[metric]];
    MeanOfConstant(vs, sensors[i].metrics[metric]);
  }

  /** When every sensor's index label is its position (the default index of a
      table read without an index column), both operations write the same
      `sensors` column. */
  lemma LabelsArePositions<G, A, P>(contains: (G, P) -> bool, districts: seq<District<G, A>>, sensors: seq<Sensor<P>>, metric: string)
    requires forall i :: 0 <= i < |sensors| ==> sensors[i].indexLabel == i
    requires AddSensorsAndValues(contains, districts, sensors, metric).Success?
    ensures forall j :: 0 <= j < |districts| ==>
      AddSensorsAndValues(contains, districts, sensors, metric).value[j].columns[SensorsColumn]
      == AddSensors(contains, districts, sensors)[j].columns[SensorsColumn]
  {
  }
}
