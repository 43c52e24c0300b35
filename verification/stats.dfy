/** Exact-arithmetic statistics over metric values: Python's `sum` and the guarded mean. */
module Stats {
  import opened Wrappers

  /** Left-to-right sum starting from zero, as Python's built-in `sum`. */
  function Sum(vs: seq<real>): real
    decreases |vs|
  {
    if |vs| == 0 then 0.0 else Sum(vs[..|vs| - 1]) + vs[|vs| - 1]
  }

  /** Smallest element of a non-empty sequence. */
  function Min(vs: seq<real>): (m: real)
    requires |vs| > 0
    ensures forall k :: 0 <= k < |vs| ==> m <= vs[k]
    ensures exists k :: 0 <= k < |vs| && m == vs[k]
    decreases |vs|
  {
    if |vs| == 1 then vs[0]
    else
      var rest := Min(vs[..|vs| - 1]);
      if vs[|vs| - 1] < rest then vs[|vs| - 1] else rest
  }

  /** Largest element of a non-empty sequence. */
  function Max(vs: seq<real>): (m: real)
    requires |vs| > 0
    ensures forall k :: 0 <= k < |vs| ==> vs[k] <= m
    ensures exists k :: 0 <= k < |vs| && m == vs[k]
    decreases |vs|
  {
    if |vs| == 1 then vs[0]
    else
      var rest := Max(vs[..|vs| - 1]);
      if rest < vs[|vs| - 1] then vs[|vs| - 1] else rest
  }

  /** The arithmetic mean, or `None` when there is nothing to average,
      so that an empty list never yields 0 or a division error. */
  function Mean(vs: seq<real>): (r: Option<real>)
    ensures r.None? <==> |vs| == 0
    ensures r.Some? ==> r.value * (|vs| as real) == Sum(vs)
  {
    if |vs| > 0 then Some(Sum(vs) / (|vs| as real)) else None
  }

  /** Dividing out a positive factor keeps an inequality. */
  lemma ScaleCancel(n: real, a: real, b: real)
    requires 0.0 < n
    requires n * a <= n * b
    ensures a <= b
  {
  }

  /** The sum of n values, each at least lo, is at least n times lo. */
  lemma {:induction false} SumAtLeast(vs: seq<real>, lo: real)
    requires forall k :: 0 <= k < |vs| ==> lo <= vs[k]
    ensures (|vs| as real) * lo <= Sum(vs)
    decreases |vs|
  {
    if |vs| > 0 {
      var init := vs[..|vs| - 1];
      var n := |init| as real;
      SumAtLeast(init, lo);
      assert (n + 1.0) * lo == n * lo + lo;
    }
  }

  /** The sum of n values, each at most hi, is at most n times hi. */
  lemma {:induction false} SumAtMost(vs: seq<real>, hi: real)
    requires forall k :: 0 <= k < |vs| ==> vs[k] <= hi
    ensures Sum(vs) <= (|vs| as real) * hi
    decreases |vs|
  {
    if |vs| > 0 {
      var init := vs[..|vs| - 1];
      var n := |init| as real;
      SumAtMost(init, hi);
      assert (n + 1.0) * hi == n * hi + hi;
    }
  }

  /** A present mean lies between the smallest and the largest averaged value. */
  lemma {:induction false} MeanWithinRange(vs: seq<real>)
    requires |vs| > 0
    ensures Mean(vs).Some?
    ensures Min(vs) <= Mean(vs).value <= Max(vs)
  {
    MeanBetween(vs, Min(vs), Max(vs));
  }

  /** A present mean stays within any bounds that every averaged value obeys. */
  lemma MeanBetween(vs: seq<real>, lo: real, hi: real)
    requires |vs| > 0
    requires forall k :: 0 <= k < |vs| ==> lo <= vs[k] <= hi
    ensures Mean(vs).Some?
    ensures lo <= Mean(vs).value <= hi
  {
    SumAtLeast(vs, lo);
    SumAtMost(vs, hi);
    var n := |vs| as real;
    var s := Sum(vs);
    var m := s / n;
    assert Mean(vs) == Some(m);
    DivideThenScale(s, n);
    ScaleCancel(n, lo, m);
    ScaleCancel(n, m, hi);
  }

  lemma DivideThenScale(s: real, n: real)
    requires 0.0 < n
    ensures n * (s / n) == s
  {
  }

  /** Averaging copies of one value gives that value back unchanged. */
  lemma {:induction false} MeanOfConstant(vs: seq<real>, x: real)
    requires |vs| > 0
    requires forall k :: 0 <= k < |vs| ==> vs[k] == x
    ensures Mean(vs) == Some(x)
  {
    SumOfConstant(vs, x);
    var n := |vs| as real;
    assert Mean(vs).value * n == n * x;
    ScaleCancel(n, Mean(vs).value, x);
    ScaleCancel(n, x, Mean(vs).value);
  }

  lemma {:induction false} SumOfConstant(vs: seq<real>, x: real)
    requires forall k :: 0 <= k < |vs| ==> vs[k] == x
    ensures Sum(vs) == (|vs| as real) * x
    decreases |vs|
  {
    if |vs| > 0 {
      SumOfConstant(vs[..|vs| - 1], x);
    }
  }

  /** The averaged values 2 and 4 give 3. */
  lemma MeanOfTwoAndFour()
    ensures Mean([2.0, 4.0]) == Some(3.0)
  {
    assert [2.0, 4.0][..1] == [2.0];
    assert [2.0][..0] == [];
  }

  /** The sum of a concatenation is the sum of its parts. */
  lemma {:induction false} SumConcat(a: seq<real>, b: seq<real>)
    ensures Sum(a + b) == Sum(a) + Sum(b)
    decreases |b|
  {
    if |b| > 0 {
      SumConcat(a, b[..|b| - 1]);
      assert (a + b)[..|a + b| - 1] == a + b[..|b| - 1];
    } else {
      assert a + b == a;
    }
  }

  /** Taking out the entry at k takes exactly that entry off the sum. */
  lemma SumRemove(vs: seq<real>, k: nat)
    requires k < |vs|
    ensures Sum(vs) == Sum(vs[..k] + vs[k + 1..]) + vs[k]
  {
    var front, back := vs[..k], vs[k + 1..];
    assert vs[..k + 1] == front + [vs[k]];
    assert vs == vs[..k + 1] + back;
    SumConcat(front + [vs[k]], back);
    SumConcat(front, [vs[k]]);
    SumConcat(front, back);
    assert Sum([vs[k]]) == vs[k] by {
      assert [vs[k]][..0] == [];
    }
  }

  /** Reordering the values does not change their sum. */
  lemma {:induction false} SumPermutation(a: seq<real>, b: seq<real>)
    requires multiset(a) == multiset(b)
    ensures Sum(a) == Sum(b)
    decreases |a|
  {
    assert |a| == |b| by {
      assert |a| == |multiset(a)| && |b| == |multiset(b)|;
    }
    if |a| > 0 {
      var init, x := a[..|a| - 1], a[|a| - 1];
      var k := IndexOf(b, x);
      var rest := b[..k] + b[k + 1..];
      assert multiset(init) == multiset(rest) by {
        assert a == init + [x];
        RemovedMultiset(b, k);
      }
      SumPermutation(init, rest);
      SumRemove(b, k);
    }
  }

  /** Some position holding x, given that x occurs in s. */
  ghost function IndexOf<T>(s: seq<T>, x: T): (k: nat)
    requires x in multiset(s)
    ensures k < |s| && s[k] == x
  {
    assert x in s;
    var k :| 0 <= k < |s| && s[k] == x;
    k
  }

  /** Taking out the entry at k takes exactly one copy of it out of the multiset. */
  lemma RemovedMultiset<T>(s: seq<T>, k: nat)
    requires k < |s|
    ensures multiset(s[..k] + s[k + 1..]) == multiset(s) - multiset{s[k]}
    ensures multiset(s) == multiset(s[..k] + s[k + 1..]) + multiset{s[k]}
  {
    assert s == s[..k] + [s[k]] + s[k + 1..];
  }

  /** Reordering the values does not change their mean. */
  lemma MeanPermutation(a: seq<real>, b: seq<real>)
    requires multiset(a) == multiset(b)
    ensures Mean(a) == Mean(b)
  {
    SumPermutation(a, b);
    assert |a| == |multiset(a)| == |multiset(b)| == |b|;
  }
}
