/**
  The data points of the platform pie chart (main.py:30-37, 223-224): the
  percentage of each platform, the platforms sorted by percentage from
  largest to smallest with ties in dictionary order (Python's `sorted` is
  stable also with `reverse=True`), and the first point drawn exploded.
  The points are modelled as records; the HTML text around them is not.
 */
module PieChart {
  import opened Wrappers
  import opened Text
  import opened Platforms

  /** One entry of the chart's `dataPoints` list. */
  datatype DataPoint = DataPoint(y: real, name: string, exploded: bool)

  predicate HasValues(keys: seq<string>, v: map<string, real>) {
    forall i :: 0 <= i < |keys| ==> keys[i] in v
  }

  /** The keys are in non-increasing order of their values. */
  predicate NonIncreasing(s: seq<string>, v: map<string, real>)
    requires HasValues(s, v)
  {
    forall i, j :: 0 <= i < j < |s| ==> v[s[i]] >= v[s[j]]
  }

  // ---------------------------------------------------------------------
  // `sorted(d, key=d.get, reverse=True)`

  /** Put k after every key whose value is at least k's, before the first smaller one. */
  function Insert(s: seq<string>, k: string, v: map<string, real>): (r: seq<string>)
    requires HasValues(s, v) && k in v
    ensures HasValues(r, v) && |r| == |s| + 1
    ensures r[0] == k || (s != [] && r[0] == s[0])
  {
    if s == [] then [k]
    else if v[s[0]] < v[k] then [k] + s
    else [s[0]] + Insert(s[1..], k, v)
  }

  /** The stable descending sort of the keys by value, inserting them in order. */
  function SortDesc(keys: seq<string>, v: map<string, real>): (r: seq<string>)
    requires HasValues(keys, v)
    ensures HasValues(r, v) && |r| == |keys|
  {
    if keys == [] then []
    else Insert(SortDesc(keys[..|keys| - 1], v), keys[|keys| - 1], v)
  }

  lemma {:induction false} InsertSorted(s: seq<string>, k: string, v: map<string, real>)
    requires HasValues(s, v) && k in v && NonIncreasing(s, v)
    ensures NonIncreasing(Insert(s, k, v), v)
  {
    if s != [] && v[s[0]] >= v[k] {
      var rest := Insert(s[1..], k, v);
      InsertSorted(s[1..], k, v);
      assert v[s[0]] >= v[rest[0]];
      assert Insert(s, k, v) == [s[0]] + rest;
    }
  }

  lemma {:induction false} InsertPermutation(s: seq<string>, k: string, v: map<string, real>)
    requires HasValues(s, v) && k in v
    ensures multiset(Insert(s, k, v)) == multiset(s) + multiset{k}
  {
    if s != [] && v[s[0]] >= v[k] {
      InsertPermutation(s[1..], k, v);
      assert s == [s[0]] + s[1..];
    }
  }

  /** The sorted keys are in non-increasing order of value. */
  lemma {:induction false} SortDescSorted(keys: seq<string>, v: map<string, real>)
    requires HasValues(keys, v)
    ensures NonIncreasing(SortDesc(keys, v), v)
  {
    if keys != [] {
      SortDescSorted(keys[..|keys| - 1], v);
      InsertSorted(SortDesc(keys[..|keys| - 1], v), keys[|keys| - 1], v);
    }
  }

  /** The sorted keys are the keys, each as often as before. */
  lemma {:induction false} SortDescPermutation(keys: seq<string>, v: map<string, real>)
    requires HasValues(keys, v)
    ensures multiset(SortDesc(keys, v)) == multiset(keys)
  {
    if keys != [] {
      var init := keys[..|keys| - 1];
      SortDescPermutation(init, v);
      InsertPermutation(SortDesc(init, v), keys[|keys| - 1], v);
      assert keys == init + [keys[|keys| - 1]];
    }
  }

  /** The keys whose value is x, in their order in s. */
  function WithValue(s: seq<string>, v: map<string, real>, x: real): seq<string>
    requires HasValues(s, v)
  {
    if s == [] then []
    else WithValue(s[..|s| - 1], v, x) + (if v[s[|s| - 1]] == x then [s[|s| - 1]] else [])
  }

  lemma {:induction false} WithValueCons(k: string, s: seq<string>, v: map<string, real>, x: real)
    requires k in v && HasValues(s, v)
    ensures HasValues([k] + s, v)
    ensures WithValue([k] + s, v, x) == (if v[k] == x then [k] else []) + WithValue(s, v, x)
    decreases |s|
  {
    var t := [k] + s;
    assert HasValues(t, v) by {
      forall i | 0 <= i < |t| ensures t[i] in v {
        if i > 0 { assert t[i] == s[i - 1]; }
      }
    }
    if s != [] {
      assert t[..|t| - 1] == [k] + s[..|s| - 1];
      WithValueCons(k, s[..|s| - 1], v, x);
    }
  }

  lemma {:induction false} WithValueNone(s: seq<string>, v: map<string, real>, x: real)
    requires HasValues(s, v)
    requires forall i :: 0 <= i < |s| ==> v[s[i]] < x
    ensures WithValue(s, v, x) == []
    decreases |s|
  {
    if s != [] {
      WithValueNone(s[..|s| - 1], v, x);
    }
  }

  lemma NonIncreasingTail(s: seq<string>, v: map<string, real>)
    requires s != [] && HasValues(s, v) && NonIncreasing(s, v)
    ensures HasValues(s[1..], v) && NonIncreasing(s[1..], v)
    ensures forall i :: 0 <= i < |s| ==> v[s[i]] <= v[s[0]]
  {
    assert forall i :: 0 <= i < |s| - 1 ==> s[1..][i] == s[i + 1];
  }

  /** A key inserted in front of smaller keys is the only one of its value. */
  lemma InsertFrontStable(s: seq<string>, k: string, v: map<string, real>, x: real)
    requires s != [] && HasValues(s, v) && k in v && NonIncreasing(s, v) && v[s[0]] < v[k]
    ensures HasValues([k] + s, v)
    ensures WithValue([k] + s, v, x) == WithValue(s, v, x) + (if v[k] == x then [k] else [])
  {
    WithValueCons(k, s, v, x);
    if v[k] == x {
      NonIncreasingTail(s, v);
      WithValueNone(s, v, x);
    }
  }

  lemma {:induction false} InsertStable(s: seq<string>, k: string, v: map<string, real>, x: real)
    requires HasValues(s, v) && k in v && NonIncreasing(s, v)
    ensures WithValue(Insert(s, k, v), v, x) == WithValue(s, v, x) + (if v[k] == x then [k] else [])
    decreases |s|
  {
    if s == [] {
      assert Insert(s, k, v) == [] + [k];
    } else if v[s[0]] < v[k] {
      InsertFrontStable(s, k, v, x);
    } else {
      var head, tail := s[0], s[1..];
      var rest := Insert(tail, k, v);
      NonIncreasingTail(s, v);
      InsertStable(tail, k, v, x);
      WithValueCons(head, tail, v, x);
      WithValueCons(head, rest, v, x);
      assert [head] + tail == s;
      assert Insert(s, k, v) == [head] + rest;
    }
  }

  /**
    Ties keep their order: the keys of any one value come out of the sort in
    the order they had among the input keys.
   */
  lemma {:induction false} SortDescStable(keys: seq<string>, v: map<string, real>, x: real)
    requires HasValues(keys, v)
    ensures WithValue(SortDesc(keys, v), v, x) == WithValue(keys, v, x)
  {
    if keys != [] {
      var init := keys[..|keys| - 1];
      SortDescStable(init, v, x);
      SortDescSorted(init, v);
      InsertStable(SortDesc(init, v), keys[|keys| - 1], v, x);
    }
  }

  /** Two valuations that compare every pair of keys in S alike. */
  predicate SameOrderOn(S: set<string>, v: map<string, real>, w: map<string, real>)
    requires S <= v.Keys && S <= w.Keys
  {
    forall a, b :: a in S && b in S ==> (v[a] < v[b] <==> w[a] < w[b])
  }

  predicate AllIn(s: seq<string>, S: set<string>) {
    forall i :: 0 <= i < |s| ==> s[i] in S
  }

  lemma {:induction false} InsertSameOrder(S: set<string>, s: seq<string>, k: string, v: map<string, real>, w: map<string, real>)
    requires S <= v.Keys && S <= w.Keys && SameOrderOn(S, v, w)
    requires AllIn(s, S) && k in S
    ensures Insert(s, k, v) == Insert(s, k, w)
  {
    if s != [] {
      InsertSameOrder(S, s[1..], k, v, w);
    }
  }

  /**
    The sort only compares values: two valuations that order the keys
    alike sort them alike.
   */
  lemma {:induction false} SortDescSameOrder(S: set<string>, keys: seq<string>, v: map<string, real>, w: map<string, real>)
    requires S <= v.Keys && S <= w.Keys && SameOrderOn(S, v, w)
    requires AllIn(keys, S)
    ensures SortDesc(keys, v) == SortDesc(keys, w)
  {
    if keys != [] {
      var init := keys[..|keys| - 1];
      SortDescSameOrder(S, init, v, w);
      var sorted := SortDesc(init, v);
      assert AllIn(sorted, S) by {
        SortDescPermutation(init, v);
        forall i | 0 <= i < |sorted| ensures sorted[i] in S {
          assert sorted[i] in multiset(init);
        }
      }
      InsertSameOrder(S, sorted, keys[|keys| - 1], v, w);
    }
  }

  // ---------------------------------------------------------------------
  // The data-point loop

  /**
    The loop over the sorted keys with the `first` flag: one point per
    key, in sorted order, with its value, and only the first one exploded.
   */
  method DataPoints(keys: seq<string>, v: map<string, real>) returns (points: seq<DataPoint>)
    requires HasValues(keys, v)
    ensures |points| == |keys|
    ensures forall i :: 0 <= i < |points| ==>
      points[i] == DataPoint(v[SortDesc(keys, v)[i]], SortDesc(keys, v)[i], i == 0)
    ensures forall i, j :: 0 <= i < j < |points| ==> points[i].y >= points[j].y
    ensures multiset(Names(points)) == multiset(keys)
  {
    var sorted := SortDesc(keys, v);
    SortDescSorted(keys, v);
    SortDescPermutation(keys, v);
    points := [];
    var first := true;
    for n := 0 to |sorted|
      invariant |points| == n
      invariant first <==> n == 0
      invariant forall i :: 0 <= i < n ==> points[i] == DataPoint(v[sorted[i]], sorted[i], i == 0)
    {
      var platform := sorted[n];
      if first {
        points := points + [DataPoint(v[platform], platform, true)];
        first := false;
      } else {
        points := points + [DataPoint(v[platform], platform, false)];
      }
    }
    assert Names(points) == sorted;
  }

  /** The names of the points, in order. */
  function Names(points: seq<DataPoint>): (r: seq<string>)
    ensures |r| == |points| && forall i :: 0 <= i < |points| ==> r[i] == points[i].name
  {
    seq(|points|, i requires 0 <= i < |points| => points[i].name)
  }

  // ---------------------------------------------------------------------
  // `platform_percentage` (main.py:223-224)

  /** `(count * 100) / total`, computed exactly. */
  function Percent(count: nat, total: nat): real
    requires total > 0
  {
    (count * 100) as real / total as real
  }

  /**
    The percentage loop: one entry per label, in the source's arithmetic
    without rounding; no result when the counts sum to zero, where the
    division raises. The labels are the keys of `counts`, each once, as
    `count_platforms.keys()` lists them.
   */
  method Percentages(labels: seq<string>, counts: map<string, nat>) returns (r: Option<map<string, real>>)
    requires Distinct(labels) && forall k :: k in counts <==> k in labels
    ensures r.None? <==> |labels| > 0 && Total(labels, counts) == 0
    ensures r.Some? ==> forall i :: 0 <= i < |labels| ==>
      labels[i] in r.value && r.value[labels[i]] == Percent(counts[labels[i]], Total(labels, counts))
    ensures r.Some? ==> r.value.Keys == counts.Keys
  {
    var total := Total(labels, counts);
    var percent: map<string, real> := map[];
    for i := 0 to |labels|
      invariant i > 0 ==> total > 0
      invariant forall j :: 0 <= j < i ==>
        labels[j] in percent && percent[labels[j]] == Percent(counts[labels[j]], total)
      invariant forall k :: k in percent ==> k in labels[..i]
    {
      if total == 0 {
        return None;
      }
      percent := percent[labels[i] := Percent(counts[labels[i]], total)];
    }
    return Some(percent);
  }

  /** Counts 3 and 1 give 75 and 25 per cent. */
  lemma PercentExample()
    ensures Percent(3, 4) == 75.0 && Percent(1, 4) == 25.0
  {
  }

  /** Dividing by the same positive total keeps the order of the counts. */
  lemma PercentMonotone(a: nat, b: nat, total: nat)
    requires total > 0
    ensures Percent(a, total) <= Percent(b, total) <==> a <= b
    ensures Percent(a, total) == Percent(b, total) <==> a == b
  {
    DivideOrder((a * 100) as real, (b * 100) as real, total as real);
  }

  lemma DivideOrder(x: real, y: real, t: real)
    requires t > 0.0
    ensures x / t <= y / t <==> x <= y
    ensures x / t == y / t <==> x == y
  {
    assert x / t * t == x && y / t * t == y;
    assert (y / t - x / t) * t == y - x;
  }

  /** The sum of the listed values. */
  function Sum(keys: seq<string>, v: map<string, real>): real
    requires HasValues(keys, v)
  {
    if keys == [] then 0.0 else v[keys[0]] + Sum(keys[1..], v)
  }

  /** Over all labels, the percentages add up to 100. */
  lemma PercentagesSum(labels: seq<string>, counts: map<string, nat>, percent: map<string, real>)
    requires HasKeys(labels, counts) && Total(labels, counts) > 0
    requires forall i :: 0 <= i < |labels| ==>
      labels[i] in percent && percent[labels[i]] == Percent(counts[labels[i]], Total(labels, counts))
    ensures Sum(labels, percent) == 100.0
  {
    var total := Total(labels, counts);
    SumScaled(labels, counts, percent, total);
    Cancel(Sum(labels, percent), 100.0, total as real);
  }

  lemma Cancel(a: real, b: real, t: real)
    requires t > 0.0 && a * t == b * t
    ensures a == b
  {
  }

  lemma {:induction false} SumScaled(labels: seq<string>, counts: map<string, nat>, percent: map<string, real>, total: nat)
    requires HasKeys(labels, counts) && total > 0
    requires forall i :: 0 <= i < |labels| ==>
      labels[i] in percent && percent[labels[i]] == Percent(counts[labels[i]], total)
    ensures Sum(labels, percent) * total as real == (Total(labels, counts) * 100) as real
  {
    if labels != [] {
      SumScaled(labels[1..], counts, percent, total);
      var t := total as real;
      assert Percent(counts[labels[0]], total) * t == (counts[labels[0]] * 100) as real;
    }
  }

  /** The counts as values to sort by. */
  function CountValues(counts: map<string, nat>): (v: map<string, real>)
    ensures v.Keys == counts.Keys
  {
    map k | k in counts :: counts[k] as real
  }

  /**
    Sorting the platforms by percentage is sorting them by count: the
    chart's order is fixed by the integer counts alone.
   */
  lemma ChartOrderIsCountOrder(labels: seq<string>, counts: map<string, nat>, percent: map<string, real>)
    requires HasKeys(labels, counts) && Total(labels, counts) > 0
    requires forall i :: 0 <= i < |labels| ==>
      labels[i] in percent && percent[labels[i]] == Percent(counts[labels[i]], Total(labels, counts))
    ensures HasValues(labels, percent) && HasValues(labels, CountValues(counts))
    ensures SortDesc(labels, percent) == SortDesc(labels, CountValues(counts))
  {
    var total := Total(labels, counts);
    var S := set i | 0 <= i < |labels| :: labels[i];
    var w := CountValues(counts);
    forall a, b | a in S && b in S ensures percent[a] < percent[b] <==> w[a] < w[b] {
      PercentMonotone(counts[a], counts[b], total);
    }
    assert AllIn(labels, S);
    SortDescSameOrder(S, labels, percent, w);
  }

}
