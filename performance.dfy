/** lib/monitoring/performance.ts: `PerformanceMonitor` keeps, for every metric
    name, the latest 100 samples in arrival order, and summarises a series by
    its count, extremes, mean and three percentiles of a sorted copy.
    Samples are `real`s (milliseconds); `performance.now()` readings are
    parameters. */
module Performance {
  import opened Wrappers
  import opened Sequences

  /** A series keeps at most this many of its latest samples. */
  const WindowSize: nat := 100

  /** The series stored under `name`; `metrics.get(name) || []`. */
  function Series(metrics: map<string, seq<real>>, name: string): seq<real> {
    if name in metrics then metrics[name] else []
  }

  /** One `recordMetric` on a series: push, then `shift` once when it holds
      more than 100 samples. */
  function Push(values: seq<real>, v: real): (r: seq<real>)
    ensures |values| < WindowSize ==> r == values + [v]
    ensures |values| >= WindowSize ==> r == values[1..] + [v]
    ensures |values| <= WindowSize ==> |r| <= WindowSize
  {
    var pushed := values + [v];
    if |pushed| > WindowSize then pushed[1..] else pushed
  }

  /** The last `n` elements of `s`, or all of `s` when it is shorter. */
  function LastN(s: seq<real>, n: nat): (r: seq<real>)
    ensures |r| == if |s| < n then |s| else n
  {
    if |s| <= n then s else s[|s| - n..]
  }

  /** The series after recording `samples` one by one. */
  function RecordAll(values: seq<real>, samples: seq<real>): seq<real>
    decreases |samples|
  {
    if samples == [] then values else RecordAll(Push(values, samples[0]), samples[1..])
  }

  /** Dropping a prefix that leaves at least `n` elements keeps the last `n`. */
  lemma DropKeepsLastN(x: seq<real>, k: nat, n: nat)
    requires k <= |x| && (k == 0 || |x| - k >= n)
    ensures LastN(x[k..], n) == LastN(x, n)
  {
    if k == 0 {
      assert x[k..] == x;
    } else if |x| - k > n {
      assert x[k..][|x| - k - n..] == x[|x| - n..];
    }
  }

  /** However many samples arrive, a series that starts within the window
      holds exactly the latest 100 of everything recorded, oldest first. */
  lemma {:induction false} RecordAllKeepsLatest(values: seq<real>, samples: seq<real>)
    requires |values| <= WindowSize
    ensures RecordAll(values, samples) == LastN(values + samples, WindowSize)
    decreases |samples|
  {
    if samples == [] {
      assert values + samples == values;
    } else {
      var x := values + samples;
      var p := Push(values, samples[0]);
      var k := |values| + 1 - |p|;
      assert p == (values + [samples[0]])[k..];
      assert x == (values + [samples[0]]) + samples[1..];
      assert p + samples[1..] == x[k..];
      RecordAllKeepsLatest(p, samples[1..]);
      DropKeepsLastN(x, k, WindowSize);
    }
  }

  datatype MetricStats = MetricStats(count: nat, min: real, max: real, avg: real, p50: real, p95: real, p99: real)

  ghost predicate Ascending(s: seq<real>) {
    forall i, j :: 0 <= i <= j < |s| ==> s[i] <= s[j]
  }

  function Insert(x: real, s: seq<real>): (r: seq<real>)
    requires Ascending(s)
    ensures Ascending(r)
    ensures multiset(r) == multiset(s) + multiset{x}
  {
    if s == [] || x <= s[0] then [x] + s
    else
      var rest := Insert(x, s[1..]);
      assert s == [s[0]] + s[1..];
      HeadBelowInserted(x, s, rest);
      AscendingCons(s[0], rest);
      [s[0]] + rest
  }

  lemma AscendingCons(h: real, rest: seq<real>)
    requires Ascending(rest) && forall i :: 0 <= i < |rest| ==> h <= rest[i]
    ensures Ascending([h] + rest)
  {
    var r := [h] + rest;
    forall i, j | 0 <= i <= j < |r| ensures r[i] <= r[j] {
      if 0 < i {
        assert r[i] == rest[i - 1] && r[j] == rest[j - 1];
      } else if 0 < j {
        assert r[j] == rest[j - 1];
      }
    }
  }

  /** The head of an ascending list is below everything the rest holds with
      a larger `x` added. */
  lemma HeadBelowInserted(x: real, s: seq<real>, rest: seq<real>)
    requires Ascending(s) && s != [] && s[0] < x
    requires multiset(rest) == multiset(s[1..]) + multiset{x}
    ensures forall i :: 0 <= i < |rest| ==> s[0] <= rest[i]
  {
    forall i | 0 <= i < |rest| ensures s[0] <= rest[i] {
      assert rest[i] in multiset(rest);
      if rest[i] != x {
        assert rest[i] in multiset(s[1..]);
        var j :| 0 <= j < |s[1..]| && s[1..][j] == rest[i];
        assert s[1..][j] == s[j + 1];
      }
    }
  }

  /** `[...values].sort((a, b) => a - b)`: an ascending permutation. */
  function Sort(s: seq<real>): (r: seq<real>)
    ensures Ascending(r)
    ensures multiset(r) == multiset(s)
    ensures |r| == |s|
  {
    if s == [] then []
    else
      assert s == [s[0]] + s[1..];
      Insert(s[0], Sort(s[1..]))
  }

  /** `Math.floor(n * p / 100)`, the index of percentile `p` in a sorted series. */
  function PercentileIndex(n: nat, p: nat): (i: nat)
    requires n > 0 && p < 100
    ensures i < n
  {
    n * p / 100
  }

  /** `getMetricStats` on one series: null when it is empty. */
  function StatsOf(values: seq<real>): (r: Option<MetricStats>)
    ensures r.None? <==> values == []
    ensures r.Some? ==> r.value.count == |values|
  {
    if values == [] then None
    else
      var sorted, n := Sort(values), |values|;
      Some(MetricStats(n, sorted[0], sorted[n - 1], SumReals(values) / n as real,
                       sorted[PercentileIndex(n, 50)], sorted[PercentileIndex(n, 95)],
                       sorted[PercentileIndex(n, 99)]))
  }

  lemma {:induction false} SumBounds(s: seq<real>, lo: real, hi: real)
    requires forall i :: 0 <= i < |s| ==> lo <= s[i] <= hi
    ensures |s| as real * lo <= SumReals(s) <= |s| as real * hi
  {
    if s != [] {
      SumBounds(s[..|s| - 1], lo, hi);
    }
  }

  /** The statistics of a non-empty series: every reported value is one of the
      samples (the mean excepted), `min <= p50 <= p95 <= p99 <= max`, every
      sample lies between `min` and `max`, and so does the mean. */
  lemma StatsOrdered(values: seq<real>)
    requires values != []
    ensures var st := StatsOf(values).value;
      && st.min in values && st.max in values
      && st.p50 in values && st.p95 in values && st.p99 in values
      && st.min <= st.p50 <= st.p95 <= st.p99 <= st.max
      && (forall v :: v in values ==> st.min <= v <= st.max)
      && st.min <= st.avg <= st.max
  {
    var st := StatsOf(values).value;
    var sorted, n := Sort(values), |values|;
    forall j | 0 <= j < n ensures sorted[j] in values {
      SortedElementIsSample(values, j);
    }
    forall v | v in values ensures st.min <= v <= st.max {
      SampleWithinExtremes(values, v);
    }
    MeanWithinExtremes(values, st.min, st.max);
  }

  lemma SortedElementIsSample(values: seq<real>, j: int)
    requires 0 <= j < |values|
    ensures Sort(values)[j] in values
  {
    var sorted := Sort(values);
    assert sorted[j] in multiset(sorted);
  }

  lemma SampleWithinExtremes(values: seq<real>, v: real)
    requires v in values
    ensures Sort(values)[0] <= v <= Sort(values)[|values| - 1]
  {
    var sorted := Sort(values);
    assert v in multiset(values);
    assert v in multiset(sorted);
    var j :| 0 <= j < |sorted| && sorted[j] == v;
  }

  lemma MeanWithinExtremes(values: seq<real>, lo: real, hi: real)
    requires values != []
    requires forall v :: v in values ==> lo <= v <= hi
    ensures lo <= SumReals(values) / |values| as real <= hi
  {
    forall i | 0 <= i < |values| ensures lo <= values[i] <= hi {
      assert values[i] in values;
    }
    SumBounds(values, lo, hi);
    QuotientBounds(SumReals(values), |values| as real, lo, hi);
  }

  /** `PerformanceMonitor`: one map from metric name to its latest samples. */
  class PerformanceMonitor {
    var metrics: map<string, seq<real>>

    /** No series ever holds more than 100 samples. */
    ghost predicate Valid()
      reads this
    {
      forall name :: name in metrics ==> |metrics[name]| <= WindowSize
    }

    constructor ()
      ensures metrics == map[] && Valid()
    {
      metrics := map[];
    }

    /** `recordMetric(name, value)`: only the series `name` changes. */
    method RecordMetric(name: string, value: real)
      requires Valid()
      modifies this
      ensures Valid()
      ensures metrics == old(metrics)[name := Push(Series(old(metrics), name), value)]
    {
      var values := Series(metrics, name);
      values := values + [value];
      if |values| > WindowSize {
        values := values[1..];
      }
      metrics := metrics[name := values];
    }

    /** `measure(name, fn)`: `fn`'s result is returned unchanged and one sample,
        the time between the two clock readings, is recorded. */
    method Measure<T>(name: string, fnResult: T, start: real, finish: real) returns (r: T)
      requires Valid()
      modifies this
      ensures Valid()
      ensures r == fnResult
      ensures metrics == old(metrics)[name := Push(Series(old(metrics), name), finish - start)]
    {
      RecordMetric(name, finish - start);
      r := fnResult;
    }

    /** `getMetricStats(name)`: statistics of a sorted copy; the stored series
        is only read. */
    function GetMetricStats(name: string): (r: Option<MetricStats>)
      reads this
      ensures r.None? <==> (name !in metrics || metrics[name] == [])
      ensures r.Some? ==> r.value.count == |metrics[name]|
    {
      StatsOf(Series(metrics, name))
    }
  }
}
