/** lib/performance/web-vitals.ts: `WebVitalsMonitor` rates each Web Vitals
    reading against per-metric thresholds, keeps the latest reading of every
    metric name and posts each reading as it arrives. Metric values are exact
    reals; the POST itself is an outbox of the readings handled. */
module WebVitals {
  import opened Wrappers
  import opened Text

  datatype Rating = Good | NeedsImprovement | Poor

  /** Better ratings rank lower. */
  function Rank(r: Rating): nat {
    match r
    case Good => 0
    case NeedsImprovement => 1
    case Poor => 2
  }

  datatype WebVitalsMetric = WebVitalsMetric(name: string, value: real, rating: Rating, delta: real, id: string)

  /** `thresholds[name]`: one of the five own entries, a property every object
      inherits (truthy, but with no `good` or `poor`), or nothing. */
  datatype Lookup = Missing | Own(good: real, poor: real) | Inherited

  function ThresholdOf(name: string): (t: Lookup)
    ensures t.Own? ==> t.good < t.poor
    ensures t.Missing? <==> name !in ["CLS", "FID", "FCP", "LCP", "TTFB"] && !Inherits(name)
  {
    if name == "CLS" then Own(0.1, 0.25)
    else if name == "FID" then Own(100.0, 300.0)
    else if name == "FCP" then Own(1800.0, 3000.0)
    else if name == "LCP" then Own(2500.0, 4000.0)
    else if name == "TTFB" then Own(800.0, 1800.0)
    else if Inherits(name) then Inherited
    else Missing
  }

  /** `getRating(name, value)`: "good" for an unknown name; otherwise good up
      to the `good` bound, needs improvement up to the `poor` bound, poor above.
      An inherited entry compares against `undefined`, which fails both tests. */
  function GetRating(name: string, value: real): (r: Rating)
    ensures ThresholdOf(name).Missing? ==> r == Good
    ensures ThresholdOf(name).Inherited? ==> r == Poor
    ensures ThresholdOf(name).Own? ==>
      var t := ThresholdOf(name);
      && (r == Good <==> value <= t.good)
      && (r == NeedsImprovement <==> t.good < value <= t.poor)
      && (r == Poor <==> t.poor < value)
  {
    match ThresholdOf(name)
    case Missing => Good
    case Inherited => Poor
    case Own(good, poor) =>
      if value <= good then Good
      else if value <= poor then NeedsImprovement
      else Poor
  }

  /** A larger value never earns a better rating. */
  lemma RatingMonotone(name: string, v1: real, v2: real)
    requires v1 <= v2
    ensures Rank(GetRating(name, v1)) <= Rank(GetRating(name, v2))
  {
  }

  /** The latest reading named `name` in `ms`, if any. */
  function LastNamed(ms: seq<WebVitalsMetric>, name: string): (r: Option<WebVitalsMetric>)
    ensures r.None? <==> forall k :: 0 <= k < |ms| ==> ms[k].name != name
    ensures r.Some? ==> exists k :: 0 <= k < |ms| && ms[k] == r.value && r.value.name == name
                                    && forall j :: k < j < |ms| ==> ms[j].name != name
  {
    if ms == [] then None
    else if ms[|ms| - 1].name == name then Some(ms[|ms| - 1])
    else
      LastNamed(ms[..|ms| - 1], name)
  }

  /** The metrics map after handling `ms` in order. */
  function HandleAll(metrics: map<string, WebVitalsMetric>, ms: seq<WebVitalsMetric>): map<string, WebVitalsMetric> {
    if ms == [] then metrics
    else HandleAll(metrics, ms[..|ms| - 1])[ms[|ms| - 1].name := ms[|ms| - 1]]
  }

  /** After a run of readings the map holds, for every name, the latest
      reading with that name, and an entry from before only for names no
      reading carried. */
  lemma {:induction false} LatestPerName(metrics: map<string, WebVitalsMetric>, ms: seq<WebVitalsMetric>, name: string)
    ensures var m := HandleAll(metrics, ms);
      match LastNamed(ms, name)
      case Some(x) => name in m && m[name] == x
      case None => (name in m <==> name in metrics) && (name in m ==> m[name] == metrics[name])
  {
    if ms != [] {
      LatestPerName(metrics, ms[..|ms| - 1], name);
    }
  }

  /** `/tablet|ipad|playbook|silk/i`: one of the words occurs, letters
      compared without case. */
  predicate IsTablet(userAgent: string) {
    exists w :: w in ["tablet", "ipad", "playbook", "silk"] && Contains(ToLower(userAgent), w)
  }

  /** "windows", one whitespace character, "ce". */
  predicate HasWindowsCe(s: string) {
    exists i :: 0 <= i <= |s| && WindowsCeAt(s[i..])
  }

  predicate WindowsCeAt(t: string) {
    |t| >= 10 && t[..7] == "windows" && IsWhitespace(t[7]) && t[8..10] == "ce"
  }

  /** The mobile pattern of line 74. */
  predicate IsMobile(userAgent: string) {
    || (exists w :: w in ["mobile", "iphone", "ipod", "android", "blackberry", "opera", "mini",
                          "palm", "smartphone", "iemobile"] && Contains(ToLower(userAgent), w))
    || HasWindowsCe(ToLower(userAgent))
  }

  /** `getDeviceType()`: the tablet test comes first, so a user agent that
      matches both patterns is a tablet. */
  function GetDeviceType(userAgent: string): (r: string)
    ensures r == "tablet" <==> IsTablet(userAgent)
    ensures r == "mobile" <==> !IsTablet(userAgent) && IsMobile(userAgent)
    ensures r == "desktop" <==> !IsTablet(userAgent) && !IsMobile(userAgent)
  {
    if IsTablet(userAgent) then "tablet"
    else if IsMobile(userAgent) then "mobile"
    else "desktop"
  }

  /** `WebVitalsMonitor`: the latest reading per name and the readings posted. */
  class WebVitalsMonitor {
    var metrics: map<string, WebVitalsMetric>
    /** The readings `sendMetric` has posted, oldest first. */
    var outbox: seq<WebVitalsMetric>

    constructor ()
      ensures metrics == map[] && outbox == []
    {
      metrics := map[];
      outbox := [];
    }

    /** `handleMetric(metric)`: overwrite the entry of its name, then post it. */
    method HandleMetric(metric: WebVitalsMetric)
      modifies this
      ensures metrics == old(metrics)[metric.name := metric]
      ensures outbox == old(outbox) + [metric]
    {
      metrics := metrics[metric.name := metric];
      outbox := outbox + [metric];
    }
  }
}
