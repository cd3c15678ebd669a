/**
 * Web-vitals monitoring: the rating of a measurement against the published
 * thresholds of its metric, and the log of reports. Values are real numbers;
 * the report's timestamp is a parameter standing for `Date.now()`.
 */
module Performance {
  import opened Wrappers

  datatype Rating = Good | NeedsImprovement | Poor

  datatype MetricReport = MetricReport(name: string, value: real, rating: Rating, timestamp: int)

  /** The largest "good" value and the largest "needs improvement" value of a known metric. */
  function Thresholds(name: string): (t: Option<(real, real)>)
    ensures t.Some? ==> 0.0 < t.value.0 < t.value.1
    ensures t.Some? <==> name in {"CLS", "FID", "LCP", "FCP", "TTFB"}
  {
    match name
    case "CLS" => Some((0.1, 0.25))
    case "FID" => Some((100.0, 300.0))
    case "LCP" => Some((2500.0, 4000.0))
    case "FCP" => Some((1800.0, 3000.0))
    case "TTFB" => Some((800.0, 1800.0))
    case _ => None
  }

  /** `getRating`. */
  function GetRating(name: string, value: real): (r: Rating)
    ensures Thresholds(name).None? ==> r == NeedsImprovement
    ensures Thresholds(name).Some? ==>
      var (good, fair) := Thresholds(name).value;
      && (r == Good <==> value <= good)
      && (r == NeedsImprovement <==> good < value <= fair)
      && (r == Poor <==> fair < value)
  {
    match name
    case "CLS" => if value <= 0.1 then Good else if value <= 0.25 then NeedsImprovement else Poor
    case "FID" => if value <= 100.0 then Good else if value <= 300.0 then NeedsImprovement else Poor
    case "LCP" => if value <= 2500.0 then Good else if value <= 4000.0 then NeedsImprovement else Poor
    case "FCP" => if value <= 1800.0 then Good else if value <= 3000.0 then NeedsImprovement else Poor
    case "TTFB" => if value <= 800.0 then Good else if value <= 1800.0 then NeedsImprovement else Poor
    case _ => NeedsImprovement
  }

  /** Good ranks 0, needs-improvement 1, poor 2. */
  function Rank(r: Rating): nat {
    match r
    case Good => 0
    case NeedsImprovement => 1
    case Poor => 2
  }

  /** A larger value never earns a better rating. */
  lemma RatingMonotone(name: string, v: real, w: real)
    requires v <= w
    ensures Rank(GetRating(name, v)) <= Rank(GetRating(name, w))
  {
  }

  /** Every report carries the rating its name and value earn. */
  ghost predicate Consistent(log: seq<MetricReport>) {
    forall i :: 0 <= i < |log| ==> log[i].rating == GetRating(log[i].name, log[i].value)
  }

  /** The module-level `metrics` array. */
  class PerformanceMonitor {
    var metrics: seq<MetricReport>

    ghost predicate Valid()
      reads this
    {
      Consistent(metrics)
    }

    constructor ()
      ensures Valid() && metrics == []
    {
      metrics := [];
    }

    /** `handleMetric`: appends one report rated by `GetRating`, stamped `now`. */
    method HandleMetric(name: string, value: real, now: int)
      requires Valid()
      modifies this
      ensures Valid()
      ensures metrics == old(metrics) + [MetricReport(name, value, GetRating(name, value), now)]
    {
      var report := MetricReport(name, value, GetRating(name, value), now);
      metrics := metrics + [report];
    }

    /** `getPerformanceMetrics`: the reports in the order they arrived. */
    method GetPerformanceMetrics() returns (r: seq<MetricReport>)
      requires Valid()
      ensures r == metrics && Consistent(r)
    {
      r := metrics;
    }
  }
}
