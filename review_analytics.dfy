/** app/api/reviews/analytics/route.ts: `GET /api/reviews/analytics` summarises
    the reviews of the last `days` days: total and mean rating, the 1-5 star
    distribution, a per-day series, the best-rated therapists, the latest
    reviews with a sentiment label, and two trends.

    A review's `created_at` is a millisecond timestamp whose ISO text starts with
    its UTC date; `Date.now()` is the parameter `now`. Means are exact reals. */
module ReviewAnalytics {
  import opened Wrappers
  import opened Sequences

  const MsPerDay: int := 86400000

  datatype Review = Review(id: string, rating: int, comment: Option<string>, createdAt: int, therapistId: string)

  /** The UTC day number of a timestamp, which `toISOString().split("T")[0]` names. */
  function DayOf(t: int): int { t / MsPerDay }

  /** A query parameter that is missing or empty (falsy). */
  predicate Present(p: Option<string>) { p.Some? && p.value != "" }

  /** The reviews query: created no earlier than `days` days before `now`, and
      of the one therapist when `therapistId` is given. */
  function Fetched(all: seq<Review>, days: int, now: int, therapistId: Option<string>): (rs: seq<Review>)
    ensures forall r :: r in rs <==> r in all && r.createdAt >= now - days * MsPerDay
                                     && (Present(therapistId) ==> r.therapistId == therapistId.value)
  {
    if all == [] then []
    else
      assert forall r :: r in all <==> r == all[0] || r in all[1..];
      var r := all[0];
      (if r.createdAt >= now - days * MsPerDay && (Present(therapistId) ==> r.therapistId == therapistId.value)
       then [r] else []) + Fetched(all[1..], days, now, therapistId)
  }

  // ---------------------------------------------------------------------------
  // Totals and means

  /** `reviews.reduce((sum, r) => sum + r.rating, 0)`. */
  function SumRatings(rs: seq<Review>): int {
    if rs == [] then 0 else SumRatings(rs[..|rs| - 1]) + rs[|rs| - 1].rating
  }

  /** The mean rating, 0 when there are no reviews. */
  function MeanRating(rs: seq<Review>): real {
    if rs == [] then 0.0 else SumRatings(rs) as real / |rs| as real
  }

  ghost predicate ValidRatings(rs: seq<Review>) {
    forall i :: 0 <= i < |rs| ==> 1 <= rs[i].rating <= 5
  }

  lemma {:induction false} SumRatingsBounds(rs: seq<Review>)
    requires ValidRatings(rs)
    ensures |rs| <= SumRatings(rs) <= 5 * |rs|
  {
    if rs != [] {
      SumRatingsBounds(rs[..|rs| - 1]);
    }
  }

  /** With 1-5 star ratings the mean lies between 1 and 5; without reviews it is 0. */
  lemma MeanRatingBounds(rs: seq<Review>)
    requires ValidRatings(rs)
    ensures rs == [] ==> MeanRating(rs) == 0.0
    ensures rs != [] ==> 1.0 <= MeanRating(rs) <= 5.0
  {
    if rs != [] {
      SumRatingsBounds(rs);
      var n := |rs| as real;
      assert 1.0 * n <= SumRatings(rs) as real <= 5.0 * n;
      QuotientBounds(SumRatings(rs) as real, n, 1.0, 5.0);
    }
  }

  // ---------------------------------------------------------------------------
  // Rating distribution

  /** `reviews.filter(r => r.rating === rating).length`. */
  function CountRating(rs: seq<Review>, rating: int): (n: nat)
    ensures n <= |rs|
  {
    if rs == [] then 0
    else CountRating(rs[..|rs| - 1], rating) + (if rs[|rs| - 1].rating == rating then 1 else 0)
  }

  /** `Math.round(num / den)` for `den > 0`: halves round up. */
  function RoundDiv(num: int, den: int): (q: int)
    requires den > 0
    ensures 2 * den * q - den <= 2 * num < 2 * den * q + den
  {
    (2 * num + den) / (2 * den)
  }

  /** The share of `count` in `total` as a whole percentage, 0 when there are no reviews. */
  function Percentage(count: nat, total: nat): (p: int)
    requires count <= total
    ensures total == 0 ==> p == 0
    ensures 0 <= p <= 100
    ensures total > 0 ==> 2 * total * p - total <= 200 * count < 2 * total * p + total
  {
    if total > 0 then
      var q := RoundDiv(100 * count, total);
      PercentageRange(count, total, q);
      q
    else 0
  }

  lemma PercentageRange(count: nat, total: nat, q: int)
    requires 0 < total && count <= total
    requires 2 * total * q - total <= 200 * count < 2 * total * q + total
    ensures 0 <= q <= 100
  {
    assert total * (2 * q + 1) > 0;
    PositiveFactor(total, 2 * q + 1);
    assert total * (201 - 2 * q) >= 0;
    NonNegativeFactor(total, 201 - 2 * q);
  }

  lemma PositiveFactor(a: int, b: int)
    requires a > 0 && a * b > 0
    ensures b > 0
  {
  }

  lemma NonNegativeFactor(a: int, b: int)
    requires a > 0 && a * b >= 0
    ensures b >= 0
  {
  }

  datatype RatingBucket = RatingBucket(rating: int, count: nat, percentage: int)

  /** `[1, 2, 3, 4, 5].map(...)`. */
  function RatingDistribution(rs: seq<Review>): (d: seq<RatingBucket>)
    ensures |d| == 5
    ensures forall i :: 0 <= i < 5 ==> d[i].rating == i + 1 && d[i].count == CountRating(rs, i + 1)
                                        && d[i].percentage == Percentage(CountRating(rs, i + 1), |rs|)
  {
    seq(5, i requires 0 <= i < 5 =>
      RatingBucket(i + 1, CountRating(rs, i + 1), Percentage(CountRating(rs, i + 1), |rs|)))
  }

  /** With 1-5 star ratings the five buckets count every review exactly once. */
  lemma {:induction false} DistributionCountsEveryReview(rs: seq<Review>)
    requires ValidRatings(rs)
    ensures CountRating(rs, 1) + CountRating(rs, 2) + CountRating(rs, 3) + CountRating(rs, 4) + CountRating(rs, 5) == |rs|
  {
    if rs != [] {
      DistributionCountsEveryReview(rs[..|rs| - 1]);
    }
  }

  // ---------------------------------------------------------------------------
  // reviewsOverTime

  datatype DayEntry = DayEntry(day: int, count: nat, averageRating: real)

  /** `reviews.filter(r => r.created_at.startsWith(dateStr))`. */
  function OnDay(rs: seq<Review>, day: int): (r: seq<Review>)
    ensures forall x :: x in r <==> x in rs && DayOf(x.createdAt) == day
  {
    if rs == [] then []
    else
      assert forall x :: x in rs <==> x == rs[0] || x in rs[1..];
      (if DayOf(rs[0].createdAt) == day then [rs[0]] else []) + OnDay(rs[1..], day)
  }

  /** The entry pushed for `day`. */
  function DayEntryFor(rs: seq<Review>, day: int): DayEntry {
    var dayReviews := OnDay(rs, day);
    DayEntry(day, |dayReviews|, MeanRating(dayReviews))
  }

  /** Going back whole days moves the UTC date back by as many days. */
  lemma DaysBack(now: int, i: int)
    ensures DayOf(now - i * MsPerDay) == DayOf(now) - i
  {
    var q, r := now / MsPerDay, now % MsPerDay;
    assert now - i * MsPerDay == (q - i) * MsPerDay + r;
  }

  /** The `for (let i = days - 1; i >= 0; i--)` loop: one entry per day, the
      oldest first, ending today. */
  method ReviewsOverTime(rs: seq<Review>, days: int, now: int) returns (series: seq<DayEntry>)
    ensures |series| == if days > 0 then days else 0
    ensures forall k :: 0 <= k < |series| ==> series[k] == DayEntryFor(rs, DayOf(now) - (days - 1 - k))
  {
    series := [];
    var i := days - 1;
    while i >= 0
      invariant (if days > 0 then -1 else days - 1) <= i <= days - 1
      invariant |series| == days - 1 - i
      invariant forall k :: 0 <= k < |series| ==> series[k] == DayEntryFor(rs, DayOf(now) - (days - 1 - k))
      decreases i
    {
      var day := DayOf(now - i * MsPerDay);
      DaysBack(now, i);
      series := series + [DayEntryFor(rs, day)];
      i := i - 1;
    }
  }

  // ---------------------------------------------------------------------------
  // topTherapists

  datatype TherapistStat = TherapistStat(therapistId: string, totalRating: int, reviewCount: nat)

  /** One `forEach` step on `therapistStats`: the therapist's entry gains the
      review, or a new entry is added at the end. */
  function AddReview(stats: seq<TherapistStat>, r: Review): seq<TherapistStat> {
    if stats == [] then [TherapistStat(r.therapistId, r.rating, 1)]
    else if stats[0].therapistId == r.therapistId then
      [stats[0].(totalRating := stats[0].totalRating + r.rating, reviewCount := stats[0].reviewCount + 1)] + stats[1..]
    else [stats[0]] + AddReview(stats[1..], r)
  }

  /** `therapistStats` after the `forEach` over `rs`, in insertion order. */
  function GroupByTherapist(rs: seq<Review>): seq<TherapistStat> {
    if rs == [] then [] else AddReview(GroupByTherapist(rs[..|rs| - 1]), rs[|rs| - 1])
  }

  /** The entry of `id`, if any. */
  function StatFor(stats: seq<TherapistStat>, id: string): Option<TherapistStat> {
    if stats == [] then None
    else if stats[0].therapistId == id then Some(stats[0])
    else StatFor(stats[1..], id)
  }

  /** The reviews of one therapist. */
  function ReviewsOf(rs: seq<Review>, id: string): seq<Review> {
    if rs == [] then []
    else ReviewsOf(rs[..|rs| - 1], id) + (if rs[|rs| - 1].therapistId == id then [rs[|rs| - 1]] else [])
  }

  lemma {:induction false} AddReviewStatFor(stats: seq<TherapistStat>, r: Review, id: string)
    ensures StatFor(AddReview(stats, r), id) ==
      if id != r.therapistId then StatFor(stats, id)
      else if StatFor(stats, id).None? then Some(TherapistStat(id, r.rating, 1))
      else Some(StatFor(stats, id).value.(totalRating := StatFor(stats, id).value.totalRating + r.rating,
                                          reviewCount := StatFor(stats, id).value.reviewCount + 1))
  {
    if stats != [] && stats[0].therapistId != r.therapistId {
      AddReviewStatFor(stats[1..], r, id);
    }
  }

  /** Every therapist's entry holds the sum and number of that therapist's
      ratings; a therapist without reviews has no entry. */
  lemma {:induction false} GroupedStats(rs: seq<Review>, id: string)
    ensures var rev := ReviewsOf(rs, id);
      StatFor(GroupByTherapist(rs), id) == if rev == [] then None else Some(TherapistStat(id, SumRatings(rev), |rev|))
  {
    if rs != [] {
      var init := rs[..|rs| - 1];
      var last := rs[|rs| - 1];
      GroupedStats(init, id);
      AddReviewStatFor(GroupByTherapist(init), last, id);
      var prev := ReviewsOf(init, id);
      if last.therapistId == id {
        var rev := prev + [last];
        assert ReviewsOf(rs, id) == rev;
        assert rev[..|rev| - 1] == prev;
        assert SumRatings(rev) == SumRatings(prev) + last.rating;
      } else {
        assert ReviewsOf(rs, id) == prev;
      }
    }
  }

  function TotalCount(stats: seq<TherapistStat>): nat {
    if stats == [] then 0 else stats[0].reviewCount + TotalCount(stats[1..])
  }

  lemma {:induction false} AddReviewCounts(stats: seq<TherapistStat>, r: Review)
    ensures TotalCount(AddReview(stats, r)) == TotalCount(stats) + 1
  {
    if stats != [] && stats[0].therapistId != r.therapistId {
      AddReviewCounts(stats[1..], r);
    }
  }

  /** The per-therapist review counts add up to the number of reviews. */
  lemma {:induction false} GroupedCountsSum(rs: seq<Review>)
    ensures TotalCount(GroupByTherapist(rs)) == |rs|
  {
    if rs != [] {
      GroupedCountsSum(rs[..|rs| - 1]);
      AddReviewCounts(GroupByTherapist(rs[..|rs| - 1]), rs[|rs| - 1]);
    }
  }

  /** The `forEach` that fills `therapistStats`. */
  method TherapistStats(rs: seq<Review>) returns (stats: seq<TherapistStat>)
    ensures stats == GroupByTherapist(rs)
  {
    stats := [];
    for i := 0 to |rs|
      invariant stats == GroupByTherapist(rs[..i])
    {
      assert rs[..i + 1][..i] == rs[..i];
      stats := AddReview(stats, rs[i]);
    }
    assert rs[..|rs|] == rs;
  }

  datatype TherapistSummary = TherapistSummary(therapistId: string, averageTenths: int, reviewCount: nat)

  /** `(totalRating / reviewCount).toFixed(1)` read back by `parseFloat`, in tenths. */
  function AverageTenths(s: TherapistStat): int {
    if s.reviewCount == 0 then 0 else RoundDiv(10 * s.totalRating, s.reviewCount)
  }

  function Summarize(s: TherapistStat): TherapistSummary {
    TherapistSummary(s.therapistId, AverageTenths(s), s.reviewCount)
  }

  function AverageKey(t: TherapistSummary): int { t.averageTenths }

  function Summaries(stats: seq<TherapistStat>): (r: seq<TherapistSummary>)
    ensures |r| == |stats| && forall i :: 0 <= i < |stats| ==> r[i] == Summarize(stats[i])
  {
    seq(|stats|, i requires 0 <= i < |stats| => Summarize(stats[i]))
  }

  const TopLimit: nat := 10

  /** `topTherapists`: none when one therapist is asked for; otherwise at most
      ten summaries, best average first. */
  function TopTherapists(stats: seq<TherapistStat>, therapistId: Option<string>): (top: seq<TherapistSummary>)
    ensures Present(therapistId) ==> top == []
    ensures |top| <= TopLimit
    ensures forall i, j :: 0 <= i <= j < |top| ==> top[i].averageTenths >= top[j].averageTenths
    ensures forall t :: t in top ==> exists s :: s in stats && Summarize(s) == t
  {
    if Present(therapistId) then []
    else
      var summaries := Summaries(stats);
      var ranked := SortByKeyDesc(summaries, AverageKey);
      var top := ranked[..Min(|ranked|, TopLimit)];
      assert forall t :: t in top ==> exists s :: s in stats && Summarize(s) == t by {
        forall t | t in top ensures exists s :: s in stats && Summarize(s) == t {
          InSorted(summaries, AverageKey, t);
          var i :| 0 <= i < |summaries| && summaries[i] == t;
          assert stats[i] in stats;
        }
      }
      assert forall i, j :: 0 <= i <= j < |top| ==> AverageKey(top[i]) >= AverageKey(top[j]);
      top
  }

  /** A therapist is left out of the top list only when it is full and every
      therapist in it has an average at least as high. */
  lemma TopTherapistsAreTopRated(stats: seq<TherapistStat>, therapistId: Option<string>, s: TherapistStat)
    requires !Present(therapistId) && s in stats
    ensures var top := TopTherapists(stats, therapistId);
      Summarize(s) !in top ==> |top| == TopLimit && forall t :: t in top ==> t.averageTenths >= AverageTenths(s)
  {
    var i :| 0 <= i < |stats| && stats[i] == s;
    assert Summaries(stats)[i] == Summarize(s);
    TopOfSorted(Summaries(stats), AverageKey, TopLimit, Summarize(s));
  }

  // ---------------------------------------------------------------------------
  // recentReviews

  datatype Sentiment = Positive | Neutral | Negative

  /** The mock sentiment: 4 stars and up positive, 3 neutral, below negative. */
  function SentimentOf(rating: int): (s: Sentiment)
    ensures s == Positive <==> rating >= 4
    ensures s == Neutral <==> rating == 3
    ensures s == Negative <==> rating < 3
  {
    if rating >= 4 then Positive else if rating >= 3 then Neutral else Negative
  }

  /** `comment.split(" ").length`, 0 for a missing or empty comment. */
  function SpaceSeparatedCount(comment: Option<string>): nat {
    if comment.None? || comment.value == "" then 0 else 1 + multiset(comment.value)[' ']
  }

  datatype RecentReview = RecentReview(review: Review, sentiment: Sentiment, wordCount: nat)

  function CreatedAt(r: Review): int { r.createdAt }

  function Annotate(r: Review): RecentReview {
    RecentReview(r, SentimentOf(r.rating), SpaceSeparatedCount(r.comment))
  }

  /** The first ten reviews after sorting by `created_at`, newest first. */
  function NewestReviews(rs: seq<Review>): (top: seq<Review>)
    ensures |top| <= TopLimit
    ensures forall i, j :: 0 <= i <= j < |top| ==> top[i].createdAt >= top[j].createdAt
    ensures forall r :: r in top ==> r in rs
  {
    var newest := SortByKeyDesc(rs, CreatedAt);
    var top := newest[..Min(|newest|, TopLimit)];
    assert forall i, j :: 0 <= i <= j < |top| ==> CreatedAt(top[i]) >= CreatedAt(top[j]);
    forall r | r in top ensures r in rs {
      InSorted(rs, CreatedAt, r);
    }
    top
  }

  /** A review is left out of the newest ten only when ten reviews at least as
      new were kept. */
  lemma NewestReviewsAreNewest(rs: seq<Review>, r: Review)
    requires r in rs
    ensures var top := NewestReviews(rs);
      r !in top ==> |top| == TopLimit && forall x :: x in top ==> x.createdAt >= r.createdAt
  {
    TopOfSorted(rs, CreatedAt, TopLimit, r);
  }

  /** `recentReviews`: the newest reviews, each with its sentiment and word count. */
  function RecentReviews(rs: seq<Review>): (recent: seq<RecentReview>)
    ensures |recent| == |NewestReviews(rs)|
    ensures forall i :: 0 <= i < |recent| ==> recent[i] == Annotate(NewestReviews(rs)[i])
  {
    var top := NewestReviews(rs);
    seq(|top|, i requires 0 <= i < |top| => Annotate(top[i]))
  }

  // ---------------------------------------------------------------------------
  // calculateTrend

  datatype Trend = Up | Down | Stable

  function Mean(s: seq<real>): real
    requires s != []
  {
    SumReals(s) / |s| as real
  }

  /** `calculateTrend`: the relative change, in percent, from the mean of the
      first half to the mean of the second. A zero first mean divides to an
      infinity of the sign of the second mean, or to NaN when it is zero too. */
  function CalculateTrend(values: seq<real>): (t: Trend)
    ensures (forall i :: 0 <= i < |values| ==> values[i] == values[0]) ==> t == Stable
  {
    if |values| < 2 then Stable
    else
      var half := |values| / 2;
      var firstAvg, secondAvg := Mean(values[..half]), Mean(values[half..]);
      ConstantHalves(values, half);
      if firstAvg == 0.0 then
        (if secondAvg > 0.0 then Up else if secondAvg < 0.0 then Down else Stable)
      else
        var change := (secondAvg - firstAvg) / firstAvg * 100.0;
        if change > 5.0 then Up else if change < -5.0 then Down else Stable
  }

  lemma {:induction false} SumOfConstant(s: seq<real>, c: real)
    requires forall i :: 0 <= i < |s| ==> s[i] == c
    ensures SumReals(s) == |s| as real * c
  {
    if s != [] {
      SumOfConstant(s[..|s| - 1], c);
    }
  }

  /** Both halves of a constant series have the same mean. */
  lemma ConstantHalves(values: seq<real>, half: int)
    requires 0 < half < |values|
    ensures (forall i :: 0 <= i < |values| ==> values[i] == values[0]) ==> Mean(values[..half]) == Mean(values[half..])
  {
    if forall i :: 0 <= i < |values| ==> values[i] == values[0] {
      SumOfConstant(values[..half], values[0]);
      SumOfConstant(values[half..], values[0]);
    }
  }

  /** With a positive first-half mean: up exactly when the second half's mean
      is more than 5% higher, down exactly when it is more than 5% lower. */
  lemma TrendThresholds(values: seq<real>)
    requires |values| >= 2 && Mean(values[..|values| / 2]) > 0.0
    ensures var f, s := Mean(values[..|values| / 2]), Mean(values[|values| / 2..]);
      && (CalculateTrend(values) == Up <==> s > f * 1.05)
      && (CalculateTrend(values) == Down <==> s < f * 0.95)
  {
    var f, s := Mean(values[..|values| / 2]), Mean(values[|values| / 2..]);
    var change := (s - f) / f * 100.0;
    ChangeThresholds(f, s, change);
    assert CalculateTrend(values) == (if change > 5.0 then Up else if change < -5.0 then Down else Stable);
  }

  lemma ChangeThresholds(f: real, s: real, change: real)
    requires f > 0.0 && change == (s - f) / f * 100.0
    ensures change > 5.0 <==> s > f * 1.05
    ensures change < -5.0 <==> s < f * 0.95
  {
    assert change * f == (s - f) * 100.0;
    ScaleOrder(5.0, change, f);
    ScaleOrder(change, -5.0, f);
  }

  /** Fewer than two values is always stable. */
  lemma ShortSeriesIsStable(values: seq<real>)
    requires |values| < 2
    ensures CalculateTrend(values) == Stable
  {
  }

  // ---------------------------------------------------------------------------
  // The route

  datatype Summary = Summary(totalReviews: nat, averageRating: real, days: int)

  /** The `days` query parameter after `Number.parseInt(... || "30")`. */
  datatype DaysParam = DaysAbsent | DaysParsed(n: int) | DaysNotANumber

  const DefaultDays: int := 30

  function DaysOf(p: DaysParam): int
    requires !p.DaysNotANumber?
  {
    if p.DaysAbsent? then DefaultDays else p.n
  }

  datatype AnalyticsResponse =
    | InternalError
    | FetchFailed
    | Analytics(summary: Summary, ratingDistribution: seq<RatingBucket>, reviewsOverTime: seq<DayEntry>,
                topTherapists: seq<TherapistSummary>, recentReviews: seq<RecentReview>,
                ratingTrend: Trend, volumeTrend: Trend)

  /** Every field of the answer is computed from exactly the reviews the query
      fetches for `days`. */
  ghost predicate IsAnalyticsOf(resp: AnalyticsResponse, all: seq<Review>, days: int, now: int, therapistId: Option<string>) {
    var rs := Fetched(all, days, now, therapistId);
    && resp.Analytics?
    && resp.summary == Summary(|rs|, MeanRating(rs), days)
    && resp.ratingDistribution == RatingDistribution(rs)
    && |resp.reviewsOverTime| == (if days > 0 then days else 0)
    && (forall k :: 0 <= k < |resp.reviewsOverTime| ==>
          resp.reviewsOverTime[k] == DayEntryFor(rs, DayOf(now) - (days - 1 - k)))
    && resp.topTherapists == TopTherapists(GroupByTherapist(rs), therapistId)
    && resp.recentReviews == RecentReviews(rs)
    && resp.ratingTrend == CalculateTrend(seq(|resp.reviewsOverTime|, i requires 0 <= i < |resp.reviewsOverTime| =>
                                                 resp.reviewsOverTime[i].averageRating))
    && resp.volumeTrend == CalculateTrend(seq(|resp.reviewsOverTime|, i requires 0 <= i < |resp.reviewsOverTime| =>
                                                 resp.reviewsOverTime[i].count as real))
  }

  /** `GET`: `all` is the reviews table, `fetchFailed` whether the query failed.
      A `days` that is not a number makes the query's date invalid, and its
      `toISOString()` throws into the `catch`. */
  method GetAnalytics(all: seq<Review>, daysParam: DaysParam, now: int, therapistId: Option<string>, fetchFailed: bool)
    returns (resp: AnalyticsResponse)
    ensures daysParam.DaysNotANumber? <==> resp.InternalError?
    ensures !daysParam.DaysNotANumber? ==> (fetchFailed <==> resp.FetchFailed?)
    ensures resp.Analytics? ==> IsAnalyticsOf(resp, all, DaysOf(daysParam), now, therapistId)
  {
    if daysParam.DaysNotANumber? {
      return InternalError;
    }
    if fetchFailed {
      return FetchFailed;
    }
    resp := Analyze(all, DaysOf(daysParam), now, therapistId);
  }

  /** The body of the `try` after a successful query. */
  method Analyze(all: seq<Review>, days: int, now: int, therapistId: Option<string>) returns (resp: AnalyticsResponse)
    ensures IsAnalyticsOf(resp, all, days, now, therapistId)
  {
    var rs := Fetched(all, days, now, therapistId);
    var overTime := ReviewsOverTime(rs, days, now);
    var stats := TherapistStats(rs);
    var means := seq(|overTime|, i requires 0 <= i < |overTime| => overTime[i].averageRating);
    var counts := seq(|overTime|, i requires 0 <= i < |overTime| => overTime[i].count as real);
    resp := Analytics(Summary(|rs|, MeanRating(rs), days), RatingDistribution(rs), overTime,
                      TopTherapists(stats, therapistId), RecentReviews(rs),
                      CalculateTrend(means), CalculateTrend(counts));
  }
}
