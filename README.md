# Flexicure core, modelled in Dafny

Flexicure is a Next.js web application for booking physiotherapy sessions.
Patients pick a therapist, a date and a free time slot. Therapists publish
weekly availability windows. Both sides meet in video sessions. Around this
booking engine sit a rate-limiting and security-header middleware, input
sanitisers, a blog, review moderation and analytics, A/B testing, web-vital
and performance monitoring, and role-based navigation.

This project models that core in Dafny and proves properties of it:

- **Booking engine** (`time.dfy`, `bookings.dfy`, `slots.dfy`, `create_booking.dfy`):
  - slot enumeration;
  - the half-open overlap test;
  - the guard chain of the create route;
  - the local-date/UTC helpers, with a time zone as a fixed offset in minutes
    and the server clock fixed to UTC.
- **Rate limiting and headers** (`rate_limit.dfy`, `middleware.dfy`): the
  fixed-window limiters of the middleware and of `createRateLimiter`, the
  prefix-based rule choice, and the header and skip rules.
- **Sanitisers and escapers** (`input_validation.dfy`).
- **Performance monitor** (`performance.dfy`): the last-100 sample window and
  its order statistics.
- **Blog** (`blog.dfy`, `blog_search.dfy`): reading time, front-matter
  defaults, the newest-first listing, related-post ranking, the
  category/tag indexes and the search filter.
- **Reviews** (`review_analytics.dfy`, `review_moderation.dfy`): the analytics
  aggregates and the moderation panel's updates.
- **A/B testing** (`ab_track.dfy`, `ab_provider.dfy`): event tracking and
  per-variant counting, and sticky weighted assignment.
- **Web vitals** (`web_vitals.dfy`): rating thresholds, the latest metric per
  name, and device detection.
- **Session recorder** (`session_recording.dfy`): duration formatting and the
  recorder's state changes.
- **Roles, navigation and newsletter** (`roles.dfy`, `sidebar.dfy`,
  `newsletter.dfy`): role-to-path mapping, the sidebar filter, and
  newsletter subscription.
- **Shared helpers** (`text.dfy`, `seqs.dfy`, `wrappers.dfy`): strings,
  sequences, sorting and `Option`.

How the model stands in for the outside world:

- Database tables are sequences, maps or sets that the operations receive or
  keep as fields.
- A query whose `error` the route checks is a boolean or `Option` parameter.
- A query whose `error` the route ignores leaves `data` null:
  - where the route reads null as "no rows" (`data || []`, `!data`), the model
    receives an empty sequence (both queries of the slots route, the
    availability query of the create route);
  - where null changes the outcome, a boolean parameter says that the query
    failed (the conflicts query of the create route, the newsletter lookup).
- The clock (`Date.now()`, `new Date()`) and `Math.random()` are parameters.
- Objects whose methods mutate fields are Dafny classes:
  - the booking table;
  - the middleware's rate-limit map;
  - `createRateLimiter`'s closure;
  - `PerformanceMonitor`;
  - the A/B provider;
  - the event table;
  - `WebVitalsMonitor`;
  - the newsletter table.

## Model

| member | source | states |
|---|---|---|
| Time.GetUtcRangeForLocalDate | lib/time.ts:6-16 | the UTC range of a local date runs from local 00:00:00 to 23:59:59, so it is 86399 s long |
| Time.ToUtcStartEnd | lib/time.ts:20-25 | the end instant is exactly `durationMinutes` minutes after the start |
| Time.GetLocalDayOfWeek | lib/time.ts:28-33 | the weekday is in 0..6 |
| Time.DayOfWeekIsCalendarWeekday | lib/time.ts:28-33 | for an offset in [-12h, +12h) the noon-referenced weekday is the calendar weekday of the date |
| Time.FarEastZoneShiftsWeekday | lib/time.ts:28-33 | for an offset of +12h or more the weekday is that of the next calendar day |
| Time.LocalDayMapsIntoRange | lib/time.ts:8-24 | both helpers use the same local-to-UTC conversion: local midnight is the range start, and any local time of the day falls inside the range |
| Time.LocalTimeRoundTrip | lib/time.ts:20-25 | converting the UTC start back into the zone gives the requested date and minute of the day |
| Bookings.OverlapsIffSharedInstant | app/api/bookings/slots/route.ts:46 | the half-open overlap test holds exactly when the two non-empty intervals share an instant |
| Bookings.WindowsFor | app/api/bookings/slots/route.ts:24-29 | the availability query returns exactly the rows of that therapist and weekday |
| Slots.BookingsStartingIn | app/api/bookings/slots/route.ts:37-43 | the bookings query returns exactly the therapist's bookings starting within the local day's UTC range, whatever their status |
| Slots.Starts | app/api/bookings/slots/route.ts:58-62 | the i-th candidate is `start + i*slotMinutes` and fits in the window; one more step would not fit |
| Slots.StartsIff | app/api/bookings/slots/route.ts:55-62 | a minute is a candidate exactly when it is `start + k*slotMinutes` with `k >= 0` and the session ends by the window end |
| Slots.KeepAllStartsStep | app/api/bookings/slots/route.ts:58-62 | a window long enough for one session always yields the window start as a candidate |
| Slots.ShortWindowYieldsNothing | app/api/bookings/slots/route.ts:58-62 | a window shorter than the session duration (or empty) contributes no slots |
| Slots.KeepAllMembership | app/api/bookings/slots/route.ts:70-83 | a label is kept exactly when some candidate has that label and no conflicting booking |
| Slots.EmittedMembership | app/api/bookings/slots/route.ts:49-85 | over all windows, a label is emitted exactly when some window's candidate has it and is free |
| Slots.CollectWindow | app/api/bookings/slots/route.ts:58-84 | the inner loop appends exactly the window's free slot labels, in order |
| Slots.CollectAll | app/api/bookings/slots/route.ts:50-85 | the outer loop collects every window's free slot labels, window after window |
| Slots.GetSlots | app/api/bookings/slots/route.ts:7-93 | on every query on which the route returns, the handler's answer is the specified response, and its slot list is strictly ascending in string order |
| Slots.NonPositiveStepOffersNothing | app/api/bookings/slots/route.ts:57-61 | with `slotMinutes` of 0 or below the route returns only when no window holds a session, and then offers no slot |
| Slots.MissingParameterIsBadRequest | app/api/bookings/slots/route.ts:16-18 | the answer is a 400 exactly when `therapistId` or `date` is missing or empty |
| Slots.NoAvailabilityIsEmptySuccess | app/api/bookings/slots/route.ts:31-34 | with no availability for the weekday the answer is a success with no slots |
| Slots.SlotMembership | app/api/bookings/slots/route.ts:7-93 | a label is in the answer exactly when some window's candidate has it and no fetched booking overlaps it; the list is strictly ascending, hence duplicate-free |
| Slots.OfferedSlotFitsAndIsFree | app/api/bookings/slots/route.ts:46-76 | an offered slot lies inside a window and its UTC interval overlaps no fetched booking |
| Slots.TouchingBookingIsNoConflict | app/api/bookings/slots/route.ts:46 | bookings that start when the slot ends or later, or end when it starts or earlier, are no conflict |
| Slots.SlotAndBookingConversionsAgreeOnlyInUtc | app/api/bookings/slots/route.ts:67-68 | the slots route's locale-string conversion and the create route's conversion agree exactly when the offset is zero |
| CreateBooking.StatusCode | app/api/bookings/create/route.ts:40-113 | the route answers 200 exactly on a created booking, 401 exactly without a signed-in user, 409 exactly on a taken slot, and 400 exactly on missing fields, no availability, a time outside every window, or a failed insert |
| CreateBooking.NewBooking | app/api/bookings/create/route.ts:97-108 | the inserted row is pending, priced 5000 INR, and lasts the requested duration |
| CreateBooking.Decide | app/api/bookings/create/route.ts:40-113 | the guards run in the order fields, user, availability, window, conflict, insert, and each outcome holds exactly when every earlier guard passes and its own fails; a taken slot needs a conflicts query that answered; a created booking is the row built from the request for the signed-in user |
| CreateBooking.InsertErrorIsBadRequest | app/api/bookings/create/route.ts:112-114 | a request that passes every guard but whose insert reports an error is answered 400 |
| CreateBooking.CreatedIffGuardsPass | app/api/bookings/create/route.ts:40-113 | a booking is created exactly when all guards pass (fields, signed-in user, availability, window, no conflict or a failed conflicts query, insert succeeds); it is then the caller's pending 5000 INR booking at the requested local time |
| CreateBooking.ConflictIsOverlap | app/api/bookings/create/route.ts:82-91 | the conflicts query is the half-open overlap test against the therapist's bookings of any status |
| CreateBooking.CreatePreservesNoDoubleBooking | app/api/bookings/create/route.ts:82-110 | when the conflicts query answers, a booking the route creates never overlaps another of the same therapist's bookings, given that none overlapped before |
| CreateBooking.FailedConflictQueryAllowsDoubleBooking | app/api/bookings/create/route.ts:82-91 | when the conflicts query fails, a request overlapping an existing booking of the therapist is booked, and the table then holds a double booking |
| CreateBooking.BookingStore.Create | app/api/bookings/create/route.ts:35-113 | the outcome is the guard chain's decision, the table gains exactly the new booking on success and nothing otherwise, and it stays free of double bookings while the conflicts query answers |
| CreateBooking.HHmmLe | app/api/bookings/create/route.ts:72-76 | comparing `HH:mm` labels as strings orders them as the minutes they name |
| CreateBooking.LabelsInsideIff | app/api/bookings/create/route.ts:72-76 | for a session not crossing midnight, the string comparison of labels is the same as comparing minutes |
| CreateBooking.WithinIffInsideWindow | app/api/bookings/create/route.ts:72-79 | for a session not crossing midnight, `within` holds exactly when some window contains the session |
| CreateBooking.MidnightSessionPassesWindowCheck | app/api/bookings/create/route.ts:67-76 | `endLocal` wraps at midnight, so a 23:30 session of 45 minutes passes the check against a window ending at 23:59 |
| RateLimit.Step | middleware.ts:56-84 | a missing or expired record starts a new window with count 1; inside a window the call is allowed exactly while count < max, and then only the count grows; other keys are untouched |
| RateLimit.StepKeepsBounded | middleware.ts:72-83 | no stored count ever exceeds the maximum (or 1) |
| RateLimit.WindowBound | middleware.ts:72-83 | within one window at most `max(requests, 1)` calls of a key are allowed |
| Middleware.RuleFor | middleware.ts:42-67 | the limit is that of the first rule whose prefix the path starts with, else the default 100 per minute |
| Middleware.SelectRule | middleware.ts:60-67 | the loop with `break` picks the same rule as the first-match definition |
| Middleware.RuleExamples | middleware.ts:42-48 | auth paths get 5/min, booking paths 20/min, the newsletter 3 per 5 min, and other API paths the default |
| Middleware.FirstField | middleware.ts:50-54 | the client address is the text before the first comma of `x-forwarded-for` |
| Middleware.FirstFieldOfList | middleware.ts:52 | for a comma-separated list the first entry is taken |
| Middleware.KeySeparatesPaths | middleware.ts:50-54 | one client on two paths gets two distinct keys |
| Middleware.KeySeparatesClients | middleware.ts:50-54 | two clients whose addresses hold no colon get two distinct keys |
| Middleware.RateLimitStore.CheckRateLimit | middleware.ts:56-84 | the verdict and the new record map are the fixed-window step under the path's rule |
| Middleware.SetHeaders | middleware.ts:134-136 | setting the headers in order adds exactly the listed names with their values |
| Middleware.HeaderPrefixValues | middleware.ts:134-136 | with distinct names each listed header carries its own value |
| Middleware.SecurityHeaderMap | middleware.ts:11-19 | every security header is present with its value, and none of them is overwritten later |
| Middleware.ResponseHeadersKeepSecurity | middleware.ts:134-146 | every response keeps all seven security headers with their values |
| Middleware.ResponseHeadersSetPolicy | middleware.ts:139 | the policy header carries the whole policy |
| Middleware.ResponseHeadersCaching | middleware.ts:142-146 | `Cache-Control: no-store` is set exactly on dashboard and API paths |
| Middleware.TooManyHeaders | middleware.ts:121-129 | a 429 says retry after 60 s, 0 remaining, and limit "100" whatever the rule |
| Middleware.Respond | middleware.ts:104-146 | skipped paths pass untouched; only API requests touch the store; a 429 comes exactly when the limiter denies, and leaves the store unchanged; any other response carries the full header set |
| Middleware.Handle | middleware.ts:104-168 | on a path `config.matcher` excludes the request goes on with no headers and the store unchanged; on every other path the response and the new store are the specified outcome |
| Middleware.MatcherExcludesApiImages | middleware.ts:166-168 | an API path ending in an image extension is excluded by the matcher although `middleware` would rate-limit it |
| Middleware.BuildHeaders | middleware.ts:134-146 | the imperative header building gives the specified header map |
| Middleware.SkipExamples | middleware.ts:109-115 | static assets and `/_next` are skipped; an API path with a dot and dashboard pages are not |
| InputValidation.StripAngles | lib/security/input-validation.ts:29 | the result holds exactly the characters of the input other than `<` and `>` |
| InputValidation.RemoveEventHandlers | lib/security/input-validation.ts:31 | removing `on\w+=` never lengthens the text nor adds a character |
| InputValidation.SanitizeText | lib/security/input-validation.ts:27-33 | the result has no angle brackets, no surrounding white space, and only characters of the input |
| InputValidation.SanitizeTextKeepsPlainText | lib/security/input-validation.ts:27-33 | trimmed text with nothing to strip comes back unchanged |
| InputValidation.NestedProtocolSurvives | lib/security/input-validation.ts:30 | the single pass of `/javascript:/gi` lets `javajavascript:script:` through as `javascript:` |
| InputValidation.EscapeHtml | lib/security/input-validation.ts:106-116 | the result holds no `<`, `>`, `"` or `'`, and text without special characters is unchanged |
| InputValidation.EscapeHtmlRoundTrip | lib/security/input-validation.ts:106-116 | decoding the five entities gives back the original text |
| InputValidation.EscapeSqlIdentifier | lib/security/input-validation.ts:101-103 | the result holds only `[a-zA-Z0-9_]`, each with its count in the input |
| InputValidation.EscapeSqlIdentifierIsSubsequence | lib/security/input-validation.ts:101-103 | the kept characters stay in their order |
| InputValidation.EscapeSqlIdentifierIdempotent | lib/security/input-validation.ts:101-103 | escaping twice is escaping once |
| InputValidation.CleanIdentifierUnchanged | lib/security/input-validation.ts:101-103 | an identifier already clean comes back unchanged |
| InputValidation.OwnEntries | lib/security/input-validation.ts:61-73 | an assignment creates an own property exactly when its key is not `__proto__`; without such a key every assignment does |
| InputValidation.SanitizeEntries | lib/security/input-validation.ts:60-76 | the result's own entries are exactly the sanitised entries of the input whose key is not `__proto__`; without that key, they are all of them in the same order |
| InputValidation.SanitizedIsClean | lib/security/input-validation.ts:60-76 | no string the sanitiser reaches keeps an angle bracket: values, string items of arrays, nested objects' values |
| InputValidation.ObjectInsideArrayIsKept | lib/security/input-validation.ts:66-67 | an object inside an array is kept as is, angle brackets included |
| InputValidation.ProtoKeyBecomesPrototype | lib/security/input-validation.ts:61-69 | a `__proto__` key leaves no own property, and the sanitised object under it becomes the result's prototype |
| InputValidation.SanitizeObject | lib/security/input-validation.ts:60-76 | the loop builds the specified own entries and sets the prototype to the last object, array or null assigned to `__proto__` |
| InputValidation.SanitizeField | lib/security/input-validation.ts:64-72 | the value stored under one key is the sanitised value: strings and string items cleaned, objects recursed into, everything else kept |
| InputValidation.Preprocess | lib/security/input-validation.ts:43-48 | without sanitising the input passes as is; strings are sanitised; an object becomes its sanitised own entries; an array becomes an object keyed by index, each item sanitised |
| InputValidation.PreprocessedIsClean | lib/security/input-validation.ts:43-48 | for every input, no string the sanitising step reaches keeps an angle bracket |
| InputValidation.RateLimiter.CheckLimit | lib/security/input-validation.ts:82-97 | the closure's verdict and new map are the same fixed-window step as the middleware's |
| Performance.Push | lib/monitoring/performance.ts:38-50 | a sample is appended, and the oldest is dropped once there are more than 100 |
| Performance.RecordAllKeepsLatest | lib/monitoring/performance.ts:44-49 | after any number of samples the series holds exactly the latest 100 |
| Performance.PerformanceMonitor.RecordMetric | lib/monitoring/performance.ts:38-50 | only the named series changes, by one push |
| Performance.PerformanceMonitor.Measure | lib/monitoring/performance.ts:18-25 | the callback's result is returned and its duration recorded |
| Performance.Sort | lib/monitoring/performance.ts:57 | the sorted copy is ascending and a permutation of the samples |
| Performance.StatsOf | lib/monitoring/performance.ts:53-69 | there are no statistics exactly when there are no samples; the count is the number of samples |
| Performance.StatsOrdered | lib/monitoring/performance.ts:57-68 | min, p50, p95, p99 and max are samples in that order, every sample lies between min and max, and so does the mean |
| Performance.PerformanceMonitor.GetMetricStats | lib/monitoring/performance.ts:53-69 | null exactly for an unknown or empty series |
| Blog.ReadingTime | lib/mdx/blog.tsx:26-30 | at least one minute, and the ceiling of words/200 |
| Blog.WordCountOfJoin | lib/mdx/blog.tsx:28 | two texts joined by white space count the sum of their words |
| Blog.SingleWordCount | lib/mdx/blog.tsx:28 | text without white space (even empty) counts as one word |
| Blog.WithDefaults | lib/mdx/blog.tsx:50-58 | title, author and category are never empty, given values are kept, and a post is published unless marked false |
| Blog.EmptyFrontMatterDefaults | lib/mdx/blog.tsx:50-58 | a post without front matter gets every default |
| Blog.ReadPost | lib/mdx/blog.tsx:38-63 | an unpublished post is dropped exactly in production; the slug is the file name without `.mdx` |
| Blog.ValidPosts | lib/mdx/blog.tsx:36-66 | the posts are exactly those read from `.mdx` files and not dropped |
| Blog.ListBlogPosts | lib/mdx/blog.tsx:32-72 | the listing is newest first and a permutation of the valid posts |
| Blog.ListingContents | lib/mdx/blog.tsx:36-66 | every `.mdx` post not dropped is listed, and in production only published posts are |
| Blog.GetPostBySlug | lib/mdx/blog.tsx:74-103 | a missing file gives null; a found post carries the asked slug and is read like a listed post |
| Blog.SlugLookupMatchesListing | lib/mdx/blog.tsx:74-103 | looking up a listed post by its slug gives back that post |
| Blog.SharedTagCount | lib/mdx/blog.tsx:119-122 | no more than the given tags, and zero exactly when no tag is shared |
| Blog.Score | lib/mdx/blog.tsx:110-125 | the score is odd exactly when the non-empty category matches (it adds 3, each shared tag 2), and at most 3 plus 2 per given tag |
| Blog.ScoreMonotoneInTags | lib/mdx/blog.tsx:115-122 | of two posts in the same category standing, the one sharing every tag the other shares scores at least as high |
| Blog.OtherPosts | lib/mdx/blog.tsx:107 | every post except the current slug |
| Blog.GetRelatedPosts | lib/mdx/blog.tsx:105-132 | at most 3 posts of the listing, never the current one, by descending score |
| Blog.RelatedPostsAreTopScored | lib/mdx/blog.tsx:105-132 | a post left out means 3 posts scoring at least as high were kept |
| Blog.GetBlogCategories | lib/mdx/blog.tsx:134-138 | the non-empty categories of the posts, each once, in ascending order |
| Blog.GetBlogTags | lib/mdx/blog.tsx:140-147 | every tag of some post, each once, in ascending order |
| BlogSearch.FilterPosts | app/blog/search/page.tsx:16-25 | exactly the posts matching the query, in listing order |
| BlogSearch.SearchResults | app/blog/search/page.tsx:13-25 | no query gives no results; otherwise exactly the matching posts, in order |
| ReviewAnalytics.Fetched | app/api/reviews/analytics/route.ts:13-28 | exactly the reviews from the last `days` days, of the given therapist if any |
| ReviewAnalytics.MeanRatingBounds | app/api/reviews/analytics/route.ts:38-40 | the average rating is 0 with no reviews, else between 1 and 5 |
| ReviewAnalytics.Percentage | app/api/reviews/analytics/route.ts:43-50 | the rounded share is within 0..100 and within half a point of the exact share |
| ReviewAnalytics.RatingDistribution | app/api/reviews/analytics/route.ts:43-50 | five buckets, for ratings 1..5, each with its count |
| ReviewAnalytics.DistributionCountsEveryReview | app/api/reviews/analytics/route.ts:43-50 | the five counts add up to the number of reviews |
| ReviewAnalytics.OnDay | app/api/reviews/analytics/route.ts:57 | exactly the reviews of that day |
| ReviewAnalytics.ReviewsOverTime | app/api/reviews/analytics/route.ts:53-67 | one entry per day, oldest first, ending today, each for its own day |
| ReviewAnalytics.GroupedStats | app/api/reviews/analytics/route.ts:74-88 | each therapist's group holds the sum and count of exactly their reviews |
| ReviewAnalytics.GroupedCountsSum | app/api/reviews/analytics/route.ts:74-88 | the group counts add up to the number of reviews |
| ReviewAnalytics.TherapistStats | app/api/reviews/analytics/route.ts:74-88 | the loop builds the specified grouping |
| ReviewAnalytics.TopTherapists | app/api/reviews/analytics/route.ts:70-98 | empty under a therapist filter; else at most 10 groups by descending average |
| ReviewAnalytics.TopTherapistsAreTopRated | app/api/reviews/analytics/route.ts:90-98 | without a filter, a therapist is left out only when 10 therapists with an average at least as high were kept |
| ReviewAnalytics.SentimentOf | app/api/reviews/analytics/route.ts:107 | positive for 4 and 5, neutral for 3, negative below |
| ReviewAnalytics.NewestReviews | app/api/reviews/analytics/route.ts:101-104 | at most 10 of the fetched reviews, newest first |
| ReviewAnalytics.NewestReviewsAreNewest | app/api/reviews/analytics/route.ts:101-104 | a review left out means 10 reviews at least as new were kept |
| ReviewAnalytics.RecentReviews | app/api/reviews/analytics/route.ts:101-109 | the newest reviews, each annotated with sentiment and word count |
| ReviewAnalytics.CalculateTrend | app/api/reviews/analytics/route.ts:132-146 | a constant series is stable, a zero one included (its change is NaN) |
| ReviewAnalytics.TrendThresholds | app/api/reviews/analytics/route.ts:132-146 | the trend is up exactly above +5% of the first half's mean, down exactly below -5% |
| ReviewAnalytics.ShortSeriesIsStable | app/api/reviews/analytics/route.ts:133 | fewer than two values are stable |
| ReviewAnalytics.GetAnalytics | app/api/reviews/analytics/route.ts:4-129 | a `days` that is not a number is a 500 from the `catch`; a missing one means 30; a failed query is a 500; otherwise every field, the two trends included, is computed from exactly the fetched reviews |
| ReviewAnalytics.Analyze | app/api/reviews/analytics/route.ts:37-125 | every field of the answer, the two trends included, is computed from exactly the fetched reviews |
| AbTrack.PostStatus | app/api/ab-testing/track/route.ts:4-36 | 400 exactly for a missing field, 200 exactly for a complete body whose insert succeeds |
| AbTrack.EventRow | app/api/ab-testing/track/route.ts:15-24 | the stored row carries the body's fields; a missing or falsy `properties` is stored as `{}`, and the timestamp defaults to now |
| AbTrack.EventStore.Post | app/api/ab-testing/track/route.ts:4-36 | the table gains exactly the event row on a 200 and nothing otherwise |
| AbTrack.EventStore.EventsOf | app/api/ab-testing/track/route.ts:50-54 | exactly the stored events of the test |
| AbTrack.AccumulateCounts | app/api/ab-testing/track/route.ts:78-103 | each variant seen gets the counts of its impressions, conversions and clicks and the set of its users; unseen variants get no entry |
| AbTrack.Accumulate | app/api/ab-testing/track/route.ts:78-103 | the `variants` record has one entry per variant |
| AbTrack.ObjectValues | app/api/ab-testing/track/route.ts:106 | `Object.values` lists every entry once, those named by array indices first and by increasing index |
| AbTrack.ReportedCounts | app/api/ab-testing/track/route.ts:78-114 | exactly the variants some event names are reported, each with the counts and users of its own events |
| AbTrack.Rate | app/api/ab-testing/track/route.ts:106-114 | 0 without impressions, else the count per impression in percent |
| AbTrack.CalculateAnalytics | app/api/ab-testing/track/route.ts:75-117 | throws exactly when some event's variant is named like an inherited property (`constructor`, `__proto__`, ...); otherwise one report per entry of `Object.values(variants)`, in that order |
| AbTrack.TallyEvents | app/api/ab-testing/track/route.ts:78-103 | the `forEach` throws exactly when some event's variant is an inherited name, and otherwise leaves the per-variant counts |
| AbTrack.ReportAll | app/api/ab-testing/track/route.ts:106-114 | one report per entry, in the entries' order |
| AbTrack.EventStore.Get | app/api/ab-testing/track/route.ts:38-73 | 400 without a test id, 500 on a failed query, 500 from the `catch` exactly when one of the test's events has an inherited-property variant name, else the reports of the test's events counted newest first |
| AbProvider.Weights | lib/ab-testing/ab-test-provider.tsx:58-60 | the given weights, or weight 1 for each variant |
| AbProvider.FirstReaching | lib/ab-testing/ab-test-provider.tsx:62-71 | the first variant whose cumulative weight reaches the draw, if any |
| AbProvider.Chosen | lib/ab-testing/ab-test-provider.tsx:58-71 | the chosen variant is one of the test's variants |
| AbProvider.SelectVariant | lib/ab-testing/ab-test-provider.tsx:58-71 | the loop picks the first variant reaching the scaled draw, falling back to the first; nothing without variants |
| AbProvider.UniformWeightsPickByInterval | lib/ab-testing/ab-test-provider.tsx:58-71 | without weights, variant i is picked exactly for draws in its 1/n interval |
| AbProvider.AssignOne | lib/ab-testing/ab-test-provider.tsx:53-75 | a stored variant sticks; otherwise a weighted pick; a test without variants throws |
| AbProvider.AssignTests | lib/ab-testing/ab-test-provider.tsx:53-75 | the loop computes the specified assignment; it fails exactly when some test throws |
| AbProvider.AssignedFailsIffThrows | lib/ab-testing/ab-test-provider.tsx:53-75 | the assignment fails exactly when a new test without variants is met |
| AbProvider.AssignedKeys | lib/ab-testing/ab-test-provider.tsx:53-79 | the assignment covers exactly the tests' ids |
| AbProvider.AssignedValues | lib/ab-testing/ab-test-provider.tsx:53-79 | each stored value is kept, each new one is a variant of its test |
| AbProvider.ABTestProvider.LoadAssignments | lib/ab-testing/ab-test-provider.tsx:39-87 | on success the assignments and storage become the computed assignment, loading ends, and impressions go out as the old render sees them; a throw changes nothing |
| AbProvider.ABTestProvider.GetVariant | lib/ab-testing/ab-test-provider.tsx:92-94 | the assigned variant, or null |
| AbProvider.TrackEvent | lib/ab-testing/ab-test-provider.tsx:96-123 | nothing is sent without a variant; the user id falls back to `anonymous-<session>` |
| AbProvider.FirstLoadPostsNoImpression | lib/ab-testing/ab-test-provider.tsx:81-86 | on first load no impression is posted, because the handler sees the empty assignments |
| AbProvider.UseABTest | lib/ab-testing/ab-test-provider.tsx:134-140 | outside a provider the hook fails with its message |
| WebVitals.ThresholdOf | lib/performance/web-vitals.ts:84-93 | the five metrics have good < poor thresholds; inherited object names are found too; any other name is missing |
| WebVitals.GetRating | lib/performance/web-vitals.ts:83-98 | good up to the good threshold, needs-improvement up to the poor one, poor above; names with no entry are good; inherited names such as `constructor` are poor |
| WebVitals.RatingMonotone | lib/performance/web-vitals.ts:95-97 | a larger value never gets a better rating |
| WebVitals.LatestPerName | lib/performance/web-vitals.ts:44-47 | after a sequence of metrics each name holds its latest metric; other names keep theirs |
| WebVitals.WebVitalsMonitor.HandleMetric | lib/performance/web-vitals.ts:44-69 | the metric replaces its name's entry and is queued for sending |
| WebVitals.GetDeviceType | lib/performance/web-vitals.ts:71-77 | tablet first, then mobile, else desktop |
| ReviewModeration.Moderate | components/admin/review-moderation.tsx:99-105 | same length and order; only reviews with the id change, and get the new status, time and notes |
| ReviewModeration.UnknownIdUnchanged | components/admin/review-moderation.tsx:99-105 | an unknown id leaves the list unchanged |
| ReviewModeration.ModerateIdempotent | components/admin/review-moderation.tsx:99-105 | the same decision twice is the decision once |
| ReviewModeration.HandleApprove | components/admin/review-moderation.tsx:98-114 | the review is approved with the typed notes, and the dialog is cleared |
| ReviewModeration.HandleReject | components/admin/review-moderation.tsx:116-132 | the review is rejected with the typed notes, and the dialog is cleared |
| ReviewModeration.HandleFlag | components/admin/review-moderation.tsx:134-150 | the review is flagged with the reason and the notes, and the dialog is cleared |
| ReviewModeration.FilteredReviews | components/admin/review-moderation.tsx:96 | everything under "all", else exactly the reviews of that status, in order |
| ReviewModeration.StatusCountsSum | components/admin/review-moderation.tsx:174-182 | the four status counts add up to the total |
| ReviewModeration.FilterMatchesCount | components/admin/review-moderation.tsx:174-182 | the count of a status is the length of its filtered list |
| SessionRecording.ClockOf | components/video/session-recording.tsx:279-288 | hours, minutes below 60 and seconds below 60 make up the whole seconds |
| SessionRecording.FormatTime | components/video/session-recording.tsx:279-288 | the text reads back, as hours, two-digit minutes and two-digit seconds, to exactly the whole seconds given |
| SessionRecording.MinutesTextReadsBack | components/video/session-recording.tsx:287 | `M:SS` with seconds below 60 reads back as M minutes and SS seconds |
| SessionRecording.HoursTextReadsBack | components/video/session-recording.tsx:284-286 | `H:MM:SS` with minutes and seconds below 60 reads back as H hours, MM minutes and SS seconds |
| SessionRecording.FormatTimeDependsOnFloor | components/video/session-recording.tsx:279-288 | readings within the same whole second print the same |
| SessionRecording.FormatTimeShape | components/video/session-recording.tsx:279-288 | `M:SS` under an hour, `H:MM:SS` from an hour on |
| SessionRecording.Tick | components/video/session-recording.tsx:103-119 | the timer counts only while recording |
| SessionRecording.StartRecording | components/video/session-recording.tsx:121-184 | without capture permission nothing changes |
| SessionRecording.StopRecording | components/video/session-recording.tsx:186-194 | nothing happens unless a recorder is recording |
| SessionRecording.OnStop | components/video/session-recording.tsx:143-166 | the new recording goes first, the earlier ones follow, and the timer resets |
| SessionRecording.SavedDurationIsStartTime | components/video/session-recording.tsx:152 | a recording started at 0 is saved with duration 0 however long it ran |
| Roles.GetUserRole | lib/auth/roles.ts:6-10 | null exactly on an error, a missing row or an empty role; else the stored role |
| Roles.RedirectPath | lib/auth/roles.ts:12-18 | each role gets its dashboard, anything else the default |
| Roles.GetPostLoginRedirectPath | lib/auth/roles.ts:12-18 | every path is under `/dashboard`, and an error gives the default |
| Roles.RolePathsDistinct | lib/auth/roles.ts:12-18 | the three roles land on three distinct non-default dashboards |
| Roles.UnknownRoleGetsDefault | lib/auth/roles.ts:12-18 | an unexpected role lands on the default dashboard |
| Sidebar.VisibleItems | components/app-sidebar.tsx:59 | exactly the items listing the role, in order |
| Sidebar.NoRoleNoItems | components/app-sidebar.tsx:59 | without a role the sidebar is empty |
| Sidebar.CommonItemsForEveryRole | components/app-sidebar.tsx:22-32 | Overview, Bookings, Payments and Video are shown to every role |
| Sidebar.AdminItems | components/app-sidebar.tsx:22-32 | an administrator sees Admin and none of the patient or therapist items |
| Sidebar.OverviewActiveOnEveryDashboardPage | components/app-sidebar.tsx:71 | Overview is active whenever any item is |
| Newsletter.EmailRegexIffRules | app/api/newsletter/subscribe/route.ts:13-16 | the pattern accepts exactly addresses with one `@`, no white space, text before it, and a dot inside the domain |
| Newsletter.NewsletterStore.Subscribe | app/api/newsletter/subscribe/route.ts:5-72 | 500 for a body that is not JSON; 400 for a missing or malformed address; "already subscribed" exactly when the lookup answers and the lower-case address is stored exactly once (`maybeSingle`); otherwise it is appended in lower case unless the insert fails; all stored addresses stay lower case, and none is stored twice while the lookup answers |
| Newsletter.FailedLookupStoresTwice | app/api/newsletter/subscribe/route.ts:21-32 | when the lookup fails and the insert goes through, an address already stored is stored a second time, and the lookup then no longer finds it |
| Newsletter.DuplicateIsInsertedAgain | app/api/newsletter/subscribe/route.ts:21-32 | an address stored twice is never found by `maybeSingle`, so each later subscription with it adds one more row |
| Newsletter.DistinctOccursOnce | app/api/newsletter/subscribe/route.ts:21-28 | in a table without duplicates a stored address is found |
| Text.Trim | lib/mdx/blog.tsx:28 | the result is a piece of the input with no white space at either end |
| Text.SortedDistinct | app/api/bookings/slots/route.ts:88 | `Array.from(new Set(xs)).sort()` is strictly ascending and holds exactly the members of `xs` |
| Text.HHmmOrder | app/api/bookings/slots/route.ts:78-88 | `HH:mm` labels sort as strings exactly as their minutes do |
| Text.HHmmInjective | app/api/bookings/slots/route.ts:78-88 | distinct minutes of a day get distinct labels |
| Sequences.SortByKeyDesc | lib/mdx/blog.tsx:128-131 | the sort by descending key is ordered and a permutation |
| Sequences.SortByKeyDescIsStable | lib/mdx/blog.tsx:128-131 | the sort is stable: elements with equal keys come out in their input order |
| Sequences.TopOfSorted | lib/mdx/blog.tsx:128-131 | an element left out of the first n means n elements at least as good were kept |

## Left out

- Database access (Supabase), cookies and authentication calls: queries are
  parameters or stored sequences. A failed query is a flag.
- Dates are day numbers and a booking `time` is a minute of the day, so a
  malformed `date` or a `time` that is not `HH:mm` cannot be expressed. In
  the source a malformed `date` gives a NaN weekday (lib/time.ts:28-33), the
  availability query then finds nothing, and the slots route answers an
  empty list while the create route answers 400.
- Time zones are fixed offsets in minutes. Daylight saving and the IANA zone
  database are not modelled. The server clock is taken to be UTC.
- Emails sent through Resend are out of scope. So is `console` logging,
  including the middleware's suspicious-pattern logging
  (middleware.ts:148-161), which only logs.
- File reading and front-matter parsing (fs, gray-matter) are out of scope:
  files are given as parsed records. `NODE_ENV` is the `production` flag.
- JavaScript numbers are exact integers or reals. Floating-point rounding is
  not modelled.
- Strings compare by character code, and lower-casing covers ASCII only.
  UTF-16 surrogate pairs and locale rules are not modelled.
- zod schema validation in `validateAndSanitizeInput` is not modelled; only
  the sanitising step is. `sanitizeHtml` (DOMPurify) is out of scope too.
- `JSON.parse` failure of stored A/B assignments: stored assignments are a map.
- Performance.PerformanceMonitor.Measure: the callback cannot throw in the
  model. In the source a throwing `fn` (lib/monitoring/performance.ts:20)
  records nothing and the exception propagates to the caller.
- Time.MinuteOfDay: a minute of the day is below 1440, so an availability
  `end_time` of `24:00:00`, which a SQL `time` column accepts, cannot be
  expressed: a window ending at midnight is not modelled.
- The `PerformanceMonitor.getInstance` singleton is out of scope.
  `measureAsync`, `sendMetrics` and `monitorWebVitals` are asynchronous or
  browser wrappers around the modelled operations.
- `sendMetric`'s `fetch` is modelled as a queue of sent metrics.
- Rendering, icons, playback controls, `formatFileSize`,
  `ABTestComponent` and `useABTestVariant` are presentation only.
- BlogSearch.Header: the search page's result line is modelled as its
  wording only; it has no property beyond that wording and no row above.
- The session id of the A/B provider comes from `Math.random`; it is a
  parameter.
- Concurrency: the create route reads conflicts and then inserts. Two
  concurrent requests can both pass; the model runs requests one at a time.
- Slots.GetSlots: requires that the route returns. With `slotMinutes` of 0
  or below, the loop at app/api/bookings/slots/route.ts:57-61 never ends once
  a window of the weekday holds a session.
- Slots.SlotQuery: `slotMinutes` and `durationMinutes` are integers. A
  non-numeric value (`Number(...)` gives NaN) or a fractional one is not
  modelled.
- CreateBooking.Decide: `durationMinutes` is an integer. A non-numeric
  value gives NaN at lib/time.ts:23; `toISOString` then throws, and once
  availability exists the route's `catch` answers 500
  (app/api/bookings/create/route.ts:162-164). A fractional duration, and
  one so large that the end leaves JavaScript's date range (also a 500),
  are not modelled either.
- CreateBooking.BookingStore.Create: the welcome emails after the insert can
  still turn a stored booking into a 500 response; this is not modelled.
  The time zone is either given or missing (then UTC). An empty or unknown
  zone name is not modelled.
- InputValidation.Preprocess: the result is the sanitised object's own
  entries. A prototype set through a `__proto__` key is not part of the
  returned value, and what the schema then reads through it is not modelled.
- ReviewAnalytics.GetAnalytics: averages are exact, not rounded by
  `toFixed(1)`. Of the `catch`'s 500 answers, only the one for a `days` that
  is not a number is modelled; a `days` so large that the date leaves
  JavaScript's range also throws, and is not modelled.
- AbTrack.Rate: the rate is exact, not rounded by `toFixed(2)`.
- AbTrack.EventStore.Post: a body that is not JSON gets the `catch`'s 500;
  the model receives bodies already parsed. The same holds for the create
  route's `BookingStore.Create`.
- AbProvider: the stored assignments and the `assignments` state are looked
  up by test id in plain objects. A test id named like an inherited property
  (`constructor`, `toString`, ...) would find a function there. Test ids
  come from the `tests` the page passes in, which developers choose; this
  case is not modelled.
- SessionRecording.FormatTime: stated for non-negative seconds only, which
  is all the timer produces.

Behaviour the model keeps as the code has it (each is proved above):

- The slots route's locale-string conversion adds the offset, while the
  create route subtracts it. They agree only in UTC.
- The create route's `endLocal` wraps at midnight.
- The create route answers 400 when the insert fails (CreateBooking.InsertErrorIsBadRequest).
- Zones east of +12h shift the weekday.
- A 429 always reports the limit "100".
- The `javascript:` filter makes a single pass.
- Objects inside arrays are not sanitised.
- Object prototype names such as `constructor` are rated Poor.
- The Overview item is active on every dashboard page.
- The `onstop` handler sees a stale recording time.
- The first A/B load posts no impressions.
