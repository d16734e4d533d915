/** middleware.ts: the edge middleware run before every matched request. It
    skips static and internal paths, rate-limits API calls per client and path
    with the rules of `RATE_LIMITS`, and sets the security headers and the
    content security policy on every other response. */
module Middleware {
  import opened Wrappers
  import opened Text
  import opened RateLimit

  /** One entry of `RATE_LIMITS`: requests under `prefix` get `limit`. */
  datatype RateRule = RateRule(prefix: string, limit: Limit)

  /** The entries of `RATE_LIMITS` other than `default`, in declaration order. */
  const RateRules: seq<RateRule> := [
    RateRule("/api/auth", Limit(5, 60000)),
    RateRule("/api/payments", Limit(10, 60000)),
    RateRule("/api/bookings", Limit(20, 60000)),
    RateRule("/api/newsletter", Limit(3, 300000))
  ]

  /** `RATE_LIMITS.default`: 100 requests per minute. */
  const DefaultLimit: Limit := Limit(100, 60000)

  /** No rule before position `i` matches `pathname`. */
  predicate NoMatchBefore(rules: seq<RateRule>, pathname: string, i: nat)
    requires i <= |rules|
  {
    forall j :: 0 <= j < i ==> !StartsWith(pathname, rules[j].prefix)
  }

  /** The rule at `i` is the first that matches. */
  predicate FirstMatch(rules: seq<RateRule>, pathname: string, i: nat) {
    i < |rules| && StartsWith(pathname, rules[i].prefix) && NoMatchBefore(rules, pathname, i)
  }

  /** The limit of the first rule whose prefix starts `pathname`, else `default`. */
  function RuleFor(rules: seq<RateRule>, pathname: string): (r: Limit)
    ensures NoMatchBefore(rules, pathname, |rules|) ==> r == DefaultLimit
    ensures forall i: nat :: FirstMatch(rules, pathname, i) ==> r == rules[i].limit
  {
    if rules == [] then DefaultLimit
    else if StartsWith(pathname, rules[0].prefix) then
      assert forall i: nat :: FirstMatch(rules, pathname, i) ==> i == 0;
      rules[0].limit
    else
      NoMatchShift(rules, pathname);
      RuleFor(rules[1..], pathname)
  }

  /** Past a first rule that does not match, positions shift by one. */
  lemma NoMatchShift(rules: seq<RateRule>, pathname: string)
    requires rules != [] && !StartsWith(pathname, rules[0].prefix)
    ensures NoMatchBefore(rules, pathname, |rules|) <==> NoMatchBefore(rules[1..], pathname, |rules| - 1)
    ensures forall i: nat :: FirstMatch(rules, pathname, i) ==> i >= 1 && FirstMatch(rules[1..], pathname, i - 1)
  {
    forall i | 1 <= i <= |rules|
      ensures NoMatchBefore(rules, pathname, i) <==> NoMatchBefore(rules[1..], pathname, i - 1)
    {
      assert forall j :: 1 <= j < i ==> rules[1..][j - 1] == rules[j];
      if NoMatchBefore(rules[1..], pathname, i - 1) {
        forall j | 0 <= j < i ensures !StartsWith(pathname, rules[j].prefix) {
          if j > 0 {
            assert rules[1..][j - 1] == rules[j];
          }
        }
      }
    }
  }

  /** The rule-selection loop of `checkRateLimit`, with its `break`. */
  method SelectRule(pathname: string) returns (limit: Limit)
    ensures limit == RuleFor(RateRules, pathname)
  {
    limit := DefaultLimit;
    var i := 0;
    while i < |RateRules|
      invariant 0 <= i <= |RateRules|
      invariant NoMatchBefore(RateRules, pathname, i)
    {
      if StartsWith(pathname, RateRules[i].prefix) {
        assert FirstMatch(RateRules, pathname, i);
        limit := RateRules[i].limit;
        break;
      }
      i := i + 1;
    }
  }

  /** Which limit some paths get; a prefix match needs no `/` after the prefix. */
  lemma RuleExamples()
    ensures RuleFor(RateRules, "/api/authors") == Limit(5, 60000)
    ensures RuleFor(RateRules, "/api/bookings/create") == Limit(20, 60000)
    ensures RuleFor(RateRules, "/api/newsletter/subscribe") == Limit(3, 300000)
    ensures RuleFor(RateRules, "/api/reviews/analytics") == DefaultLimit
  {
    assert StartsWith("/api/authors", "/api/auth");
    NotStartsWithAt("/api/bookings/create", "/api/auth", 5);
    NotStartsWithAt("/api/bookings/create", "/api/payments", 5);
    assert StartsWith("/api/bookings/create", "/api/bookings");
    NotStartsWithAt("/api/newsletter/subscribe", "/api/auth", 5);
    NotStartsWithAt("/api/newsletter/subscribe", "/api/payments", 5);
    NotStartsWithAt("/api/newsletter/subscribe", "/api/bookings", 5);
    assert StartsWith("/api/newsletter/subscribe", "/api/newsletter");
    NotStartsWithAt("/api/reviews/analytics", "/api/auth", 5);
    NotStartsWithAt("/api/reviews/analytics", "/api/payments", 5);
    NotStartsWithAt("/api/reviews/analytics", "/api/bookings", 5);
    NotStartsWithAt("/api/reviews/analytics", "/api/newsletter", 5);
  }

  /** The parts of a `NextRequest` the middleware reads. A header or `req.ip`
      that is absent is `None`. */
  datatype Request = Request(pathname: string, forwardedFor: Option<string>, ip: Option<string>)

  /** `s.split(",")[0]`: everything before the first comma. */
  function FirstField(s: string): (r: string)
    ensures |r| <= |s| && r == s[..|r|]
    ensures ',' !in r
    ensures |r| < |s| ==> s[|r|] == ','
  {
    if s == [] || s[0] == ',' then [] else [s[0]] + FirstField(s[1..])
  }

  /** The client address: the first `x-forwarded-for` entry, else `req.ip`,
      else "unknown" (an empty header or address counts as absent). */
  function ClientIp(req: Request): string {
    if req.forwardedFor.Some? && req.forwardedFor.value != "" then FirstField(req.forwardedFor.value)
    else if req.ip.Some? && req.ip.value != "" then req.ip.value
    else "unknown"
  }

  /** `getRateLimitKey`: client address and exact pathname. */
  function RateLimitKey(req: Request): string {
    ClientIp(req) + ":" + req.pathname
  }

  /** One client gets a separate budget on every path. */
  lemma KeySeparatesPaths(r1: Request, r2: Request)
    requires ClientIp(r1) == ClientIp(r2) && r1.pathname != r2.pathname
    ensures RateLimitKey(r1) != RateLimitKey(r2)
  {
    var n := |ClientIp(r1)| + 1;
    assert RateLimitKey(r1)[n..] == r1.pathname;
    assert RateLimitKey(r2)[n..] == r2.pathname;
  }

  /** Two clients whose addresses hold no `:` (IPv4 addresses, "unknown") never
      share a budget. */
  lemma KeySeparatesClients(r1: Request, r2: Request)
    requires ':' !in ClientIp(r1) && ':' !in ClientIp(r2) && ClientIp(r1) != ClientIp(r2)
    ensures RateLimitKey(r1) != RateLimitKey(r2)
  {
    var a, b := ClientIp(r1), ClientIp(r2);
    var k1, k2 := RateLimitKey(r1), RateLimitKey(r2);
    if |a| < |b| {
      assert b[|a|] in b;
      assert k1[|a|] != k2[|a|];
    } else if |b| < |a| {
      assert a[|b|] in a;
      assert k1[|b|] != k2[|b|];
    } else {
      assert k1[..|a|] == a && k2[..|a|] == b;
    }
  }

  /** The first `x-forwarded-for` entry is taken verbatim, spaces included. */
  lemma {:induction false} FirstFieldOfList(first: string, rest: string)
    requires ',' !in first
    ensures FirstField(first + "," + rest) == first
  {
    if first != [] {
      assert (first + "," + rest)[1..] == first[1..] + "," + rest;
      FirstFieldOfList(first[1..], rest);
    }
  }

  /** The module-level `rateLimitStore`. */
  class RateLimitStore {
    var records: map<string, RateRecord>

    constructor ()
      ensures records == map[]
    {
      records := map[];
    }

    /** `checkRateLimit(req)` at time `now`. */
    method CheckRateLimit(req: Request, now: int) returns (allowed: bool)
      modifies this
      ensures var v := Step(old(records), RateLimitKey(req), now, RuleFor(RateRules, req.pathname));
              allowed == v.allowed && records == v.store
    {
      var key := RateLimitKey(req);
      var limit := SelectRule(req.pathname);
      ghost var v := Step(records, key, now, limit);
      if key !in records || now > records[key].resetTime {
        records := records[key := RateRecord(1, now + limit.window)];
        return true;
      }
      if records[key].count >= limit.requests {
        return false;
      }
      records := records[key := records[key].(count := records[key].count + 1)];
      return true;
    }
  }

  /** `securityHeaders`, in declaration order. */
  const SecurityHeaders: seq<(string, string)> := [
    ("X-DNS-Prefetch-Control", "on"),
    ("Strict-Transport-Security", "max-age=63072000; includeSubDomains; preload"),
    ("X-Frame-Options", "DENY"),
    ("X-Content-Type-Options", "nosniff"),
    ("Referrer-Policy", "strict-origin-when-cross-origin"),
    ("Permissions-Policy", "camera=(), microphone=(), geolocation=(), payment=()"),
    ("X-XSS-Protection", "1; mode=block")
  ]

  /** The directives of the policy, one per line of the template, each with its `;`,
      written source by source. */
  const DefaultSrc: string := "default-src " + "'self';"
  const ScriptSrc: string :=
    "script-src "
    + "'self' "
    + "'unsafe-inline' "
    + "'unsafe-eval' "
    + "https://checkout.razorpay.com "
    + "https://unpkg.com "
    + "https://cdn.jsdelivr.net;"
  const StyleSrc: string :=
    "style-src "
    + "'self' "
    + "'unsafe-inline' "
    + "https://fonts.googleapis.com;"
  const ImgSrc: string := "img-src " + "'self' " + "data: " + "https: " + "blob:;"
  const FontSrc: string := "font-src " + "'self' " + "data: " + "https://fonts.gstatic.com;"
  const ConnectSrc: string :=
    "connect-src "
    + "'self' "
    + "https://*.supabase.co "
    + "https://api.daily.co "
    + "https://api.resend.com "
    + "https://api.twilio.com "
    + "https://checkout.razorpay.com "
    + "https://api.razorpay.com "
    + "wss://*.daily.co;"
  const FrameSrc: string := "frame-src " + "https://checkout.razorpay.com " + "https://*.daily.co;"
  const MediaSrc: string := "media-src " + "'self' " + "https://*.daily.co " + "blob:;"
  const WorkerSrc: string := "worker-src " + "'self' " + "blob:;"
  const BaseUri: string := "base-uri " + "'self';"
  const FormAction: string := "form-action " + "'self';"
  const FrameAncestors: string := "frame-ancestors " + "'none';"
  const UpgradeInsecureRequests: string := "upgrade-insecure-requests;"

  /** The policy after its line breaks and white-space runs are collapsed and
      trimmed: the directives joined by single spaces. */
  const Csp: string :=
    DefaultSrc + " " + ScriptSrc + " " + StyleSrc + " " + ImgSrc + " " + FontSrc + " "
    + ConnectSrc + " " + FrameSrc + " " + MediaSrc + " " + WorkerSrc + " "
    + BaseUri + " " + FormAction + " " + FrameAncestors + " " + UpgradeInsecureRequests

  const NoStore: string := "no-store, no-cache, must-revalidate, proxy-revalidate"

  /** The first `n` headers of `hs` as a map, later entries winning. */
  function HeaderPrefix(hs: seq<(string, string)>, n: nat): (m: map<string, string>)
    requires n <= |hs|
    ensures forall k :: k in m <==> exists i :: 0 <= i < n && hs[i].0 == k
  {
    if n == 0 then map[] else HeaderPrefix(hs, n - 1)[hs[n - 1].0 := hs[n - 1].1]
  }

  /** With distinct names, every header of `hs` is set to its own value. */
  lemma {:induction false} HeaderPrefixValues(hs: seq<(string, string)>, n: nat)
    requires n <= |hs|
    requires forall i, j :: 0 <= i < j < |hs| ==> hs[i].0 != hs[j].0
    ensures forall i :: 0 <= i < n ==> HeaderPrefix(hs, n)[hs[i].0] == hs[i].1
  {
    if n > 0 {
      HeaderPrefixValues(hs, n - 1);
      var prev, m := HeaderPrefix(hs, n - 1), HeaderPrefix(hs, n);
      forall i | 0 <= i < n ensures m[hs[i].0] == hs[i].1 {
        if i < n - 1 {
          assert hs[i].0 != hs[n - 1].0;
          assert m[hs[i].0] == prev[hs[i].0];
        }
      }
    }
  }

  /** `Object.entries(headers).forEach(([k, v]) => res.headers.set(k, v))`. */
  method SetHeaders(h0: map<string, string>, hs: seq<(string, string)>) returns (h: map<string, string>)
    ensures h == h0 + HeaderPrefix(hs, |hs|)
  {
    h := h0;
    for i := 0 to |hs|
      invariant h == h0 + HeaderPrefix(hs, i)
    {
      UnionUpdate(h0, HeaderPrefix(hs, i), hs[i].0, hs[i].1);
      h := h[hs[i].0 := hs[i].1];
    }
  }

  lemma UnionUpdate(a: map<string, string>, b: map<string, string>, k: string, v: string)
    ensures a + b[k := v] == (a + b)[k := v]
  {
  }

  /** Headers set after the security headers do not overwrite any of them. */
  predicate LaterHeader(k: string) {
    k == "Content-Security-Policy" || k == "Cache-Control" || k == "Pragma" || k == "Expires"
  }

  lemma SecurityHeadersWellFormed()
    ensures forall i, j :: 0 <= i < j < |SecurityHeaders| ==> SecurityHeaders[i].0 != SecurityHeaders[j].0
    ensures forall i :: 0 <= i < |SecurityHeaders| ==> !LaterHeader(SecurityHeaders[i].0)
  {
  }

  /** The security headers as one map. */
  function SecurityHeaderMap(): (m: map<string, string>)
    ensures forall i :: 0 <= i < |SecurityHeaders| ==> SecurityHeaders[i].0 in m && m[SecurityHeaders[i].0] == SecurityHeaders[i].1
    ensures forall k :: k in m ==> !LaterHeader(k)
  {
    SecurityHeadersWellFormed();
    HeaderPrefixValues(SecurityHeaders, |SecurityHeaders|);
    HeaderPrefix(SecurityHeaders, |SecurityHeaders|)
  }

  predicate IsApi(pathname: string) {
    StartsWith(pathname, "/api/")
  }

  /** Static files and internal routes pass through untouched. */
  predicate Skipped(pathname: string) {
    || StartsWith(pathname, "/_next/")
    || StartsWith(pathname, "/api/_")
    || (Contains(pathname, ".") && !IsApi(pathname))
  }

  /** The image extensions `config.matcher` keeps away from the middleware. */
  const ImageExtensions: seq<string> := ["svg", "png", "jpg", "jpeg", "gif", "webp"]

  /** Paths the negative lookahead of `config.matcher` rejects: the
      middleware does not run for them at all. */
  predicate MatcherExcludes(pathname: string) {
    || StartsWith(pathname, "/_next/static")
    || StartsWith(pathname, "/_next/image")
    || StartsWith(pathname, "/favicon.ico")
    || exists i :: 0 <= i < |ImageExtensions| && EndsWith(pathname, "." + ImageExtensions[i])
  }

  predicate NoCache(pathname: string) {
    StartsWith(pathname, "/dashboard") || IsApi(pathname)
  }

  /** The security headers followed by the policy `policy`. */
  function BaseHeaders(policy: string): map<string, string> {
    SecurityHeaderMap()["Content-Security-Policy" := policy]
  }

  /** The three headers that forbid caching, set after the others. */
  function WithNoStore(h0: map<string, string>): (h: map<string, string>)
    ensures "Cache-Control" in h && h["Cache-Control"] == NoStore
    ensures forall k :: k in h0 && !(k in {"Cache-Control", "Pragma", "Expires"}) ==> k in h && h[k] == h0[k]
  {
    h0["Cache-Control" := NoStore]["Pragma" := "no-cache"]["Expires" := "0"]
  }

  /** The headers of a response that was neither skipped nor limited, with
      the policy `policy` (the middleware passes `Csp`). */
  function ResponseHeaders(policy: string, pathname: string): map<string, string> {
    if NoCache(pathname) then WithNoStore(BaseHeaders(policy)) else BaseHeaders(policy)
  }

  /** Every security header is set to its value; the later headers do not
      overwrite any of them. */
  lemma ResponseHeadersKeepSecurity(policy: string, pathname: string)
    ensures var h := ResponseHeaders(policy, pathname);
      forall i :: 0 <= i < |SecurityHeaders| ==>
        SecurityHeaders[i].0 in h && h[SecurityHeaders[i].0] == SecurityHeaders[i].1
  {
    SecurityHeadersWellFormed();
    var base := BaseHeaders(policy);
    assert forall i :: 0 <= i < |SecurityHeaders| ==>
      SecurityHeaders[i].0 in base && base[SecurityHeaders[i].0] == SecurityHeaders[i].1;
  }

  /** The policy header carries the whole policy. */
  lemma ResponseHeadersSetPolicy(policy: string, pathname: string)
    ensures var h := ResponseHeaders(policy, pathname);
      "Content-Security-Policy" in h && h["Content-Security-Policy"] == policy
  {
    var base := BaseHeaders(policy);
    assert "Content-Security-Policy" in base && base["Content-Security-Policy"] == policy;
  }

  /** `Cache-Control` is set exactly on dashboard and API paths, to `no-store`. */
  lemma ResponseHeadersCaching(policy: string, pathname: string)
    ensures var h := ResponseHeaders(policy, pathname);
      && ("Cache-Control" in h <==> NoCache(pathname))
      && (NoCache(pathname) ==> h["Cache-Control"] == NoStore)
  {
    SecurityHeadersWellFormed();
    assert "Cache-Control" !in BaseHeaders(policy);
  }

  /** `Math.ceil(now / 1000)` for a non-negative millisecond clock. */
  function CeilSeconds(now: nat): nat {
    (now + 999) / 1000
  }

  /** The headers of the 429 answer. */
  function TooManyHeaders(now: nat): (h: map<string, string>)
    ensures "Retry-After" in h && h["Retry-After"] == "60"
    ensures "X-RateLimit-Remaining" in h && h["X-RateLimit-Remaining"] == "0"
    ensures "X-RateLimit-Limit" in h && h["X-RateLimit-Limit"] == "100"
  {
    map["Retry-After" := "60", "X-RateLimit-Limit" := "100", "X-RateLimit-Remaining" := "0",
        "X-RateLimit-Reset" := NatToString(CeilSeconds(now) + 60)]
  }

  datatype Response =
    | Next(headers: map<string, string>)
    | TooManyRequests(headers: map<string, string>)

  datatype Outcome = Outcome(response: Response, records: map<string, RateRecord>)

  /** What `middleware(req)` answers at time `now` and what it leaves in the store. */
  function Respond(records: map<string, RateRecord>, req: Request, now: nat): (r: Outcome)
    // skipped paths: no rate limit and no headers
    ensures Skipped(req.pathname) ==> r == Outcome(Next(map[]), records)
    // only API requests touch the store
    ensures !IsApi(req.pathname) ==> r.records == records
    // a 429 exactly for a non-skipped API request the limiter denies, and then
    // the store is unchanged
    ensures r.response.TooManyRequests? <==>
              IsApi(req.pathname) && !Skipped(req.pathname)
              && !Step(records, RateLimitKey(req), now, RuleFor(RateRules, req.pathname)).allowed
    ensures r.response.TooManyRequests? ==> r.records == records
    ensures r.response.TooManyRequests? ==>
              && "Retry-After" in r.response.headers && "X-RateLimit-Remaining" in r.response.headers
              && "X-RateLimit-Limit" in r.response.headers
              && r.response.headers["Retry-After"] == "60"
              && r.response.headers["X-RateLimit-Remaining"] == "0"
              && r.response.headers["X-RateLimit-Limit"] == "100"
    // every other response carries the headers of `ResponseHeaders`
    ensures r.response.Next? && !Skipped(req.pathname) ==> r.response.headers == ResponseHeaders(Csp, req.pathname)
  {
    var p := req.pathname;
    if Skipped(p) then Outcome(Next(map[]), records)
    else if IsApi(p) then
      var v := Step(records, RateLimitKey(req), now, RuleFor(RateRules, p));
      if !v.allowed then Outcome(TooManyRequests(TooManyHeaders(now)), records)
      else Outcome(Next(ResponseHeaders(Csp, p)), v.store)
    else Outcome(Next(ResponseHeaders(Csp, p)), records)
  }

  /** A request as the server sees it: `middleware(req)` with the module-level
      store on the paths `config.matcher` admits; on the others the request
      goes on with no headers added and the store untouched. */
  method Handle(store: RateLimitStore, req: Request, now: nat) returns (resp: Response)
    modifies store
    ensures MatcherExcludes(req.pathname) ==> resp == Next(map[]) && store.records == old(store.records)
    ensures !MatcherExcludes(req.pathname) ==> Outcome(resp, store.records) == Respond(old(store.records), req, now)
  {
    var p := req.pathname;
    if MatcherExcludes(p) || Skipped(p) {
      return Next(map[]);
    }
    if IsApi(p) {
      var allowed := store.CheckRateLimit(req, now);
      if !allowed {
        return TooManyRequests(TooManyHeaders(now));
      }
    }
    var h := BuildHeaders(Csp, p);
    return Next(h);
  }

  /** The header-setting part of `middleware` for a response that goes on. */
  method BuildHeaders(policy: string, p: string) returns (h: map<string, string>)
    ensures h == ResponseHeaders(policy, p)
  {
    h := SetHeaders(map[], SecurityHeaders);
    assert h == SecurityHeaderMap();
    h := h["Content-Security-Policy" := policy];
    if NoCache(p) {
      h := h["Cache-Control" := NoStore];
      h := h["Pragma" := "no-cache"];
      h := h["Expires" := "0"];
    }
  }

  /** An API path ending in an image extension: `middleware` itself would
      rate-limit it, but `config.matcher` keeps it away, so it is never
      limited and gets no headers. */
  lemma MatcherExcludesApiImages()
    ensures MatcherExcludes("/api/avatar.png")
    ensures !Skipped("/api/avatar.png") && IsApi("/api/avatar.png")
  {
    var p := "/api/avatar.png";
    assert ImageExtensions[1] == "png";
    assert EndsWith(p, "." + ImageExtensions[1]);
    assert StartsWith(p, "/api/");
    NotStartsWithAt(p, "/_next/", 1);
    NotStartsWithAt(p, "/api/_", 5);
  }

  /** Paths the middleware passes through, and two it does not. */
  lemma SkipExamples()
    ensures Skipped("/_next/static/app.js")
    ensures Skipped("/logo.png")
    ensures !Skipped("/api/v1.2/health")
    ensures !Skipped("/dashboard/patient")
  {
    assert StartsWith("/_next/static/app.js", "/_next/");
    assert StartsWith("/logo.png"[5..], ".");
    NotStartsWithAt("/logo.png", "/api/", 1);
    NotStartsWithAt("/logo.png", "/_next/", 1);
    NotStartsWithAt("/api/v1.2/health", "/_next/", 1);
    NotStartsWithAt("/api/v1.2/health", "/api/_", 5);
    assert StartsWith("/api/v1.2/health", "/api/");
    NotStartsWithAt("/dashboard/patient", "/_next/", 1);
    NotStartsWithAt("/dashboard/patient", "/api/_", 1);
    AbsentCharNotContained("/dashboard/patient", '.');
  }
}
