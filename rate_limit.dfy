/** The fixed-window rate limiter written out twice in the repository: as
    `checkRateLimit` over the module-level `rateLimitStore` of middleware.ts and
    as the `checkLimit` closure of `createRateLimiter` in
    lib/security/input-validation.ts. Both keep a map from key to
    `{ count, resetTime }` and apply the same step, `Step` below; the clock
    (`Date.now()`, milliseconds) is a parameter. */
module RateLimit {

  datatype RateRecord = RateRecord(count: int, resetTime: int)

  /** At most `requests` calls per `window` milliseconds. */
  datatype Limit = Limit(requests: int, window: int)

  datatype Verdict = Verdict(allowed: bool, store: map<string, RateRecord>)

  function Max(a: int, b: int): int { if a < b then b else a }

  /** One check of `key` at time `now`. */
  function Step(store: map<string, RateRecord>, key: string, now: int, limit: Limit): (v: Verdict)
    // a missing or expired record opens a new window holding this call
    ensures (key !in store || now > store[key].resetTime)
            ==> v.allowed && v.store == store[key := RateRecord(1, now + limit.window)]
    // inside the window: allowed exactly while the count is below the limit
    ensures key in store && now <= store[key].resetTime
            ==> (v.allowed <==> store[key].count < limit.requests)
    // a denied call changes nothing
    ensures !v.allowed ==> v.store == store
    // an allowed call in the window counts one more and keeps the window
    ensures v.allowed && key in store && now <= store[key].resetTime
            ==> v.store == store[key := RateRecord(store[key].count + 1, store[key].resetTime)]
    // no other key is touched
    ensures v.store.Keys == store.Keys + {key} || v.store == store
    ensures forall k :: k != key && k in store ==> k in v.store && v.store[k] == store[k]
  {
    if key !in store || now > store[key].resetTime then
      Verdict(true, store[key := RateRecord(1, now + limit.window)])
    else if store[key].count >= limit.requests then
      Verdict(false, store)
    else
      Verdict(true, store[key := store[key].(count := store[key].count + 1)])
  }

  /** Every record counts between 1 and the most calls a window lets through. */
  ghost predicate Bounded(store: map<string, RateRecord>, limit: Limit) {
    forall k :: k in store ==> 1 <= store[k].count <= Max(limit.requests, 1)
  }

  lemma StepKeepsBounded(store: map<string, RateRecord>, key: string, now: int, limit: Limit)
    requires Bounded(store, limit)
    ensures Bounded(Step(store, key, now, limit).store, limit)
  {
  }

  /** How many of the calls on `key` at the times `nows` are allowed. */
  function AllowedCount(store: map<string, RateRecord>, key: string, nows: seq<int>, limit: Limit): nat
    decreases |nows|
  {
    if nows == [] then 0
    else
      var v := Step(store, key, nows[0], limit);
      (if v.allowed then 1 else 0) + AllowedCount(v.store, key, nows[1..], limit)
  }

  /** Inside an open window that has already counted `count` calls, at most
      `requests - count` more are allowed. */
  lemma {:induction false} OpenWindowBound(store: map<string, RateRecord>, key: string, nows: seq<int>, limit: Limit)
    requires key in store && 1 <= store[key].count
    requires forall i :: 0 <= i < |nows| ==> nows[i] <= store[key].resetTime
    ensures AllowedCount(store, key, nows, limit) <= Max(limit.requests - store[key].count, 0)
    decreases |nows|
  {
    if nows != [] {
      var v := Step(store, key, nows[0], limit);
      assert forall i :: 0 <= i < |nows[1..]| ==> nows[1..][i] == nows[i + 1];
      OpenWindowBound(v.store, key, nows[1..], limit);
    }
  }

  /** A call that opens a window, followed by any calls up to that window's
      reset time: at most `requests` of them are allowed (one when `requests`
      is 0 or less, since opening always allows). */
  lemma WindowBound(store: map<string, RateRecord>, key: string, first: int, later: seq<int>, limit: Limit)
    requires key !in store || first > store[key].resetTime
    requires forall i :: 0 <= i < |later| ==> later[i] <= first + limit.window
    ensures AllowedCount(store, key, [first] + later, limit) <= Max(limit.requests, 1)
  {
    var v := Step(store, key, first, limit);
    assert ([first] + later)[1..] == later;
    OpenWindowBound(v.store, key, later, limit);
  }
}
