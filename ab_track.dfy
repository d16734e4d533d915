/** app/api/ab-testing/track/route.ts: `POST` records one A/B test event,
    `GET` reports per-variant counts for one test.

    The `ab_test_events` table is the class `EventStore`; what the insert and
    the select report are parameters. */
module AbTrack {
  import opened Wrappers
  import opened Text
  import opened Sequences
  import opened InputValidation

  /** A stored event; `createdAt` orders the `GET` query. */
  datatype AbEvent = AbEvent(testId: string, variant: string, event: string, properties: Json,
                             userId: string, sessionId: string, timestamp: int, createdAt: int)

  /** The fields of the JSON body the route reads; a missing or empty (falsy)
      string or timestamp is `None`, an absent `properties` is `None`. */
  datatype TrackBody = TrackBody(testId: Option<string>, variant: Option<string>, event: Option<string>,
                                 properties: Option<Json>, userId: Option<string>, sessionId: Option<string>,
                                 timestamp: Option<int>)

  /** The JSON values JavaScript treats as false. */
  predicate Falsy(v: Json) {
    v == JNull || v == JBool(false) || v == JNum(0) || v == JStr("")
  }

  predicate Present(s: Option<string>) { s.Some? && s.value != "" }

  predicate HasRequiredFields(b: TrackBody) {
    Present(b.testId) && Present(b.variant) && Present(b.event) && Present(b.userId) && Present(b.sessionId)
  }

  /** The row inserted for a complete body at time `now`. */
  function EventRow(b: TrackBody, now: int): (e: AbEvent)
    requires HasRequiredFields(b)
    ensures e.testId == b.testId.value && e.variant == b.variant.value && e.event == b.event.value
    ensures e.userId == b.userId.value && e.sessionId == b.sessionId.value
    ensures e.properties == (if b.properties.Some? && !Falsy(b.properties.value) then b.properties.value else JObj([]))
    ensures e.timestamp == (if b.timestamp.Some? then b.timestamp.value else now) && e.createdAt == now
  {
    var properties := if b.properties.None? || Falsy(b.properties.value) then JObj([]) else b.properties.value;
    AbEvent(b.testId.value, b.variant.value, b.event.value, properties, b.userId.value, b.sessionId.value,
            b.timestamp.GetOr(now), now)
  }

  /** The HTTP status of a `POST`. */
  function PostStatus(b: TrackBody, insertError: bool): (code: int)
    ensures code == 400 <==> !HasRequiredFields(b)
    ensures code == 200 <==> HasRequiredFields(b) && !insertError
  {
    if !HasRequiredFields(b) then 400 else if insertError then 500 else 200
  }

  // ---------------------------------------------------------------------------
  // calculateAnalytics

  /** One entry of the `variants` record while the events are counted. */
  datatype VariantCounts = VariantCounts(variant: string, impressions: nat, conversions: nat, clicks: nat,
                                         uniqueUsers: set<string>)

  /** The `switch`: only "impression", "conversion" and "click" move a counter;
      every event adds its user. */
  function Count(c: VariantCounts, e: AbEvent): VariantCounts {
    var c := c.(uniqueUsers := c.uniqueUsers + {e.userId});
    if e.event == "impression" then c.(impressions := c.impressions + 1)
    else if e.event == "conversion" then c.(conversions := c.conversions + 1)
    else if e.event == "click" then c.(clicks := c.clicks + 1)
    else c
  }

  /** One `forEach` step: the event's variant gains it, or a new entry is added
      at the end. */
  function AddEvent(acc: seq<VariantCounts>, e: AbEvent): seq<VariantCounts> {
    if acc == [] then [Count(VariantCounts(e.variant, 0, 0, 0, {}), e)]
    else if acc[0].variant == e.variant then [Count(acc[0], e)] + acc[1..]
    else [acc[0]] + AddEvent(acc[1..], e)
  }

  /** The `variants` record after the `forEach` over `events`, one entry per
      variant in the order the variants first occur. */
  function Accumulate(events: seq<AbEvent>): (acc: seq<VariantCounts>)
    ensures DistinctVariants(acc)
  {
    if events == [] then []
    else
      var init := Accumulate(events[..|events| - 1]);
      AddEventKeepsDistinct(init, events[|events| - 1]);
      AddEvent(init, events[|events| - 1])
  }

  /** The record after one more event of the `forEach`. */
  lemma AccumulateSnoc(events: seq<AbEvent>, i: int)
    requires 0 <= i < |events|
    ensures Accumulate(events[..i + 1]) == AddEvent(Accumulate(events[..i]), events[i])
  {
    var prefix := events[..i + 1];
    assert prefix[..|prefix| - 1] == events[..i] && prefix[|prefix| - 1] == events[i];
  }

  /** The entry of `v`, if any. */
  function EntryFor(acc: seq<VariantCounts>, v: string): Option<VariantCounts> {
    if acc == [] then None
    else if acc[0].variant == v then Some(acc[0])
    else EntryFor(acc[1..], v)
  }

  /** How many events of variant `v` are named `name`. */
  function CountEvents(events: seq<AbEvent>, v: string, name: string): nat {
    if events == [] then 0
    else CountEvents(events[..|events| - 1], v, name)
         + (if events[|events| - 1].variant == v && events[|events| - 1].event == name then 1 else 0)
  }

  /** The users with an event of variant `v`. */
  function UsersOf(events: seq<AbEvent>, v: string): set<string> {
    if events == [] then {}
    else UsersOf(events[..|events| - 1], v)
         + (if events[|events| - 1].variant == v then {events[|events| - 1].userId} else {})
  }

  predicate HasVariant(events: seq<AbEvent>, v: string) {
    exists i :: 0 <= i < |events| && events[i].variant == v
  }

  /** What the counting promises for variant `v`. */
  function Expected(events: seq<AbEvent>, v: string): VariantCounts {
    VariantCounts(v, CountEvents(events, v, "impression"), CountEvents(events, v, "conversion"),
                  CountEvents(events, v, "click"), UsersOf(events, v))
  }

  lemma {:induction false} AddEventEntryFor(acc: seq<VariantCounts>, e: AbEvent, v: string)
    ensures EntryFor(AddEvent(acc, e), v) ==
      if v != e.variant then EntryFor(acc, v)
      else if EntryFor(acc, v).None? then Some(Count(VariantCounts(v, 0, 0, 0, {}), e))
      else Some(Count(EntryFor(acc, v).value, e))
  {
    if acc != [] && acc[0].variant != e.variant {
      AddEventEntryFor(acc[1..], e, v);
    }
  }

  /** A variant has an entry exactly when some event names it, and the entry's
      counters are the numbers of its impressions, conversions and clicks and
      its users are the distinct users of its events. */
  lemma {:induction false} AccumulateCounts(events: seq<AbEvent>, v: string)
    ensures EntryFor(Accumulate(events), v) == if HasVariant(events, v) then Some(Expected(events, v)) else None
  {
    if events != [] {
      var init, e := events[..|events| - 1], events[|events| - 1];
      AccumulateCounts(init, v);
      AddEventEntryFor(Accumulate(init), e, v);
      assert HasVariant(events, v) <==> HasVariant(init, v) || e.variant == v by {
        if HasVariant(init, v) {
          var i :| 0 <= i < |init| && init[i].variant == v;
          assert events[i] == init[i];
        }
        if HasVariant(events, v) {
          var i :| 0 <= i < |events| && events[i].variant == v;
          if i < |init| {
            assert init[i] == events[i];
          }
        }
      }
      if e.variant == v {
        if !HasVariant(init, v) {
          EmptyCounts(init, v);
        }
        assert Expected(events, v) == Count(Expected(init, v), e);
      } else {
        assert Expected(events, v) == Expected(init, v);
      }
    }
  }

  lemma {:induction false} EmptyCounts(events: seq<AbEvent>, v: string)
    requires !HasVariant(events, v)
    ensures Expected(events, v) == VariantCounts(v, 0, 0, 0, {})
  {
    if events != [] {
      var init := events[..|events| - 1];
      assert !HasVariant(init, v) by {
        forall i | 0 <= i < |init| ensures init[i].variant != v {
          assert init[i] == events[i];
        }
      }
      EmptyCounts(init, v);
    }
  }

  ghost predicate DistinctVariants(acc: seq<VariantCounts>) {
    forall i, j :: 0 <= i < j < |acc| ==> acc[i].variant != acc[j].variant
  }

  lemma {:induction false} EntryForMember(acc: seq<VariantCounts>, v: string)
    ensures EntryFor(acc, v).Some? <==> exists i :: 0 <= i < |acc| && acc[i].variant == v
  {
    if acc != [] {
      EntryForMember(acc[1..], v);
      if exists i :: 0 <= i < |acc| && acc[i].variant == v {
        var i :| 0 <= i < |acc| && acc[i].variant == v;
        if i > 0 {
          assert acc[1..][i - 1] == acc[i];
        }
      }
    }
  }

  lemma {:induction false} AddEventKeepsDistinct(acc: seq<VariantCounts>, e: AbEvent)
    requires DistinctVariants(acc)
    ensures DistinctVariants(AddEvent(acc, e))
    ensures forall i :: 0 <= i < |AddEvent(acc, e)| ==>
              AddEvent(acc, e)[i].variant == e.variant || exists j :: 0 <= j < |acc| && acc[j].variant == AddEvent(acc, e)[i].variant
  {
    if acc != [] && acc[0].variant != e.variant {
      AddEventKeepsDistinct(acc[1..], e);
      var r := AddEvent(acc, e);
      var rest := AddEvent(acc[1..], e);
      assert r == [acc[0]] + rest;
      forall i | 1 <= i < |r| ensures r[i].variant != acc[0].variant {
        assert r[i] == rest[i - 1];
        if rest[i - 1].variant != e.variant {
          var j :| 0 <= j < |acc[1..]| && acc[1..][j].variant == rest[i - 1].variant;
          assert acc[1..][j] == acc[j + 1];
        }
      }
      forall i | 1 <= i < |r| ensures r[i].variant == e.variant || exists j :: 0 <= j < |acc| && acc[j].variant == r[i].variant {
        assert r[i] == rest[i - 1];
        if rest[i - 1].variant != e.variant {
          var j :| 0 <= j < |acc[1..]| && acc[1..][j].variant == rest[i - 1].variant;
          assert acc[j + 1].variant == r[i].variant;
        }
      }
    } else if acc != [] {
      var r := AddEvent(acc, e);
      assert forall i :: 1 <= i < |r| ==> r[i] == acc[i];
    }
  }

  /** In a record with one entry per variant, the entry of a member's variant
      is that member. */
  lemma {:induction false} DistinctEntryFor(acc: seq<VariantCounts>, c: VariantCounts)
    requires DistinctVariants(acc) && c in acc
    ensures EntryFor(acc, c.variant) == Some(c)
  {
    if acc[0] != c {
      assert c in acc[1..];
      var k :| 0 <= k < |acc[1..]| && acc[1..][k] == c;
      assert acc[k + 1] == c;
      assert acc[0].variant != c.variant;
      DistinctEntryFor(acc[1..], c);
    }
  }

  lemma {:induction false} EntryForIn(acc: seq<VariantCounts>, v: string)
    ensures EntryFor(acc, v).Some? ==> EntryFor(acc, v).value in acc
  {
    if acc != [] && acc[0].variant != v {
      EntryForIn(acc[1..], v);
    }
  }

  // ---------------------------------------------------------------------------
  // Object.values

  function IndexValue(s: string): nat {
    if IsArrayIndex(s) then DigitsValue(s) else 0
  }

  /** The sort key that lists smaller indices first. */
  function IndexRank(c: VariantCounts): int { -(IndexValue(c.variant) as int) }

  /** The entries whose variant is an array index, in record order. */
  function IndexEntries(acc: seq<VariantCounts>): (r: seq<VariantCounts>)
    ensures forall c :: c in r ==> IsArrayIndex(c.variant)
  {
    if acc == [] then []
    else (if IsArrayIndex(acc[0].variant) then [acc[0]] else []) + IndexEntries(acc[1..])
  }

  /** The other entries, in record order. */
  function NamedEntries(acc: seq<VariantCounts>): (r: seq<VariantCounts>)
    ensures forall c :: c in r ==> !IsArrayIndex(c.variant)
  {
    if acc == [] then []
    else (if IsArrayIndex(acc[0].variant) then [] else [acc[0]]) + NamedEntries(acc[1..])
  }

  lemma {:induction false} EntriesPartition(acc: seq<VariantCounts>)
    ensures multiset(IndexEntries(acc)) + multiset(NamedEntries(acc)) == multiset(acc)
  {
    if acc != [] {
      EntriesPartition(acc[1..]);
      assert acc == [acc[0]] + acc[1..];
    }
  }

  /** `Object.values(variants)`: the entries named by array indices first, by
      increasing index, then the others in the order they were added. */
  function ObjectValues(acc: seq<VariantCounts>): (r: seq<VariantCounts>)
    ensures multiset(r) == multiset(acc)
    ensures forall i, j :: 0 <= i < j < |r| && IsArrayIndex(r[j].variant) ==>
              IsArrayIndex(r[i].variant) && IndexValue(r[i].variant) <= IndexValue(r[j].variant)
  {
    var indexed := SortByKeyDesc(IndexEntries(acc), IndexRank);
    var r := indexed + NamedEntries(acc);
    EntriesPartition(acc);
    assert forall c :: c in indexed ==> IsArrayIndex(c.variant) by {
      forall c | c in indexed ensures IsArrayIndex(c.variant) {
        assert c in multiset(IndexEntries(acc));
      }
    }
    assert forall i, j :: 0 <= i < j < |r| && IsArrayIndex(r[j].variant) ==>
             IsArrayIndex(r[i].variant) && IndexValue(r[i].variant) <= IndexValue(r[j].variant) by {
      forall i, j | 0 <= i < j < |r| && IsArrayIndex(r[j].variant)
        ensures IsArrayIndex(r[i].variant) && IndexValue(r[i].variant) <= IndexValue(r[j].variant)
      {
        if j >= |indexed| {
          assert false;
        }
        assert r[i] == indexed[i] && r[j] == indexed[j];
        assert indexed[i] in indexed;
        assert IndexRank(indexed[i]) >= IndexRank(indexed[j]);
      }
    }
    r
  }

  /** Exactly the variants some event names are reported, each with the counts
      of its own events. */
  lemma ReportedCounts(events: seq<AbEvent>, c: VariantCounts)
    ensures c in ObjectValues(Accumulate(events)) <==> HasVariant(events, c.variant) && c == Expected(events, c.variant)
  {
    var acc := Accumulate(events);
    assert c in ObjectValues(acc) <==> c in acc by {
      assert c in ObjectValues(acc) <==> c in multiset(ObjectValues(acc));
    }
    AccumulateCounts(events, c.variant);
    if c in acc {
      DistinctEntryFor(acc, c);
    }
    EntryForIn(acc, c.variant);
  }

  /** The reported row of a variant. */
  datatype VariantReport = VariantReport(variant: string, impressions: nat, conversions: nat, clicks: nat,
                                         uniqueUsers: nat, conversionRate: real, clickThroughRate: real)

  /** `count / impressions * 100`, 0 without impressions. */
  function Rate(count: nat, impressions: nat): (r: real)
    ensures impressions == 0 ==> r == 0.0
    ensures impressions > 0 ==> r * impressions as real == 100.0 * count as real
  {
    if impressions > 0 then count as real / impressions as real * 100.0 else 0.0
  }

  function Report(c: VariantCounts): VariantReport {
    VariantReport(c.variant, c.impressions, c.conversions, c.clicks, |c.uniqueUsers|,
                  Rate(c.conversions, c.impressions), Rate(c.clicks, c.impressions))
  }

  /** `calculateAnalytics`: counts in a `forEach`, then one report per entry of
      `Object.values(variants)`. An event whose variant names a property every
      object inherits finds that property instead of an entry, and
      `variantData.uniqueUsers.add` throws: `None`. */
  method CalculateAnalytics(events: seq<AbEvent>) returns (result: Option<seq<VariantReport>>)
    ensures result.None? <==> exists i :: 0 <= i < |events| && Inherits(events[i].variant)
    ensures result.Some? ==>
      var values := ObjectValues(Accumulate(events));
      |result.value| == |values| && forall i :: 0 <= i < |values| ==> result.value[i] == Report(values[i])
  {
    var variants := TallyEvents(events);
    if variants.None? {
      return None;
    }
    var reports := ReportAll(ObjectValues(variants.value));
    return Some(reports);
  }

  /** The `forEach` of `calculateAnalytics`, stopping at the first throw. */
  method TallyEvents(events: seq<AbEvent>) returns (result: Option<seq<VariantCounts>>)
    ensures result.None? <==> exists i :: 0 <= i < |events| && Inherits(events[i].variant)
    ensures result.Some? ==> result.value == Accumulate(events)
  {
    var variants: seq<VariantCounts> := [];
    var i := 0;
    while i < |events|
      invariant 0 <= i <= |events|
      invariant variants == Accumulate(events[..i])
      invariant forall k :: 0 <= k < i ==> !Inherits(events[k].variant)
    {
      var e := events[i];
      if Inherits(e.variant) {
        return None;
      }
      AccumulateSnoc(events, i);
      variants := AddEvent(variants, e);
      i := i + 1;
    }
    assert events[..i] == events;
    return Some(variants);
  }


  /** The `map` over `Object.values(variants)`. */
  method ReportAll(values: seq<VariantCounts>) returns (reports: seq<VariantReport>)
    ensures |reports| == |values| && forall i :: 0 <= i < |values| ==> reports[i] == Report(values[i])
  {
    reports := [];
    for i := 0 to |values|
      invariant |reports| == i
      invariant forall k :: 0 <= k < i ==> reports[k] == Report(values[k])
    {
      reports := reports + [Report(values[i])];
    }
  }

  // ---------------------------------------------------------------------------
  // The table

  datatype GetOutcome =
    | TestIdRequired
    | FetchFailed
    | InternalError
    | Analytics(testId: string, analytics: seq<VariantReport>, totalEvents: nat)

  /** The `ab_test_events` table. */
  class EventStore {
    var events: seq<AbEvent>

    constructor ()
      ensures events == []
    {
      events := [];
    }

    /** `POST`: a complete body is inserted unless the insert fails; an
        incomplete one gets 400 and nothing is stored. */
    method Post(b: TrackBody, now: int, insertError: bool) returns (code: int)
      modifies this
      ensures code == PostStatus(b, insertError)
      ensures events == if code == 200 then old(events) + [EventRow(b, now)] else old(events)
    {
      code := PostStatus(b, insertError);
      if code == 200 {
        events := events + [EventRow(b, now)];
      }
    }

    /** The events of one test, newest first as the query orders them. */
    function EventsOf(testId: string): (r: seq<AbEvent>)
      reads this
      ensures forall e :: e in r <==> e in events && e.testId == testId
    {
      FilterTest(events, testId)
    }

    /** `GET`: a missing `testId` gets 400; otherwise the test's events, newest
        first as the query orders them, are counted; a variant named like an
        inherited property makes the counting throw into the `catch` (500). */
    method Get(testId: Option<string>, fetchFailed: bool) returns (out: GetOutcome)
      ensures !Present(testId) <==> out.TestIdRequired?
      ensures out.FetchFailed? <==> Present(testId) && fetchFailed
      ensures out.InternalError? <==>
        Present(testId) && !fetchFailed && exists e :: e in EventsOf(testId.value) && Inherits(e.variant)
      ensures out.Analytics? ==>
        var values := ObjectValues(Accumulate(SortByKeyDesc(EventsOf(testId.value), CreatedAt)));
        && out.testId == testId.value && out.totalEvents == |EventsOf(testId.value)|
        && |out.analytics| == |values|
        && forall i :: 0 <= i < |values| ==> out.analytics[i] == Report(values[i])
    {
      if !Present(testId) {
        return TestIdRequired;
      }
      if fetchFailed {
        return FetchFailed;
      }
      var ordered := SortByKeyDesc(EventsOf(testId.value), CreatedAt);
      var analytics := CalculateAnalytics(ordered);
      SameVariants(EventsOf(testId.value), ordered);
      if analytics.None? {
        return InternalError;
      }
      out := Analytics(testId.value, analytics.value, |ordered|);
    }
  }

  function CreatedAt(e: AbEvent): int { e.createdAt }

  /** Reordering the events does not change whether one has an inherited name. */
  lemma SameVariants(events: seq<AbEvent>, ordered: seq<AbEvent>)
    requires multiset(ordered) == multiset(events)
    ensures (exists i :: 0 <= i < |ordered| && Inherits(ordered[i].variant))
            <==> exists e :: e in events && Inherits(e.variant)
  {
    if exists i :: 0 <= i < |ordered| && Inherits(ordered[i].variant) {
      var i :| 0 <= i < |ordered| && Inherits(ordered[i].variant);
      assert ordered[i] in multiset(events);
    }
    if exists e :: e in events && Inherits(e.variant) {
      var e :| e in events && Inherits(e.variant);
      assert e in multiset(ordered);
      var i :| 0 <= i < |ordered| && ordered[i] == e;
    }
  }

  function FilterTest(events: seq<AbEvent>, testId: string): (r: seq<AbEvent>)
    ensures forall e :: e in r <==> e in events && e.testId == testId
  {
    if events == [] then []
    else
      assert forall e :: e in events <==> e == events[0] || e in events[1..];
      (if events[0].testId == testId then [events[0]] else []) + FilterTest(events[1..], testId)
  }
}
