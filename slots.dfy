/** app/api/bookings/slots/route.ts: `GET /api/bookings/slots`, the bookable
    `HH:mm` start times of one therapist on one local date.

    A local wall clock is read on the UTC server clock (see module Time). The
    route turns a slot's local start into a UTC instant through
    `new Date(d.toLocaleString("en-US", { timeZone }))`, which ADDS the zone's
    offset (`ViaLocaleString`); the create route SUBTRACTS it (`Time.ToUtcStartEnd`).
    The two agree only in UTC, see `SlotAndBookingConversionsAgreeOnlyInUtc`. */
module Slots {
  import opened Wrappers
  import opened Text
  import opened Time
  import opened Bookings
  import opened Sequences

  const DefaultSlotMinutes: int := 30

  /** The query string; an absent or empty parameter is `None`. */
  datatype SlotQuery = SlotQuery(
    therapistId: Option<string>,
    date: Option<int>,
    timezone: Option<Zone>,
    slotMinutes: Option<int>,
    durationMinutes: Option<int>)

  datatype SlotSettings = SlotSettings(slotMinutes: int, durationMinutes: int)

  /** The JSON body: `{ error }` with status 400, or `{ slots }` with the settings
      echoed only when some availability was found. */
  datatype SlotsResponse =
    | BadRequest(error: string)
    | SlotList(slots: seq<string>, settings: Option<SlotSettings>)

  predicate Present(s: Option<string>) {
    s.Some? && s.value != ""
  }

  function ZoneOf(q: SlotQuery): Zone { q.timezone.GetOr(Utc) }

  function StepOf(q: SlotQuery): int { q.slotMinutes.GetOr(DefaultSlotMinutes) }

  function DurationOf(q: SlotQuery): int { q.durationMinutes.GetOr(DefaultDurationMinutes) }

  /** The bookings query: the therapist's bookings whose start lies in the UTC
      range of the local day, whatever their status. */
  function BookingsStartingIn(bookings: seq<Booking>, therapistId: string, range: UtcRange): (r: seq<Booking>)
    ensures forall b :: b in r <==>
      b in bookings && b.therapistId == therapistId && range.startUtc <= b.start <= range.endUtc
  {
    if bookings == [] then []
    else
      var b := bookings[0];
      var rest := BookingsStartingIn(bookings[1..], therapistId, range);
      if b.therapistId == therapistId && range.startUtc <= b.start <= range.endUtc then [b] + rest else rest
  }

  /** What one pass of slot generation works with, fixed for the whole pass. */
  datatype SlotContext = SlotContext(day: int, zone: Zone, step: int, duration: int, fetched: seq<Booking>)

  /** The candidate starts of one window: from `t` in steps of `step` minutes,
      while a session of `dur` minutes still ends by `end`. */
  function Starts(t: int, end: int, step: int, dur: int): (r: seq<int>)
    requires step > 0 || t + dur > end
    ensures forall i :: 0 <= i < |r| ==> r[i] == t + i * step && r[i] + dur <= end
    ensures t + |r| * step + dur > end
    decreases end - dur - t
  {
    if t + dur <= end then [t] + Starts(t + step, end, step, dur) else []
  }

  /** Minute `m` of the requested date as an instant (`new Date(t)` in the loop). */
  function SlotLocal(day: int, m: int): int {
    ParseLocal(day, m * 60)
  }

  /** `new Date(d.toLocaleString("en-US", { timeZone }))` on the UTC server clock. */
  function ViaLocaleString(instant: int, z: Zone): int {
    UtcToZonedTime(instant, z)
  }

  /** The slot's start and end as the route compares them with bookings. */
  function SlotUtc(c: SlotContext, m: int): UtcInterval {
    UtcInterval(ViaLocaleString(SlotLocal(c.day, m), c.zone), ViaLocaleString(SlotLocal(c.day, m + c.duration), c.zone))
  }

  /** `toLocaleTimeString("en-GB", { hour: "2-digit", minute: "2-digit", timeZone: "UTC" }).slice(0, 5)`. */
  function SlotLabel(m: int): string {
    HHmm(m % 1440)
  }

  /** The `conflict` of the loop: some fetched booking overlaps the slot. */
  predicate ConflictsAt(c: SlotContext, m: int) {
    exists b :: b in c.fetched && Overlaps(SlotUtc(c, m).start, SlotUtc(c, m).end, b.start, b.end)
  }

  /** What the loop pushes for candidate `m`: its label unless it conflicts. */
  function Kept(c: SlotContext, m: int): seq<string> {
    if ConflictsAt(c, m) then [] else [SlotLabel(m)]
  }

  /** The labels the loop pushes for the candidates `ms`, in order. */
  function KeepAll(ms: seq<int>, c: SlotContext): seq<string> {
    if ms == [] then []
    else Kept(c, ms[0]) + KeepAll(ms[1..], c)
  }

  /** The window holds no session at all: the loop body never runs. */
  predicate TooShort(a: AvailabilityRow, dur: int) {
    a.startMinute + dur > a.endMinute
  }

  function WindowSlots(a: AvailabilityRow, c: SlotContext): seq<string>
    requires c.step > 0 || TooShort(a, c.duration)
  {
    KeepAll(Starts(a.startMinute, a.endMinute, c.step, c.duration), c)
  }

  /** Everything the loop pushes into `slots`, window after window. */
  function Emitted(ws: seq<AvailabilityRow>, c: SlotContext): seq<string>
    requires c.step > 0 || forall a :: a in ws ==> TooShort(a, c.duration)
  {
    if ws == [] then [] else Emitted(ws[..|ws| - 1], c) + WindowSlots(ws[|ws| - 1], c)
  }

  /** The handler returns: a non-positive `slotMinutes` never leaves the inner
      loop once some window of the resolved weekday holds a session. */
  predicate Halts(q: SlotQuery, availability: seq<AvailabilityRow>) {
    || StepOf(q) > 0
    || !Present(q.therapistId) || q.date.None?
    || forall a :: a in WindowsFor(availability, q.therapistId.value, GetLocalDayOfWeek(q.date.value, ZoneOf(q)))
                   ==> TooShort(a, DurationOf(q))
  }

  /** The response the handler sends for query `q`, given the two tables. */
  function SlotsResponseFor(q: SlotQuery, availability: seq<AvailabilityRow>, bookings: seq<Booking>): SlotsResponse
    requires Halts(q, availability)
  {
    if !Present(q.therapistId) || q.date.None? then BadRequest("Missing therapistId or date")
    else
      var tid, day, z := q.therapistId.value, q.date.value, ZoneOf(q);
      var avail := WindowsFor(availability, tid, GetLocalDayOfWeek(day, z));
      if avail == [] then SlotList([], None)
      else
        var fetched := BookingsStartingIn(bookings, tid, GetUtcRangeForLocalDate(day, z));
        var c := SlotContext(day, z, StepOf(q), DurationOf(q), fetched);
        SlotList(SortedDistinct(Emitted(avail, c)), Some(SlotSettings(StepOf(q), DurationOf(q))))
  }

  /** The handler, for every query on which it returns. */
  method GetSlots(q: SlotQuery, availability: seq<AvailabilityRow>, bookings: seq<Booking>)
    returns (resp: SlotsResponse)
    requires Halts(q, availability)
    ensures resp == SlotsResponseFor(q, availability, bookings)
    ensures resp.SlotList? ==> StrictlyAscending(resp.slots)
  {
    if !Present(q.therapistId) || q.date.None? {
      return BadRequest("Missing therapistId or date");
    }
    var tid, day, z := q.therapistId.value, q.date.value, ZoneOf(q);
    var step, dur := StepOf(q), DurationOf(q);
    var avail := WindowsFor(availability, tid, GetLocalDayOfWeek(day, z));
    if |avail| == 0 {
      return SlotList([], None);
    }
    var fetched := BookingsStartingIn(bookings, tid, GetUtcRangeForLocalDate(day, z));
    var c := SlotContext(day, z, step, dur, fetched);
    var slots := CollectAll(avail, c);
    return SlotList(SortedDistinct(slots), Some(SlotSettings(step, dur)));
  }

  /** The outer loop of the handler: the free starts of every window, in order. */
  method CollectAll(avail: seq<AvailabilityRow>, c: SlotContext) returns (slots: seq<string>)
    requires c.step > 0 || forall a :: a in avail ==> TooShort(a, c.duration)
    ensures slots == Emitted(avail, c)
  {
    slots := [];
    var i := 0;
    while i < |avail|
      invariant 0 <= i <= |avail|
      invariant slots == Emitted(avail[..i], c)
    {
      assert avail[i] in avail;
      slots := CollectWindow(avail[i], c, slots);
      assert avail[..i + 1][..i] == avail[..i];
      i := i + 1;
    }
    assert avail[..i] == avail;
  }

  /** The inner loop of the handler: the free starts of window `a`, appended. */
  method CollectWindow(a: AvailabilityRow, c: SlotContext, slots0: seq<string>) returns (slots: seq<string>)
    requires c.step > 0 || TooShort(a, c.duration)
    ensures slots == slots0 + WindowSlots(a, c)
  {
    slots := slots0;
    var t := a.startMinute;
    while t + c.duration <= a.endMinute
      invariant c.step > 0 || t + c.duration > a.endMinute
      invariant slots + KeepAll(Starts(t, a.endMinute, c.step, c.duration), c) == slots0 + WindowSlots(a, c)
      decreases a.endMinute - c.duration - t
    {
      var kept := Kept(c, t);
      CollectStep(slots, t, a.endMinute, c);
      slots := slots + kept;
      t := t + c.step;
    }
    NothingLeft(slots, t, a.endMinute, c);
  }

  // ---------------------------------------------------------------------------
  // Properties of the response

  /** A missing `therapistId` or `date` is a 400 and nothing else is. */
  lemma MissingParameterIsBadRequest(q: SlotQuery, availability: seq<AvailabilityRow>, bookings: seq<Booking>)
    requires Halts(q, availability)
    ensures SlotsResponseFor(q, availability, bookings).BadRequest?
            <==> !Present(q.therapistId) || q.date.None?
  {
  }

  /** No window for the resolved weekday is a successful, empty answer. */
  lemma NoAvailabilityIsEmptySuccess(q: SlotQuery, availability: seq<AvailabilityRow>, bookings: seq<Booking>)
    requires Present(q.therapistId) && q.date.Some?
    requires forall a :: a in availability ==>
      a.therapistId != q.therapistId.value || a.dayOfWeek != GetLocalDayOfWeek(q.date.value, ZoneOf(q))
    ensures SlotsResponseFor(q, availability, bookings) == SlotList([], None)
  {
  }

  /** The `k`-th start counted from `t`. */
  function Nth(t: int, step: int, k: int): int {
    t + k * step
  }

  /** A candidate is a start `ws + k * step` (k >= 0) whose session ends by the
      window's end; every such start is a candidate. */
  lemma {:induction false} StartsIff(t: int, end: int, step: int, dur: int, m: int)
    requires step > 0
    ensures m in Starts(t, end, step, dur) <==> m + dur <= end && exists k :: 0 <= k && m == Nth(t, step, k)
    decreases end - dur - t
  {
    if t + dur <= end {
      var rest := Starts(t + step, end, step, dur);
      assert Starts(t, end, step, dur) == [t] + rest;
      StartsIff(t + step, end, step, dur, m);
      if m in rest {
        var k :| 0 <= k && m == Nth(t + step, step, k);
        NthShift(t, step, k);
      }
      if m == t {
        assert m == Nth(t, step, 0);
      }
      if m + dur <= end && m != t && exists k :: 0 <= k && m == Nth(t, step, k) {
        var k :| 0 <= k && m == Nth(t, step, k);
        assert k != 0;
        NthShift(t, step, k - 1);
      }
    } else {
      assert Starts(t, end, step, dur) == [];
      if exists k :: 0 <= k && m == Nth(t, step, k) {
        var k :| 0 <= k && m == Nth(t, step, k);
        NonNegativeSteps(k, step);
      }
    }
  }

  lemma NthShift(t: int, step: int, k: int)
    ensures Nth(t, step, k + 1) == Nth(t + step, step, k)
  {
    assert (k + 1) * step == k * step + step;
  }

  lemma NonNegativeSteps(k: int, step: int)
    requires 0 <= k && 0 < step
    ensures k * step >= 0
  {
  }

  /** One turn of the inner loop: the first candidate, then the rest. */
  lemma KeepAllStartsStep(t: int, end: int, c: SlotContext)
    requires c.step > 0 && t + c.duration <= end
    ensures KeepAll(Starts(t, end, c.step, c.duration), c)
            == Kept(c, t) + KeepAll(Starts(t + c.step, end, c.step, c.duration), c)
  {
    var r := Starts(t, end, c.step, c.duration);
    assert r == [t] + Starts(t + c.step, end, c.step, c.duration);
    assert r[1..] == Starts(t + c.step, end, c.step, c.duration);
  }

  /** Once the next start does not fit, the loop has pushed everything. */
  lemma NothingLeft(slots: seq<string>, t: int, end: int, c: SlotContext)
    requires t + c.duration > end
    ensures slots + KeepAll(Starts(t, end, c.step, c.duration), c) == slots
  {
    assert Starts(t, end, c.step, c.duration) == [];
    assert slots + [] == slots;
  }

  /** One pass of the inner loop moves the next candidate's label into `slots`. */
  lemma CollectStep(slots: seq<string>, t: int, end: int, c: SlotContext)
    requires c.step > 0 && t + c.duration <= end
    ensures var kept := Kept(c, t);
      (slots + kept) + KeepAll(Starts(t + c.step, end, c.step, c.duration), c)
      == slots + KeepAll(Starts(t, end, c.step, c.duration), c)
  {
    KeepAllStartsStep(t, end, c);
    AppendAssoc(slots, Kept(c, t), KeepAll(Starts(t + c.step, end, c.step, c.duration), c));
  }

  /** A window too short for one session, or empty, yields no slot. */
  lemma ShortWindowYieldsNothing(a: AvailabilityRow, c: SlotContext)
    requires TooShort(a, c.duration)
    ensures WindowSlots(a, c) == []
  {
  }

  lemma {:induction false} KeepAllMembership(ms: seq<int>, c: SlotContext, s: string)
    ensures s in KeepAll(ms, c) <==> exists m :: m in ms && !ConflictsAt(c, m) && s == SlotLabel(m)
  {
    if ms != [] {
      KeepAllMembership(ms[1..], c, s);
      assert forall m :: m in ms <==> m == ms[0] || m in ms[1..];
    }
  }

  /** `m` is a candidate start of one of the windows `ws`. */
  ghost predicate IsCandidate(ws: seq<AvailabilityRow>, c: SlotContext, m: int)
    requires c.step > 0
  {
    exists a :: a in ws && m in Starts(a.startMinute, a.endMinute, c.step, c.duration)
  }

  lemma EmittedMembership(ws: seq<AvailabilityRow>, c: SlotContext, s: string)
    requires c.step > 0
    ensures s in Emitted(ws, c) <==> exists m :: IsCandidate(ws, c, m) && !ConflictsAt(c, m) && s == SlotLabel(m)
  {
    if s in Emitted(ws, c) {
      EmittedHasCandidate(ws, c, s);
    }
    if exists m :: IsCandidate(ws, c, m) && !ConflictsAt(c, m) && s == SlotLabel(m) {
      var m :| IsCandidate(ws, c, m) && !ConflictsAt(c, m) && s == SlotLabel(m);
      CandidateEmitted(ws, c, m);
    }
  }

  /** Every emitted label is the label of a free candidate start. */
  lemma {:induction false} EmittedHasCandidate(ws: seq<AvailabilityRow>, c: SlotContext, s: string)
    requires c.step > 0 && s in Emitted(ws, c)
    ensures exists m :: IsCandidate(ws, c, m) && !ConflictsAt(c, m) && s == SlotLabel(m)
  {
    var init, last := ws[..|ws| - 1], ws[|ws| - 1];
    assert ws == init + [last];
    var m;
    if s in Emitted(init, c) {
      EmittedHasCandidate(init, c, s);
      m :| IsCandidate(init, c, m) && !ConflictsAt(c, m) && s == SlotLabel(m);
      var a :| a in init && m in Starts(a.startMinute, a.endMinute, c.step, c.duration);
      assert a in ws;
    } else {
      KeepAllMembership(Starts(last.startMinute, last.endMinute, c.step, c.duration), c, s);
      m :| m in Starts(last.startMinute, last.endMinute, c.step, c.duration) && !ConflictsAt(c, m) && s == SlotLabel(m);
      assert last in ws;
    }
    assert IsCandidate(ws, c, m);
  }

  /** The label of every free candidate start is emitted. */
  lemma {:induction false} CandidateEmitted(ws: seq<AvailabilityRow>, c: SlotContext, m: int)
    requires c.step > 0 && IsCandidate(ws, c, m) && !ConflictsAt(c, m)
    ensures SlotLabel(m) in Emitted(ws, c)
  {
    var init, last := ws[..|ws| - 1], ws[|ws| - 1];
    var a :| a in ws && m in Starts(a.startMinute, a.endMinute, c.step, c.duration);
    assert ws == init + [last];
    if a == last {
      KeepAllMembership(Starts(last.startMinute, last.endMinute, c.step, c.duration), c, SlotLabel(m));
    } else {
      assert a in init;
      assert IsCandidate(init, c, m);
      CandidateEmitted(init, c, m);
    }
  }

  /** A slot is offered exactly when it is the label of a candidate start in one
      of the therapist's windows for the resolved weekday, and no booking of the
      therapist starting within the local day (whatever its status) overlaps it
      under the half-open test. The list is strictly ascending, hence duplicate-free. */
  lemma SlotMembership(q: SlotQuery, availability: seq<AvailabilityRow>, bookings: seq<Booking>, s: string)
    requires StepOf(q) > 0
    requires Present(q.therapistId) && q.date.Some?
    ensures var resp := SlotsResponseFor(q, availability, bookings);
            var tid, day, z := q.therapistId.value, q.date.value, ZoneOf(q);
            var c := SlotContext(day, z, StepOf(q), DurationOf(q),
                                 BookingsStartingIn(bookings, tid, GetUtcRangeForLocalDate(day, z)));
            && resp.SlotList?
            && StrictlyAscending(resp.slots)
            && (s in resp.slots <==>
                exists m :: IsCandidate(WindowsFor(availability, tid, GetLocalDayOfWeek(day, z)), c, m)
                            && !ConflictsAt(c, m) && s == SlotLabel(m))
  {
    var tid, day, z := q.therapistId.value, q.date.value, ZoneOf(q);
    var avail := WindowsFor(availability, tid, GetLocalDayOfWeek(day, z));
    var c := SlotContext(day, z, StepOf(q), DurationOf(q),
                         BookingsStartingIn(bookings, tid, GetUtcRangeForLocalDate(day, z)));
    EmittedMembership(avail, c, s);
  }

  /** Every offered start fits its window and no fetched booking overlaps it. */
  lemma OfferedSlotFitsAndIsFree(ws: seq<AvailabilityRow>, c: SlotContext, m: int, b: Booking)
    requires c.step > 0
    requires IsCandidate(ws, c, m) && !ConflictsAt(c, m)
    requires b in c.fetched
    ensures exists a :: a in ws && a.startMinute <= m && m + c.duration <= a.endMinute
    ensures !Overlaps(SlotUtc(c, m).start, SlotUtc(c, m).end, b.start, b.end)
  {
    var a :| a in ws && m in Starts(a.startMinute, a.endMinute, c.step, c.duration);
    StartsIff(a.startMinute, a.endMinute, c.step, c.duration, m);
    var k :| 0 <= k && m == Nth(a.startMinute, c.step, k);
    NonNegativeSteps(k, c.step);
    assert a.startMinute <= m && m + c.duration <= a.endMinute;
    var slot := SlotUtc(c, m);
    assert !(b in c.fetched && Overlaps(slot.start, slot.end, b.start, b.end));
  }

  /** Bookings that start at or after the slot's end, or end at or before its
      start, are no conflict: in particular a booking starting exactly when the
      slot ends. */
  lemma TouchingBookingIsNoConflict(c: SlotContext, m: int)
    requires forall b :: b in c.fetched ==> SlotUtc(c, m).end <= b.start || b.end <= SlotUtc(c, m).start
    ensures !ConflictsAt(c, m)
  {
  }

  /** With a non-positive `slotMinutes` the handler returns only when no window
      holds a session, and then it offers no slot. */
  lemma NonPositiveStepOffersNothing(q: SlotQuery, availability: seq<AvailabilityRow>, bookings: seq<Booking>)
    requires Halts(q, availability) && StepOf(q) <= 0
    requires Present(q.therapistId) && q.date.Some?
    ensures var resp := SlotsResponseFor(q, availability, bookings);
            resp.SlotList? && resp.slots == []
  {
    var tid, day, z := q.therapistId.value, q.date.value, ZoneOf(q);
    var avail := WindowsFor(availability, tid, GetLocalDayOfWeek(day, z));
    var c := SlotContext(day, z, StepOf(q), DurationOf(q),
                         BookingsStartingIn(bookings, tid, GetUtcRangeForLocalDate(day, z)));
    ShortWindowsEmitNothing(avail, c);
  }

  lemma {:induction false} ShortWindowsEmitNothing(ws: seq<AvailabilityRow>, c: SlotContext)
    requires forall a :: a in ws ==> TooShort(a, c.duration)
    ensures Emitted(ws, c) == []
  {
    if ws != [] {
      assert ws[|ws| - 1] in ws;
      ShortWindowsEmitNothing(ws[..|ws| - 1], c);
    }
  }

  /** The slots route's conversion and the create route's agree only at offset 0. */
  lemma SlotAndBookingConversionsAgreeOnlyInUtc(day: int, m: int, z: Zone)
    ensures ViaLocaleString(SlotLocal(day, m), z) == ToUtcStartEnd(day, m, z, DefaultDurationMinutes).start
            <==> z.offsetMinutes == 0
  {
  }
}
