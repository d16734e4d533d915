/** app/api/bookings/create/route.ts: `POST /api/bookings/create`, which books a
    session for the signed-in patient after checking the therapist's availability
    and the existing bookings.

    The guard chain is the pure function `Decide`; `BookingStore.Create` runs it
    against the stored bookings and appends the new row. */
module CreateBooking {
  import opened Wrappers
  import opened Text
  import opened Time
  import opened Bookings

  /** Every booking is inserted at this price, pending the therapist's decision. */
  const SessionPriceCents: int := 5000
  const SessionCurrency: string := "INR"

  /** The JSON body. A missing or empty (falsy) field is `None`; `time` is a
      well-formed `HH:mm`. `timezone` and `durationMinutes` default only when absent. */
  datatype BookingRequest = BookingRequest(
    therapistId: Option<string>,
    date: Option<int>,
    time: Option<MinuteOfDay>,
    timezone: Option<Zone>,
    durationMinutes: Option<int>)

  datatype CreateOutcome =
    | MissingFields
    | Unauthorized
    | NoAvailability
    | OutsideWindow
    | SlotTaken
    | InsertFailed(message: string)
    | Created(booking: Booking)

  /** The HTTP status the route answers each outcome with. */
  function StatusCode(o: CreateOutcome): (code: int)
    ensures code == 200 <==> o.Created?
    ensures code == 401 <==> o.Unauthorized?
    ensures code == 409 <==> o.SlotTaken?
    ensures code == 400 <==> o.MissingFields? || o.NoAvailability? || o.OutsideWindow? || o.InsertFailed?
  {
    match o
    case MissingFields => 400
    case Unauthorized => 401
    case NoAvailability => 400
    case OutsideWindow => 400
    case SlotTaken => 409
    case InsertFailed(_) => 400
    case Created(_) => 200
  }

  predicate HasRequiredFields(req: BookingRequest) {
    req.therapistId.Some? && req.therapistId.value != "" && req.date.Some? && req.time.Some?
  }

  function ZoneOf(req: BookingRequest): Zone { req.timezone.GetOr(Utc) }

  function DurationOf(req: BookingRequest): int { req.durationMinutes.GetOr(DefaultDurationMinutes) }

  /** `endLocal`: the `HH:mm` wall clock `d` minutes after `t` on the UTC server
      clock; it wraps past midnight. */
  function EndLocal(t: MinuteOfDay, d: int): string {
    HHmm((t + d) % 1440)
  }

  /** `within`: some window starts by `t` and ends no earlier than `endLocal`,
      both compared as `HH:mm` strings. */
  predicate Within(avail: seq<AvailabilityRow>, t: MinuteOfDay, d: int) {
    exists a :: a in avail && LabelsInside(a, t, d)
  }

  /** The callback of `avail.some`. */
  predicate LabelsInside(a: AvailabilityRow, t: MinuteOfDay, d: int) {
    LexLe(HHmm(a.startMinute), HHmm(t)) && LexLe(EndLocal(t, d), HHmm(a.endMinute))
  }

  predicate InsideWindow(a: AvailabilityRow, t: int, d: int) {
    a.startMinute <= t && t + d <= a.endMinute
  }

  /** The conflicts query: a booking of the therapist, of any status, starting
      before the new end and ending after the new start. */
  predicate HasConflict(bookings: seq<Booking>, therapistId: string, iv: UtcInterval) {
    exists b :: b in bookings && b.therapistId == therapistId && b.start < iv.end && b.end > iv.start
  }

  /** The row the route inserts for patient `patientId`. */
  function NewBooking(req: BookingRequest, patientId: string): (b: Booking)
    requires HasRequiredFields(req)
    ensures b.end - b.start == DurationOf(req) * 60
    ensures b.status == Pending && b.amountCents == SessionPriceCents && b.currency == SessionCurrency
  {
    var iv := ToUtcStartEnd(req.date.value, req.time.value, ZoneOf(req), DurationOf(req));
    Booking(patientId, req.therapistId.value, iv.start, iv.end, ZoneOf(req).name, Pending, SessionPriceCents, SessionCurrency)
  }

  /** The therapist's windows on the request's local weekday. */
  function RequestWindows(req: BookingRequest, availability: seq<AvailabilityRow>): seq<AvailabilityRow>
    requires HasRequiredFields(req)
  {
    WindowsFor(availability, req.therapistId.value, GetLocalDayOfWeek(req.date.value, ZoneOf(req)))
  }

  /** The requested session in UTC, as `toUtcStartEndISO` gives it. */
  function RequestInterval(req: BookingRequest): UtcInterval
    requires HasRequiredFields(req)
  {
    ToUtcStartEnd(req.date.value, req.time.value, ZoneOf(req), DurationOf(req))
  }

  /** The route's answer. `user` is the signed-in user's id, `availability` and
      `bookings` the two tables, `conflictsFailed` whether the conflicts query
      reports an error (its `data` is then null and the guard lets the request
      through), `insertError` what the insert reports. */
  function Decide(req: BookingRequest, user: Option<string>, availability: seq<AvailabilityRow>,
                  bookings: seq<Booking>, conflictsFailed: bool, insertError: Option<string>): (o: CreateOutcome)
    ensures o.Created? ==> HasRequiredFields(req) && user.Some? && o.booking == NewBooking(req, user.value)
    // The guards run in order and the first one that fails decides the answer.
    ensures o.MissingFields? <==> !HasRequiredFields(req)
    ensures o.Unauthorized? <==> HasRequiredFields(req) && user.None?
    ensures o.NoAvailability? <==> HasRequiredFields(req) && user.Some? && RequestWindows(req, availability) == []
    ensures o.OutsideWindow? <==>
      && HasRequiredFields(req) && user.Some? && RequestWindows(req, availability) != []
      && !Within(RequestWindows(req, availability), req.time.value, DurationOf(req))
    ensures o.SlotTaken? <==>
      && HasRequiredFields(req) && user.Some? && RequestWindows(req, availability) != []
      && Within(RequestWindows(req, availability), req.time.value, DurationOf(req))
      && !conflictsFailed && HasConflict(bookings, req.therapistId.value, RequestInterval(req))
    ensures o.InsertFailed? <==>
      && HasRequiredFields(req) && user.Some? && RequestWindows(req, availability) != []
      && Within(RequestWindows(req, availability), req.time.value, DurationOf(req))
      && (conflictsFailed || !HasConflict(bookings, req.therapistId.value, RequestInterval(req)))
      && insertError.Some?
    ensures o.InsertFailed? ==> o.message == insertError.value
  {
    if !HasRequiredFields(req) then MissingFields
    else if user.None? then Unauthorized
    else
      var tid, day, t, z, d := req.therapistId.value, req.date.value, req.time.value, ZoneOf(req), DurationOf(req);
      var avail := WindowsFor(availability, tid, GetLocalDayOfWeek(day, z));
      if avail == [] then NoAvailability
      else if !Within(avail, t, d) then OutsideWindow
      else if !conflictsFailed && HasConflict(bookings, tid, ToUtcStartEnd(day, t, z, d)) then SlotTaken
      else if insertError.Some? then InsertFailed(insertError.value)
      else Created(NewBooking(req, user.value))
  }

  /** No two bookings of one therapist overlap. */
  ghost predicate NoDoubleBooking(bs: seq<Booking>) {
    forall i, j :: 0 <= i < j < |bs| && bs[i].therapistId == bs[j].therapistId
      ==> !Overlaps(bs[i].start, bs[i].end, bs[j].start, bs[j].end)
  }

  /** The `bookings` table as this route sees it. */
  class BookingStore {
    var bookings: seq<Booking>

    constructor ()
      ensures bookings == [] && NoDoubleBooking(bookings)
    {
      bookings := [];
    }

    /** Handles one request; on success the new row is appended. The table stays
        free of double bookings as long as the conflicts query answers. */
    method Create(req: BookingRequest, user: Option<string>, availability: seq<AvailabilityRow>,
                  conflictsFailed: bool, insertError: Option<string>) returns (o: CreateOutcome)
      modifies this
      ensures o == Decide(req, user, availability, old(bookings), conflictsFailed, insertError)
      ensures bookings == if o.Created? then old(bookings) + [o.booking] else old(bookings)
      ensures old(NoDoubleBooking(bookings)) && !conflictsFailed ==> NoDoubleBooking(bookings)
    {
      o := Decide(req, user, availability, bookings, conflictsFailed, insertError);
      if o.Created? {
        if NoDoubleBooking(bookings) && !conflictsFailed {
          CreatePreservesNoDoubleBooking(req, user, availability, bookings, insertError);
        }
        bookings := bookings + [o.booking];
      }
    }
  }

  // ---------------------------------------------------------------------------
  // Properties

  /** A booking is created exactly when every guard passes, and it is a pending
      INR 50.00 row for the signed-in patient at the requested time. */
  lemma CreatedIffGuardsPass(req: BookingRequest, user: Option<string>, availability: seq<AvailabilityRow>,
                             bookings: seq<Booking>, conflictsFailed: bool, insertError: Option<string>)
    ensures var o := Decide(req, user, availability, bookings, conflictsFailed, insertError);
      o.Created? <==>
        && HasRequiredFields(req) && user.Some? && insertError.None?
        && var avail := WindowsFor(availability, req.therapistId.value, GetLocalDayOfWeek(req.date.value, ZoneOf(req)));
           && avail != []
           && Within(avail, req.time.value, DurationOf(req))
           && (conflictsFailed || !HasConflict(bookings, req.therapistId.value,
                                 ToUtcStartEnd(req.date.value, req.time.value, ZoneOf(req), DurationOf(req))))
    ensures var o := Decide(req, user, availability, bookings, conflictsFailed, insertError);
      o.Created? ==>
        && o.booking.patientId == user.value
        && o.booking.therapistId == req.therapistId.value
        && o.booking.status == Pending
        && o.booking.amountCents == 5000 && o.booking.currency == "INR"
        && UtcToZonedTime(o.booking.start, ZoneOf(req)) == ParseLocal(req.date.value, req.time.value * 60)
        && o.booking.end - o.booking.start == DurationOf(req) * 60
  {
  }

  /** The conflicts query is the half-open overlap test of the slots route. */
  lemma ConflictIsOverlap(bookings: seq<Booking>, therapistId: string, iv: UtcInterval)
    ensures HasConflict(bookings, therapistId, iv)
            <==> exists b :: b in bookings && b.therapistId == therapistId && Overlaps(iv.start, iv.end, b.start, b.end)
  {
  }

  /** Appending a booking that an answering conflicts query let through keeps the
      table free of double bookings. */
  lemma CreatePreservesNoDoubleBooking(req: BookingRequest, user: Option<string>, availability: seq<AvailabilityRow>,
                                       bookings: seq<Booking>, insertError: Option<string>)
    requires NoDoubleBooking(bookings)
    ensures var o := Decide(req, user, availability, bookings, false, insertError);
            o.Created? ==> NoDoubleBooking(bookings + [o.booking])
  {
    var o := Decide(req, user, availability, bookings, false, insertError);
    if o.Created? {
      var bs := bookings + [o.booking];
      var nb := o.booking;
      var iv := ToUtcStartEnd(req.date.value, req.time.value, ZoneOf(req), DurationOf(req));
      assert nb.start == iv.start && nb.end == iv.end && nb.therapistId == req.therapistId.value;
      forall i, j | 0 <= i < j < |bs| && bs[i].therapistId == bs[j].therapistId
        ensures !Overlaps(bs[i].start, bs[i].end, bs[j].start, bs[j].end)
      {
        if j == |bookings| {
          assert bs[i] in bookings;
        } else {
          assert bs[i] == bookings[i] && bs[j] == bookings[j];
        }
      }
    }
  }

  /** When the conflicts query fails, a request whose other guards pass is booked
      even over an existing booking of the therapist, and the table then holds a
      double booking. */
  lemma FailedConflictQueryAllowsDoubleBooking(req: BookingRequest, user: Option<string>,
                                               availability: seq<AvailabilityRow>, bookings: seq<Booking>)
    requires HasRequiredFields(req) && user.Some?
    requires var avail := WindowsFor(availability, req.therapistId.value, GetLocalDayOfWeek(req.date.value, ZoneOf(req)));
             avail != [] && Within(avail, req.time.value, DurationOf(req))
    requires HasConflict(bookings, req.therapistId.value,
                         ToUtcStartEnd(req.date.value, req.time.value, ZoneOf(req), DurationOf(req)))
    ensures var o := Decide(req, user, availability, bookings, true, None);
            o.Created? && !NoDoubleBooking(bookings + [o.booking])
  {
    var o := Decide(req, user, availability, bookings, true, None);
    var iv := ToUtcStartEnd(req.date.value, req.time.value, ZoneOf(req), DurationOf(req));
    var b :| b in bookings && b.therapistId == req.therapistId.value && b.start < iv.end && b.end > iv.start;
    var i :| 0 <= i < |bookings| && bookings[i] == b;
    var bs := bookings + [o.booking];
    assert bs[i] == b && bs[|bookings|] == o.booking;
    assert Overlaps(bs[i].start, bs[i].end, bs[|bookings|].start, bs[|bookings|].end);
  }

  /** A request that passes every guard but whose insert reports an error is
      answered 400, like the validation errors, not 500. */
  lemma InsertErrorIsBadRequest(req: BookingRequest, user: Option<string>, availability: seq<AvailabilityRow>,
                                bookings: seq<Booking>, conflictsFailed: bool, message: string)
    requires HasRequiredFields(req) && user.Some?
    requires RequestWindows(req, availability) != []
    requires Within(RequestWindows(req, availability), req.time.value, DurationOf(req))
    requires conflictsFailed || !HasConflict(bookings, req.therapistId.value, RequestInterval(req))
    ensures StatusCode(Decide(req, user, availability, bookings, conflictsFailed, Some(message))) == 400
  {
  }

  /** Between two `HH:mm` labels, `<=` as strings is `<=` on the minutes. */
  lemma HHmmLe(a: MinuteOfDay, b: MinuteOfDay)
    ensures LexLe(HHmm(a), HHmm(b)) <==> a <= b
  {
    HHmmOrder(a, b);
    HHmmInjective(a, b);
  }

  /** For a session that does not cross midnight, the string checks of `within`
      mean that the session lies inside one window, in minutes. */
  lemma WithinIffInsideWindow(avail: seq<AvailabilityRow>, t: MinuteOfDay, d: int)
    requires 0 <= t + d < 1440
    ensures Within(avail, t, d) <==> exists a :: a in avail && InsideWindow(a, t, d)
  {
    forall a | a in avail
      ensures LabelsInside(a, t, d) <==> InsideWindow(a, t, d)
    {
      LabelsInsideIff(a, t, d);
    }
  }

  /** The callback of `avail.some`, for one window. */
  lemma LabelsInsideIff(a: AvailabilityRow, t: MinuteOfDay, d: int)
    requires 0 <= t + d < 1440
    ensures LabelsInside(a, t, d) <==> InsideWindow(a, t, d)
  {
    var e: MinuteOfDay := t + d;
    assert (t + d) % 1440 == e;
    assert EndLocal(t, d) == HHmm(e);
    HHmmLe(a.startMinute, t);
    HHmmLe(e, a.endMinute);
    assert LabelsInside(a, t, d) == (LexLe(HHmm(a.startMinute), HHmm(t)) && LexLe(HHmm(e), HHmm(a.endMinute)));
  }

  /** `endLocal` wraps at midnight: a 45-minute session at 23:30 in a 22:00-23:59
      window passes the window check although it ends at 00:15 the next day. */
  lemma MidnightSessionPassesWindowCheck()
    ensures Within([AvailabilityRow("t", 0, 1320, 1439)], 1410, 45)
    ensures 1410 + 45 > 1439
  {
    var a := AvailabilityRow("t", 0, 1320, 1439);
    HHmmLe(1320, 1410);
    assert EndLocal(1410, 45) == HHmm(15);
    HHmmLe(15, 1439);
    assert LabelsInside(a, 1410, 45);
    assert a in [a];
  }
}
