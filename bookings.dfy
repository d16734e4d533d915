/** The booking data shared by the slots route and the create route: the rows
    of the `availability` and `bookings` tables, the half-open overlap test, and
    the availability query both routes issue. */
module Bookings {
  import opened Time

  datatype Status = Pending | Accepted | Rejected | Completed | Cancelled

  /** A row of the `bookings` table; `start` and `end` are UTC instants in seconds. */
  datatype Booking = Booking(
    patientId: string,
    therapistId: string,
    start: int,
    end: int,
    timezone: string,
    status: Status,
    amountCents: int,
    currency: string)

  /** A row of the `availability` table: a weekly window in local minutes of the
      day. The bounds are values of a SQL `time` column read as `HH:mm`, so they
      lie within one day. */
  datatype AvailabilityRow = AvailabilityRow(therapistId: string, dayOfWeek: int, startMinute: MinuteOfDay, endMinute: MinuteOfDay)

  /** The slots route's `overlaps(aStart, aEnd, bStart, bEnd)`. */
  predicate Overlaps(aStart: int, aEnd: int, bStart: int, bEnd: int) {
    aStart < bEnd && bStart < aEnd
  }

  /** Instant `t` lies in the half-open interval [start, end). */
  predicate InInterval(t: int, start: int, end: int) {
    start <= t < end
  }

  /** For non-empty intervals the overlap test is the half-open one: [aStart, aEnd)
      and [bStart, bEnd) share an instant exactly when the test holds, so touching
      intervals do not overlap. */
  lemma OverlapsIffSharedInstant(aStart: int, aEnd: int, bStart: int, bEnd: int)
    requires aStart < aEnd && bStart < bEnd
    ensures Overlaps(aStart, aEnd, bStart, bEnd)
            <==> exists t :: InInterval(t, aStart, aEnd) && InInterval(t, bStart, bEnd)
  {
    if Overlaps(aStart, aEnd, bStart, bEnd) {
      var t := if aStart < bStart then bStart else aStart;
      assert InInterval(t, aStart, aEnd) && InInterval(t, bStart, bEnd);
    }
  }

  /** `from("availability").eq("therapist_id", id).eq("day_of_week", dow)`: the
      therapist's windows for that weekday, in table order. */
  function WindowsFor(rows: seq<AvailabilityRow>, therapistId: string, dow: int): (r: seq<AvailabilityRow>)
    ensures |r| <= |rows|
    ensures forall a :: a in r <==> a in rows && a.therapistId == therapistId && a.dayOfWeek == dow
  {
    if rows == [] then []
    else
      var rest := WindowsFor(rows[1..], therapistId, dow);
      if rows[0].therapistId == therapistId && rows[0].dayOfWeek == dow then [rows[0]] + rest else rest
  }
}
