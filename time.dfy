/** lib/time.ts: the local/UTC conversions used by both booking routes.

    The model fixes two things the code leaves to its environment.
    - The server's clock runs in UTC, so `new Date("YYYY-MM-DDTHH:mm:ss")` reads
      the wall clock as a UTC instant.
    - A time zone is a name with a fixed offset (local time minus UTC, in
      minutes); daylight saving time is not modelled.
    Instants are whole seconds since 1970-01-01T00:00:00Z, dates are day numbers
    counted from 1970-01-01, which was a Thursday. */
module Time {

  /** A time zone reduced to its name and fixed offset: local = UTC + offsetMinutes. */
  datatype Zone = Zone(name: string, offsetMinutes: int)

  /** The zone used when a request names none. */
  const Utc: Zone := Zone("UTC", 0)

  const SecondsPerDay: int := 86400

  /** A well-formed `HH:mm` wall-clock time, as minutes since local midnight. */
  type MinuteOfDay = m: int | 0 <= m < 1440

  /** The default `durationMinutes` of `toUtcStartEndISO` and of both routes. */
  const DefaultDurationMinutes: int := 45

  /** `new Date(`${date}T${hh}:${mm}:${ss}`)` on the UTC server clock. */
  function ParseLocal(day: int, secondOfDay: int): int {
    day * SecondsPerDay + secondOfDay
  }

  /** date-fns-tz `zonedTimeToUtc`: a wall clock read in zone `z` to the UTC instant. */
  function ZonedTimeToUtc(wall: int, z: Zone): int {
    wall - z.offsetMinutes * 60
  }

  /** date-fns-tz `utcToZonedTime`: a Date whose server-local fields show the
      wall clock that `instant` has in zone `z`. */
  function UtcToZonedTime(instant: int, z: Zone): int {
    instant + z.offsetMinutes * 60
  }

  /** `Date.prototype.getDay()` on the UTC server clock, Sunday = 0. */
  function GetDay(instant: int): (r: int)
    ensures 0 <= r < 7
  {
    (instant / SecondsPerDay + 4) % 7
  }

  /** The weekday of calendar day `day`, Sunday = 0. */
  function CalendarWeekday(day: int): (r: int)
    ensures 0 <= r < 7
  {
    (day + 4) % 7
  }

  datatype UtcRange = UtcRange(startUtc: int, endUtc: int)

  /** `getUtcRangeForLocalDate`: the instants of local 00:00:00 and 23:59:59 of `day` in `z`. */
  function GetUtcRangeForLocalDate(day: int, z: Zone): (r: UtcRange)
    ensures r.endUtc - r.startUtc == SecondsPerDay - 1
  {
    UtcRange(ZonedTimeToUtc(ParseLocal(day, 0), z), ZonedTimeToUtc(ParseLocal(day, SecondsPerDay - 1), z))
  }

  datatype UtcInterval = UtcInterval(start: int, end: int)

  /** `toUtcStartEndISO`: local `day` at minute `timeMinutes` in `z`, as a UTC
      start and the end `durationMinutes` later. */
  function ToUtcStartEnd(day: int, timeMinutes: int, z: Zone, durationMinutes: int): (r: UtcInterval)
    ensures r.end - r.start == durationMinutes * 60
  {
    var start := ZonedTimeToUtc(ParseLocal(day, timeMinutes * 60), z);
    UtcInterval(start, start + durationMinutes * 60)
  }

  /** `getLocalDayOfWeek`: the weekday of local noon of `day`, moved into `z`. */
  function GetLocalDayOfWeek(day: int, z: Zone): (r: int)
    ensures 0 <= r < 7
  {
    GetDay(UtcToZonedTime(ParseLocal(day, SecondsPerDay / 2), z))
  }

  /** For every offset from -12:00 up to (not including) +12:00, the noon reference
      yields the true weekday of the requested date. */
  lemma DayOfWeekIsCalendarWeekday(day: int, z: Zone)
    requires -720 <= z.offsetMinutes < 720
    ensures GetLocalDayOfWeek(day, z) == CalendarWeekday(day)
  {
    var instant := UtcToZonedTime(ParseLocal(day, SecondsPerDay / 2), z);
    assert day * SecondsPerDay <= instant < (day + 1) * SecondsPerDay;
    assert instant / SecondsPerDay == day;
  }

  /** From +12:00 on (Chatham +12:45, Tonga +13:00, Kiritimati +14:00) the noon
      reference moved into the zone crosses midnight: the weekday returned is the
      one after the requested date's. */
  lemma FarEastZoneShiftsWeekday(day: int, z: Zone)
    requires 720 <= z.offsetMinutes < 2160
    ensures GetLocalDayOfWeek(day, z) == CalendarWeekday(day + 1)
  {
    var instant := UtcToZonedTime(ParseLocal(day, SecondsPerDay / 2), z);
    assert (day + 1) * SecondsPerDay <= instant < (day + 2) * SecondsPerDay;
    assert instant / SecondsPerDay == day + 1;
  }

  /** The day range and a booking start go through the same conversion: local
      00:00 of `day` is the start of the range, local 23:59 lies inside it. */
  lemma {:induction false} LocalDayMapsIntoRange(day: int, z: Zone, m: int, d: int)
    requires 0 <= m < 1440
    ensures GetUtcRangeForLocalDate(day, z).startUtc == ToUtcStartEnd(day, 0, z, d).start
    ensures var r := GetUtcRangeForLocalDate(day, z);
            r.startUtc <= ToUtcStartEnd(day, m, z, d).start <= r.endUtc
  {
  }

  /** Round trip: moving the UTC start back into the zone gives the requested
      wall clock, hence the requested date and minute of the day. */
  lemma LocalTimeRoundTrip(day: int, m: int, z: Zone, d: int)
    requires 0 <= m < 1440
    ensures var wall := UtcToZonedTime(ToUtcStartEnd(day, m, z, d).start, z);
            wall / SecondsPerDay == day && (wall % SecondsPerDay) / 60 == m
  {
    var wall := UtcToZonedTime(ToUtcStartEnd(day, m, z, d).start, z);
    assert wall == day * SecondsPerDay + m * 60;
    assert 0 <= m * 60 < SecondsPerDay;
    assert wall / SecondsPerDay == day;
    assert wall % SecondsPerDay == m * 60;
  }
}
