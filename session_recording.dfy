/** components/video/session-recording.tsx: the session recorder. A timer
    counts the seconds of an active recording; stopping it saves a recording
    at the head of the list. Durations are shown as `H:MM:SS` or `M:SS`.
    Screen capture, the media recorder and its blob are outside the model:
    whether capture was granted and the blob's size are parameters, and
    `Date.now()` is `now`. */
module SessionRecording {
  import opened Wrappers
  import opened Text

  // ---------------------------------------------------------------------------
  // formatTime

  /** JavaScript's `x % m` for a non-negative `x`. */
  function JsMod(x: real, m: real): (r: real)
    requires x >= 0.0 && m > 0.0
  {
    x - m * (x / m).Floor as real
  }

  /** Dividing by `m` and flooring depends only on the floor of `x`. */
  lemma FloorOfQuotient(x: real, m: nat)
    requires x >= 0.0 && m > 0
    ensures (x / m as real).Floor == x.Floor / m
  {
    var n, q := x.Floor, x.Floor / m;
    assert q * m <= n < q * m + m;
    var y := x / m as real;
    assert y * m as real == x;
    assert (q * m) as real <= x < (q * m + m) as real;
    ScaleBack(y, q, m);
  }

  lemma ScaleBack(y: real, q: int, m: nat)
    requires m > 0 && (q * m) as real <= y * m as real < (q * m + m) as real
    ensures q as real <= y < (q + 1) as real
  {
    assert (q * m) as real == q as real * m as real;
    assert (q * m + m) as real == (q + 1) as real * m as real;
  }

  /** The JavaScript remainder floors to the integer remainder of the floor. */
  lemma FloorOfRemainder(x: real, m: nat)
    requires x >= 0.0 && m > 0
    ensures JsMod(x, m as real) >= 0.0
    ensures JsMod(x, m as real).Floor == x.Floor % m
  {
    FloorOfQuotient(x, m);
    var q := x.Floor / m;
    assert JsMod(x, m as real) == x - (m * q) as real;
    assert x.Floor == m * q + x.Floor % m;
  }

  /** The three numbers `formatTime` shows. */
  datatype Clock = Clock(hours: nat, minutes: nat, secs: nat)

  /** `Math.floor(seconds / 3600)`, `Math.floor((seconds % 3600) / 60)` and
      `Math.floor(seconds % 60)`: the whole seconds split into hours, minutes
      below 60 and seconds below 60. */
  function ClockOf(seconds: real): (c: Clock)
    requires seconds >= 0.0
    ensures c.minutes < 60 && c.secs < 60
    ensures c.hours * 3600 + c.minutes * 60 + c.secs == seconds.Floor
  {
    ClockFloors(seconds);
    SplitSeconds(seconds.Floor);
    Clock((seconds / 3600.0).Floor, (JsMod(seconds, 3600.0) / 60.0).Floor, JsMod(seconds, 60.0).Floor)
  }

  lemma ClockFloors(seconds: real)
    requires seconds >= 0.0
    ensures var n := seconds.Floor;
      && (seconds / 3600.0).Floor == n / 3600
      && (JsMod(seconds, 3600.0) / 60.0).Floor == n % 3600 / 60
      && JsMod(seconds, 60.0).Floor == n % 60
  {
    FloorOfQuotient(seconds, 3600);
    FloorOfRemainder(seconds, 3600);
    FloorOfQuotient(JsMod(seconds, 3600.0), 60);
    FloorOfRemainder(seconds, 60);
  }

  lemma SplitSeconds(n: int)
    requires n >= 0
    ensures n % 3600 / 60 < 60
    ensures n / 3600 * 3600 + n % 3600 / 60 * 60 + n % 60 == n
  {
    var h, r := n / 3600, n % 3600;
    var mm, s := r / 60, r % 60;
    assert n == 3600 * h + r && r == 60 * mm + s;
    assert n == 60 * (60 * h + mm) + s;
  }

  /** A non-empty run of decimal digits. */
  predicate Numeral(s: string) {
    |s| > 0 && forall i :: 0 <= i < |s| ==> IsDigit(s[i])
  }

  /** Reads a clock text back into whole seconds: `M:SS`, or `H:MM:SS` with
      the minutes in two digits; minutes and seconds in two digits stay
      below 60. Anything else reads as nothing. */
  function ReadClock(s: string): Option<nat> {
    if |s| < 4 || s[|s| - 3] != ':' || !Numeral(s[|s| - 2..]) then None
    else
      var head, ss := s[..|s| - 3], DigitsValue(s[|s| - 2..]);
      if ss >= 60 then None
      else if Numeral(head) then Some(DigitsValue(head) * 60 + ss)
      else if |head| < 4 || head[|head| - 3] != ':' || !Numeral(head[..|head| - 3]) || !Numeral(head[|head| - 2..]) then None
      else
        var mm := DigitsValue(head[|head| - 2..]);
        if mm >= 60 then None else Some(DigitsValue(head[..|head| - 3]) * 3600 + mm * 60 + ss)
  }

  /** Joining `head`, a colon and two characters can be taken apart again. */
  lemma ColonSplit(head: string, p: string)
    requires |p| == 2
    ensures var t := head + ":" + p;
      |t| == |head| + 3 && t[..|t| - 3] == head && t[|t| - 3] == ':' && t[|t| - 2..] == p
  {
    var t := head + ":" + p;
    assert t[..|t| - 3] == head;
    assert t[|t| - 2..] == p;
  }

  /** `M:SS` reads back as `M` minutes and `SS` seconds. */
  lemma MinutesTextReadsBack(m: nat, secs: nat)
    requires secs < 60
    ensures ReadClock(NatToString(m) + ":" + Pad2(secs)) == Some(m * 60 + secs)
  {
    Pad2Reads(secs);
    ColonSplit(NatToString(m), Pad2(secs));
    DigitsOfNat(m);
  }

  /** `H:MM:SS` reads back as `H` hours, `MM` minutes and `SS` seconds. */
  lemma HoursTextReadsBack(h: nat, m: nat, secs: nat)
    requires m < 60 && secs < 60
    ensures ReadClock(NatToString(h) + ":" + Pad2(m) + ":" + Pad2(secs)) == Some(h * 3600 + m * 60 + secs)
  {
    var hm := NatToString(h) + ":" + Pad2(m);
    Pad2Reads(m);
    Pad2Reads(secs);
    ColonSplit(NatToString(h), Pad2(m));
    ColonSplit(hm, Pad2(secs));
    assert !IsDigit(hm[|hm| - 3]);
    DigitsOfNat(h);
  }

  /** `formatTime(seconds)`: `H:MM:SS` once there is an hour, else `M:SS`;
      either way the text reads back as the whole seconds shown. */
  function FormatTime(seconds: real): (s: string)
    requires seconds >= 0.0
    ensures ReadClock(s) == Some(seconds.Floor)
  {
    var c := ClockOf(seconds);
    if c.hours > 0 then
      HoursTextReadsBack(c.hours, c.minutes, c.secs);
      NatToString(c.hours) + ":" + Pad2(c.minutes) + ":" + Pad2(c.secs)
    else
      MinutesTextReadsBack(c.minutes, c.secs);
      NatToString(c.minutes) + ":" + Pad2(c.secs)
  }

  /** Two readings within the same whole second print the same. */
  lemma FormatTimeDependsOnFloor(a: real, b: real)
    requires a >= 0.0 && b >= 0.0 && a.Floor == b.Floor
    ensures FormatTime(a) == FormatTime(b)
  {
    var ca, cb := ClockOf(a), ClockOf(b);
    ClockUnique(ca, cb);
  }

  /** Hours, minutes below 60 and seconds below 60 are fixed by their total. */
  lemma ClockUnique(c: Clock, d: Clock)
    requires c.minutes < 60 && c.secs < 60 && d.minutes < 60 && d.secs < 60
    requires c.hours * 3600 + c.minutes * 60 + c.secs == d.hours * 3600 + d.minutes * 60 + d.secs
    ensures c == d
  {
    var t := c.hours * 3600 + c.minutes * 60 + c.secs;
    DivModUnique(t, 3600, c.hours, c.minutes * 60 + c.secs);
    DivModUnique(t, 3600, d.hours, d.minutes * 60 + d.secs);
    var r := t % 3600;
    DivModUnique(r, 60, c.minutes, c.secs);
    DivModUnique(r, 60, d.minutes, d.secs);
  }

  /** Quotient and remainder are the only such pair. */
  lemma DivModUnique(t: int, m: int, q: int, r: int)
    requires m > 0 && 0 <= r < m && t == q * m + r
    ensures q == t / m && r == t % m
  {
    var q', r' := t / m, t % m;
    assert t == q' * m + r';
    if q > q' {
      MulStep(q' + 1, q, m);
    } else if q < q' {
      MulStep(q + 1, q', m);
    }
  }

  lemma MulStep(a: int, b: int, m: int)
    requires a <= b && m > 0
    ensures a * m <= b * m && a * m == (a - 1) * m + m
  {
  }

  /** A duration under an hour shows minutes and zero-padded seconds only;
      from an hour on the minutes are zero-padded too. */
  lemma FormatTimeShape(seconds: real)
    requires seconds >= 0.0
    ensures seconds < 3600.0 ==> |FormatTime(seconds)| == |NatToString(ClockOf(seconds).minutes)| + 3
    ensures seconds >= 3600.0 ==> |FormatTime(seconds)| == |NatToString(ClockOf(seconds).hours)| + 6
  {
    var c := ClockOf(seconds);
    if seconds < 3600.0 {
      assert seconds.Floor < 3600;
      assert c.hours == 0;
    } else {
      assert seconds.Floor >= 3600;
      assert c.hours > 0;
    }
  }

  // ---------------------------------------------------------------------------
  // Recording

  datatype RecordingStatus = Processing | Ready | Failed

  datatype Recording = Recording(
    id: string, sessionId: string, patientName: string, therapistName: string,
    duration: int, size: int, createdAt: int, status: RecordingStatus,
    url: Option<string>, thumbnail: Option<string>)

  /** The recorder's state. `startTime` is the `recordingTime` seen by the
      render that started the recording: the `onstop` handler closes over it. */
  datatype Recorder = Recorder(
    recordings: seq<Recording>, isRecording: bool, recordingTime: nat,
    hasRecorder: bool, startTime: nat)

  /** `startRecording()`: without capture permission only a toast is shown. */
  function StartRecording(r: Recorder, granted: bool): (r': Recorder)
    ensures !granted ==> r' == r
    ensures granted ==> r' == r.(isRecording := true, hasRecorder := true, startTime := r.recordingTime)
  {
    if !granted then r
    else r.(isRecording := true, hasRecorder := true, startTime := r.recordingTime)
  }

  /** One tick of the one-second interval, which runs only while recording. */
  function Tick(r: Recorder): (r': Recorder)
    ensures r'.recordingTime == if r.isRecording then r.recordingTime + 1 else r.recordingTime
    ensures r' == r.(recordingTime := r'.recordingTime)
  {
    if r.isRecording then r.(recordingTime := r.recordingTime + 1) else r
  }

  /** `stopRecording()`: nothing happens unless a recorder exists and is
      recording. The recorder reference is kept. */
  function StopRecording(r: Recorder): (r': Recorder)
    ensures !(r.hasRecorder && r.isRecording) ==> r' == r
    ensures r.hasRecorder && r.isRecording ==> r' == r.(isRecording := false)
  {
    if r.hasRecorder && r.isRecording then r.(isRecording := false) else r
  }

  /** The recording `onstop` builds; its duration is the captured `startTime`. */
  function NewRecording(r: Recorder, now: nat, size: int, url: string): (rec: Recording)
    ensures rec.duration == r.startTime && rec.id == NatToString(now)
    ensures rec.status == Ready && rec.url == Some(url) && rec.thumbnail.None?
  {
    Recording(NatToString(now), "session-" + NatToString(now), "Current Patient", "Current Therapist",
              r.startTime, size, now, Ready, Some(url), None)
  }

  /** `onstop`: the new recording goes first, the earlier ones follow in their
      order, and the timer is reset. */
  function OnStop(r: Recorder, now: nat, size: int, url: string): (r': Recorder)
    ensures |r'.recordings| == |r.recordings| + 1
    ensures r'.recordings[0] == NewRecording(r, now, size, url) && r'.recordings[1..] == r.recordings
    ensures r'.recordingTime == 0
    ensures r'.isRecording == r.isRecording && r'.hasRecorder == r.hasRecorder
  {
    r.(recordings := [NewRecording(r, now, size, url)] + r.recordings, recordingTime := 0)
  }

  /** However long it ran, a recording started on a reset timer is saved with
      duration 0: `onstop` sees the `recordingTime` of the render that created it. */
  lemma {:induction false} SavedDurationIsStartTime(r: Recorder, ticks: nat, now: nat, size: int, url: string)
    requires r.recordingTime == 0
    ensures var running := TickN(StartRecording(r, true), ticks);
            OnStop(StopRecording(running), now, size, url).recordings[0].duration == 0
  {
    TickNKeepsStart(StartRecording(r, true), ticks);
  }

  function TickN(r: Recorder, n: nat): Recorder {
    if n == 0 then r else Tick(TickN(r, n - 1))
  }

  lemma {:induction false} TickNKeepsStart(r: Recorder, n: nat)
    ensures TickN(r, n).startTime == r.startTime
    ensures TickN(r, n).recordingTime == if r.isRecording then r.recordingTime + n else r.recordingTime
    ensures TickN(r, n).isRecording == r.isRecording && TickN(r, n).hasRecorder == r.hasRecorder
  {
    if n > 0 {
      TickNKeepsStart(r, n - 1);
    }
  }
}
