/** The competition's fixed time zone (`CompTZ`, src/main.rs) and the `%H:%M`
    text of an instant in it. Instants are BSON date-times: milliseconds since
    the Unix epoch, in UTC. */
module CompTime {
  import opened Wrappers

  /** Hours the competition lies west of UTC (EDT). */
  const TzOffsetHours: int := 4

  const SecondsPerDay: int := 86_400
  const MillisPerMinute: int := 60_000
  const MillisPerDay: int := 86_400_000

  /** chrono's `FixedOffset::west_opt(secs)`: the offset east of UTC, in
      seconds, of a zone `secs` seconds west of it; `None` unless that is
      strictly less than a day either way. */
  function WestOpt(secs: int): (r: Option<int>)
    ensures r.Some? <==> -SecondsPerDay < secs < SecondsPerDay
    ensures r.Some? ==> r.value + secs == 0
  {
    if -SecondsPerDay < secs < SecondsPerDay then Some(-secs) else None
  }

  /** `CompTZ::fix`: the zone's offset east of UTC in seconds. The `unwrap`
      on `west_opt` never fails for the four-hour offset. */
  function CompOffset(): (o: int)
    ensures o == -4 * 3600
  {
    WestOpt(TzOffsetHours * 60 * 60).value
  }

  /** An hour and a minute of the day. */
  datatype ClockTime = ClockTime(hour: nat, minute: nat)

  /** Whether `(h, m)` is the wall-clock minute, in the competition zone, of
      the instant `ms`: the zone's local milliseconds, less `h:m`, leave less
      than a minute modulo whole days. */
  ghost predicate ShowsInstant(ms: int, h: nat, m: nat) {
    h < 24 && m < 60 &&
    (ms + CompOffset() * 1000 - (h * 60 + m) * MillisPerMinute) % MillisPerDay < MillisPerMinute
  }

  /** The `%H` and `%M` of `ms` in the competition zone, computed as chrono does:
      whole seconds, shifted by the offset, taken modulo a day. */
  function LocalClock(ms: int): (t: ClockTime)
    ensures ShowsInstant(ms, t.hour, t.minute)
  {
    var secs := (ms / 1000 + CompOffset()) % SecondsPerDay;
    ClockTime(secs / 3600, secs % 3600 / 60)
  }

  /** The clock minute shown for an instant is the only one that fits it. */
  lemma ShowsInstantUnique(ms: int, h: nat, m: nat)
    requires ShowsInstant(ms, h, m)
    ensures LocalClock(ms) == ClockTime(h, m)
  {
    var t := LocalClock(ms);
    var local := ms + CompOffset() * 1000;
    var u, v := h * 60 + m, t.hour * 60 + t.minute;
    var x, y := (local - u * MillisPerMinute) % MillisPerDay, (local - v * MillisPerMinute) % MillisPerDay;
    var qx, qy := (local - u * MillisPerMinute) / MillisPerDay, (local - v * MillisPerMinute) / MillisPerDay;
    assert local - u * MillisPerMinute == qx * MillisPerDay + x;
    assert local - v * MillisPerMinute == qy * MillisPerDay + y;
    assert (v - u) * MillisPerMinute == (qx - qy) * MillisPerDay + (x - y);
    assert 0 <= u < 1440 && 0 <= v < 1440;
    assert u == v;
  }

  /** The ASCII digit for `n`. */
  function Digit(n: nat): (c: char)
    requires n < 10
    ensures '0' <= c <= '9'
  {
    (48 + n) as char
  }

  /** The value of an ASCII digit. */
  function DigitValue(c: char): (n: nat)
    requires '0' <= c <= '9'
    ensures n < 10
  {
    c as int - 48
  }

  /** `n` as two zero-padded decimal digits. */
  function TwoDigits(n: nat): (s: string)
    requires n < 100
    ensures |s| == 2 && '0' <= s[0] <= '9' && '0' <= s[1] <= '9'
    ensures DigitValue(s[0]) * 10 + DigitValue(s[1]) == n
  {
    [Digit(n / 10), Digit(n % 10)]
  }

  /** `format("%H:%M")` of `ms` in the competition zone. */
  function ClockText(ms: int): (s: string)
    ensures |s| == 5 && s[2] == ':'
  {
    var t := LocalClock(ms);
    TwoDigits(t.hour) + ":" + TwoDigits(t.minute)
  }

  /** Reads `HH:MM` text back into an hour of 00-23 and a minute of 00-59. */
  function ParseClock(s: string): (r: Option<ClockTime>)
    ensures r.Some? ==> r.value.hour < 24 && r.value.minute < 60
  {
    if |s| == 5 && s[2] == ':' && '0' <= s[0] <= '9' && '0' <= s[1] <= '9' && '0' <= s[3] <= '9' && '0' <= s[4] <= '9'
    then
      var h, m := DigitValue(s[0]) * 10 + DigitValue(s[1]), DigitValue(s[3]) * 10 + DigitValue(s[4]);
      if h < 24 && m < 60 then Some(ClockTime(h, m)) else None
    else None
  }

  /** Round trip: the title's `HH:MM` text reads back as the zone's wall-clock
      hour and minute of the instant. */
  lemma ClockTextReadsBack(ms: int)
    ensures ParseClock(ClockText(ms)) == Some(LocalClock(ms))
  {
    var t := LocalClock(ms);
    var s := ClockText(ms);
    assert s[0..2] == TwoDigits(t.hour) && s[3..5] == TwoDigits(t.minute);
  }
}
