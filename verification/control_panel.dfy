/** The time controls of src/components/ControlPanel.tsx: the `HH:MM` time
    input, the hour-shift buttons, Midnight, Now and the live-time toggle.
    Each handler produces a `setHours` request on a copy of the current time;
    how `Date` normalises an out-of-range request (rolling into the next day
    or month, in the local time zone) is not modelled, and `Resolve` gives the
    wall-clock reading only for requests that need no normalisation. */
module ControlPanel {
  import opened Wrappers
  import opened AstronomyTypes
  import opened TimeConversion

  /** `new Date(base).setHours(hours, minutes, seconds, millis)`, before
      normalisation. */
  datatype SetHours = SetHours(base: DateTime, hours: int, minutes: int, seconds: int, millis: int)

  /** The reading of a request whose fields are all in range: the date of the
      base with the new time of day. */
  function Resolve(req: SetHours): (d: Option<DateTime>)
    ensures d.Some? <==> (0 <= req.hours <= 23 && 0 <= req.minutes <= 59 && 0 <= req.seconds <= 59
      && 0 <= req.millis <= 999)
    ensures d.Some? ==> (d.value.year == req.base.year && d.value.month == req.base.month
      && d.value.day == req.base.day)
    ensures d.Some? ==> (d.value.hours == req.hours && d.value.minutes == req.minutes
      && d.value.seconds == req.seconds && d.value.millis == req.millis)
  {
    if 0 <= req.hours <= 23 && 0 <= req.minutes <= 59 && 0 <= req.seconds <= 59 && 0 <= req.millis <= 999
    then Some(req.base.(hours := req.hours, minutes := req.minutes, seconds := req.seconds, millis := req.millis))
    else None
  }

  // ---------------------------------------------------------------- hour buttons

  /** `adjustTime(n)`: `setHours(getHours() + n)`, keeping minutes, seconds and
      milliseconds. */
  function AdjustTime(current: DateTime, n: int): (req: SetHours)
    ensures req.base == current && req.hours - current.hours == n
    ensures req.minutes == current.minutes && req.seconds == current.seconds && req.millis == current.millis
  {
    SetHours(current, current.hours + n, current.minutes, current.seconds, current.millis)
  }

  /** The shifts the buttons offer. */
  const AdjustButtons: seq<int> := [-6, -1, 1]

  /** Within one day a shift of `n` hours moves the Julian day by `n / 24`. */
  lemma AdjustMovesJulianDay(current: DateTime, n: int)
    requires 0 <= current.hours + n <= 23
    ensures Resolve(AdjustTime(current, n)).Some?
    ensures JulianDay(Resolve(AdjustTime(current, n)).value) == JulianDay(current) + n as real / 24.0
  {
    var d := Resolve(AdjustTime(current, n)).value;
    JulianDayTimeOfDay(d);
    JulianDayTimeOfDay(current);
    assert d.(hours := 12, minutes := 0, seconds := 0) == current.(hours := 12, minutes := 0, seconds := 0);
  }

  /** Within one day, shifting by `n` and then by `-n` restores the time. */
  lemma AdjustInverse(current: DateTime, n: int)
    requires 0 <= current.hours + n <= 23
    ensures Resolve(AdjustTime(Resolve(AdjustTime(current, n)).value, -n)) == Some(current)
  {
  }

  // ---------------------------------------------------------------- time input

  predicate IsDigit(c: char) {
    '0' <= c <= '9'
  }

  function DigitValue(c: char): (v: nat)
    requires IsDigit(c)
    ensures v <= 9
  {
    c as int - '0' as int
  }

  /** `value.match(/^(\d{2}):(\d{2})$/)`: exactly two digits, a colon and two
      digits, read as decimal numbers (`\d` is ASCII without the `u` flag). */
  function MatchClock(value: string): (m: Option<(nat, nat)>)
    ensures m.Some? <==> (|value| == 5 && IsDigit(value[0]) && IsDigit(value[1]) && value[2] == ':'
      && IsDigit(value[3]) && IsDigit(value[4]))
    ensures m.Some? ==> (m.value.0 == 10 * DigitValue(value[0]) + DigitValue(value[1])
      && m.value.1 == 10 * DigitValue(value[3]) + DigitValue(value[4]))
    ensures m.Some? ==> m.value.0 <= 99 && m.value.1 <= 99
  {
    if |value| == 5 && IsDigit(value[0]) && IsDigit(value[1]) && value[2] == ':'
       && IsDigit(value[3]) && IsDigit(value[4])
    then Some((10 * DigitValue(value[0]) + DigitValue(value[1]), 10 * DigitValue(value[3]) + DigitValue(value[4])))
    else None
  }

  /** `onTimeInputChange`: a matching value sets hour and minute and zeroes
      seconds and milliseconds; anything else leaves the time alone. */
  function TimeInput(current: DateTime, value: string): (req: Option<SetHours>)
    ensures req.Some? <==> MatchClock(value).Some?
    ensures req.Some? ==> req.value == SetHours(current, MatchClock(value).value.0, MatchClock(value).value.1, 0, 0)
  {
    match MatchClock(value)
    case Some((hh, mm)) => Some(SetHours(current, hh, mm, 0, 0))
    case None => None
  }

  /** The matcher has no range check: "99:99" becomes a request for hour 99,
      minute 99, which `Date` rolls over rather than rejects. */
  lemma OutOfRangeClockAccepted(current: DateTime)
    ensures TimeInput(current, "99:99") == Some(SetHours(current, 99, 99, 0, 0))
    ensures Resolve(TimeInput(current, "99:99").value).None?
  {
  }

  /** Text other than `HH:MM`, such as "7:30", is ignored. */
  lemma ShortClockRejected(current: DateTime)
    ensures TimeInput(current, "7:30").None?
    ensures TimeInput(current, "07:30") == Some(SetHours(current, 7, 30, 0, 0))
  {
  }

  /** `String(n).padStart(2, '0')` for `n < 100`. */
  function TwoDigits(n: nat): (s: string)
    requires n < 100
    ensures |s| == 2 && IsDigit(s[0]) && IsDigit(s[1])
    ensures 10 * DigitValue(s[0]) + DigitValue(s[1]) == n
  {
    [('0' as int + n / 10) as char, ('0' as int + n % 10) as char]
  }

  /** The value the time input displays for the current time. */
  function ClockText(current: DateTime): (s: string)
    ensures |s| == 5
  {
    TwoDigits(current.hours) + ":" + TwoDigits(current.minutes)
  }

  /** Submitting the displayed value back keeps the date, hour and minute
      and zeroes only the seconds and milliseconds. */
  lemma ClockTextRoundTrip(current: DateTime)
    ensures MatchClock(ClockText(current)) == Some((current.hours as nat, current.minutes as nat))
    ensures Resolve(TimeInput(current, ClockText(current)).value) == Some(current.(seconds := 0, millis := 0))
  {
    var s := ClockText(current);
    assert s[0..2] == TwoDigits(current.hours) && s[3..5] == TwoDigits(current.minutes);
    assert s[2] == ':';
  }

  // ---------------------------------------------------------------- Now, Midnight, live toggle

  /** Midnight: `setHours(0, 0, 0, 0)` on a copy of the current time. */
  function Midnight(current: DateTime): (req: SetHours)
    ensures Resolve(req) == Some(current.(hours := 0, minutes := 0, seconds := 0, millis := 0))
  {
    SetHours(current, 0, 0, 0, 0)
  }

  /** Midnight keeps the date: it is half a day before that date's noon. */
  lemma MidnightJulianDay(current: DateTime)
    ensures JulianDay(Resolve(Midnight(current)).value) == DayNumber(current.year, current.month, current.day) as real - 0.5
  {
    JulianDayTimeOfDay(Resolve(Midnight(current)).value);
  }

  /** The live-time switch: the new setting, and the time passed to
      `onTimeChange` (the clock reading `now`) when it was switched on. */
  function ToggleLive(isLive: bool, now: DateTime): (r: (bool, Option<DateTime>))
    ensures r.0 == !isLive
    ensures r.1.Some? <==> !isLive
    ensures r.1.Some? ==> r.1.value == now
  {
    var next := !isLive;
    (next, if next then Some(now) else None)
  }
}
