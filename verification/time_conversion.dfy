/** Time conversion: a `Date`'s local wall-clock reading to a Julian Day by
    the Fliegel–Van Flandern integer algorithm, then Greenwich mean and local
    sidereal time in degrees (src/utils/astronomyCalculations.ts). */
module TimeConversion {
  import opened JsMath
  import opened AstronomyTypes

  /** `Math.floor((14 - (month + 1)) / 12)`: 1 for January and February. */
  function MonthShift(month: Month0): (a: int)
    ensures a == (if month <= 1 then 1 else 0)
  {
    (14 - (month + 1)) / 12
  }

  /** `(month + 1) + 12 * a - 3`: months counted from March. */
  function MarchMonth(month: Month0): (m: int)
    ensures 0 <= m <= 11
    ensures m == (month + 10) % 12
  {
    (month + 1) + 12 * MonthShift(month) - 3
  }

  /** Days from 1 March to the first of the March-based month `m`. */
  function DaysBeforeMarchMonth(m: int): int {
    (153 * m + 2) / 5
  }

  /** Days before 1 March of the shifted year `y` (Gregorian leap rule). */
  function DaysBeforeShiftedYear(y: int): int {
    365 * y + y / 4 - y / 100 + y / 400
  }

  /** The integer day number of the Gregorian calendar date (JD at noon). */
  function DayNumber(year: int, month: Month0, day: int): int {
    var y := year + 4800 - MonthShift(month);
    day + DaysBeforeMarchMonth(MarchMonth(month)) + DaysBeforeShiftedYear(y) - 32045
  }

  /** `(hours - 12) / 24 + minutes / 1440 + seconds / 86400`. */
  function DayFraction(hours: int, minutes: int, seconds: int): real {
    (hours - 12) as real / 24.0 + minutes as real / 1440.0 + seconds as real / 86400.0
  }

  /** `dateToJulianDay`: the day number plus the time of day counted from
      noon; milliseconds are ignored. */
  function JulianDay(d: DateTime): (jd: real)
    ensures DayNumber(d.year, d.month, d.day) as real - 0.5 <= jd
    ensures jd < DayNumber(d.year, d.month, d.day) as real + 0.5
  {
    DayNumber(d.year, d.month, d.day) as real + DayFraction(d.hours, d.minutes, d.seconds)
  }

  /** Noon on 1 January 2000 is the J2000 epoch, JD 2451545. */
  lemma JulianDayJ2000()
    ensures JulianDay(DateTime(2000, 0, 1, 12, 0, 0, 0)) == 2451545.0
  {
  }

  /** The time of day adds exactly `(h - 12)/24 + mi/1440 + s/86400` to the
      whole day number that noon of the same date receives. */
  lemma JulianDayTimeOfDay(d: DateTime)
    ensures JulianDay(d.(hours := 12, minutes := 0, seconds := 0)) == DayNumber(d.year, d.month, d.day) as real
    ensures JulianDay(d) - JulianDay(d.(hours := 12, minutes := 0, seconds := 0))
            == (d.hours - 12) as real / 24.0 + d.minutes as real / 1440.0 + d.seconds as real / 86400.0
  {
  }

  /** Gregorian leap-year rule. */
  predicate IsLeapYear(year: int) {
    (year % 4 == 0 && year % 100 != 0) || year % 400 == 0
  }

  /** Reference month lengths of the Gregorian calendar. */
  function DaysInMonth(year: int, month: Month0): int {
    if month == 1 then (if IsLeapYear(year) then 29 else 28)
    else if month == 3 || month == 5 || month == 8 || month == 10 then 30
    else 31
  }

  /** A shifted year (March to February) is one day longer exactly when
      the February it ends with is a leap February. */
  lemma ShiftedYearLength(year: int)
    ensures DaysBeforeShiftedYear(year + 4800) - DaysBeforeShiftedYear(year + 4799)
            == if IsLeapYear(year) then 366 else 365
  {
    var y := year + 4799;
    assert (y + 1) / 4 - y / 4 == if year % 4 == 0 then 1 else 0;
    assert (y + 1) / 100 - y / 100 == if year % 100 == 0 then 1 else 0;
    assert (y + 1) / 400 - y / 400 == if year % 400 == 0 then 1 else 0;
  }

  /** Day numbers of consecutive first-of-month dates differ by the length of
      the month, so the day count is continuous across month and year ends and
      honours the Gregorian leap rule. */
  lemma {:induction false} DayNumberMonthLength(year: int, month: Month0)
    ensures month < 11 ==>
      DayNumber(year, (month + 1) as Month0, 1) - DayNumber(year, month, 1) == DaysInMonth(year, month)
    ensures month == 11 ==>
      DayNumber(year + 1, 0, 1) - DayNumber(year, 11, 1) == DaysInMonth(year, 11)
  {
    if month == 1 {
      ShiftedYearLength(year);
    } else {
      MarchMonthStep(MarchMonth(month));
    }
  }

  /** Consecutive March-based months start as many days apart as the
      earlier month is long (March = 0, ..., January = 10). */
  lemma MarchMonthStep(m: int)
    requires 0 <= m < 11
    ensures DaysBeforeMarchMonth(m + 1) - DaysBeforeMarchMonth(m) == [31, 30, 31, 30, 31, 31, 30, 31, 30, 31, 31][m]
  {
  }

  /** Successive days of a month are one Julian day apart at the same time. */
  lemma JulianDayNextDay(d: DateTime)
    requires d.day < 31
    ensures JulianDay(d.(day := d.day + 1)) == JulianDay(d) + 1.0
  {
  }

  /** The Greenwich mean sidereal time polynomial, in degrees, before normalisation. */
  function GmstPolynomial(jd: real): real {
    var t := (jd - 2451545.0) / 36525.0;
    280.46061837 + 360.98564736629 * (jd - 2451545.0) + 0.000387933 * t * t - (t * t * t) / 38710000.0
  }

  /** `gmst = gmst % 360; if (gmst < 0) gmst += 360`: the floored remainder. */
  function NormalizeGmst(raw: real): (g: real)
    ensures 0.0 <= g < 360.0
    ensures g == FlooredRem(raw, 360.0)
  {
    var r := JsRem(raw, 360.0);
    JsRemQuotient(raw, 360.0);
    var g := if r < 0.0 then r + 360.0 else r;
    var k := if r < 0.0 then Trunc(raw / 360.0) - 1 else Trunc(raw / 360.0);
    EuclideanRemainderUnique(raw, 360.0, k, g);
    g
  }

  /** Greenwich mean sidereal time of a Julian Day, in `[0, 360)`. */
  function Gmst(jd: real): (g: real)
    ensures 0.0 <= g < 360.0
  {
    NormalizeGmst(GmstPolynomial(jd))
  }

  /** `calculateLocalSiderealTime`: `(gmst + longitude) % 360` with the
      truncating remainder and no second normalisation. */
  function LocalSiderealTime(location: Location, d: DateTime): (lst: real)
    ensures -180.0 <= location.longitude <= 180.0 ==> -180.0 <= lst < 360.0
    ensures -180.0 <= location.longitude ==>
      (lst < 0.0 <==> Gmst(JulianDay(d)) + location.longitude < 0.0)
  {
    JsRem(Gmst(JulianDay(d)) + location.longitude, 360.0)
  }

  /** For a longitude in `[-180, 180]` the local sidereal time is the sum
      `gmst + longitude`, reduced by 360 only when the sum reaches 360; a
      negative sum stays negative. */
  lemma LocalSiderealTimeNotRenormalised(location: Location, d: DateTime)
    requires -180.0 <= location.longitude <= 180.0
    ensures var s := Gmst(JulianDay(d)) + location.longitude;
      LocalSiderealTime(location, d) == (if s < 360.0 then s else s - 360.0)
  {
    var s := Gmst(JulianDay(d)) + location.longitude;
    if s >= 360.0 {
      assert JsRem(s - 360.0, 360.0) == s - 360.0;
      JsRemQuotient(s, 360.0);
      JsRemQuotient(s - 360.0, 360.0);
    }
  }
}
