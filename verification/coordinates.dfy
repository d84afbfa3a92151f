/** Coordinate transforms of src/utils/astronomyCalculations.ts: degrees and
    radians, equatorial to horizontal coordinates, and the rectangular
    projection of azimuth and altitude onto the screen. */
module Coordinates {
  import opened JsMath

  /** `degToRad`. */
  function DegToRad(degrees: real): real {
    degrees * (PI / 180.0)
  }

  /** `radToDeg`. */
  function RadToDeg(radians: real): real {
    radians * (180.0 / PI)
  }

  /** The two conversions are inverse to each other. */
  lemma DegRadRoundTrip(x: real)
    ensures RadToDeg(DegToRad(x)) == x
    ensures DegToRad(RadToDeg(x)) == x
  {
  }

  /** `hoursToDeg`: fifteen degrees per hour of right ascension. */
  function HoursToDeg(hours: real): (degrees: real)
    ensures 0.0 <= hours < 24.0 ==> 0.0 <= degrees < 360.0
  {
    hours * 15.0
  }

  /** A full day of right ascension is a full circle. */
  lemma HoursToDegFullCircle(hours: real)
    ensures HoursToDeg(hours + 24.0) == HoursToDeg(hours) + 360.0
  {
  }

  /** Azimuth and altitude in degrees. */
  datatype Horizontal = Horizontal(azimuth: real, altitude: real)

  /** `Math.max(-1, Math.min(1, n / d))`. At a zero denominator JavaScript's
      quotient is an infinity of the numerator's sign, which the clamp turns
      into 1 or -1; `0 / 0` is taken as 0. */
  function ClampedQuotient(n: real, d: real): (c: real)
    ensures -1.0 <= c <= 1.0
    ensures d != 0.0 ==> c == Clamp(-1.0, 1.0, n / d)
    ensures d == 0.0 ==> (c > 0.0 <==> n > 0.0) && (c < 0.0 <==> n < 0.0)
  {
    if d != 0.0 then Clamp(-1.0, 1.0, n / d)
    else if n > 0.0 then 1.0
    else if n < 0.0 then -1.0
    else 0.0
  }

  /** Hour angle `lst - ra`, in radians. */
  function HourAngle(ra: real, lst: real): real {
    DegToRad(lst) - DegToRad(ra)
  }

  /** The horizontal position for a given hour angle (radians). */
  function HorizontalAt(trig: Trig, ha: real, dec: real, latitude: real): (h: Horizontal)
    ensures Lawful(trig) ==> -90.0 <= h.altitude <= 90.0
    ensures Lawful(trig) ==> 0.0 <= h.azimuth <= 360.0
    ensures Lawful(trig) && trig.sin(ha) > 0.0 ==> 180.0 <= h.azimuth
    ensures Lawful(trig) && trig.sin(ha) <= 0.0 ==> h.azimuth <= 180.0
  {
    var decRad := DegToRad(dec);
    var latRad := DegToRad(latitude);
    var sinAlt := trig.sin(decRad) * trig.sin(latRad) + trig.cos(decRad) * trig.cos(latRad) * trig.cos(ha);
    var altitude := trig.asin(sinAlt);
    var cosAz := ClampedQuotient(
      trig.sin(decRad) - trig.sin(altitude) * trig.sin(latRad),
      trig.cos(altitude) * trig.cos(latRad));
    var acosAz := trig.acos(cosAz);
    var azimuth := if trig.sin(ha) > 0.0 then 2.0 * PI - acosAz else acosAz;
    Horizontal(RadToDeg(azimuth), RadToDeg(altitude))
  }

  /** `equatorialToHorizontal(ra, dec, lst, latitude)`, all in degrees. The
      altitude is `asin` of the spherical-cosine sine; the azimuth is `acos`
      of the clamped cosine, reflected to `2π - az` when `sin(ha) > 0`. */
  function EquatorialToHorizontal(trig: Trig, ra: real, dec: real, lst: real, latitude: real): (h: Horizontal)
    ensures Lawful(trig) ==> -90.0 <= h.altitude <= 90.0
    ensures Lawful(trig) ==> 0.0 <= h.azimuth <= 360.0
    ensures Lawful(trig) && trig.sin(HourAngle(ra, lst)) > 0.0 ==> 180.0 <= h.azimuth
    ensures Lawful(trig) && trig.sin(HourAngle(ra, lst)) <= 0.0 ==> h.azimuth <= 180.0
  {
    HorizontalAt(trig, HourAngle(ra, lst), dec, latitude)
  }

  /** Only the hour angle matters: shifting right ascension and sidereal time
      together leaves the horizontal position unchanged. */
  lemma EquatorialToHorizontalHourAngleOnly(trig: Trig, ra: real, dec: real, lst: real, latitude: real, shift: real)
    ensures EquatorialToHorizontal(trig, ra + shift, dec, lst + shift, latitude)
            == EquatorialToHorizontal(trig, ra, dec, lst, latitude)
  {
    assert HourAngle(ra + shift, lst + shift) == HourAngle(ra, lst);
  }

  /** When `acos` attains 0 for the clamped cosine 1, an object with
      `sin(ha) > 0` gets azimuth exactly 360 rather than 0: the reflection
      does not reduce the result into `[0, 360)`. */
  lemma AzimuthCanBe360(trig: Trig, ra: real, dec: real, lst: real, latitude: real)
    requires trig.sin(HourAngle(ra, lst)) > 0.0
    requires forall c :: trig.acos(c) == 0.0
    ensures EquatorialToHorizontal(trig, ra, dec, lst, latitude).azimuth == 360.0
  {
  }

  /** `((azimuth % 360) + 360) % 360`. */
  function NormalizeAzimuth(azimuth: real): (a: real)
    ensures 0.0 <= a < 360.0
    ensures a == FlooredRem(azimuth, 360.0)
  {
    DoubleRemIsFloored(azimuth, 360.0);
    JsRem(JsRem(azimuth, 360.0) + 360.0, 360.0)
  }

  /** A screen position and whether the star is drawn. */
  datatype ScreenPoint = ScreenPoint(x: real, y: real, visible: bool)

  const MinAltitude: real := -30.0
  const MaxAltitude: real := 90.0
  const ScreenMargin: real := 100.0
  /** Objects down to this altitude (below the horizon) are still shown. */
  const VisibleAltitude: real := -25.0

  /** `(clamp(altitude, -30, 90) + 30) / 120`: the share of the screen
      height an altitude rises above the bottom edge. */
  function AltitudeFraction(altitude: real): (f: real)
    ensures 0.0 <= f <= 1.0
    ensures altitude <= MinAltitude ==> f == 0.0
    ensures altitude >= MaxAltitude ==> f == 1.0
  {
    (Clamp(MinAltitude, MaxAltitude, altitude) - MinAltitude) / (MaxAltitude - MinAltitude)
  }

  /** The screen row of an altitude: 90° at the top, -30° and below at the bottom. */
  function ScreenY(altitude: real, height: real): (y: real)
    ensures height >= 0.0 ==> 0.0 <= y <= height
    ensures altitude <= MinAltitude ==> y == height
    ensures altitude >= MaxAltitude ==> y == 0.0
  {
    var f := AltitudeFraction(altitude);
    assert height >= 0.0 ==> 0.0 <= f * height <= height by {
      if height >= 0.0 {
        ScaleMonotone(f, 1.0, height);
      }
    }
    height - f * height
  }

  /** Scaling by a non-negative factor preserves order. */
  lemma ScaleMonotone(f1: real, f2: real, h: real)
    requires f1 <= f2 && h >= 0.0
    ensures f1 * h <= f2 * h
    ensures f1 >= 0.0 ==> f1 * h >= 0.0
    ensures h > 0.0 && f1 < f2 ==> f1 * h < f2 * h
  {
    assert f2 * h - f1 * h == (f2 - f1) * h;
  }

  /** The screen column of an azimuth: the floored azimuth's share of a full turn. */
  function ScreenX(azimuth: real, width: real): (x: real)
    ensures width >= 0.0 ==> 0.0 <= x <= width
    ensures width > 0.0 ==> x < width
    ensures width > 0.0 ==> x * 360.0 == FlooredRem(azimuth, 360.0) * width
  {
    AzimuthColumn(NormalizeAzimuth(azimuth), width)
  }

  /** `(normalizedAz / 360) * width`: the column of an azimuth already in
      `[0, 360)`. */
  function AzimuthColumn(normalizedAz: real, width: real): (x: real)
    requires 0.0 <= normalizedAz < 360.0
    ensures width >= 0.0 ==> 0.0 <= x <= width
    ensures width > 0.0 ==> x < width
    ensures x * 360.0 == normalizedAz * width
  {
    var g := normalizedAz / 360.0;
    var x := g * width;
    assert width > 0.0 ==> 0.0 <= x < width by {
      if width > 0.0 {
        FractionScales(g, width);
      }
    }
    assert x * 360.0 == (g * 360.0) * width;
    x
  }

  /** `horizontalToScreen`: azimuth spread over the width, altitude over the
      height, visible when above -25° and within 100 pixels of the screen. */
  function HorizontalToScreen(azimuth: real, altitude: real, width: real, height: real): (p: ScreenPoint)
    ensures p.x == ScreenX(azimuth, width) && p.y == ScreenY(altitude, height)
    ensures p.visible ==> altitude > VisibleAltitude
    ensures width >= 0.0 && height >= 0.0 ==> (p.visible <==> altitude > VisibleAltitude)
  {
    var x := ScreenX(azimuth, width);
    var y := ScreenY(altitude, height);
    var withinScreen := x >= -ScreenMargin && x <= width + ScreenMargin
                        && y >= -ScreenMargin && y <= height + ScreenMargin;
    ScreenPoint(x, y, altitude > VisibleAltitude && withinScreen)
  }

  /** Azimuths a full turn apart land on the same screen position. */
  lemma HorizontalToScreenPeriodic(azimuth: real, altitude: real, width: real, height: real)
    ensures HorizontalToScreen(azimuth + 360.0, altitude, width, height)
            == HorizontalToScreen(azimuth, altitude, width, height)
  {
    ScreenXPeriodic(azimuth, width);
  }

  /** The screen column repeats every full turn of azimuth. */
  lemma ScreenXPeriodic(azimuth: real, width: real)
    ensures ScreenX(azimuth + 360.0, width) == ScreenX(azimuth, width)
  {
    FlooredRemPeriodic(azimuth, 360.0);
  }

  /** Higher altitudes are drawn strictly higher on the screen within the
      projected band `[-30, 90]`. */
  lemma ScreenYStrictlyDecreasing(a1: real, a2: real, height: real)
    requires MinAltitude <= a1 < a2 <= MaxAltitude
    requires height > 0.0
    ensures ScreenY(a2, height) < ScreenY(a1, height)
  {
    var f1, f2 := AltitudeFraction(a1), AltitudeFraction(a2);
    assert f1 < f2;
    calc {
      ScreenY(a2, height);
      height - f2 * height;
      < { ScaleMonotone(f1, f2, height); }
      height - f1 * height;
      ScreenY(a1, height);
    }
  }
}
