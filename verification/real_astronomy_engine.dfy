/** The visibility heuristic of src/utils/realAstronomyEngine.ts: three
    chained filters over a catalogue — magnitude, a declination band chosen
    by latitude, and an eight-hour window around a star's "hour". */
module RealAstronomyEngine {
  import opened Wrappers
  import opened Seqs
  import opened JsMath
  import opened AstronomyTypes

  /** Default magnitude cut of `calculateVisibleStars`. */
  const DefaultMinimumMagnitude: real := 5.0
  /** Default magnitude cut of `getVisibleStarsForLocation`. */
  const LocationMinimumMagnitude: real := 6.0
  /** Half-width of the time window, in hours. */
  const HourWindow: real := 8.0

  /** The declination test: near the equator a band that narrows with
      `6 |latitude|`, otherwise everything above `latitude - 80` (north) or
      below `latitude + 80` (south). */
  function DeclinationVisible(latitude: real, dec: real): (visible: bool)
    ensures Abs(latitude) < 10.0 ==>
      (visible <==> -90.0 + 6.0 * Abs(latitude) <= dec <= 90.0 - 6.0 * Abs(latitude))
    ensures latitude >= 10.0 ==> (visible <==> latitude - 80.0 <= dec <= 90.0)
    ensures latitude <= -10.0 ==> (visible <==> -90.0 <= dec <= latitude + 80.0)
  {
    var maxVisibleDec := 90.0 - Abs(latitude);
    var minVisibleDec := -90.0 + Abs(latitude);
    if Abs(latitude) < 10.0 then
      var latitudeEffect := Abs(latitude) * 5.0;
      dec >= minVisibleDec + latitudeEffect && dec <= maxVisibleDec - latitudeEffect
    else if latitude > 0.0 then
      dec >= latitude - 80.0 && dec <= 90.0
    else
      dec >= -90.0 && dec <= latitude + 80.0
  }

  /** On the equator every declination passes, and moving away from it within
      the equatorial zone only narrows the band. */
  lemma DeclinationBandNarrows(lat1: real, lat2: real, dec: real)
    requires Abs(lat1) <= Abs(lat2) < 10.0
    ensures DeclinationVisible(0.0, dec) <==> -90.0 <= dec <= 90.0
    ensures DeclinationVisible(lat2, dec) ==> DeclinationVisible(lat1, dec)
  {
  }

  /** `(ra * 24 / 360) % 24`, as written: the right ascension is read as if
      it were in degrees. */
  function StarHour(ra: real): (hour: real)
    ensures 0.0 <= ra ==> 0.0 <= hour < 24.0
    ensures 0.0 <= ra < 360.0 ==> hour * 15.0 == ra
  {
    JsRem(ra * 24.0 / 360.0, 24.0)
  }

  /** `min(|hour - starHour|, 24 - |hour - starHour|)`: circular distance on a
      24-hour clock. */
  function HourGap(hour: real, starHour: real): (gap: real)
    ensures 0.0 <= hour < 24.0 && 0.0 <= starHour < 24.0 ==> 0.0 <= gap <= 12.0
    ensures gap <= Abs(hour - starHour)
  {
    var timeDiff := Abs(hour - starHour);
    Min(timeDiff, 24.0 - timeDiff)
  }

  /** The circular distance does not depend on the order of its arguments. */
  lemma HourGapSymmetric(a: real, b: real)
    ensures HourGap(a, b) == HourGap(b, a)
  {
    assert Abs(a - b) == Abs(b - a);
  }

  /** The declination filter as a callback. */
  function InDeclinationBand(latitude: real): CatalogEntry -> bool {
    (e: CatalogEntry) => DeclinationVisible(latitude, e.dec)
  }

  /** The time filter as a callback, for the local hour `getHours()`. */
  function UpAtHour(hour: Hour): CatalogEntry -> bool {
    (e: CatalogEntry) => HourGap(hour as real, StarHour(e.ra)) <= HourWindow
  }

  /** `calculateVisibleStars(stars, location, dateTime, minimumMagnitude)`. */
  function CalculateVisibleStars(stars: seq<CatalogEntry>, location: Location, dateTime: DateTime,
                                 minimumMagnitude: real): (visible: seq<CatalogEntry>)
    ensures |visible| <= |stars|
    ensures forall i :: 0 <= i < |visible| ==>
      visible[i] in stars &&
      visible[i].mag <= minimumMagnitude &&
      DeclinationVisible(location.latitude, visible[i].dec) &&
      HourGap(dateTime.hours as real, StarHour(visible[i].ra)) <= HourWindow
  {
    var brightStars := Filter(BrightEnough(minimumMagnitude), stars);
    var visibleStars := Filter(InDeclinationBand(location.latitude), brightStars);
    Filter(UpAtHour(dateTime.hours), visibleStars)
  }

  /** The three conditions as one predicate. */
  function VisibleFrom(location: Location, dateTime: DateTime, minimumMagnitude: real): CatalogEntry -> bool {
    Both(Both(BrightEnough(minimumMagnitude), InDeclinationBand(location.latitude)), UpAtHour(dateTime.hours))
  }

  /** The three chained filters are a single filter by the conjunction, so the
      result is the order-preserving subsequence of entries meeting all three. */
  lemma {:induction false} CalculateVisibleStarsIsFilter(stars: seq<CatalogEntry>, location: Location,
                                                         dateTime: DateTime, minimumMagnitude: real)
    ensures CalculateVisibleStars(stars, location, dateTime, minimumMagnitude)
            == Filter(VisibleFrom(location, dateTime, minimumMagnitude), stars)
    ensures IsSubsequence(CalculateVisibleStars(stars, location, dateTime, minimumMagnitude), stars)
  {
    var bright := BrightEnough(minimumMagnitude);
    var band := InDeclinationBand(location.latitude);
    FilterFilter(bright, band, stars);
    FilterFilter(Both(bright, band), UpAtHour(dateTime.hours), stars);
    FilterIsSubsequence(VisibleFrom(location, dateTime, minimumMagnitude), stars);
  }

  /** Applying the filter to its own output changes nothing. */
  lemma CalculateVisibleStarsIdempotent(stars: seq<CatalogEntry>, location: Location,
                                        dateTime: DateTime, minimumMagnitude: real)
    ensures var once := CalculateVisibleStars(stars, location, dateTime, minimumMagnitude);
      CalculateVisibleStars(once, location, dateTime, minimumMagnitude) == once
  {
    var once := CalculateVisibleStars(stars, location, dateTime, minimumMagnitude);
    CalculateVisibleStarsIsFilter(stars, location, dateTime, minimumMagnitude);
    CalculateVisibleStarsIsFilter(once, location, dateTime, minimumMagnitude);
    FilterIdempotent(VisibleFrom(location, dateTime, minimumMagnitude), stars);
  }

  /** `getVisibleStarsForLocation(location, dateTime, minimumMagnitude)`: the
      bundled star list (a parameter here) through `calculateVisibleStars`.
      A caller that omits the cut gets `LocationMinimumMagnitude`. */
  function GetVisibleStarsForLocation(bundled: seq<CatalogEntry>, location: Location, dateTime: DateTime,
                                      minimumMagnitude: real): (visible: seq<CatalogEntry>)
    ensures IsSubsequence(visible, bundled)
    ensures forall i :: 0 <= i < |visible| ==>
      visible[i].mag <= minimumMagnitude &&
      DeclinationVisible(location.latitude, visible[i].dec) &&
      HourGap(dateTime.hours as real, StarHour(visible[i].ra)) <= HourWindow
    ensures forall i :: 0 <= i < |bundled| ==>
      (bundled[i].mag <= minimumMagnitude &&
       DeclinationVisible(location.latitude, bundled[i].dec) &&
       HourGap(dateTime.hours as real, StarHour(bundled[i].ra)) <= HourWindow
       ==> bundled[i] in visible)
  {
    CalculateVisibleStarsIsFilter(bundled, location, dateTime, minimumMagnitude);
    CalculateVisibleStars(bundled, location, dateTime, minimumMagnitude)
  }

  /** Raising the magnitude cut only adds stars, in catalogue order. */
  lemma GetVisibleStarsForLocationMonotone(bundled: seq<CatalogEntry>, location: Location, dateTime: DateTime,
                                           m1: real, m2: real)
    requires m1 <= m2
    ensures IsSubsequence(GetVisibleStarsForLocation(bundled, location, dateTime, m1),
                          GetVisibleStarsForLocation(bundled, location, dateTime, m2))
  {
    CalculateVisibleStarsIsFilter(bundled, location, dateTime, m1);
    CalculateVisibleStarsIsFilter(bundled, location, dateTime, m2);
    FilterWeaken(VisibleFrom(location, dateTime, m1), VisibleFrom(location, dateTime, m2), bundled);
  }

  /** Because catalogue right ascension is in hours (`[0, 24)`), the as-written
      star hour is below 1.6, and at every local hour from 10 to 15 the time
      window rejects every star: the result is empty whatever the catalogue. */
  lemma NoStarsAtMidday(stars: seq<CatalogEntry>, location: Location, dateTime: DateTime, minimumMagnitude: real)
    requires forall i :: 0 <= i < |stars| ==> 0.0 <= stars[i].ra < 24.0
    requires 10 <= dateTime.hours <= 15
    ensures CalculateVisibleStars(stars, location, dateTime, minimumMagnitude) == []
  {
    var banded := Filter(InDeclinationBand(location.latitude), Filter(BrightEnough(minimumMagnitude), stars));
    forall i | 0 <= i < |banded|
      ensures !UpAtHour(dateTime.hours)(banded[i])
    {
      var e := banded[i];
      assert e in stars;
      assert StarHour(e.ra) < 1.6;
    }
    FilterNonePass(UpAtHour(dateTime.hours), banded);
  }

  /** The star's own hour, `ra % 24`, with right ascension read in hours. */
  function RaHour(ra: real): (hour: real)
    ensures 0.0 <= ra ==> 0.0 <= hour < 24.0
    ensures 0.0 <= ra < 24.0 ==> hour == ra
  {
    JsRem(ra, 24.0)
  }

  /** The time filter centred on the star's right ascension hour. */
  function UpAtHourIntended(hour: Hour): CatalogEntry -> bool {
    (e: CatalogEntry) => HourGap(hour as real, RaHour(e.ra)) <= HourWindow
  }

  /** `calculateVisibleStars` with the star hour read in hours. */
  function CalculateVisibleStarsIntended(stars: seq<CatalogEntry>, location: Location, dateTime: DateTime,
                                         minimumMagnitude: real): (visible: seq<CatalogEntry>)
    ensures |visible| <= |stars|
    ensures forall i :: 0 <= i < |visible| ==>
      visible[i] in stars && visible[i].mag <= minimumMagnitude &&
      DeclinationVisible(location.latitude, visible[i].dec) &&
      HourGap(dateTime.hours as real, RaHour(visible[i].ra)) <= HourWindow
  {
    var brightStars := Filter(BrightEnough(minimumMagnitude), stars);
    var visibleStars := Filter(InDeclinationBand(location.latitude), brightStars);
    Filter(UpAtHourIntended(dateTime.hours), visibleStars)
  }

  /** With the intended reading, a star whose right ascension hour is the
      current local hour is kept whenever it passes the magnitude and
      declination tests, at every hour of the day. */
  lemma IntendedKeepsTransitingStars(stars: seq<CatalogEntry>, location: Location, dateTime: DateTime,
                                     minimumMagnitude: real, k: nat)
    requires k < |stars|
    requires stars[k].ra == dateTime.hours as real
    requires stars[k].mag <= minimumMagnitude && DeclinationVisible(location.latitude, stars[k].dec)
    ensures stars[k] in CalculateVisibleStarsIntended(stars, location, dateTime, minimumMagnitude)
  {
    var e := stars[k];
    var bright := Filter(BrightEnough(minimumMagnitude), stars);
    assert e in bright;
    var banded := Filter(InDeclinationBand(location.latitude), bright);
    var j :| 0 <= j < |bright| && bright[j] == e;
    assert e in banded;
    var m :| 0 <= m < |banded| && banded[m] == e;
    assert UpAtHourIntended(dateTime.hours)(banded[m]);
  }
}
