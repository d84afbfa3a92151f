/** `processStarData` (src/utils/astronomyCalculations.ts): keep the catalogue
    entries bright enough, place each on the screen for the observer's local
    sidereal time, and keep the visible ones. */
module StarPipeline {
  import opened Wrappers
  import opened Seqs
  import opened JsMath
  import opened AstronomyTypes
  import opened TimeConversion
  import opened Coordinates
  import opened Appearance

  /** The default magnitude cut of `processStarData`. */
  const DefaultMinimumMagnitude: real := 6.0

  /** The rendered star for one catalogue entry, given the sidereal time
      (degrees), the observer's latitude and the screen size. The catalogue's
      right ascension in hours is converted to degrees for the transform but
      kept in hours on the star. */
  function PlaceStar(trig: Trig, lst: real, latitude: real, width: real, height: real, e: CatalogEntry): (s: Star)
    ensures s.id == e.id && s.name == e.name && s.commonName == e.commonName
    ensures s.constellation == e.constellation && s.spectralClass == e.spectralClass
    ensures s.rightAscension == e.ra && s.declination == e.dec && s.magnitude == e.mag
    ensures s.temperature == e.temp && s.distance == e.distance
    ensures s.color == StarColor(e.spectralClass)
    ensures Horizontal(s.azimuth, s.altitude) == EquatorialToHorizontal(trig, HoursToDeg(e.ra), e.dec, lst, latitude)
    ensures s.x == ScreenX(s.azimuth, width) && s.y == ScreenY(s.altitude, height)
    ensures Lawful(trig) ==> -90.0 <= s.altitude <= 90.0 && 0.0 <= s.azimuth <= 360.0
    ensures width >= 0.0 ==> 0.0 <= s.x <= width
    ensures height >= 0.0 ==> 0.0 <= s.y <= height
    ensures s.visible ==> s.altitude > VisibleAltitude
    ensures width >= 0.0 && height >= 0.0 ==> (s.visible <==> s.altitude > VisibleAltitude)
  {
    var h := EquatorialToHorizontal(trig, HoursToDeg(e.ra), e.dec, lst, latitude);
    var p := HorizontalToScreen(h.azimuth, h.altitude, width, height);
    Star(e.id, e.name, e.commonName, e.constellation, e.ra, e.dec, e.mag, e.spectralClass,
         e.temp, e.distance, StarColor(e.spectralClass), p.x, p.y, p.visible, h.azimuth, h.altitude)
  }

  /** `PlaceStar` as the callback of the `map`. */
  function Placer(trig: Trig, lst: real, latitude: real, width: real, height: real): CatalogEntry -> Star {
    e => PlaceStar(trig, lst, latitude, width, height, e)
  }

  /** `processStarData(catalog, context, width, height, minimumMagnitude)`;
      the sidereal time is computed once for the whole catalogue. */
  function ProcessStarData(trig: Trig, catalog: seq<CatalogEntry>, context: SkyContext,
                           width: real, height: real, minimumMagnitude: real): (stars: seq<Star>)
    ensures |stars| <= |catalog|
    ensures forall i :: 0 <= i < |stars| ==> stars[i].visible && stars[i].magnitude <= minimumMagnitude
    ensures Lawful(trig) ==> forall i :: 0 <= i < |stars| ==> -90.0 <= stars[i].altitude <= 90.0
  {
    var lst := LocalSiderealTime(context.location, context.dateTime);
    var placed := MapSeq(Placer(trig, lst, context.location.latitude, width, height),
                         Filter(BrightEnough(minimumMagnitude), catalog));
    Filter(IsVisible(), placed)
  }

  /** The entries `ProcessStarData` keeps: bright enough, and visible once placed. */
  function Kept(trig: Trig, context: SkyContext, width: real, height: real, minimumMagnitude: real): CatalogEntry -> bool {
    var place := Placer(trig, LocalSiderealTime(context.location, context.dateTime), context.location.latitude, width, height);
    Both(BrightEnough(minimumMagnitude), Compose(place, IsVisible()))
  }

  /** The output is exactly the placed images of the catalogue entries that are
      bright enough and land visibly, in catalogue order. */
  lemma {:induction false} ProcessStarDataSelects(trig: Trig, catalog: seq<CatalogEntry>, context: SkyContext,
                                                  width: real, height: real, minimumMagnitude: real)
    ensures ProcessStarData(trig, catalog, context, width, height, minimumMagnitude)
            == MapSeq(Placer(trig, LocalSiderealTime(context.location, context.dateTime), context.location.latitude, width, height),
                      Filter(Kept(trig, context, width, height, minimumMagnitude), catalog))
  {
    var place := Placer(trig, LocalSiderealTime(context.location, context.dateTime), context.location.latitude, width, height);
    var bright := Filter(BrightEnough(minimumMagnitude), catalog);
    FilterMapSeq(place, IsVisible(), bright);
    FilterFilter(BrightEnough(minimumMagnitude), Compose(place, IsVisible()), catalog);
  }

  /** On a screen of non-negative size an entry is kept exactly when it is
      bright enough and its altitude exceeds -25°. */
  lemma KeptIff(trig: Trig, context: SkyContext, width: real, height: real, minimumMagnitude: real, e: CatalogEntry)
    requires width >= 0.0 && height >= 0.0
    ensures Kept(trig, context, width, height, minimumMagnitude)(e) <==>
      e.mag <= minimumMagnitude &&
      EquatorialToHorizontal(trig, HoursToDeg(e.ra), e.dec,
        LocalSiderealTime(context.location, context.dateTime), context.location.latitude).altitude > VisibleAltitude
  {
  }

  /** A stricter magnitude cut keeps a subsequence of the stars. */
  lemma ProcessStarDataMonotone(trig: Trig, catalog: seq<CatalogEntry>, context: SkyContext,
                                width: real, height: real, m1: real, m2: real)
    requires m1 <= m2
    ensures IsSubsequence(ProcessStarData(trig, catalog, context, width, height, m1),
                          ProcessStarData(trig, catalog, context, width, height, m2))
  {
    var place := Placer(trig, LocalSiderealTime(context.location, context.dateTime), context.location.latitude, width, height);
    ProcessStarDataSelects(trig, catalog, context, width, height, m1);
    ProcessStarDataSelects(trig, catalog, context, width, height, m2);
    FilterWeaken(Kept(trig, context, width, height, m1), Kept(trig, context, width, height, m2), catalog);
    MapSeqSubsequence(place, Filter(Kept(trig, context, width, height, m1), catalog),
                      Filter(Kept(trig, context, width, height, m2), catalog));
  }
}
