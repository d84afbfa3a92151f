/** The post-propagation geometry of src/hooks/useSatellites.ts. Orbit
    propagation (satellite.js) is a parameter: for each tracked satellite it
    throws, yields no position, or yields a geodetic latitude and longitude. */
module Satellites {
  import opened Wrappers
  import opened Seqs
  import opened JsMath
  import opened AstronomyTypes

  /** One entry of the hard-coded list (the two-line elements themselves are
      input to propagation and not modelled). */
  datatype TrackedSatellite = TrackedSatellite(id: string, name: string, mag: real)

  const Tracked: seq<TrackedSatellite> := [
    TrackedSatellite("iss", "ISS", 1.5),
    TrackedSatellite("hubble", "Hubble", 2.0)]

  /** What propagating one satellite produced. */
  datatype Propagation = Threw | NoPosition | Position(latitude: real, longitude: real)

  /** `((satLon - longitude + 540) % 360) - 180`: longitude difference wrapped
      into `[-180, 180)`, congruent to the plain difference modulo 360. */
  function DeltaLongitude(satLon: real, longitude: real): (d: real)
    ensures satLon - longitude >= -540.0 ==> -180.0 <= d < 180.0
    ensures satLon - longitude >= -540.0 ==> d == FlooredRem(satLon - longitude + 180.0, 360.0) - 180.0
  {
    var a := satLon - longitude + 540.0;
    var r := JsRem(a, 360.0);
    assert a >= 0.0 ==> r == FlooredRem(a, 360.0) by {
      if a >= 0.0 {
        JsRemQuotient(a, 360.0);
        EuclideanRemainderUnique(a, 360.0, Trunc(a / 360.0), r);
      }
    }
    FlooredRemPeriodic(satLon - longitude + 180.0, 360.0);
    r - 180.0
  }

  /** `(atan2(dLon, dLat) * 180 / PI + 360) % 360`: the bearing in `[0, 360)`. */
  function Azimuth(trig: Trig, dLon: real, dLat: real): (az: real)
    ensures Lawful(trig) ==> 0.0 <= az < 360.0
  {
    var bearing := trig.atan2(dLon, dLat) * 180.0 / PI;
    assert Lawful(trig) ==> -180.0 <= bearing <= 180.0;
    JsRem(bearing + 360.0, 360.0)
  }

  /** `10 + 70 |cos((dLon + dLat) PI / 180)|`: a pseudo-altitude in `[10, 80]`. */
  function Altitude(trig: Trig, dLon: real, dLat: real): (alt: real)
    ensures Lawful(trig) ==> 10.0 <= alt <= 80.0
  {
    10.0 + 70.0 * Abs(trig.cos(((dLon + dLat) * PI) / 180.0))
  }

  /** The screen row, with the unclamped `(altitude + 30) / 120` map. */
  function MarkerY(altitude: real, height: real): (y: real)
    ensures height >= 0.0 && 10.0 <= altitude <= 80.0 ==> height / 12.0 <= y <= 2.0 * height / 3.0
  {
    var f := (altitude + 30.0) / 120.0;
    assert 10.0 <= altitude <= 80.0 ==> 1.0 / 3.0 <= f <= 11.0 / 12.0;
    assert height >= 0.0 && 10.0 <= altitude <= 80.0 ==> height / 3.0 <= f * height <= 11.0 * height / 12.0 by {
      if height >= 0.0 && 10.0 <= altitude <= 80.0 {
        assert f * height - height / 3.0 == (f - 1.0 / 3.0) * height;
        assert 11.0 * height / 12.0 - f * height == (11.0 / 12.0 - f) * height;
      }
    }
    height - f * height
  }

  /** The marker for a satellite at a geodetic position. */
  function Marker(trig: Trig, s: TrackedSatellite, observer: Location, satLat: real, satLon: real,
                  width: real, height: real): (c: CelestialObject)
    ensures c.id == s.id && c.name == s.name && c.magnitude == s.mag
    ensures c.azimuth == Azimuth(trig, DeltaLongitude(satLon, observer.longitude), satLat - observer.latitude)
    ensures c.altitude == Altitude(trig, DeltaLongitude(satLon, observer.longitude), satLat - observer.latitude)
    ensures c.x * 360.0 == c.azimuth * width && c.y == MarkerY(c.altitude, height)
    ensures c.visible <==> c.altitude > 0.0
    ensures Lawful(trig) ==> 0.0 <= c.azimuth < 360.0 && 10.0 <= c.altitude <= 80.0 && c.visible
    ensures Lawful(trig) && width > 0.0 ==> 0.0 <= c.x < width
    ensures Lawful(trig) && height >= 0.0 ==> height / 12.0 <= c.y <= 2.0 * height / 3.0
  {
    var dLon := DeltaLongitude(satLon, observer.longitude);
    var dLat := satLat - observer.latitude;
    var azimuth := Azimuth(trig, dLon, dLat);
    var altitude := Altitude(trig, dLon, dLat);
    var x := (azimuth / 360.0) * width;
    assert x * 360.0 == azimuth * width;
    assert Lawful(trig) && width > 0.0 ==> 0.0 <= x < width by {
      if Lawful(trig) && width > 0.0 {
        assert 0.0 <= azimuth / 360.0 < 1.0;
        assert width - x == (1.0 - azimuth / 360.0) * width;
      }
    }
    CelestialObject(s.id, s.name, x, MarkerY(altitude, height), altitude > 0.0, s.mag, azimuth, altitude)
  }

  /** One iteration of the loop: skipped on a throw or a missing position. */
  function MarkerFor(trig: Trig, observer: Location, propagate: TrackedSatellite -> Propagation,
                     width: real, height: real): TrackedSatellite -> Option<CelestialObject> {
    (s: TrackedSatellite) =>
      match propagate(s)
      case Position(lat, lon) => Some(Marker(trig, s, observer, lat, lon, width, height))
      case _ => None
  }

  /** `c` is the marker of the `k`-th tracked satellite, which propagated to
      a position. */
  predicate MarkerOf(trig: Trig, observer: Location, propagate: TrackedSatellite -> Propagation,
                     width: real, height: real, k: int, c: CelestialObject) {
    0 <= k < |Tracked| && propagate(Tracked[k]).Position?
    && c == Marker(trig, Tracked[k], observer, propagate(Tracked[k]).latitude, propagate(Tracked[k]).longitude, width, height)
  }

  /** Every marker the loop emits belongs to a satellite with a position. */
  lemma MarkerComesFromPosition(trig: Trig, observer: Location, propagate: TrackedSatellite -> Propagation,
                                width: real, height: real, c: CelestialObject)
    requires c in FilterMap(MarkerFor(trig, observer, propagate, width, height), Tracked)
    ensures exists k :: MarkerOf(trig, observer, propagate, width, height, k, c)
  {
    var f := MarkerFor(trig, observer, propagate, width, height);
    FilterMapMembership(f, Tracked, c);
    var k :| 0 <= k < |Tracked| && f(Tracked[k]) == Some(c);
    assert MarkerOf(trig, observer, propagate, width, height, k, c);
  }

  /** The memoised `satellites`: nothing when disabled, without a location or
      before the library has loaded; otherwise one marker per satellite that
      propagated to a position, in list order. */
  function SatelliteMarkers(trig: Trig, enabled: bool, location: Option<Location>, libraryLoaded: bool,
                            propagate: TrackedSatellite -> Propagation, width: real, height: real): (out: seq<CelestialObject>)
    ensures !enabled || location.None? || !libraryLoaded ==> out == []
    ensures |out| <= |Tracked|
    ensures Lawful(trig) ==> forall i :: 0 <= i < |out| ==> out[i].visible && 10.0 <= out[i].altitude <= 80.0
    ensures enabled && location.Some? && libraryLoaded ==>
      forall c :: c in out ==> exists k :: MarkerOf(trig, location.value, propagate, width, height, k, c)
  {
    if !enabled || location.None? || !libraryLoaded then []
    else
      var out := FilterMap(MarkerFor(trig, location.value, propagate, width, height), Tracked);
      assert forall c :: c in out ==> exists k :: MarkerOf(trig, location.value, propagate, width, height, k, c) by {
        forall c | c in out
          ensures exists k :: MarkerOf(trig, location.value, propagate, width, height, k, c)
        {
          MarkerComesFromPosition(trig, location.value, propagate, width, height, c);
        }
      }
      assert Lawful(trig) ==> forall i :: 0 <= i < |out| ==> out[i].visible && 10.0 <= out[i].altitude <= 80.0 by {
        if Lawful(trig) {
          forall i | 0 <= i < |out|
            ensures out[i].visible && 10.0 <= out[i].altitude <= 80.0
          {
            FilterMapMembership(MarkerFor(trig, location.value, propagate, width, height), Tracked, out[i]);
          }
        }
      }
      out
  }

  /** A satellite that propagates to a position is shown whatever happens to
      the other one. */
  lemma PositionedSatelliteShown(trig: Trig, location: Location, propagate: TrackedSatellite -> Propagation,
                                 width: real, height: real, k: nat)
    requires k < |Tracked| && propagate(Tracked[k]).Position?
    ensures var p := propagate(Tracked[k]);
      Marker(trig, Tracked[k], location, p.latitude, p.longitude, width, height)
        in SatelliteMarkers(trig, true, Some(location), true, propagate, width, height)
  {
    var p := propagate(Tracked[k]);
    FilterMapMembership(MarkerFor(trig, location, propagate, width, height), Tracked,
                        Marker(trig, Tracked[k], location, p.latitude, p.longitude, width, height));
  }
}
