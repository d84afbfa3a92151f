/** The records of the application's type definitions: observer location,
    catalogue entries, rendered stars, deep-sky objects, satellites, and the
    wall-clock reading of a `Date`. */
module AstronomyTypes {
  import opened Wrappers

  /** Observer position in decimal degrees, with an optional place label. */
  datatype Location = Location(
    latitude: real,
    longitude: real,
    city: Option<string>,
    country: Option<string>)

  /** A raw catalogue record: right ascension in hours, declination in degrees. */
  datatype CatalogEntry = CatalogEntry(
    id: string,
    name: string,
    commonName: Option<string>,
    constellation: string,
    ra: real,
    dec: real,
    mag: real,
    spectralClass: string,
    temp: Option<real>,
    distance: Option<real>)

  /** A catalogue entry placed on the screen. */
  datatype Star = Star(
    id: string,
    name: string,
    commonName: Option<string>,
    constellation: string,
    rightAscension: real,
    declination: real,
    magnitude: real,
    spectralClass: string,
    temperature: Option<real>,
    distance: Option<real>,
    color: string,
    x: real,
    y: real,
    visible: bool,
    azimuth: real,
    altitude: real)

  datatype DeepSkyKind = Galaxy | Nebula | Cluster | PlanetaryNebula | OtherKind

  /** A galaxy, nebula or cluster placed on the screen; right ascension in hours. */
  datatype DeepSkyObject = DeepSkyObject(
    id: string,
    name: string,
    catalog: Option<string>,
    objectType: DeepSkyKind,
    rightAscension: real,
    declination: real,
    magnitude: Option<real>,
    sizeArcMin: Option<real>,
    x: real,
    y: real,
    visible: bool,
    azimuth: real,
    altitude: real)

  /** A satellite marker on the screen. */
  datatype CelestialObject = CelestialObject(
    id: string,
    name: string,
    x: real,
    y: real,
    visible: bool,
    magnitude: real,
    azimuth: real,
    altitude: real)

  /** The ranges of `Date`'s local getters. */
  type Month0 = m: int | 0 <= m <= 11      // getMonth(): January is 0
  type DayOfMonth = d: int | 1 <= d <= 31 witness 1
  type Hour = h: int | 0 <= h <= 23
  type Minute = m: int | 0 <= m <= 59
  type Second = s: int | 0 <= s <= 59
  type Millisecond = ms: int | 0 <= ms <= 999

  /** The values a `Date` reports through getFullYear, getMonth, getDate,
      getHours, getMinutes, getSeconds and getMilliseconds. */
  datatype DateTime = DateTime(
    year: int,
    month: Month0,
    day: DayOfMonth,
    hours: Hour,
    minutes: Minute,
    seconds: Second,
    millis: Millisecond)

  /** Observer and instant of one sky computation (the cached sidereal time
      field of the source's context is never read, so it is not modelled). */
  datatype SkyContext = SkyContext(location: Location, dateTime: DateTime)

  /** `star.mag <= limit`, the magnitude cut shared by every star filter. */
  function BrightEnough(limit: real): CatalogEntry -> bool {
    (e: CatalogEntry) => e.mag <= limit
  }

  /** `star.visible`. */
  function IsVisible(): Star -> bool {
    (s: Star) => s.visible
  }
}
