# Star map core, modelled in Dafny

This project models the computational core of a browser star map. The map
places the bright stars of a catalogue, deep-sky objects and two satellites
on a rectangular sky view for an observer's location and local time. The
model covers:

- **The placement pipeline** (`TimeConversion`, `Coordinates`, `Appearance`,
  `StarPipeline`):
  - the Julian Day, by the Fliegel–Van Flandern integer algorithm;
  - Greenwich mean and local sidereal time;
  - the equatorial-to-horizontal transform;
  - the projection of azimuth and altitude onto the screen, and the
    visibility rule;
  - a star's colour from its spectral class and its size from its magnitude;
  - `processStarData`, which chains all of these over a catalogue.
- **The visibility heuristic** of the "real astronomy engine"
  (`RealAstronomyEngine`). It applies a magnitude cut, a declination band
  chosen by latitude, and an eight-hour window around a star's hour.
- **Catalogue lookups and hooks**:
  - constellation, name search and magnitude lookups (`StarCatalog`);
  - the star-data, search and filter hooks (`StarDataHooks`);
  - the deep-sky pipeline (`DeepSky`);
  - the satellite marker geometry after orbit propagation (`Satellites`).
- **The catalogue API routes**:
  - the quoted-CSV splitter (`Csv`) and the HYG row filter (`HygRoute`);
  - the OpenNGC and galaxy filter-with-limit loops (`NgcRoutes`).
- **The components**:
  - the star information panel's descriptions and facts (`StarInfoPanel`);
  - the sky canvas's drawing rules, colour parsing, mouse and touch handlers,
    constellation segments and offset indicator (`SkyMap`);
  - the manual-location parser and preset cities (`LocationPanel`);
  - the time controls (`ControlPanel`).

Shared modules:
- `Wrappers`: optional values, and JavaScript truthiness of strings.
- `Seqs`: filter, map, filter-map, subsequence, and the generic
  filter-with-limit loop.
- `Text`: JavaScript string operations.
- `JsMath`: the truncating `%`, clamps, and trigonometry as parameters.
- `AstronomyTypes`: the records of the type definitions.

Numbers are exact reals. `Math.sin`, `cos`, `asin`, `acos` and `atan2` are
fields of a `Trig` record. The ghost predicate `JsMath.Lawful` states their
ranges, and every property about angles is conditional on it. JavaScript's
`%` is modelled as the truncating remainder `JsMath.JsRem`, whose result
takes the sign of the dividend. Dafny's own `%` is Euclidean.

A `Date` enters as the values of its local getters (`DateTime`). Setting a
time yields an unnormalised `setHours` request (`ControlPanel.SetHours`).
`ControlPanel.Resolve` reads a request back only when every field is already
in range.

Network fetches, geocoding, `parseFloat`, `toFixed` and orbit propagation
are parameters:
- a fetched CSV text or record list;
- a geocoder answer;
- a `string -> Option<real>` parser, where `None` stands for a non-finite
  result;
- a formatting function;
- a per-satellite propagation outcome.

Behaviour of the code that the model keeps as written:

- **Local sidereal time.** The LST is `(gmst + longitude) % 360` with the
  truncating `%`, so it lies in [-180, 360) and is negative whenever the
  sum is negative
  (`TimeConversion.LocalSiderealTimeNotRenormalised`).
- **Azimuth range.** The reflection `2π - acos(...)` gives an azimuth of
  exactly 360 when `acos` returns 0 (`Coordinates.AzimuthCanBe360`).
- **Star size.** `min(max(1, 8 - 1.2 m), 12)` reaches the cap 12 only from
  magnitude -10/3 down. Sirius (m = -1.46) gets size 9.752
  (`Appearance.SiriusSize`).
- **Typed coordinates.** The manual-location fallback normalises the text,
  splits it at commas (or else at spaces) and parses two parts. A "token" in
  the `LocationPanel` lemmas is a non-empty run of characters with no
  whitespace and no comma, such as `-1.29`. `CommaPairParsed` and
  `SpacedPairParsed` state the outcome for two tokens typed with any
  whitespace around them.
- **Julian Day input.** The Julian Day reads the local getters of the
  `Date` (`getFullYear`, `getMonth`, `getDate`, `getHours`, ...), not the
  UTC ones.

## Model

| member | source | states |
|---|---|---|
| TimeConversion.MarchMonth | src/utils/astronomyCalculations.ts:43 | The month counted from March lies in [0, 11] and equals `(month + 10) mod 12`. |
| TimeConversion.JulianDay | src/utils/astronomyCalculations.ts:40-46 | For any time of day the Julian Day lies in [N - 0.5, N + 0.5), where N is the integer day number of the calendar date. |
| TimeConversion.JulianDayJ2000 | src/utils/astronomyCalculations.ts:40-46 | Noon on 1 January 2000 is exactly JD 2451545 (the J2000 epoch). |
| TimeConversion.JulianDayTimeOfDay | src/utils/astronomyCalculations.ts:45-46 | Noon of a date gets exactly the integer day number. Any other time differs from noon by exactly `(h-12)/24 + mi/1440 + s/86400`. |
| TimeConversion.ShiftedYearLength | src/utils/astronomyCalculations.ts:45 | The `365y + y/4 - y/100 + y/400` term makes a March-to-February year 366 days long exactly when its February is a Gregorian leap February. |
| TimeConversion.DayNumberMonthLength | src/utils/astronomyCalculations.ts:41-45 | Day numbers of consecutive first-of-month dates, across a year end too, differ by the Gregorian length of the earlier month. |
| TimeConversion.MarchMonthStep | src/utils/astronomyCalculations.ts:45 | `(153m + 2)/5` steps by the lengths 31, 30, 31, 30, 31, 31, 30, 31, 30, 31, 31 of March through January. |
| TimeConversion.JulianDayNextDay | src/utils/astronomyCalculations.ts:45 | The next day of the month at the same time is exactly one Julian day later. |
| TimeConversion.NormalizeGmst | src/utils/astronomyCalculations.ts:29-30 | `gmst % 360`, plus 360 when negative, lies in [0, 360) and equals the floored remainder of the raw value. |
| TimeConversion.Gmst | src/utils/astronomyCalculations.ts:22-30 | Greenwich mean sidereal time lies in [0, 360) for every Julian Day. |
| TimeConversion.LocalSiderealTime | src/utils/astronomyCalculations.ts:33-34 | For a longitude in [-180, 180] the LST lies in [-180, 360). It is negative exactly when `gmst + longitude` is negative. |
| TimeConversion.LocalSiderealTimeNotRenormalised | src/utils/astronomyCalculations.ts:33-34 | The LST equals the sum `s = gmst + longitude` when `s < 360` and `s - 360` otherwise; a negative sum is not brought back into range. |
| Coordinates.DegRadRoundTrip | src/utils/astronomyCalculations.ts:9-12 | `degToRad` and `radToDeg` are inverse to each other. |
| Coordinates.HoursToDeg | src/utils/astronomyCalculations.ts:15 | Right ascension hours in [0, 24) map to degrees in [0, 360). |
| Coordinates.HoursToDegFullCircle | src/utils/astronomyCalculations.ts:15 | Adding 24 hours adds a full circle. |
| Coordinates.ClampedQuotient | src/utils/astronomyCalculations.ts:71-72 | The `acos` argument is the clamp of the quotient into [-1, 1]. At a zero denominator it keeps the sign of the numerator. |
| Coordinates.HorizontalAt | src/utils/astronomyCalculations.ts:64-82 | For lawful trigonometry, altitude lies in [-90, 90] and azimuth in [0, 360]. The azimuth is at least 180 when `sin(ha) > 0` and at most 180 otherwise. |
| Coordinates.EquatorialToHorizontal | src/utils/astronomyCalculations.ts:52-83 | The same bounds stated in terms of RA and LST: altitude in [-90, 90], azimuth in [0, 360], at least 180 when `sin(ha) > 0` and at most 180 otherwise. |
| Coordinates.EquatorialToHorizontalHourAngleOnly | src/utils/astronomyCalculations.ts:64 | Only the hour angle matters: shifting RA and LST together leaves the result unchanged. |
| Coordinates.AzimuthCanBe360 | src/utils/astronomyCalculations.ts:72-77 | When `acos` yields 0 and `sin(ha) > 0`, the azimuth is exactly 360; the reflection does not reduce it into [0, 360). |
| Coordinates.NormalizeAzimuth | src/utils/astronomyCalculations.ts:100 | `((az % 360) + 360) % 360` lies in [0, 360) and is the floored remainder of the azimuth. |
| Coordinates.AltitudeFraction | src/utils/astronomyCalculations.ts:105-108 | The clamped altitude's share of the 120° band lies in [0, 1]. It is 0 at or below -30 and 1 at or above 90. |
| Coordinates.ScreenY | src/utils/astronomyCalculations.ts:109 | The row lies in [0, height]. It is the bottom edge for altitudes at or below -30 and the top edge at or above 90. |
| Coordinates.ScreenX | src/utils/astronomyCalculations.ts:100-101 | On a screen of positive width the column lies in [0, width). It is the floored azimuth's share of a full turn times the width. |
| Coordinates.AzimuthColumn | src/utils/astronomyCalculations.ts:101 | A normalised azimuth is placed in proportion: column/width equals azimuth/360, within [0, width). |
| Coordinates.HorizontalToScreen | src/utils/astronomyCalculations.ts:89-126 | The position is the column and row above. On a screen of non-negative size the 100-pixel margin never excludes anything, so `visible` holds exactly when altitude > -25. |
| Coordinates.HorizontalToScreenPeriodic | src/utils/astronomyCalculations.ts:100 | Azimuths a full turn apart give the same screen point. |
| Coordinates.ScreenXPeriodic | src/utils/astronomyCalculations.ts:100-101 | The screen column is periodic in the azimuth with period 360. |
| Coordinates.ScreenYStrictlyDecreasing | src/utils/astronomyCalculations.ts:107-109 | Within [-30, 90] a higher altitude is drawn strictly higher (smaller y). |
| JsMath.JsRem | src/utils/astronomyCalculations.ts:29 | JavaScript `%`: the result has the dividend's sign, its magnitude is below the divisor, and a dividend already in (-b, b) is returned unchanged. |
| JsMath.DoubleRemIsFloored | src/utils/astronomyCalculations.ts:100 | `((a % m) + m) % m` equals the floored remainder of `a` by `m`, for any real `a`. |
| JsMath.Clamp | src/utils/astronomyCalculations.ts:107 | `Math.max(lo, Math.min(hi, x))` lies in [lo, hi]. It is `x` inside the interval and the nearer bound outside. |
| Appearance.StarColor | src/utils/astronomyCalculations.ts:131-144 | The colour is the table entry of the upper-cased first letter, or white for an empty or unmapped class. |
| Appearance.StarColorWhiteIff | src/utils/astronomyCalculations.ts:131-143 | A star is white exactly when its class is empty or does not start with one of O, B, A, F, G, K, M in either case. |
| Appearance.StarColorFirstLetterOnly | src/utils/astronomyCalculations.ts:132 | Only the first character matters, and lower-casing the class changes nothing ('g2v' and 'G2V' agree). |
| Appearance.StarColorDistinguishesLetters | src/utils/astronomyCalculations.ts:134-141 | Different spectral letters get different colours. |
| Appearance.StarSize | src/utils/astronomyCalculations.ts:149-154 | The size lies in [1, 12]. It is 1 exactly from magnitude 35/6, 12 exactly up to -10/3, and `8 - 1.2m` between. |
| Appearance.StarSizeAntitone | src/utils/astronomyCalculations.ts:152-153 | A brighter star is never smaller. |
| Appearance.SiriusSize | src/utils/astronomyCalculations.ts:152-153 | Magnitude -1.46 gives size 9.752, below the cap. |
| StarPipeline.PlaceStar | src/utils/astronomyCalculations.ts:171-193 | The rendered star copies the entry's fields and keeps RA in hours, with colour `getStarColor` of the class. Its azimuth and altitude are the horizontal transform of RA×15, dec, LST and latitude. Its x and y are `ScreenX`/`ScreenY` of them, so on a screen of non-negative size they lie on the screen, and it is visible exactly when altitude > -25. |
| StarPipeline.ProcessStarData | src/utils/astronomyCalculations.ts:159-198 | The output is no longer than the catalogue, and every output star is visible and within the magnitude cut. |
| StarPipeline.ProcessStarDataSelects | src/utils/astronomyCalculations.ts:166-198 | The output is exactly the placed images, in catalogue order, of the entries that pass the cut and land visibly. All use one sidereal time computed once per call. |
| StarPipeline.KeptIff | src/utils/astronomyCalculations.ts:170-196 | On a screen of non-negative size an entry is kept exactly when its magnitude is within the cut and its altitude exceeds -25. |
| StarPipeline.ProcessStarDataMonotone | src/utils/astronomyCalculations.ts:170 | A stricter magnitude cut yields a subsequence of the stars. |
| RealAstronomyEngine.DeclinationVisible | src/utils/realAstronomyEngine.ts:93-108 | For \|lat\| < 10 a star passes exactly when dec lies in [-90 + 6\|lat\|, 90 - 6\|lat\|]. From lat >= 10 the test is dec >= lat - 80, and down to lat <= -10 it is dec <= lat + 80. |
| RealAstronomyEngine.DeclinationBandNarrows | src/utils/realAstronomyEngine.ts:97-101 | On the equator every declination in [-90, 90] passes. Moving away from the equator within the zone only narrows the band. |
| RealAstronomyEngine.StarHour | src/utils/realAstronomyEngine.ts:116 | `(ra * 24 / 360) % 24` lies in [0, 24) for a non-negative RA. It is RA/15, reading the RA as degrees. |
| RealAstronomyEngine.HourGap | src/utils/realAstronomyEngine.ts:119-120 | The wrap-around distance lies in [0, 12] for hours in [0, 24) and never exceeds the plain distance. |
| RealAstronomyEngine.HourGapSymmetric | src/utils/realAstronomyEngine.ts:119-120 | The wrap-around distance is symmetric. |
| RealAstronomyEngine.CalculateVisibleStars | src/utils/realAstronomyEngine.ts:76-127 | Every returned star comes from the input, is within the magnitude cut, passes the declination test and is within 8 hours of its star hour. |
| RealAstronomyEngine.CalculateVisibleStarsIsFilter | src/utils/realAstronomyEngine.ts:83-126 | The three chained filters are one filter by the conjunction, so the result is an order-preserving subsequence of the input. |
| RealAstronomyEngine.CalculateVisibleStarsIdempotent | src/utils/realAstronomyEngine.ts:76-127 | Applying the filter to its own output with the same arguments returns the same list. |
| RealAstronomyEngine.GetVisibleStarsForLocation | src/utils/realAstronomyEngine.ts:133-140 | For any magnitude cut (6 when omitted), the result is the order-preserving subsequence of the bundled stars that pass the magnitude, declination and hour-window tests: every returned star passes them, and every passing star is returned. |
| RealAstronomyEngine.GetVisibleStarsForLocationMonotone | src/utils/realAstronomyEngine.ts:133-140 | Raising the magnitude cut yields a supersequence of the stars. |
| RealAstronomyEngine.NoStarsAtMidday | src/utils/realAstronomyEngine.ts:115-123 | With RA in hours, as the catalogue stores it, no star at all is returned at local hours 10 to 15. |
| RealAstronomyEngine.RaHour | src/utils/realAstronomyEngine.ts:116 | The intended star hour `ra % 24` lies in [0, 24) and equals the RA for RA in [0, 24). |
| RealAstronomyEngine.CalculateVisibleStarsIntended | src/utils/realAstronomyEngine.ts:76-127 | The corrected filter keeps only input stars that pass the magnitude, declination and RA-hour window tests. |
| RealAstronomyEngine.IntendedKeepsTransitingStars | src/utils/realAstronomyEngine.ts:115-123 | With the corrected hour, a star transiting at the current hour is kept at every hour of the day whenever it passes the other two tests. |
| StarCatalog.GetStarsByConstellation | src/data/starCatalog.ts:628-632 | The result holds exactly the entries whose constellation equals the argument case-insensitively, in catalogue order. |
| StarCatalog.GetStarsByConstellationIgnoresCase | src/data/starCatalog.ts:630 | The case of the argument does not matter. |
| StarCatalog.SearchStars | src/data/starCatalog.ts:637-644 | The result holds exactly the entries whose lower-cased name, non-empty common name or constellation contains the lower-cased query, in catalogue order. |
| StarCatalog.SearchStarsFinds | src/data/starCatalog.ts:640-642 | An entry is found exactly when the lower-cased query occurs at some position of one of its lower-cased names. |
| StarCatalog.SearchStarsEmptyQuery | src/data/starCatalog.ts:637-644 | The empty query returns the whole catalogue. |
| StarCatalog.SearchStarsIgnoresCase | src/data/starCatalog.ts:638 | The case of the query does not matter. |
| StarCatalog.GetVisibleStars | src/data/starCatalog.ts:650-661 | The result holds exactly the entries within the magnitude cut. |
| StarCatalog.GetVisibleStarsIgnoresObserver | src/data/starCatalog.ts:650-661 | Latitude, longitude and time do not affect the result. |
| StarCatalog.GetVisibleStarsMonotone | src/data/starCatalog.ts:658-660 | Raising the cut yields a supersequence. |
| StarDataHooks.LoadKeeps | src/hooks/useStarData.ts:41-59 | A kept star is within the magnitude cut. Below \|lat\| 30 it must lie in [-75, 75]; from lat 30 it needs dec >= lat - 85; down to lat -30 it needs dec <= lat + 85. |
| StarDataHooks.LoadCatalog | src/hooks/useStarData.ts:41-59 | The loaded catalogue is the order-preserving subsequence of the full one holding exactly the entries that pass the magnitude cut and the latitude's declination band (`LoadKeeps`): no others, and none left out. |
| StarDataHooks.LoadCatalogMonotone | src/hooks/useStarData.ts:41-59 | Raising the magnitude cut yields a supersequence of the loaded catalogue. |
| StarDataHooks.UseStarData | src/hooks/useStarData.ts:76-103 | No location or an empty catalogue gives no stars. `visibleStars` always equals the number of stars, and `totalStars` is the catalogue length. |
| StarDataHooks.StarSearch | src/hooks/useStarData.ts:111-125 | A blank query gives nothing. Otherwise the result is the first ten matches by name, common name or constellation, in order, or all of them when there are fewer. |
| StarDataHooks.FilterStars | src/hooks/useStarData.ts:150-165 | A star is kept exactly when it is within the magnitude setting and its upper-cased first letter is among the selected classes, in order. |
| StarDataHooks.DefaultFiltersKeepColouredStars | src/hooks/useStarData.ts:136-141 | With the initial settings a star passes exactly when its magnitude is at most 6 and `getStarColor` does not draw it white. |
| DeepSky.MapNgcType | src/hooks/useDeepSkyData.ts:76-85 | G maps to galaxy, N to nebula, OC and GC to cluster, PN to planetary nebula, and every other code to other, as an if-and-only-if per kind. |
| DeepSky.CatalogOf | src/hooks/useDeepSkyData.ts:57 | The catalogue is the record's own when non-empty and "NGC" otherwise. |
| DeepSky.ObjectIdInjective | src/hooks/useDeepSkyData.ts:55 | Within one catalogue, equal object ids mean equal record ids. |
| DeepSky.ObjectName | src/hooks/useDeepSkyData.ts:53 | The name is the record's own when non-empty, else `"<catalog> <id>"`. |
| DeepSky.PlaceObject | src/hooks/useDeepSkyData.ts:49-69 | RA is converted to degrees (×15) for the transform and kept in hours on the object. Azimuth and altitude are that transform; x and y are `ScreenX`/`ScreenY` of them and lie on a screen of non-negative size. Type, id, name, magnitude and size come from the record, and visibility follows the altitude rule. |
| DeepSky.DeepSkyObjects | src/hooks/useDeepSkyData.ts:42-71 | No location or no records give []. Every object is visible and has `mag ?? 99` within the limit. |
| DeepSky.DeepSkyObjectsSelects | src/hooks/useDeepSkyData.ts:45-70 | The objects are the placed records within the limit that land visibly, in input order. |
| DeepSky.MissingMagnitudeExcluded | src/hooks/useDeepSkyData.ts:48 | Under any limit below 99 (the default is 11), an object without a magnitude is never shown. |
| Satellites.DeltaLongitude | src/hooks/useSatellites.ts:61 | For any difference of at least -540 (so for any two longitudes in range) the wrapped difference lies in [-180, 180). It equals the plain difference reduced modulo 360 into that interval. |
| Satellites.Azimuth | src/hooks/useSatellites.ts:63 | The bearing lies in [0, 360). |
| Satellites.Altitude | src/hooks/useSatellites.ts:64 | The pseudo-altitude lies in [10, 80]. |
| Satellites.MarkerY | src/hooks/useSatellites.ts:66 | For a pseudo-altitude in [10, 80] the row lies in [h/12, 2h/3]. |
| Satellites.Marker | src/hooks/useSatellites.ts:58-67 | The marker carries the satellite's id, name and magnitude. Its azimuth and altitude are the bearing and pseudo-altitude of the wrapped longitude and latitude differences from the observer. Its x is azimuth/360 of the width (in [0, width)), its y is `MarkerY` of the altitude, and it is visible exactly when altitude > 0, which always holds. |
| Satellites.SatelliteMarkers | src/hooks/useSatellites.ts:41-71 | When tracking is disabled, there is no location or the orbit library is absent, the result is []. Otherwise there are at most two markers, all visible, and each marker is the one placed for a tracked satellite whose propagation gave a position. |
| Satellites.MarkerComesFromPosition | src/hooks/useSatellites.ts:53-69 | A satellite whose propagation has no position is skipped, so every marker in the list was placed from some tracked satellite's position. |
| Satellites.PositionedSatelliteShown | src/hooks/useSatellites.ts:53-69 | A satellite that propagates to a position is shown, whatever happens to the other one. |
| HygRoute.StripCarriageReturn | src/app/api/hyg/route.ts:20 | Only a trailing carriage return is removed. |
| HygRoute.SplitLines | src/app/api/hyg/route.ts:20 | There is one more line than there are line feeds, and no line contains one. |
| HygRoute.IndexOf | src/app/api/hyg/route.ts:25-33 | It gives the first position of the column name, or none exactly when the name is absent. |
| HygRoute.Cell | src/app/api/hyg/route.ts:39 | A cell exists exactly when the column was found and the row is long enough. |
| HygRoute.RowEntry | src/app/api/hyg/route.ts:37-60 | A line is emitted exactly when it is non-empty, its finite magnitude is within range, and RA and dec parse. It carries the parsed RA and dec, the magnitude or 99, and the id text. |
| HygRoute.RowEntryWellFormed | src/app/api/hyg/route.ts:48-58 | Every emitted entry has no constellation, a non-empty name and class (defaults "HYG id" and "G"), and a magnitude in range or 99. |
| HygRoute.HygGet | src/app/api/hyg/route.ts:20-62 | The header is skipped, and the result is the first `max(limit, 1)` emitted rows in order. The push comes before the limit check. |
| Csv.Scan | src/app/api/hyg/route.ts:75-87 | The state machine only appends fields to those already pushed, and always pushes at least one more. |
| Csv.Pad | src/app/api/hyg/route.ts:88 | Padding keeps the fields and appends empty strings up to the expected count, and only when needed. |
| Csv.ScanQuoteFree | src/app/api/hyg/route.ts:75-87 | On text without quotes the state machine produces exactly the comma-separated pieces of the text, the first one appended to the field in progress. |
| Csv.SafeSplitCsv | src/app/api/hyg/route.ts:71-90 | The character loop computes the state machine's fields, padded, so there are at least `expected` fields and at least one. |
| Csv.QuoteFreeFields | src/app/api/hyg/route.ts:75-87 | On a line without quotes, k commas give exactly k + 1 comma-free fields, and joining them with commas gives back the line. |
| Csv.ScanEscaped | src/app/api/hyg/route.ts:77-84 | Inside quotes a doubled quote yields one literal quote and commas are data; the closing quote ends quoting and is not emitted. |
| Csv.EncodeRowRoundTrip | src/app/api/hyg/route.ts:71-90 | Splitting a row whose fields were quoted and escaped gives back exactly those fields, whatever commas and quotes they contain. |
| NgcRoutes.Emit | src/app/api/galaxies/route.ts:22-31 | Fields pass through, including a missing magnitude (not 99). The catalogue is `cat` when it is truthy and `catalog` otherwise. |
| Seqs.CollectUpTo | src/app/api/galaxies/route.ts:17-33 | The push-then-check-limit loop returns the first `max(limit, 1)` selected items in order: one item is pushed even when the limit is 0 or negative. |
| NgcRoutes.OpenNgcGet | src/app/api/opengc/route.ts:17-32 | The output is the first `max(limit, 1)` records with `mag ?? 99` within `maxMag`, in input order, with no type filter. |
| NgcRoutes.OpenNgcEmitsQualifying | src/app/api/opengc/route.ts:18-30 | Before the limit, an object is emitted exactly when some record within the magnitude limit produces it. |
| NgcRoutes.GalaxiesGet | src/app/api/galaxies/route.ts:16-33 | The output is the first `max(limit, 1)` records of type "G" within `maxMag`, in input order. |
| NgcRoutes.GalaxiesAreOpenNgcGalaxies | src/app/api/galaxies/route.ts:19-21 | Before the limit, the galaxy route emits exactly the OpenNGC route's objects of type "G", in the same order. |
| StarInfoPanel.SpectralClassDescription | src/components/StarInfoPanel.tsx:72-84 | The description is that of the upper-cased first letter among O, B, A, F, G, K, M, else "Unknown type" (the empty class included). |
| StarInfoPanel.DescriptionKnownIffColoured | src/components/StarInfoPanel.tsx:72-84 | A class has a known description exactly when `getStarColor` does not draw it white. |
| StarInfoPanel.MagnitudeRank | src/components/StarInfoPanel.tsx:86-94 | The closed form of the ladder: rank 0 below 0, rank 6 from 5 on, and otherwise rank k for [k-1, k). |
| StarInfoPanel.MagnitudeDescriptionRank | src/components/StarInfoPanel.tsx:86-94 | The strict `<` ladder picks the label of the unit interval the magnitude falls in, so exactly 1.0 is "Bright". |
| StarInfoPanel.MagnitudeRankMonotone | src/components/StarInfoPanel.tsx:86-94 | A smaller magnitude never gets a fainter label. |
| StarInfoPanel.SameLabelIffSameBand | src/components/StarInfoPanel.tsx:86-94 | Two magnitudes get the same label exactly when they fall in the same band of the ladder; the seven labels are distinct. |
| StarInfoPanel.DistanceFacts | src/components/StarInfoPanel.tsx:239-243 | An absent distance shows nothing, and a zero distance renders a stray "0". Any other distance shows the light-travel line. |
| StarInfoPanel.ClassFacts | src/components/StarInfoPanel.tsx:249-263 | As written: the Sun-like line appears exactly for a class starting with "G", the red-dwarf line for "M", and the massive-star line for "B" only (case-sensitive). |
| StarInfoPanel.Facts | src/components/StarInfoPanel.tsx:239-263 | No star renders nothing. Otherwise each fact appears exactly under its condition: light travel, stray zero, magnitude < 0, "G", "M", and "B". |
| StarInfoPanel.AtMostOneClassFact | src/components/StarInfoPanel.tsx:249-263 | At most one of the three class facts appears. |
| StarInfoPanel.LowerCaseClassGetsNoFact | src/components/StarInfoPanel.tsx:249 | A "g2v" star is described as Sun-like but gets no Sun-like fact. |
| StarInfoPanel.OClassGetsNoMassiveFact | src/components/StarInfoPanel.tsx:259-263 | As written, an "O9" star, described as very hot, gets no massive-star line. |
| StarInfoPanel.ClassFactsIntended | src/components/StarInfoPanel.tsx:259-263 | With the intended grouping, the massive-star line appears exactly for classes starting with "O" or "B". |
| StarInfoPanel.IntendedMassiveHotIff | src/components/StarInfoPanel.tsx:259-263 | The corrected facts show the massive-star line exactly for O and B classes, and agree with the written ones on every class not starting with "O". |
| SkyMap.DrawnSize | src/components/SkyMap.tsx:82-84 | On a canvas narrower than 768 the size is at least 4 and at least 1.5 times the base size; otherwise it is the base size. |
| SkyMap.Opacity | src/components/SkyMap.tsx:85 | Opacity is at least 0.4, `1 - m/6` up to magnitude 3.6, and 0.4 beyond. |
| SkyMap.OpacityAntitone | src/components/SkyMap.tsx:85 | A brighter star is never more transparent. |
| SkyMap.DrawStar | src/components/SkyMap.tsx:78-120 | A star is drawn exactly when it is visible. The glow is 3× (mobile) or 2× the size, the opacity is the magnitude-based `Opacity`, and the core alpha is the larger of that opacity and 0.6. The ring appears exactly when the hovered star has the same id; its radius is the size plus 8 (mobile) or plus 5, and its line width is 3 (mobile) or 2. |
| SkyMap.MobileNeverSmaller | src/components/SkyMap.tsx:82-88 | A star is never drawn smaller on a narrow canvas, and its glow is strictly larger there. |
| SkyMap.FrameDrawsOnlyVisible | src/components/SkyMap.tsx:78-79 | A glyph is in the frame exactly when some visible star draws it. |
| SkyMap.HexPairValue | src/components/SkyMap.tsx:92-94 | `parseInt` of two hex digits in base 16 is their two-digit value, in [0, 255]. |
| SkyMap.HexToRgba | src/components/SkyMap.tsx:91-96 | On `#rrggbb` the channels are the three digit pairs' values, each in [0, 255], and alpha passes through. |
| SkyMap.HexRoundTrip | src/components/SkyMap.tsx:91-96 | `hexToRgba` inverts the `#rrggbb` encoding of any three bytes. |
| SkyMap.StarColorsDecode | src/components/SkyMap.tsx:97 | Every colour `getStarColor` returns decodes to three numeric channels (no NaN). |
| SkyMap.Drag | src/components/SkyMap.tsx:157-160 | The azimuth offset moves by `0.2·dx` without bound. The altitude offset follows `-0.2·dy` and stays clamped to [-90, 90]. |
| SkyMap.DragHorizontal | src/components/SkyMap.tsx:157-160 | A drag with no vertical motion, from an altitude offset in range, moves only the azimuth offset, by 0.2 per pixel. |
| SkyMap.HitIffWithinRadius | src/components/SkyMap.tsx:168-170 | The squared-distance test agrees with the source's `Math.sqrt` distance test, and invisible stars are never hit. |
| SkyMap.FirstHit | src/components/SkyMap.tsx:167-171 | `find` gives the first star in array order that is hit, or none exactly when no star is hit; a found star is visible. |
| SkyMap.MouseDown | src/components/SkyMap.tsx:137-140 | A press starts dragging from the cursor position and changes nothing else. |
| SkyMap.MouseMove | src/components/SkyMap.tsx:142-174 | While dragging, a move rotates the offset by the motion since the last event and re-anchors. Otherwise it sets the hovered star to the first hit within size + 5. |
| SkyMap.MouseUp | src/components/SkyMap.tsx:176-178 | A release only stops dragging. |
| SkyMap.Click | src/components/SkyMap.tsx:180-184 | A click selects the hovered star exactly when not dragging and a star is hovered. |
| SkyMap.Touch | src/components/SkyMap.tsx:187-210 | A touch hovers and selects the first visible star within 20 pixels (window narrower than 768) or 15 pixels. It changes nothing when no star is hit. |
| SkyMap.DragTelescopes | src/components/SkyMap.tsx:153-162 | Over two drag moves the azimuth rotation depends only on the drag start and the last point, and the altitude stays clamped. |
| SkyMap.ClickAfterDragKeepsHover | src/components/SkyMap.tsx:176-184 | A click right after a drag ends selects the star hovered before the drag. |
| SkyMap.Segment | src/components/SkyMap.tsx:303-307 | A segment is drawn exactly when both named stars are found among the visible stars. Each end is the first visible star in the list with that name, as `Array.find` returns. |
| SkyMap.SegmentsJoinVisibleStars | src/components/SkyMap.tsx:303-313 | Every stroked segment joins two visible stars of the frame that one line of the table names. |
| SkyMap.OffsetIndicator | src/components/SkyMap.tsx:264-274 | As written, the readout shows only when the azimuth offset is 0 and the altitude offset is not. The hint shows when both are 0. |
| SkyMap.HorizontalDragHidesReadout | src/components/SkyMap.tsx:264-268 | After a purely horizontal drag neither the readout nor the hint shows. |
| SkyMap.IntendedIndicatorExclusive | src/components/SkyMap.tsx:264-274 | With the intended grouping exactly one of readout and hint shows, and the readout shows whenever the view has moved. |
| LocationPanel.Collapse | src/components/LocationPanel.tsx:60 | After collapsing, the only whitespace is single spaces and no two spaces are adjacent. The first character is kept (a space if it was whitespace) and so is a non-whitespace last character. |
| LocationPanel.CollapseNoSpace | src/components/LocationPanel.tsx:60 | Text with no whitespace is left unchanged by collapsing. |
| LocationPanel.CollapseRun | src/components/LocationPanel.tsx:60 | A whitespace run between two non-whitespace characters becomes exactly one space, and the text on either side collapses on its own. |
| LocationPanel.StripAroundCommas | src/components/LocationPanel.tsx:60 | No whitespace is left next to a comma, and every character comes from the input. |
| LocationPanel.StripNoSpace | src/components/LocationPanel.tsx:60 | Text with no whitespace is left unchanged by the comma rule. |
| LocationPanel.StripCommaRun | src/components/LocationPanel.tsx:60 | The pattern whitespace, comma, whitespace becomes a bare comma, and the text on either side is processed on its own. |
| LocationPanel.StripKeepsRun | src/components/LocationPanel.tsx:60 | A whitespace run that touches no comma is kept exactly as it is. |
| LocationPanel.Normalize | src/components/LocationPanel.tsx:60 | The normalised text is tidy: no whitespace at either end, single spaces as its only whitespace, never two in a row, and none beside a comma. |
| LocationPanel.NormalizeCommaPair | src/components/LocationPanel.tsx:60 | Two tokens around a comma, with any whitespace before, between and after them, normalise to exactly `a,b`. |
| LocationPanel.NormalizeSpacedPair | src/components/LocationPanel.tsx:60 | Two tokens separated only by whitespace, with any whitespace around them, normalise to exactly `a b`. |
| LocationPanel.CollapseKeepsInk | src/components/LocationPanel.tsx:60 | Collapsing whitespace runs to one space keeps every non-whitespace character, in order. |
| LocationPanel.StripKeepsInk | src/components/LocationPanel.tsx:60 | Removing the whitespace around commas keeps every non-whitespace character, in order. |
| LocationPanel.NormalizeKeepsInk | src/components/LocationPanel.tsx:60 | Normalisation changes whitespace only: the non-whitespace characters survive, in order. |
| LocationPanel.Parts | src/components/LocationPanel.tsx:61-66 | With a comma there is one more part than commas, no part holds a comma, and for normalised text the parts joined with commas give the text back. Otherwise, with a space, the same holds for spaces. Otherwise there are no parts. |
| LocationPanel.CoordinateFallback | src/components/LocationPanel.tsx:58-79 | A location comes back exactly when there are two parts that both parse to a latitude in [-90, 90] and a longitude in [-180, 180]. Its latitude is the first part's value and its longitude the second's, its city is the two values at four decimals, and its country is "Custom Location". |
| LocationPanel.CommaPairParsed | src/components/LocationPanel.tsx:60-79 | Typed `lat , lng`, with any whitespace around the comma and the ends, gives a location exactly when both numbers parse and are in range. The latitude is the first number and the longitude the second. |
| LocationPanel.SpacedPairParsed | src/components/LocationPanel.tsx:60-79 | Typed `lat lng`, separated by whitespace only, behaves the same way. |
| LocationPanel.SingleTokenRejected | src/components/LocationPanel.tsx:61-67 | Text with neither comma nor space after normalisation never yields coordinates. |
| LocationPanel.Submit | src/components/LocationPanel.tsx:27-88 | Blank input is ignored, and a geocoder answer is used as given. Otherwise the location is exactly the one the coordinate fallback produced, and a failure raises the not-found alert and changes no location. |
| LocationPanel.FallbackLocationsInRange | src/components/LocationPanel.tsx:67-82 | A location set from typed coordinates is always in range and labelled "Custom Location". |
| LocationPanel.PresetLocation | src/components/LocationPanel.tsx:224-231 | A preset button passes its city's coordinates, name and country. |
| LocationPanel.PresetsInRange | src/components/LocationPanel.tsx:208-221 | Every preset lies in range, and the preset names are distinct. |
| ControlPanel.Resolve | src/components/ControlPanel.tsx:82-83 | A `setHours` request reads back as the base date with the new time exactly when every field is in range. |
| ControlPanel.AdjustTime | src/components/ControlPanel.tsx:71-75 | The request moves the hour by n and keeps minutes, seconds and milliseconds. |
| ControlPanel.AdjustMovesJulianDay | src/components/ControlPanel.tsx:71-75 | Within one day, a shift of n hours moves the Julian Day by exactly n/24. |
| ControlPanel.AdjustInverse | src/components/ControlPanel.tsx:151-168 | Within one day, shifting by n and then by -n restores the time. |
| ControlPanel.MatchClock | src/components/ControlPanel.tsx:79 | The matcher accepts exactly two digits, a colon and two digits, and reads the two decimal numbers. |
| ControlPanel.TimeInput | src/components/ControlPanel.tsx:77-85 | A matching value sets the hour and minute and zeroes seconds and milliseconds. Anything else changes nothing. |
| ControlPanel.OutOfRangeClockAccepted | src/components/ControlPanel.tsx:79-83 | "99:99" passes the matcher and yields a request that is out of range. |
| ControlPanel.ShortClockRejected | src/components/ControlPanel.tsx:79-80 | "7:30" is ignored while "07:30" is accepted. |
| ControlPanel.TwoDigits | src/components/ControlPanel.tsx:144 | `padStart(2, '0')` of a number below 100 is two digits whose decimal value is the number. |
| ControlPanel.ClockTextRoundTrip | src/components/ControlPanel.tsx:144 | The displayed `HH:MM` matches and reads back as the current hour and minute. Submitting it zeroes only the seconds and milliseconds. |
| ControlPanel.Midnight | src/components/ControlPanel.tsx:180-184 | Midnight keeps the date and zeroes hour, minute, second and millisecond. |
| ControlPanel.MidnightJulianDay | src/components/ControlPanel.tsx:181-183 | Midnight is half a day before the date's integer day number. |
| ControlPanel.ToggleLive | src/components/ControlPanel.tsx:120-126 | The switch flips, and the clock time is passed on exactly when it was switched on. |
| Text.TrimEmptyIffBlank | src/hooks/useStarData.ts:112 | `trim()` is empty exactly when every character is whitespace. |
| Text.SplitCount | src/app/api/hyg/route.ts:20 | `split` on one character gives one more piece than occurrences of it, and no piece contains it. |
| Text.JoinSplit | src/app/api/hyg/route.ts:20 | Joining the pieces of `split` with the separator gives back the text. |
| Text.IncludesIffOccurs | src/data/starCatalog.ts:640-642 | `includes` agrees with the positional definition of a substring occurrence. |

## Left out

- Floating point: numbers are exact reals, so IEEE rounding, `NaN` and `Infinity` are not modelled.
- Coordinates.ClampedQuotient: at the zero denominator (pole or zenith) JavaScript divides to `±Infinity` or `NaN`. The model takes 1 or -1 by the numerator's sign and 0 for `0/0`, and states only the sign, because `acos(NaN)` has no real counterpart.
- Trigonometry: `Math.sin`, `cos`, `asin`, `acos` and `atan2` are parameters constrained only by their ranges.
- `Date`: time zones, the conversion between an instant and its local getters, and `setHours` rollover into the next day or month are not modelled. Requests that need rollover stay unresolved (`ControlPanel.Resolve` gives none).
- ControlPanel's Now button (`handleTimeReset`) only passes the current clock reading on. The clock is a parameter, so there is nothing to state beyond `ControlPanel.ToggleLive`.
- `parseFloat`, `toFixed(4)`, the geocoder (Nominatim), the Wikipedia summaries and browser or IP geolocation are parameters or not modelled, because they are foreign code or network calls.
- HTTP fetches and the error responses (502 on a failed download, 500 on a parse failure) of the API routes are not modelled. The routes are modelled from the downloaded text or records onwards. The query-parameter parsing (`parseFloat`/`parseInt` of the search parameters) is reduced to the parsed values and their defaults.
- Orbit propagation (satellite.js `twoline2satrec`, `propagate`, `gstime`, `eciToGeodetic`) is a per-satellite parameter. The markers use the window size as given.
- Canvas drawing, gradients, React state and effects, timers, the render loop, the offline pack and the AR view are not modelled. `SkyMap.DrawStar` states what is drawn, not the canvas calls.
- SkyMap.HexToRgba: the `rgba(...)` string itself is not built. The model returns the three parsed channels and the alpha, with `None` for `NaN`.
- Text: case mapping and whitespace cover ASCII only (`toLowerCase`, `toUpperCase`, `trim`, `\s`). Whitespace is the space and the characters with codes 9 to 13 (tab, line feed, vertical tab, form feed, carriage return). Unicode case folding and non-ASCII spaces are not modelled.
- SkyMap.HitIffWithinRadius: the hit test compares squared distances rather than calling `Math.sqrt`. This lemma proves the two agree for a non-negative radius.
- The bundled star tables, the deep-sky catalogue loader and the satellites' orbital elements are data. The catalogue is a parameter of every member that reads it.
- useDeepSkyData loads its records through a function that realAstronomyEngine.ts does not define. The raw records are a parameter of `DeepSky.DeepSkyObjects`.
- useStarData's loading and error flags, and its catalogue reload on every time change, are React state and not modelled. The loaded catalogue is `StarDataHooks.LoadCatalog` of the full list.
- The `type` field of the satellite objects (always `'satellite'`) is not part of the `CelestialObject` record.

## Findings

| source | as written | input that shows it | evidently intended | confidence | as-written member | corrected member |
|---|---|---|---|---|---|---|
| src/utils/realAstronomyEngine.ts:116 | `starHour = (ra * 24 / 360) % 24` treats the right ascension as degrees, but catalogue RA is in hours | any catalogue with RA in [0, 24) and local hour 12: every star hour is below 1.6, so the gap exceeds 8 and the result is empty | the star hour is `ra % 24` (RA already in hours) | not executed | RealAstronomyEngine.NoStarsAtMidday | RealAstronomyEngine.IntendedKeepsTransitingStars |
| src/components/StarInfoPanel.tsx:259-263 | `startsWith('O') \|\| startsWith('B') && <line>` parses as `O \|\| (B && line)`, so an O class renders `true`, which shows nothing | spectral class "O9": described as "Very hot blue star", but no massive-star line | the line for classes starting with "O" or "B" | not executed | StarInfoPanel.OClassGetsNoMassiveFact | StarInfoPanel.IntendedMassiveHotIff |
| src/components/SkyMap.tsx:264-268 | `azimuth !== 0 \|\| altitude !== 0 && <readout>` renders `true`, which shows nothing, whenever the azimuth offset is non-zero | a horizontal drag of 10 pixels from the initial view: offset (2, 0), with neither readout nor "Drag to explore" hint | the readout whenever either offset is non-zero | not executed | SkyMap.HorizontalDragHidesReadout | SkyMap.IntendedIndicatorExclusive |
