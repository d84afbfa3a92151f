/** The pure parts of src/hooks/useStarData.ts: the catalogue-load filter,
    the processed stars and their counts, the search hook and the
    magnitude/spectral-class filter hook. */
module StarDataHooks {
  import opened Wrappers
  import opened Seqs
  import opened Text
  import opened JsMath
  import opened AstronomyTypes
  import opened Coordinates
  import opened Appearance
  import opened StarPipeline
  import opened StarCatalog

  /** Default magnitude cut of `useStarData`. */
  const HookMinimumMagnitude: real := 5.0

  /** The filter applied when the catalogue is loaded for a location:
      the magnitude cut, then a declination band by latitude. */
  function LoadKeeps(latitude: real, minimumMagnitude: real, e: CatalogEntry): (keep: bool)
    ensures keep ==> e.mag <= minimumMagnitude
    ensures e.mag <= minimumMagnitude && Abs(latitude) < 30.0 ==> (keep <==> -75.0 <= e.dec <= 75.0)
    ensures e.mag <= minimumMagnitude && latitude >= 30.0 ==> (keep <==> e.dec >= latitude - 85.0)
    ensures e.mag <= minimumMagnitude && latitude <= -30.0 ==> (keep <==> e.dec <= latitude + 85.0)
  {
    if e.mag > minimumMagnitude then false
    else if Abs(latitude) < 30.0 then e.dec >= -75.0 && e.dec <= 75.0
    else if latitude > 0.0 then e.dec >= latitude - 85.0
    else e.dec <= latitude + 85.0
  }

  /** `LoadKeeps` as a callback. */
  function LoadFilter(latitude: real, minimumMagnitude: real): CatalogEntry -> bool {
    (e: CatalogEntry) => LoadKeeps(latitude, minimumMagnitude, e)
  }

  /** The catalogue the hook keeps after loading `all` for a location: exactly
      the entries `LoadKeeps` accepts, in catalogue order. */
  function LoadCatalog(all: seq<CatalogEntry>, location: Location, minimumMagnitude: real): (catalog: seq<CatalogEntry>)
    ensures IsSubsequence(catalog, all)
    ensures forall i :: 0 <= i < |catalog| ==>
      catalog[i].mag <= minimumMagnitude && LoadKeeps(location.latitude, minimumMagnitude, catalog[i])
    ensures forall i :: 0 <= i < |all| && LoadKeeps(location.latitude, minimumMagnitude, all[i]) ==> all[i] in catalog
  {
    FilterIsSubsequence(LoadFilter(location.latitude, minimumMagnitude), all);
    Filter(LoadFilter(location.latitude, minimumMagnitude), all)
  }

  /** Raising the magnitude cut only adds entries, in catalogue order. */
  lemma LoadCatalogMonotone(all: seq<CatalogEntry>, location: Location, m1: real, m2: real)
    requires m1 <= m2
    ensures IsSubsequence(LoadCatalog(all, location, m1), LoadCatalog(all, location, m2))
  {
    FilterWeaken(LoadFilter(location.latitude, m1), LoadFilter(location.latitude, m2), all);
  }

  /** The hook's results. */
  datatype StarData = StarData(stars: seq<Star>, totalStars: nat, visibleStars: nat)

  /** The memoised `stars` (empty without a location or with an empty
      catalogue, otherwise `processStarData`), `totalStars` and the count of
      visible stars. */
  function UseStarData(trig: Trig, location: Option<Location>, currentTime: DateTime, catalog: seq<CatalogEntry>,
                       width: real, height: real, minimumMagnitude: real): (r: StarData)
    ensures location.None? || |catalog| == 0 ==> r.stars == []
    ensures |r.stars| <= |catalog| && r.totalStars == |catalog|
    ensures r.visibleStars == |r.stars|
    ensures forall i :: 0 <= i < |r.stars| ==> r.stars[i].visible && r.stars[i].magnitude <= minimumMagnitude
  {
    var stars :=
      if location.None? || |catalog| == 0 then []
      else ProcessStarData(trig, catalog, SkyContext(location.value, currentTime), width, height, minimumMagnitude);
    FilterAllPass(IsVisible(), stars);
    StarData(stars, |catalog|, |Filter(IsVisible(), stars)|)
  }

  /** The search test on a rendered star. */
  function StarMatches(term: string): Star -> bool {
    (s: Star) => NameMatches(s.name, s.commonName, s.constellation, term)
  }

  /** Most results the search hook shows. */
  const MaxSearchResults: nat := 10

  /** `useStarSearch`: nothing for a blank query, otherwise the first ten
      stars matching the lower-cased (untrimmed) query, in order. */
  function StarSearch(stars: seq<Star>, searchQuery: string): (results: seq<Star>)
    ensures IsBlank(searchQuery) ==> results == []
    ensures |results| <= MaxSearchResults
    ensures !IsBlank(searchQuery) ==> results <= Filter(StarMatches(Lower(searchQuery)), stars)
    ensures !IsBlank(searchQuery) && |Filter(StarMatches(Lower(searchQuery)), stars)| >= MaxSearchResults ==>
      |results| == MaxSearchResults
    ensures !IsBlank(searchQuery) && |Filter(StarMatches(Lower(searchQuery)), stars)| < MaxSearchResults ==>
      results == Filter(StarMatches(Lower(searchQuery)), stars)
    ensures forall i :: 0 <= i < |results| ==>
      results[i] in stars && NameMatches(results[i].name, results[i].commonName, results[i].constellation, Lower(searchQuery))
  {
    TrimEmptyIffBlank(searchQuery);
    if Trim(searchQuery) == "" then []
    else Take(Filter(StarMatches(Lower(searchQuery)), stars), MaxSearchResults)
  }

  /** The filter settings of `useStarFilter`. */
  datatype StarFilters = StarFilters(
    minimumMagnitude: real,
    showConstellations: bool,
    showStarNames: bool,
    spectralClasses: seq<string>)

  /** The initial settings: magnitude 6 and the seven spectral letters. */
  const DefaultFilters: StarFilters := StarFilters(6.0, true, true, ["O", "B", "A", "F", "G", "K", "M"])

  /** The test of `filterStars`. */
  function FilterAccepts(filters: StarFilters): Star -> bool {
    (s: Star) => s.magnitude <= filters.minimumMagnitude && FirstCharUpper(s.spectralClass) in filters.spectralClasses
  }

  /** `filterStars(stars)`. */
  function FilterStars(filters: StarFilters, stars: seq<Star>): (r: seq<Star>)
    ensures IsSubsequence(r, stars)
    ensures forall i :: 0 <= i < |r| ==>
      r[i].magnitude <= filters.minimumMagnitude && FirstCharUpper(r[i].spectralClass) in filters.spectralClasses
    ensures forall i :: 0 <= i < |stars| ==>
      (stars[i].magnitude <= filters.minimumMagnitude && FirstCharUpper(stars[i].spectralClass) in filters.spectralClasses
       ==> stars[i] in r)
  {
    FilterIsSubsequence(FilterAccepts(filters), stars);
    Filter(FilterAccepts(filters), stars)
  }

  /** With the initial settings a star passes exactly when it is no fainter
      than 6 and is drawn in one of the seven spectral colours, not white. */
  lemma DefaultFiltersKeepColouredStars(s: Star)
    ensures FilterAccepts(DefaultFilters)(s) <==> s.magnitude <= 6.0 && StarColor(s.spectralClass) != White
  {
    StarColorWhiteIff(s.spectralClass);
  }
}
