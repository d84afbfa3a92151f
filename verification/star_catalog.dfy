/** Lookups over the bundled star catalogue (src/data/starCatalog.ts); the
    catalogue itself is a parameter. */
module StarCatalog {
  import opened Wrappers
  import opened Seqs
  import opened Text
  import opened AstronomyTypes

  /** Default magnitude cut of `getVisibleStars`. */
  const DefaultMinimumMagnitude: real := 5.0

  /** `star.constellation.toLowerCase() === constellation.toLowerCase()`. */
  function InConstellation(constellation: string): CatalogEntry -> bool {
    (e: CatalogEntry) => Lower(e.constellation) == Lower(constellation)
  }

  /** `getStarsByConstellation`: the entries of the named constellation, in
      catalogue order, compared without regard to case. */
  function GetStarsByConstellation(catalog: seq<CatalogEntry>, constellation: string): (r: seq<CatalogEntry>)
    ensures forall i :: 0 <= i < |r| ==> r[i] in catalog && Lower(r[i].constellation) == Lower(constellation)
    ensures forall i :: 0 <= i < |catalog| && Lower(catalog[i].constellation) == Lower(constellation) ==> catalog[i] in r
    ensures IsSubsequence(r, catalog)
  {
    FilterIsSubsequence(InConstellation(constellation), catalog);
    Filter(InConstellation(constellation), catalog)
  }

  /** The case of the constellation argument does not matter. */
  lemma GetStarsByConstellationIgnoresCase(catalog: seq<CatalogEntry>, constellation: string)
    ensures GetStarsByConstellation(catalog, Lower(constellation)) == GetStarsByConstellation(catalog, constellation)
  {
    LowerIdempotent(constellation);
    FilterExtensional(InConstellation(Lower(constellation)), InConstellation(constellation), catalog);
  }

  /** The search test shared by `searchStars` and `useStarSearch`: the
      lower-cased term occurs in the lower-cased name, in the common name
      when it is a non-empty string, or in the constellation. */
  predicate NameMatches(name: string, commonName: Option<string>, constellation: string, term: string) {
    || Includes(Lower(name), term)
    || (Truthy(commonName) && Includes(Lower(commonName.value), term))
    || Includes(Lower(constellation), term)
  }

  /** The search test on a catalogue entry. */
  function EntryMatches(term: string): CatalogEntry -> bool {
    (e: CatalogEntry) => NameMatches(e.name, e.commonName, e.constellation, term)
  }

  /** `searchStars(query)`: the entries matching the lower-cased query. */
  function SearchStars(catalog: seq<CatalogEntry>, query: string): (r: seq<CatalogEntry>)
    ensures forall i :: 0 <= i < |r| ==> r[i] in catalog && NameMatches(r[i].name, r[i].commonName, r[i].constellation, Lower(query))
    ensures forall i :: 0 <= i < |catalog| && NameMatches(catalog[i].name, catalog[i].commonName, catalog[i].constellation, Lower(query))
              ==> catalog[i] in r
    ensures IsSubsequence(r, catalog)
  {
    FilterIsSubsequence(EntryMatches(Lower(query)), catalog);
    Filter(EntryMatches(Lower(query)), catalog)
  }

  /** In positional terms: an entry of the catalogue is found exactly when the
      lower-cased query occurs at some position of one of its lower-cased names. */
  lemma SearchStarsFinds(catalog: seq<CatalogEntry>, query: string, k: nat)
    requires k < |catalog|
    ensures var e := catalog[k];
      e in SearchStars(catalog, query) <==>
        (exists i :: OccursAt(Lower(e.name), Lower(query), i)) ||
        (Truthy(e.commonName) && exists i :: OccursAt(Lower(e.commonName.value), Lower(query), i)) ||
        (exists i :: OccursAt(Lower(e.constellation), Lower(query), i))
  {
    var e := catalog[k];
    IncludesIffOccurs(Lower(e.name), Lower(query));
    if Truthy(e.commonName) {
      IncludesIffOccurs(Lower(e.commonName.value), Lower(query));
    }
    IncludesIffOccurs(Lower(e.constellation), Lower(query));
    if e in SearchStars(catalog, query) {
      var r := SearchStars(catalog, query);
      var j :| 0 <= j < |r| && r[j] == e;
    }
  }

  /** The empty query finds the whole catalogue. */
  lemma SearchStarsEmptyQuery(catalog: seq<CatalogEntry>)
    ensures SearchStars(catalog, "") == catalog
  {
    forall i | 0 <= i < |catalog|
      ensures EntryMatches(Lower(""))(catalog[i])
    {
      IncludesEmpty(Lower(catalog[i].name));
    }
    FilterAllPass(EntryMatches(Lower("")), catalog);
  }

  /** The case of the query does not matter. */
  lemma SearchStarsIgnoresCase(catalog: seq<CatalogEntry>, query: string)
    ensures SearchStars(catalog, Lower(query)) == SearchStars(catalog, query)
  {
    LowerIdempotent(query);
  }

  /** `getVisibleStars(latitude, longitude, dateTime, minimumMagnitude)`:
      only the magnitude cut; the observer and time are not consulted. */
  function GetVisibleStars(catalog: seq<CatalogEntry>, latitude: real, longitude: real, dateTime: DateTime,
                           minimumMagnitude: real): (r: seq<CatalogEntry>)
    ensures |r| <= |catalog|
    ensures forall i :: 0 <= i < |r| ==> r[i] in catalog && r[i].mag <= minimumMagnitude
    ensures forall i :: 0 <= i < |catalog| && catalog[i].mag <= minimumMagnitude ==> catalog[i] in r
  {
    Filter(BrightEnough(minimumMagnitude), catalog)
  }

  /** The result is the same for every observer and time. */
  lemma GetVisibleStarsIgnoresObserver(catalog: seq<CatalogEntry>, lat1: real, lon1: real, t1: DateTime,
                                       lat2: real, lon2: real, t2: DateTime, minimumMagnitude: real)
    ensures GetVisibleStars(catalog, lat1, lon1, t1, minimumMagnitude)
            == GetVisibleStars(catalog, lat2, lon2, t2, minimumMagnitude)
  {
  }

  /** Raising the magnitude cut can only add stars, in catalogue order. */
  lemma GetVisibleStarsMonotone(catalog: seq<CatalogEntry>, latitude: real, longitude: real, dateTime: DateTime,
                                m1: real, m2: real)
    requires m1 <= m2
    ensures IsSubsequence(GetVisibleStars(catalog, latitude, longitude, dateTime, m1),
                          GetVisibleStars(catalog, latitude, longitude, dateTime, m2))
  {
    FilterWeaken(BrightEnough(m1), BrightEnough(m2), catalog);
  }
}
