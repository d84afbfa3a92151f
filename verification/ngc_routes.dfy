/** The OpenNGC catalogue routes (src/app/api/galaxies/route.ts and
    src/app/api/opengc/route.ts): a filter-with-limit loop over the
    downloaded JSON records, the galaxy route keeping type "G" only. */
module NgcRoutes {
  import opened Wrappers
  import opened Seqs

  /** The default `maxMag` and `limit` of both routes. */
  const DefaultMaxMag: real := 13.0
  const DefaultLimit: int := 1500
  /** The magnitude assumed for a record without one (`rec.mag ?? 99`). */
  const MissingMagnitude: real := 99.0

  /** A downloaded record; `id` is already in string form (`String(rec.id)`). */
  datatype NgcJson = NgcJson(
    id: string,
    name: Option<string>,
    cat: Option<string>,
    catalog: Option<string>,
    objectType: string,
    ra: real,
    dec: real,
    mag: Option<real>,
    size: Option<real>)

  /** An emitted object. */
  datatype NgcOut = NgcOut(
    id: string,
    name: Option<string>,
    catalog: Option<string>,
    objectType: string,
    ra: real,
    dec: real,
    mag: Option<real>,
    size: Option<real>)

  /** The pushed object: fields pass through, the catalogue is
      `rec.cat || rec.catalog`, and the magnitude keeps its absence. */
  function Emit(rec: NgcJson): (o: NgcOut)
    ensures o.id == rec.id && o.name == rec.name && o.objectType == rec.objectType
    ensures o.ra == rec.ra && o.dec == rec.dec && o.mag == rec.mag && o.size == rec.size
    ensures Truthy(rec.cat) ==> o.catalog == rec.cat
    ensures !Truthy(rec.cat) ==> o.catalog == rec.catalog
  {
    NgcOut(rec.id, rec.name, OrElse(rec.cat, rec.catalog), rec.objectType, rec.ra, rec.dec, rec.mag, rec.size)
  }

  /** `(rec.mag ?? 99) <= maxMag`. */
  predicate BrightEnough(maxMag: real, rec: NgcJson) {
    rec.mag.GetOr(MissingMagnitude) <= maxMag
  }

  /** The OpenNGC route's loop body. */
  function OpenNgcSelector(maxMag: real): NgcJson -> Option<NgcOut> {
    (rec: NgcJson) => if rec.mag.GetOr(MissingMagnitude) > maxMag then None else Some(Emit(rec))
  }

  /** The galaxy route's loop body: non-galaxies are skipped first. */
  function GalaxySelector(maxMag: real): NgcJson -> Option<NgcOut> {
    (rec: NgcJson) =>
      if rec.objectType != "G" then None
      else if rec.mag.GetOr(MissingMagnitude) > maxMag then None
      else Some(Emit(rec))
  }

  /** `GET` of the OpenNGC route after the download. */
  method OpenNgcGet(records: seq<NgcJson>, maxMag: real, limit: int) returns (out: seq<NgcOut>)
    ensures out == Take(FilterMap(OpenNgcSelector(maxMag), records), Cap(limit))
    ensures |out| <= Cap(limit)
    ensures forall i :: 0 <= i < |out| ==> out[i].mag.GetOr(MissingMagnitude) <= maxMag
  {
    out := CollectUpTo(records, OpenNgcSelector(maxMag), limit);
    FilterMapAll(OpenNgcSelector(maxMag), records, (o: NgcOut) => o.mag.GetOr(MissingMagnitude) <= maxMag);
    var all := FilterMap(OpenNgcSelector(maxMag), records);
    forall i | 0 <= i < |out|
      ensures out[i].mag.GetOr(MissingMagnitude) <= maxMag
    {
      assert out[i] == all[i];
    }
  }

  /** `GET` of the galaxy route after the download. */
  method GalaxiesGet(records: seq<NgcJson>, maxMag: real, limit: int) returns (out: seq<NgcOut>)
    ensures out == Take(FilterMap(GalaxySelector(maxMag), records), Cap(limit))
    ensures |out| <= Cap(limit)
    ensures forall i :: 0 <= i < |out| ==> out[i].objectType == "G" && out[i].mag.GetOr(MissingMagnitude) <= maxMag
  {
    out := CollectUpTo(records, GalaxySelector(maxMag), limit);
    FilterMapAll(GalaxySelector(maxMag), records,
                 (o: NgcOut) => o.objectType == "G" && o.mag.GetOr(MissingMagnitude) <= maxMag);
    var all := FilterMap(GalaxySelector(maxMag), records);
    forall i | 0 <= i < |out|
      ensures out[i].objectType == "G" && out[i].mag.GetOr(MissingMagnitude) <= maxMag
    {
      assert out[i] == all[i];
    }
  }

  /** An emitted galaxy. */
  function IsGalaxy(): NgcOut -> bool {
    (o: NgcOut) => o.objectType == "G"
  }

  /** Before the limit, the galaxy route emits exactly the OpenNGC route's
      objects of type "G", in the same order. */
  lemma {:induction false} GalaxiesAreOpenNgcGalaxies(records: seq<NgcJson>, maxMag: real)
    ensures FilterMap(GalaxySelector(maxMag), records) == Filter(IsGalaxy(), FilterMap(OpenNgcSelector(maxMag), records))
    decreases |records|
  {
    if |records| > 0 {
      GalaxiesAreOpenNgcGalaxies(records[1..], maxMag);
      var rest := FilterMap(OpenNgcSelector(maxMag), records[1..]);
      if OpenNgcSelector(maxMag)(records[0]).Some? {
        var all := FilterMap(OpenNgcSelector(maxMag), records);
        assert all == [Emit(records[0])] + rest;
        assert all[0] == Emit(records[0]) && all[1..] == rest;
      }
    }
  }

  /** Every qualifying record is emitted when the limit is not reached; the
      emitted objects are exactly the records within the magnitude limit. */
  lemma OpenNgcEmitsQualifying(records: seq<NgcJson>, maxMag: real, o: NgcOut)
    ensures o in FilterMap(OpenNgcSelector(maxMag), records) <==>
      exists i :: 0 <= i < |records| && BrightEnough(maxMag, records[i]) && Emit(records[i]) == o
  {
    FilterMapMembership(OpenNgcSelector(maxMag), records, o);
  }
}
