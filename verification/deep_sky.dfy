/** The deep-sky pipeline of src/hooks/useDeepSkyData.ts: raw OpenNGC records
    are cut by magnitude, placed on the screen like stars (right ascension in
    hours times 15), labelled, and the visible ones kept. */
module DeepSky {
  import opened Wrappers
  import opened Seqs
  import opened JsMath
  import opened AstronomyTypes
  import opened TimeConversion
  import opened Coordinates

  /** Default magnitude limit of the hook. */
  const DefaultMagnitudeLimit: real := 11.0
  /** The magnitude assumed for a record without one (`o.mag ?? 99`). */
  const MissingMagnitude: real := 99.0
  /** The catalogue assumed for a record without one. */
  const DefaultCatalog: string := "NGC"

  /** A raw record as loaded; `id` is the record's id in string form. */
  datatype NgcRecord = NgcRecord(
    id: string,
    name: Option<string>,
    catalog: Option<string>,
    objectType: string,
    ra: real,
    dec: real,
    mag: Option<real>,
    size: Option<real>)

  /** `mapNgcType`: the OpenNGC type code to the object kind. */
  function MapNgcType(t: string): (kind: DeepSkyKind)
    ensures kind == Galaxy <==> t == "G"
    ensures kind == Nebula <==> t == "N"
    ensures kind == Cluster <==> t == "OC" || t == "GC"
    ensures kind == PlanetaryNebula <==> t == "PN"
    ensures kind == OtherKind <==> t !in {"G", "N", "OC", "GC", "PN"}
  {
    match t
    case "G" => Galaxy
    case "N" => Nebula
    case "OC" => Cluster
    case "GC" => Cluster
    case "PN" => PlanetaryNebula
    case _ => OtherKind
  }

  /** `o.catalog || 'NGC'`. */
  function CatalogOf(o: NgcRecord): (c: string)
    ensures Truthy(o.catalog) ==> c == o.catalog.value
    ensures !Truthy(o.catalog) ==> c == DefaultCatalog
    ensures |c| > 0
  {
    OrDefault(o.catalog, DefaultCatalog)
  }

  /** `${catalog}-${id}`. */
  function ObjectId(o: NgcRecord): string {
    CatalogOf(o) + "-" + o.id
  }

  /** Within one catalogue, distinct record ids give distinct object ids. */
  lemma ObjectIdInjective(a: NgcRecord, b: NgcRecord)
    requires CatalogOf(a) == CatalogOf(b)
    requires ObjectId(a) == ObjectId(b)
    ensures a.id == b.id
  {
    var n := |CatalogOf(a) + "-"|;
    assert a.id == ObjectId(a)[n..];
    assert b.id == ObjectId(b)[n..];
  }

  /** `o.name || `${catalog} ${id}``. */
  function ObjectName(o: NgcRecord): (name: string)
    ensures Truthy(o.name) ==> name == o.name.value
    ensures !Truthy(o.name) ==> name == CatalogOf(o) + " " + o.id
  {
    OrDefault(o.name, CatalogOf(o) + " " + o.id)
  }

  /** `(o.mag ?? 99) <= magnitudeLimit`. */
  function WithinMagnitude(magnitudeLimit: real): NgcRecord -> bool {
    (o: NgcRecord) => o.mag.GetOr(MissingMagnitude) <= magnitudeLimit
  }

  /** The placed object for one record. */
  function PlaceObject(trig: Trig, lst: real, latitude: real, width: real, height: real, o: NgcRecord): (d: DeepSkyObject)
    ensures d.rightAscension == o.ra && d.declination == o.dec
    ensures Horizontal(d.azimuth, d.altitude) == EquatorialToHorizontal(trig, HoursToDeg(o.ra), o.dec, lst, latitude)
    ensures d.magnitude == o.mag && d.sizeArcMin == o.size
    ensures d.x == ScreenX(d.azimuth, width) && d.y == ScreenY(d.altitude, height)
    ensures width >= 0.0 && height >= 0.0 ==> 0.0 <= d.x <= width && 0.0 <= d.y <= height
    ensures d.objectType == MapNgcType(o.objectType)
    ensures d.catalog == Some(CatalogOf(o)) && d.id == ObjectId(o) && d.name == ObjectName(o)
    ensures width >= 0.0 && height >= 0.0 ==> (d.visible <==> d.altitude > VisibleAltitude)
  {
    var h := EquatorialToHorizontal(trig, o.ra * 15.0, o.dec, lst, latitude);
    var p := HorizontalToScreen(h.azimuth, h.altitude, width, height);
    DeepSkyObject(ObjectId(o), ObjectName(o), Some(CatalogOf(o)), MapNgcType(o.objectType), o.ra, o.dec,
                  o.mag, o.size, p.x, p.y, p.visible, h.azimuth, h.altitude)
  }

  function Placer(trig: Trig, lst: real, latitude: real, width: real, height: real): NgcRecord -> DeepSkyObject {
    (o: NgcRecord) => PlaceObject(trig, lst, latitude, width, height, o)
  }

  function IsVisibleObject(): DeepSkyObject -> bool {
    (d: DeepSkyObject) => d.visible
  }

  /** The memoised `objects` of `useDeepSkyData`. */
  function DeepSkyObjects(trig: Trig, location: Option<Location>, currentTime: DateTime, rawObjects: seq<NgcRecord>,
                          width: real, height: real, magnitudeLimit: real): (objects: seq<DeepSkyObject>)
    ensures location.None? || |rawObjects| == 0 ==> objects == []
    ensures |objects| <= |rawObjects|
    ensures forall i :: 0 <= i < |objects| ==>
      objects[i].visible && objects[i].magnitude.GetOr(MissingMagnitude) <= magnitudeLimit
  {
    if location.None? || |rawObjects| == 0 then []
    else
      var lst := LocalSiderealTime(location.value, currentTime);
      var placed := MapSeq(Placer(trig, lst, location.value.latitude, width, height),
                           Filter(WithinMagnitude(magnitudeLimit), rawObjects));
      Filter(IsVisibleObject(), placed)
  }

  /** The records `DeepSkyObjects` keeps. */
  function Kept(trig: Trig, location: Location, currentTime: DateTime, width: real, height: real, magnitudeLimit: real): NgcRecord -> bool {
    var place := Placer(trig, LocalSiderealTime(location, currentTime), location.latitude, width, height);
    Both(WithinMagnitude(magnitudeLimit), Compose(place, IsVisibleObject()))
  }

  /** The objects are the placed images of the records within the magnitude
      limit that land visibly, in input order. */
  lemma {:induction false} DeepSkyObjectsSelects(trig: Trig, location: Location, currentTime: DateTime,
                                                 rawObjects: seq<NgcRecord>, width: real, height: real, magnitudeLimit: real)
    requires |rawObjects| > 0
    ensures DeepSkyObjects(trig, Some(location), currentTime, rawObjects, width, height, magnitudeLimit)
            == MapSeq(Placer(trig, LocalSiderealTime(location, currentTime), location.latitude, width, height),
                      Filter(Kept(trig, location, currentTime, width, height, magnitudeLimit), rawObjects))
  {
    var place := Placer(trig, LocalSiderealTime(location, currentTime), location.latitude, width, height);
    FilterMapSeq(place, IsVisibleObject(), Filter(WithinMagnitude(magnitudeLimit), rawObjects));
    FilterFilter(WithinMagnitude(magnitudeLimit), Compose(place, IsVisibleObject()), rawObjects);
  }

  /** Under any limit below 99, in particular the default 11, a record
      without a magnitude is never shown. */
  lemma MissingMagnitudeExcluded(trig: Trig, location: Option<Location>, currentTime: DateTime,
                                 rawObjects: seq<NgcRecord>, width: real, height: real, magnitudeLimit: real)
    requires magnitudeLimit < MissingMagnitude
    ensures forall i :: 0 <= i < |DeepSkyObjects(trig, location, currentTime, rawObjects, width, height, magnitudeLimit)| ==>
      DeepSkyObjects(trig, location, currentTime, rawObjects, width, height, magnitudeLimit)[i].magnitude.Some?
  {
  }
}
