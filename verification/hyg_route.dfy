/** The row filter of the HYG catalogue route (src/app/api/hyg/route.ts):
    the downloaded CSV text is split into lines, the first line names the
    columns, and each later line becomes a catalogue entry or is skipped,
    up to a limit. Number parsing (`parseFloat`) is a parameter returning
    `None` for a non-finite result. */
module HygRoute {
  import opened Wrappers
  import opened Seqs
  import opened Text
  import opened AstronomyTypes
  import opened Csv

  /** Query parameters after parsing. */
  datatype HygParams = HygParams(minMag: real, maxMag: real, limit: int)

  /** `minMag` -99, `maxMag` 10, `limit` 2000 when absent. */
  const DefaultParams: HygParams := HygParams(-99.0, 10.0, 2000)

  /** The magnitude given to an entry whose magnitude is not a finite number. */
  const UnknownMagnitude: real := 99.0

  /** Removes one trailing carriage return. */
  function StripCarriageReturn(line: string): (r: string)
    ensures r == line || (line == r + ['\r'])
  {
    if |line| > 0 && line[|line| - 1] == '\r' then line[..|line| - 1] else line
  }

  /** `csv.split(/\r?\n/)`: split at each line feed, a carriage return just
      before it belonging to the separator. */
  function SplitLines(csv: string): (lines: seq<string>)
    ensures |lines| == Count(csv, '\n') + 1
    ensures forall k :: 0 <= k < |lines| ==> '\n' !in lines[k]
  {
    var pieces := SplitOn(csv, '\n');
    SplitCount(csv, '\n');
    seq(|pieces|, k requires 0 <= k < |pieces| =>
      if k < |pieces| - 1 then StripCarriageReturn(pieces[k]) else pieces[k])
  }

  /** `list.indexOf(name)`, with `None` for -1. */
  function IndexOf(list: seq<string>, name: string): (r: Option<nat>)
    ensures r.Some? ==> r.value < |list| && list[r.value] == name
    ensures r.Some? ==> forall j :: 0 <= j < r.value ==> list[j] != name
    ensures r.None? <==> name !in list
  {
    FindIndex((c: string) => c == name, list)
  }

  /** The column positions the route looks up. */
  datatype HygColumns = HygColumns(
    id: Option<nat>, name: Option<nat>, ra: Option<nat>, dec: Option<nat>,
    mag: Option<nat>, spect: Option<nat>, dist: Option<nat>)

  function ColumnsOf(cols: seq<string>): HygColumns {
    HygColumns(IndexOf(cols, "id"), IndexOf(cols, "proper"), IndexOf(cols, "ra"), IndexOf(cols, "dec"),
               IndexOf(cols, "mag"), IndexOf(cols, "spect"), IndexOf(cols, "dist"))
  }

  /** `parts[index]`: undefined for a missing column or a short row. */
  function Cell(parts: seq<string>, index: Option<nat>): (c: Option<string>)
    ensures c.Some? <==> index.Some? && index.value < |parts|
  {
    if index.Some? && index.value < |parts| then Some(parts[index.value]) else None
  }

  /** `parts[index] || ''`. */
  function CellText(parts: seq<string>, index: Option<nat>): string {
    Cell(parts, index).GetOr("")
  }

  /** `String(parts[index])`: an absent cell prints as "undefined". */
  function IdText(parts: seq<string>, index: Option<nat>): string {
    Cell(parts, index).GetOr("undefined")
  }

  /** The entry for one data line, or `None` when the loop skips it: an empty
      line, a finite magnitude outside `[minMag, maxMag]`, or a non-finite
      right ascension or declination. */
  function RowEntry(columns: HygColumns, expected: nat, parse: string -> Option<real>,
                    minMag: real, maxMag: real, line: string): (r: Option<CatalogEntry>)
    ensures line == "" ==> r.None?
    ensures var parts := SplitCsv(line, expected);
      r.Some? <==>
        line != "" &&
        (parse(CellText(parts, columns.mag)).Some? ==> minMag <= parse(CellText(parts, columns.mag)).value <= maxMag) &&
        parse(CellText(parts, columns.ra)).Some? && parse(CellText(parts, columns.dec)).Some?
    ensures var parts := SplitCsv(line, expected);
      r.Some? ==>
        && r.value.ra == parse(CellText(parts, columns.ra)).value
        && r.value.dec == parse(CellText(parts, columns.dec)).value
        && r.value.mag == parse(CellText(parts, columns.mag)).GetOr(UnknownMagnitude)
        && r.value.id == IdText(parts, columns.id)
  {
    if line == "" then None
    else
      var parts := SplitCsv(line, expected);
      var mag := parse(CellText(parts, columns.mag));
      if mag.Some? && (mag.value < minMag || mag.value > maxMag) then None
      else
        var ra := parse(CellText(parts, columns.ra));
        var dec := parse(CellText(parts, columns.dec));
        if ra.None? || dec.None? then None
        else
          var id := IdText(parts, columns.id);
          Some(CatalogEntry(
            id,
            OrDefault(Cell(parts, columns.name), "HYG " + id),
            None,
            "",
            ra.value,
            dec.value,
            mag.GetOr(UnknownMagnitude),
            OrDefault(Cell(parts, columns.spect), "G"),
            None,
            parse(CellText(parts, columns.dist))))
  }

  /** What every emitted entry looks like: no constellation, a non-empty name
      and spectral class (defaults "HYG <id>" and "G"), and a magnitude in
      range or the 99 of an unparsable magnitude. */
  predicate WellFormed(minMag: real, maxMag: real, e: CatalogEntry) {
    && e.constellation == ""
    && |e.name| > 0
    && |e.spectralClass| > 0
    && e.commonName.None?
    && (minMag <= e.mag <= maxMag || e.mag == UnknownMagnitude)
  }

  lemma RowEntryWellFormed(columns: HygColumns, expected: nat, parse: string -> Option<real>,
                           minMag: real, maxMag: real, line: string)
    ensures var r := RowEntry(columns, expected, parse, minMag, maxMag, line);
      r.Some? ==> WellFormed(minMag, maxMag, r.value)
  {
  }

  /** The loop body as a selector. */
  function RowSelector(columns: HygColumns, expected: nat, parse: string -> Option<real>,
                       minMag: real, maxMag: real): string -> Option<CatalogEntry> {
    (line: string) => RowEntry(columns, expected, parse, minMag, maxMag, line)
  }

  /** The route's `GET` after the download: split the text, read the header,
      and collect entries from the remaining lines until `limit` is reached. */
  method HygGet(csv: string, parse: string -> Option<real>, params: HygParams) returns (results: seq<CatalogEntry>)
    ensures var rows := SplitLines(csv);
      var cols := SplitOn(rows[0], Comma);
      results == Take(FilterMap(RowSelector(ColumnsOf(cols), |cols|, parse, params.minMag, params.maxMag), rows[1..]),
                      Cap(params.limit))
    ensures |results| <= Cap(params.limit)
    ensures forall i :: 0 <= i < |results| ==> WellFormed(params.minMag, params.maxMag, results[i])
  {
    var rows := SplitLines(csv);
    var header := rows[0];
    var cols := SplitOn(header, Comma);
    var select := RowSelector(ColumnsOf(cols), |cols|, parse, params.minMag, params.maxMag);
    results := CollectUpTo(rows[1..], select, params.limit);
    forall k | 0 <= k < |rows[1..]|
      ensures select(rows[1..][k]).Some? ==> WellFormed(params.minMag, params.maxMag, select(rows[1..][k]).value)
    {
      RowEntryWellFormed(ColumnsOf(cols), |cols|, parse, params.minMag, params.maxMag, rows[1..][k]);
    }
    FilterMapAll(select, rows[1..], (e: CatalogEntry) => WellFormed(params.minMag, params.maxMag, e));
    var all := FilterMap(select, rows[1..]);
    forall i | 0 <= i < |results|
      ensures WellFormed(params.minMag, params.maxMag, results[i])
    {
      assert results[i] == all[i];
    }
  }
}
