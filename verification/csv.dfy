/** `safeSplitCsv` of src/app/api/hyg/route.ts: a one-line CSV splitter with
    double-quoted fields, doubled quotes inside quotes, and padding up to the
    header's column count. `Scan` is the reference state machine; the method
    is the loop as written. */
module Csv {
  import opened Seqs
  import opened Text

  const Quote: char := '"'
  const Comma: char := ','

  /** The splitter's state machine from position onwards: `inQuotes`, the
      field being built and the fields already pushed. */
  function Scan(line: string, inQuotes: bool, current: string, out: seq<string>): (fields: seq<string>)
    ensures |fields| > |out|
    ensures fields[..|out|] == out
    decreases |line|
  {
    if |line| == 0 then out + [current]
    else if line[0] == Quote then
      if inQuotes && |line| > 1 && line[1] == Quote then Scan(line[2..], inQuotes, current + [Quote], out)
      else Scan(line[1..], !inQuotes, current, out)
    else if line[0] == Comma && !inQuotes then Scan(line[1..], inQuotes, "", out + [current])
    else Scan(line[1..], inQuotes, current + [line[0]], out)
  }

  /** The fields of a line before padding. */
  function Fields(line: string): (fields: seq<string>)
    ensures |fields| >= 1
  {
    Scan(line, false, "", [])
  }

  /** `while (out.length < expected) out.push('')`. */
  function Pad(fields: seq<string>, expected: int): (padded: seq<string>)
    ensures |padded| >= expected && |padded| >= |fields|
    ensures padded[..|fields|] == fields
    ensures forall i :: |fields| <= i < |padded| ==> padded[i] == ""
    ensures |fields| >= expected ==> padded == fields
  {
    if |fields| >= expected then fields
    else fields + seq(expected - |fields|, _ => "")
  }

  /** `safeSplitCsv(line, expected)` as a function. */
  function SplitCsv(line: string, expected: int): seq<string> {
    Pad(Fields(line), expected)
  }

  /** `safeSplitCsv(line, expected)`, the character loop. */
  method SafeSplitCsv(line: string, expected: int) returns (out: seq<string>)
    ensures out == SplitCsv(line, expected)
    ensures |out| >= expected && |out| >= 1
  {
    out := [];
    var current := "";
    var inQuotes := false;
    var i := 0;
    while i < |line|
      invariant 0 <= i <= |line|
      invariant Scan(line[i..], inQuotes, current, out) == Fields(line)
    {
      var ch := line[i];
      if ch == Quote {
        if inQuotes && i + 1 < |line| && line[i + 1] == Quote {
          assert line[i..][2..] == line[i + 2..];
          current := current + [Quote];
          i := i + 1;
        } else {
          assert line[i..][1..] == line[i + 1..];
          inQuotes := !inQuotes;
        }
      } else if ch == Comma && !inQuotes {
        assert line[i..][1..] == line[i + 1..];
        out := out + [current];
        current := "";
      } else {
        assert line[i..][1..] == line[i + 1..];
        current := current + [ch];
      }
      i := i + 1;
    }
    out := out + [current];
    var fields := out;
    while |out| < expected
      invariant |out| >= |fields|
      invariant out[..|fields|] == fields
      invariant forall k :: |fields| <= k < |out| ==> out[k] == ""
      invariant |out| == |fields| || |out| <= expected
      decreases expected - |out|
    {
      out := out + [""];
    }
    var padded := Pad(fields, expected);
    assert |out| == |padded|;
    forall k | 0 <= k < |out|
      ensures out[k] == padded[k]
    {
      if k < |fields| {
        assert out[k] == out[..|fields|][k];
        assert padded[k] == padded[..|fields|][k];
      }
    }
  }

  /** On a line without quotes the splitter is a plain split on commas. */
  lemma {:induction false} ScanQuoteFree(s: string, current: string, out: seq<string>)
    requires Quote !in s
    ensures Scan(s, false, current, out)
            == out + [current + SplitOn(s, Comma)[0]] + SplitOn(s, Comma)[1..]
    decreases |s|
  {
    if |s| == 0 {
      assert current + "" == current;
    } else {
      var rest := SplitOn(s[1..], Comma);
      assert s[0] != Quote;
      assert Quote !in s[1..];
      if s[0] == Comma {
        ScanQuoteFree(s[1..], "", out + [current]);
        assert SplitOn(s, Comma) == [""] + rest;
        assert "" + rest[0] == rest[0];
        assert current + "" == current;
        assert [rest[0]] + rest[1..] == rest;
        assert out + [current] + ["" + rest[0]] + rest[1..] == out + [current + ""] + rest;
      } else {
        ScanQuoteFree(s[1..], current + [s[0]], out);
        assert SplitOn(s, Comma) == [[s[0]] + rest[0]] + rest[1..];
        assert current + [s[0]] + rest[0] == current + ([s[0]] + rest[0]);
      }
    }
  }

  /** A quote-free line with k commas splits into k + 1 fields, none holding a
      comma, whose comma-join is the line. */
  lemma QuoteFreeFields(line: string)
    requires Quote !in line
    ensures Fields(line) == SplitOn(line, Comma)
    ensures |Fields(line)| == Count(line, Comma) + 1
    ensures Join(Fields(line), Comma) == line
    ensures forall k :: 0 <= k < |Fields(line)| ==> Comma !in Fields(line)[k]
  {
    ScanQuoteFree(line, "", []);
    var parts := SplitOn(line, Comma);
    assert "" + parts[0] == parts[0];
    assert [parts[0]] + parts[1..] == parts;
    assert [] + ["" + parts[0]] + parts[1..] == parts;
    JoinSplit(line, Comma);
    SplitCount(line, Comma);
  }

  /** A field's quotes doubled, as a CSV writer escapes them. */
  function Escape(f: string): (e: string)
    ensures |e| >= |f|
    decreases |f|
  {
    if |f| == 0 then ""
    else if f[0] == Quote then [Quote, Quote] + Escape(f[1..])
    else [f[0]] + Escape(f[1..])
  }

  /** A field in quotes. */
  function Quoted(f: string): string {
    [Quote] + Escape(f) + [Quote]
  }

  /** Inside quotes, an escaped field up to its closing quote is read back
      verbatim, commas included, and quoting ends there. */
  lemma {:induction false} ScanEscaped(f: string, rest: string, current: string, out: seq<string>)
    requires |rest| == 0 || rest[0] != Quote
    ensures Scan(Escape(f) + [Quote] + rest, true, current, out) == Scan(rest, false, current + f, out)
    decreases |f|
  {
    var line := Escape(f) + [Quote] + rest;
    if |f| == 0 {
      assert line == [Quote] + rest;
      assert line[1..] == rest;
      assert current + f == current;
    } else if f[0] == Quote {
      assert line == [Quote, Quote] + (Escape(f[1..]) + [Quote] + rest);
      assert line[2..] == Escape(f[1..]) + [Quote] + rest;
      ScanEscaped(f[1..], rest, current + [Quote], out);
      assert current + [Quote] + f[1..] == current + f;
    } else {
      assert line == [f[0]] + (Escape(f[1..]) + [Quote] + rest);
      assert line[1..] == Escape(f[1..]) + [Quote] + rest;
      ScanEscaped(f[1..], rest, current + [f[0]], out);
      assert current + [f[0]] + f[1..] == current + f;
    }
  }

  /** A row written with every field quoted. */
  function EncodeRow(fields: seq<string>): string {
    Join(MapSeq(Quoted, fields), Comma)
  }

  /** A quoted field read from outside quotes becomes the current field. */
  lemma ScanQuotedField(f: string, rest: string, out: seq<string>)
    requires |rest| == 0 || rest[0] != Quote
    ensures Scan(Quoted(f) + rest, false, "", out) == Scan(rest, false, f, out)
  {
    var line := Quoted(f) + rest;
    assert line == [Quote] + (Escape(f) + [Quote] + rest);
    assert line[1..] == Escape(f) + [Quote] + rest;
    ScanEscaped(f, rest, "", out);
    assert "" + f == f;
  }

  /** A row of several fields is the first quoted field, a comma and the rest. */
  lemma EncodeRowCons(fields: seq<string>)
    requires |fields| > 1
    ensures EncodeRow(fields) == Quoted(fields[0]) + ([Comma] + EncodeRow(fields[1..]))
  {
    var quoted := MapSeq(Quoted, fields);
    assert quoted[1..] == MapSeq(Quoted, fields[1..]);
  }

  /** A comma outside quotes closes the current field. */
  lemma ScanComma(tail: string, current: string, out: seq<string>)
    ensures Scan([Comma] + tail, false, current, out) == Scan(tail, false, "", out + [current])
  {
    assert ([Comma] + tail)[1..] == tail;
  }

  lemma {:induction false} ScanRow(fields: seq<string>, out: seq<string>)
    requires |fields| > 0
    ensures Scan(EncodeRow(fields), false, "", out) == out + fields
    decreases |fields|
  {
    var f := fields[0];
    if |fields| == 1 {
      assert EncodeRow(fields) == Quoted(f) + "";
      ScanQuotedField(f, "", out);
      assert out + [f] == out + fields;
    } else {
      var tail := EncodeRow(fields[1..]);
      EncodeRowCons(fields);
      ScanQuotedField(f, [Comma] + tail, out);
      ScanComma(tail, f, out);
      ScanRow(fields[1..], out + [f]);
      assert out + [f] + fields[1..] == out + fields;
    }
  }

  /** Splitting a row whose fields were quoted and escaped gives the fields
      back, whatever commas and quotes they contain. */
  lemma EncodeRowRoundTrip(fields: seq<string>)
    requires |fields| > 0
    ensures Fields(EncodeRow(fields)) == fields
    ensures SplitCsv(EncodeRow(fields), |fields|) == fields
  {
    ScanRow(fields, []);
  }
}
