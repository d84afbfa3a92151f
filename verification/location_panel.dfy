/** The manual-location form of src/components/LocationPanel.tsx: the
    coordinate fallback used when geocoding finds nothing (normalise, split,
    parse, range-check), the outcome of a submission, and the preset cities.
    The geocoding request is a parameter: its result, or `None` when it
    failed or found nothing. `parseFloat` and `toFixed(4)` are parameters too. */
module LocationPanel {
  import opened Wrappers
  import opened Seqs
  import opened Text
  import opened AstronomyTypes

  // ---------------------------------------------------------------- normalisation

  /** `s` is empty or starts with a non-whitespace character. */
  predicate StartsWithInk(s: string) {
    |s| == 0 || !IsSpace(s[0])
  }

  /** `s` is empty or ends with a non-whitespace character. */
  predicate EndsWithInk(s: string) {
    |s| == 0 || !IsSpace(s[|s| - 1])
  }

  /** `s` holds no whitespace at all. */
  ghost predicate NoSpace(s: string) {
    forall i :: 0 <= i < |s| ==> !IsSpace(s[i])
  }

  /** No two whitespace characters are adjacent. */
  ghost predicate NoDoubleSpace(s: string) {
    forall i :: 0 <= i < |s| - 1 ==> !(IsSpace(s[i]) && IsSpace(s[i + 1]))
  }

  /** The shape of normalised text: no whitespace at either end, every
      whitespace character a single space, never two in a row, and none next
      to a comma. */
  ghost predicate Tidy(s: string) {
    StartsWithInk(s) && EndsWithInk(s) && NoDoubleSpace(s)
    && (forall i :: 0 <= i < |s| ==> (IsSpace(s[i]) ==> s[i] == ' '))
    && (forall i :: 0 <= i < |s| - 1 ==> !(IsSpace(s[i]) && s[i + 1] == ',') && !(s[i] == ',' && IsSpace(s[i + 1])))
  }

  /** `.replace(/\s+/g, ' ')`: each maximal whitespace run becomes one space.
      `inRun` says the previous character was whitespace. */
  function Collapse(s: string, inRun: bool): (r: string)
    ensures forall i :: 0 <= i < |r| ==> (IsSpace(r[i]) ==> r[i] == ' ')
    ensures forall i :: 0 <= i < |r| - 1 ==> !(r[i] == ' ' && r[i + 1] == ' ')
    ensures inRun ==> |r| == 0 || r[0] != ' '
    ensures !inRun && |s| > 0 ==> |r| > 0 && (if IsSpace(s[0]) then r[0] == ' ' else r[0] == s[0])
    ensures EndsWithInk(s) ==> EndsWithInk(r) && (|s| > 0 ==> |r| > 0 && r[|r| - 1] == s[|s| - 1])
    decreases |s|
  {
    if |s| == 0 then ""
    else if IsSpace(s[0]) then (if inRun then "" else " ") + Collapse(s[1..], true)
    else [s[0]] + Collapse(s[1..], false)
  }

  /** Length of the whitespace run that starts `s`. */
  function SpaceRun(s: string): (n: nat)
    ensures n <= |s|
    ensures forall i :: 0 <= i < n ==> IsSpace(s[i])
    ensures n == |s| || !IsSpace(s[n])
    decreases |s|
  {
    if |s| > 0 && IsSpace(s[0]) then 1 + SpaceRun(s[1..]) else 0
  }

  /** Replacing every match of the pattern `\s*,\s*` by a comma: every
      whitespace run that touches a comma is deleted. `afterComma` says the
      previous character was a comma. */
  function StripAroundCommas(s: string, afterComma: bool): (r: string)
    ensures forall i :: 0 <= i < |r| - 1 ==> !(IsSpace(r[i]) && r[i + 1] == ',') && !(r[i] == ',' && IsSpace(r[i + 1]))
    ensures afterComma ==> |r| == 0 || !IsSpace(r[0])
    ensures |s| > 0 && !IsSpace(s[0]) ==> |r| > 0 && r[0] == s[0]
    ensures |s| > 0 && IsSpace(s[0]) && |r| > 0 && IsSpace(r[0]) ==> r[0] == s[0]
    ensures forall i :: 0 <= i < |r| ==> r[i] in s
    decreases |s|
  {
    if |s| == 0 then ""
    else if IsSpace(s[0]) then
      var n := SpaceRun(s);
      var rest := s[n..];
      var tail := StripAroundCommas(rest, false);
      assert forall i :: 0 <= i < |tail| ==> tail[i] in s by {
        forall i | 0 <= i < |tail| ensures tail[i] in s {
          var c := tail[i];
          assert c in rest;
          var j :| 0 <= j < |rest| && rest[j] == c;
          assert s[n + j] == c;
        }
      }
      if afterComma || (|rest| > 0 && rest[0] == ',') then tail
      else s[..n] + tail
    else
      var tail := StripAroundCommas(s[1..], s[0] == ',');
      assert forall i :: 0 <= i < |tail| ==> tail[i] in s by {
        forall i | 0 <= i < |tail| ensures tail[i] in s {
          var c := tail[i];
          assert c in s[1..];
        }
      }
      [s[0]] + tail
  }

  /** Stripping keeps a non-whitespace last character. */
  lemma {:induction false} StripEnds(s: string, afterComma: bool)
    requires EndsWithInk(s)
    ensures EndsWithInk(StripAroundCommas(s, afterComma))
    ensures |s| > 0 ==> |StripAroundCommas(s, afterComma)| > 0
    decreases |s|, 1
  {
    if |s| > 0 {
      if IsSpace(s[0]) {
        StripEndsAfterRun(s, afterComma);
      } else if |s| > 1 {
        var tail := StripAroundCommas(s[1..], s[0] == ',');
        StripEnds(s[1..], s[0] == ',');
        LastOfAppend([s[0]], tail);
        assert StripAroundCommas(s, afterComma) == [s[0]] + tail;
      }
    }
  }

  /** `StripEnds` when `s` starts with a whitespace run. */
  lemma {:induction false} StripEndsAfterRun(s: string, afterComma: bool)
    requires |s| > 0 && IsSpace(s[0]) && EndsWithInk(s)
    ensures EndsWithInk(StripAroundCommas(s, afterComma)) && |StripAroundCommas(s, afterComma)| > 0
    decreases |s|, 0
  {
    var n := SpaceRun(s);
    RunBeforeInk(s);
    var rest := s[n..];
    var tail := StripAroundCommas(rest, false);
    StripEnds(rest, false);
    if afterComma || rest[0] == ',' {
      assert StripAroundCommas(s, afterComma) == tail;
    } else {
      LastOfAppend(s[..n], tail);
      assert StripAroundCommas(s, afterComma) == s[..n] + tail;
    }
  }

  /** A leading whitespace run stops before a last character that is ink. */
  lemma RunBeforeInk(s: string)
    requires |s| > 0 && !IsSpace(s[|s| - 1])
    ensures SpaceRun(s) < |s| && s[SpaceRun(s)..][|s[SpaceRun(s)..]| - 1] == s[|s| - 1]
  {
  }

  /** The last character of `x + y` is that of `y`. */
  lemma LastOfAppend(x: string, y: string)
    requires |y| > 0
    ensures (x + y)[|x + y| - 1] == y[|y| - 1]
  {
  }

  /** Stripping never brings two whitespace characters together. */
  lemma {:induction false} StripNoDoubleSpace(s: string, afterComma: bool)
    requires NoDoubleSpace(s)
    ensures NoDoubleSpace(StripAroundCommas(s, afterComma))
    decreases |s|
  {
    if |s| > 0 {
      if IsSpace(s[0]) {
        assert |s| == 1 || !IsSpace(s[1]);
        var n := SpaceRun(s);
        assert n == 1;
        var rest := s[n..];
        StripNoDoubleSpace(rest, false);
      } else {
        StripNoDoubleSpace(s[1..], s[0] == ',');
      }
    }
  }

  /** The input trimmed, with whitespace runs collapsed and the whitespace
      around commas removed. */
  function Normalize(input: string): (n: string)
    ensures Tidy(n)
  {
    var trimmed := Trim(input);
    var collapsed := Collapse(trimmed, false);
    CollapseTidy(trimmed);
    StripTidy(collapsed);
    StripAroundCommas(collapsed, false)
  }

  /** Collapsing trimmed text leaves single spaces between inked ends. */
  lemma CollapseTidy(t: string)
    requires StartsWithInk(t) && EndsWithInk(t)
    ensures var c := Collapse(t, false);
      StartsWithInk(c) && EndsWithInk(c) && NoDoubleSpace(c)
      && forall i :: 0 <= i < |c| ==> (IsSpace(c[i]) ==> c[i] == ' ')
  {
  }

  /** Stripping around commas turns collapsed, trimmed text into tidy text. */
  lemma StripTidy(c: string)
    requires StartsWithInk(c) && EndsWithInk(c) && NoDoubleSpace(c)
    requires forall i :: 0 <= i < |c| ==> (IsSpace(c[i]) ==> c[i] == ' ')
    ensures Tidy(StripAroundCommas(c, false))
  {
    var r := StripAroundCommas(c, false);
    StripEnds(c, false);
    StripNoDoubleSpace(c, false);
    forall i | 0 <= i < |r| && IsSpace(r[i])
      ensures r[i] == ' '
    {
      var j :| 0 <= j < |c| && c[j] == r[i];
    }
  }

  /** The characters of `s` that are not whitespace, in order. */
  function Ink(s: string): string
    decreases |s|
  {
    if |s| == 0 then "" else (if IsSpace(s[0]) then "" else [s[0]]) + Ink(s[1..])
  }

  lemma {:induction false} InkAppend(a: string, b: string)
    ensures Ink(a + b) == Ink(a) + Ink(b)
    decreases |a|
  {
    if |a| > 0 {
      TailOfAppend(a, b);
      InkAppend(a[1..], b);
    } else {
      AppendEmpty(a, b);
    }
  }

  /** A string of whitespace has no ink. */
  lemma {:induction false} InkBlank(s: string)
    requires forall i :: 0 <= i < |s| ==> IsSpace(s[i])
    ensures Ink(s) == ""
    decreases |s|
  {
    if |s| > 0 {
      InkBlank(s[1..]);
    }
  }

  lemma {:induction false} CollapseKeepsInk(s: string, inRun: bool)
    ensures Ink(Collapse(s, inRun)) == Ink(s)
    decreases |s|
  {
    if |s| > 0 {
      CollapseKeepsInk(s[1..], true);
      CollapseKeepsInk(s[1..], false);
      if IsSpace(s[0]) {
        InkAppend(if inRun then "" else " ", Collapse(s[1..], true));
      } else {
        InkAppend([s[0]], Collapse(s[1..], false));
      }
    }
  }

  lemma {:induction false} StripKeepsInk(s: string, afterComma: bool)
    ensures Ink(StripAroundCommas(s, afterComma)) == Ink(s)
    decreases |s|, 1
  {
    if |s| > 0 {
      if IsSpace(s[0]) {
        StripKeepsInkAfterRun(s, afterComma);
      } else {
        StripKeepsInk(s[1..], s[0] == ',');
        InkAppend([s[0]], StripAroundCommas(s[1..], s[0] == ','));
        TailOfAppend([s[0]], s[1..]);
        AppendEmpty([s[0]][1..], s[1..]);
        InkAppend([s[0]], s[1..]);
      }
    }
  }

  lemma {:induction false} StripKeepsInkAfterRun(s: string, afterComma: bool)
    requires |s| > 0 && IsSpace(s[0])
    ensures Ink(StripAroundCommas(s, afterComma)) == Ink(s)
    decreases |s|, 0
  {
    var n := SpaceRun(s);
    var rest := StripAroundCommas(s[n..], false);
    SlicesOfAppend(s[..n], s[n..]);
    assert s[..n] + s[n..] == s;
    InkAppend(s[..n], s[n..]);
    InkBlank(s[..n]);
    StripKeepsInk(s[n..], false);
    InkAppend(s[..n], rest);
    AppendEmpty(Ink(s[..n]), Ink(s[n..]));
    AppendEmpty(Ink(s[..n]), Ink(rest));
  }

  /** Trimming removes whitespace only. */
  lemma TrimKeepsInk(s: string)
    ensures Ink(Trim(s)) == Ink(s)
  {
    TrimStartKeepsInk(s);
    TrimEndKeepsInk(TrimStart(s));
  }

  lemma TrimStartKeepsInk(s: string)
    ensures Ink(TrimStart(s)) == Ink(s)
  {
    var t := TrimStart(s);
    var k := |s| - |t|;
    assert s == s[..k] + t;
    InkAppend(s[..k], t);
    InkBlank(s[..k]);
  }

  lemma TrimEndKeepsInk(t: string)
    ensures Ink(TrimEnd(t)) == Ink(t)
  {
    var e := TrimEnd(t);
    assert t == e + t[|e|..];
    InkAppend(e, t[|e|..]);
    InkBlank(t[|e|..]);
  }

  /** Normalisation changes whitespace only: the non-whitespace characters
      survive in order. */
  lemma NormalizeKeepsInk(input: string)
    ensures Ink(Normalize(input)) == Ink(input)
  {
    TrimKeepsInk(input);
    CollapseKeepsInk(Trim(input), false);
    StripKeepsInk(Collapse(Trim(input), false), false);
  }

  // ---------------------------------------------------------------- runs

  /** The empty string is a left unit of concatenation. */
  lemma AppendEmpty(a: string, x: string)
    requires |a| == 0
    ensures a + x == x
  {
  }

  /** Concatenation is associative (stated once, so that the lemmas below
      need not rediscover it among their other facts). */
  lemma AppendNothing(x: string, a: string)
    requires |a| == 0
    ensures x + a == x
  {
  }

  lemma InitOfAppend(x: string, y: string)
    requires |y| > 0
    ensures (x + y)[..|x + y| - 1] == x + y[..|y| - 1]
  {
  }

  lemma Reassociate(a: string, b: string, c: string)
    ensures a + b + c == a + (b + c)
  {
  }

  /** Text without whitespace passes through collapsing unchanged. */
  lemma {:induction false} CollapseNoSpace(s: string, inRun: bool)
    requires NoSpace(s)
    ensures Collapse(s, inRun) == s
    decreases |s|
  {
    if |s| > 0 {
      CollapseNoSpace(s[1..], false);
    }
  }

  /** Collapsing works piece by piece across a boundary that follows a
      non-whitespace character. */
  lemma {:induction false} CollapseAppend(a: string, t: string, inRun: bool)
    requires |a| > 0 && !IsSpace(a[|a| - 1])
    ensures Collapse(a + t, inRun) == Collapse(a, inRun) + Collapse(t, false)
    decreases |a|
  {
    TailOfAppend(a, t);
    if |a| == 1 {
      AppendEmpty(a[1..], t);
    } else {
      CollapseAppend(a[1..], t, IsSpace(a[0]));
    }
  }

  /** A whitespace run at the front of text that then starts with ink
      collapses to one space, or to nothing inside a run. */
  lemma {:induction false} CollapseLeadingRun(w: string, t: string, inRun: bool)
    requires |w| > 0 && IsBlank(w) && StartsWithInk(t)
    ensures Collapse(w + t, inRun) == (if inRun then "" else " ") + Collapse(t, false)
    decreases |w|
  {
    TailOfAppend(w, t);
    if |w| == 1 {
      AppendEmpty(w[1..], t);
    } else {
      CollapseLeadingRun(w[1..], t, true);
    }
  }

  /** Each maximal whitespace run becomes exactly one space: the text on
      either side of the run collapses independently. */
  lemma CollapseRun(a: string, w: string, b: string)
    requires EndsWithInk(a) && |w| > 0 && IsBlank(w) && StartsWithInk(b)
    ensures Collapse(a + w + b, false) == Collapse(a, false) + " " + Collapse(b, false)
  {
    var cb := Collapse(b, false);
    assert Collapse(w + b, false) == " " + cb by {
      CollapseLeadingRun(w, b, false);
    }
    Reassociate(a, w, b);
    Reassociate(Collapse(a, false), " ", cb);
    if |a| == 0 {
      AppendEmpty(a, w + b);
      AppendEmpty(Collapse(a, false), " " + cb);
    } else {
      CollapseAppend(a, w + b, false);
    }
  }

  /** A possibly empty whitespace run before text that starts with ink:
      one space when the run is there, nothing otherwise. */
  function Gap(w: string): string {
    if |w| == 0 then "" else " "
  }

  lemma CollapseGap(w: string, t: string)
    requires IsBlank(w) && StartsWithInk(t)
    ensures Collapse(w + t, false) == Gap(w) + Collapse(t, false)
  {
    if |w| == 0 {
      AppendEmpty(w, t);
    } else {
      CollapseLeadingRun(w, t, false);
    }
  }

  /** A string that begins with a whitespace run of length `|w|`. */
  lemma {:induction false} SpaceRunPrefix(w: string, t: string)
    requires IsBlank(w) && StartsWithInk(t)
    ensures SpaceRun(w + t) == |w|
    decreases |w|
  {
    if |w| > 0 {
      TailOfAppend(w, t);
      SpaceRunPrefix(w[1..], t);
    } else {
      AppendEmpty(w, t);
    }
  }

  /** The front of `a + t` is the front of `a`. */
  lemma TailOfAppend(a: string, t: string)
    requires |a| > 0
    ensures (a + t)[0] == a[0] && (a + t)[1..] == a[1..] + t
  {
  }

  /** The leading whitespace run of `a + t` lies inside `a` when `a` ends
      with ink. */
  lemma SpaceRunOfAppend(a: string, t: string)
    requires |a| > 0 && IsSpace(a[0]) && !IsSpace(a[|a| - 1])
    ensures var n := SpaceRun(a);
      0 < n < |a| && SpaceRun(a + t) == n && (a + t)[n..] == a[n..] + t && (a + t)[..n] == a[..n]
      && a[n..][|a[n..]| - 1] == a[|a| - 1]
  {
    var n := SpaceRun(a);
    assert a == a[..n] + a[n..];
    assert a + t == a[..n] + (a[n..] + t);
    SpaceRunPrefix(a[..n], a[n..] + t);
  }

  lemma SlicesOfAppend(w: string, b: string)
    ensures (w + b)[|w|..] == b && (w + b)[..|w|] == w
  {
  }

  /** Text without whitespace passes through stripping unchanged. */
  lemma {:induction false} StripNoSpace(s: string, afterComma: bool)
    requires NoSpace(s)
    ensures StripAroundCommas(s, afterComma) == s
    decreases |s|
  {
    if |s| > 0 {
      StripNoSpace(s[1..], s[0] == ',');
    }
  }

  /** Stripping works piece by piece across a boundary that follows a
      non-whitespace character, which tells the rest whether it follows a
      comma. */
  lemma {:induction false} StripAppend(a: string, t: string, afterComma: bool)
    requires |a| > 0 && !IsSpace(a[|a| - 1])
    ensures StripAroundCommas(a + t, afterComma) == StripAroundCommas(a, afterComma) + StripAroundCommas(t, a[|a| - 1] == ',')
    decreases |a|, 1
  {
    TailOfAppend(a, t);
    if IsSpace(a[0]) {
      StripAppendAfterRun(a, t, afterComma);
    } else if |a| > 1 {
      StripAppend(a[1..], t, a[0] == ',');
      Reassociate([a[0]], StripAroundCommas(a[1..], a[0] == ','), StripAroundCommas(t, a[|a| - 1] == ','));
    }
  }

  /** `StripAppend` when `a` starts with a whitespace run. */
  lemma {:induction false} StripAppendAfterRun(a: string, t: string, afterComma: bool)
    requires |a| > 0 && IsSpace(a[0]) && !IsSpace(a[|a| - 1])
    ensures StripAroundCommas(a + t, afterComma) == StripAroundCommas(a, afterComma) + StripAroundCommas(t, a[|a| - 1] == ',')
    decreases |a|, 0
  {
    var n := SpaceRun(a);
    var rest := a[n..];
    var tail := StripAroundCommas(t, a[|a| - 1] == ',');
    SpaceRunOfAppend(a, t);
    TailOfAppend(rest, t);
    StripAppend(rest, t, false);
    if afterComma || rest[0] == ',' {
      assert StripAroundCommas(a + t, afterComma) == StripAroundCommas(rest + t, false);
      assert StripAroundCommas(a, afterComma) == StripAroundCommas(rest, false);
    } else {
      assert StripAroundCommas(a + t, afterComma) == a[..n] + StripAroundCommas(rest + t, false);
      assert StripAroundCommas(a, afterComma) == a[..n] + StripAroundCommas(rest, false);
      Reassociate(a[..n], StripAroundCommas(rest, false), tail);
    }
  }

  /** A whitespace run before a comma goes, whatever precedes it. */
  lemma StripBeforeComma(w: string, u: string, afterComma: bool)
    requires IsBlank(w)
    ensures StripAroundCommas(w + "," + u, afterComma) == "," + StripAroundCommas(u, true)
  {
    Reassociate(w, ",", u);
    assert StripAroundCommas("," + u, false) == "," + StripAroundCommas(u, true) by {
      SlicesOfAppend(",", u);
    }
    if |w| == 0 {
      AppendEmpty(w, "," + u);
    } else {
      SpaceRunPrefix(w, "," + u);
      SlicesOfAppend(w, "," + u);
    }
  }

  /** A whitespace run after a comma goes. */
  lemma StripAfterComma(w: string, b: string)
    requires IsBlank(w) && StartsWithInk(b)
    ensures StripAroundCommas(w + b, true) == StripAroundCommas(b, false)
  {
    if |w| == 0 {
      AppendEmpty(w, b);
    } else {
      SpaceRunPrefix(w, b);
      SlicesOfAppend(w, b);
    }
  }

  /** The pattern `\s*,\s*` becomes a bare comma: the text on either side is
      stripped independently. */
  lemma StripCommaRun(a: string, w1: string, w2: string, b: string)
    requires EndsWithInk(a) && IsBlank(w1) && IsBlank(w2) && StartsWithInk(b)
    ensures StripAroundCommas(a + w1 + "," + w2 + b, false)
      == StripAroundCommas(a, false) + "," + StripAroundCommas(b, false)
  {
    var tail := w1 + "," + (w2 + b);
    var flag := |a| > 0 && a[|a| - 1] == ',';
    var sb := StripAroundCommas(b, false);
    assert StripAroundCommas(tail, flag) == "," + sb by {
      StripBeforeComma(w1, w2 + b, flag);
      StripAfterComma(w2, b);
    }
    GroupCommaRun(a, w1, w2, b);
    if |a| == 0 {
      AppendEmpty(a, tail);
      AppendEmpty(StripAroundCommas(a, false), "," + sb);
      Reassociate(StripAroundCommas(a, false), ",", sb);
    } else {
      assert StripAroundCommas(a + tail, false) == StripAroundCommas(a, false) + StripAroundCommas(tail, flag) by {
        StripAppend(a, tail, false);
      }
      Reassociate(StripAroundCommas(a, false), ",", sb);
    }
  }

  lemma GroupCommaRun(a: string, w1: string, w2: string, b: string)
    ensures a + w1 + "," + w2 + b == a + (w1 + "," + (w2 + b))
  {
  }

  lemma NestCommaRun(a: string, w1: string, w2: string, b: string)
    ensures a + w1 + "," + w2 + b == a + (w1 + ("," + (w2 + b)))
  {
  }

  /** A whitespace run that touches no comma is kept as it is. */
  lemma StripKeepsRun(a: string, w: string, b: string)
    requires |a| == 0 || (!IsSpace(a[|a| - 1]) && a[|a| - 1] != ',')
    requires |w| > 0 && IsBlank(w)
    requires |b| == 0 || (!IsSpace(b[0]) && b[0] != ',')
    ensures StripAroundCommas(a + w + b, false) == StripAroundCommas(a, false) + w + StripAroundCommas(b, false)
  {
    SpaceRunPrefix(w, b);
    SlicesOfAppend(w, b);
    assert StripAroundCommas(w + b, false) == w + StripAroundCommas(b, false);
    Reassociate(a, w, b);
    if |a| == 0 {
      AppendEmpty(a, w + b);
      AppendEmpty(StripAroundCommas(a, false), w);
    } else {
      StripAppend(a, w + b, false);
      Reassociate(StripAroundCommas(a, false), w, StripAroundCommas(b, false));
    }
  }

  // ---------------------------------------------------------------- parsing

  /** Every occurrence of `sep` in `s` has ink, or an end of `s`, on both
      sides. */
  ghost predicate SeparatorsInked(s: string, sep: char) {
    forall i :: 0 <= i < |s| && s[i] == sep ==>
      (i == 0 || !IsSpace(s[i - 1])) && (i + 1 == |s| || !IsSpace(s[i + 1]))
  }

  /** When the separators of `s` touch no whitespace, neither does any end of
      a piece of its split, except the front of the first one. */
  lemma {:induction false} SplitPiecesInked(s: string, sep: char)
    requires SeparatorsInked(s, sep) && EndsWithInk(s)
    ensures forall k :: 0 <= k < |SplitOn(s, sep)| ==> EndsWithInk(SplitOn(s, sep)[k])
    ensures forall k :: 1 <= k < |SplitOn(s, sep)| ==> StartsWithInk(SplitOn(s, sep)[k])
    ensures StartsWithInk(s) ==> StartsWithInk(SplitOn(s, sep)[0])
    decreases |s|
  {
    if |s| > 0 {
      var t := s[1..];
      assert SeparatorsInked(t, sep) by {
        forall i | 0 <= i < |t| && t[i] == sep
          ensures (i == 0 || !IsSpace(t[i - 1])) && (i + 1 == |t| || !IsSpace(t[i + 1]))
        {
          assert s[i + 1] == sep;
        }
      }
      assert EndsWithInk(t);
      SplitPiecesInked(t, sep);
      var rest := SplitOn(t, sep);
      var r := SplitOn(s, sep);
      if s[0] == sep {
        assert r == [""] + rest;
        assert StartsWithInk(t);
        forall k | 1 <= k < |r| ensures StartsWithInk(r[k]) && EndsWithInk(r[k]) {
          assert r[k] == rest[k - 1];
        }
      } else {
        assert r == [[s[0]] + rest[0]] + rest[1..];
        if |rest[0]| == 0 {
          if |t| > 0 {
            assert t[0] == sep;
            assert s[1] == sep;
          }
          assert !IsSpace(s[0]);
          assert [s[0]] + rest[0] == [s[0]];
        } else {
          assert EndsWithInk(rest[0]);
        }
        assert EndsWithInk([s[0]] + rest[0]);
        forall k | 1 <= k < |r| ensures StartsWithInk(r[k]) && EndsWithInk(r[k]) {
          assert r[k] == rest[k];
        }
      }
    }
  }

  /** Trimming changes nothing when there is no whitespace at either end. */
  lemma TrimInked(x: string)
    requires StartsWithInk(x) && EndsWithInk(x)
    ensures Trim(x) == x
  {
  }

  /** Trimming only removes characters. */
  lemma TrimKeepsOut(x: string, c: char)
    requires c !in x
    ensures c !in Trim(x)
  {
  }

  /** Splitting `s` on `sep` and trimming the pieces. The pieces never hold
      `sep`; when the separators touch no whitespace and `s` has none at
      either end, the trimming changes nothing, so joining restores `s`. */
  lemma SplitTrimmed(s: string, sep: char)
    ensures var parts := MapSeq(Trim, SplitOn(s, sep));
      |parts| == Count(s, sep) + 1 && (forall k :: 0 <= k < |parts| ==> sep !in parts[k])
      && (SeparatorsInked(s, sep) && StartsWithInk(s) && EndsWithInk(s) ==> Join(parts, sep) == s)
  {
    SplitTrimmedSeparatorFree(s, sep);
    if SeparatorsInked(s, sep) && StartsWithInk(s) && EndsWithInk(s) {
      SplitTrimmedUnchanged(s, sep);
      JoinSplit(s, sep);
    }
  }

  lemma SplitTrimmedSeparatorFree(s: string, sep: char)
    ensures var parts := MapSeq(Trim, SplitOn(s, sep));
      |parts| == Count(s, sep) + 1 && (forall k :: 0 <= k < |parts| ==> sep !in parts[k])
  {
    var pieces := SplitOn(s, sep);
    var parts := MapSeq(Trim, pieces);
    SplitCount(s, sep);
    forall k | 0 <= k < |parts| ensures sep !in parts[k] {
      TrimKeepsOut(pieces[k], sep);
    }
  }

  lemma SplitTrimmedUnchanged(s: string, sep: char)
    requires SeparatorsInked(s, sep) && StartsWithInk(s) && EndsWithInk(s)
    ensures MapSeq(Trim, SplitOn(s, sep)) == SplitOn(s, sep)
  {
    var pieces := SplitOn(s, sep);
    SplitPiecesInked(s, sep);
    forall k | 0 <= k < |pieces| ensures Trim(pieces[k]) == pieces[k] {
      TrimInked(pieces[k]);
    }
    MapSeqIdentity(Trim, pieces);
  }

  /** Normalised text has no whitespace beside a comma or a space. */
  lemma TidySeparators(s: string)
    ensures Tidy(s) ==> SeparatorsInked(s, ',') && SeparatorsInked(s, ' ')
  {
  }

  /** The parts of the normalised text: split on commas when there is one,
      otherwise on spaces when there is one, otherwise none. Each part holds
      no separator, and on normalised text the parts, joined with the
      separator, give the text back. */
  function Parts(normalized: string): (parts: seq<string>)
    ensures ',' in normalized ==> |parts| == Count(normalized, ',') + 1
    ensures ',' !in normalized && ' ' in normalized ==> |parts| == Count(normalized, ' ') + 1
    ensures ',' !in normalized && ' ' !in normalized ==> parts == []
    ensures ',' in normalized ==> forall k :: 0 <= k < |parts| ==> ',' !in parts[k]
    ensures ',' !in normalized && ' ' in normalized ==> forall k :: 0 <= k < |parts| ==> ' ' !in parts[k]
    ensures Tidy(normalized) && ',' in normalized ==> Join(parts, ',') == normalized
    ensures Tidy(normalized) && ',' !in normalized && ' ' in normalized ==> Join(parts, ' ') == normalized
  {
    SplitTrimmed(normalized, ',');
    SplitTrimmed(normalized, ' ');
    TidySeparators(normalized);
    if ',' in normalized then MapSeq(Trim, SplitOn(normalized, ','))
    else if ' ' in normalized then MapSeq(Trim, SplitOn(normalized, ' '))
    else []
  }

  const CustomLocation: string := "Custom Location"

  predicate InRange(latitude: real, longitude: real) {
    -90.0 <= latitude <= 90.0 && -180.0 <= longitude <= 180.0
  }

  /** The coordinate fallback: exactly two parts that both parse, latitude in
      [-90, 90] and longitude in [-180, 180]; the city label is the two values
      at four decimals. */
  function CoordinateFallback(input: string, parseFloat: string -> Option<real>, fixed4: real -> string)
    : (loc: Option<Location>)
    ensures loc.Some? <==>
      var parts := Parts(Normalize(input));
      |parts| == 2 && parseFloat(parts[0]).Some? && parseFloat(parts[1]).Some?
      && InRange(parseFloat(parts[0]).value, parseFloat(parts[1]).value)
    ensures loc.Some? ==> (InRange(loc.value.latitude, loc.value.longitude)
      && loc.value.country == Some(CustomLocation)
      && loc.value.city == Some(fixed4(loc.value.latitude) + ", " + fixed4(loc.value.longitude)))
    ensures loc.Some? ==>
      var parts := Parts(Normalize(input));
      loc.value.latitude == parseFloat(parts[0]).value && loc.value.longitude == parseFloat(parts[1]).value
  {
    var parts := Parts(Normalize(input));
    if |parts| == 2 then
      match (parseFloat(parts[0]), parseFloat(parts[1]))
      case (Some(lat), Some(lng)) =>
        if InRange(lat, lng)
        then Some(Location(lat, lng, Some(fixed4(lat) + ", " + fixed4(lng)), Some(CustomLocation)))
        else None
      case _ => None
    else None
  }

  /** A coordinate as typed: non-empty, with no whitespace and no comma. */
  ghost predicate Token(s: string) {
    |s| > 0 && NoSpace(s) && ',' !in s
  }

  lemma {:induction false} TrimStartBlank(lead: string, y: string)
    requires IsBlank(lead) && StartsWithInk(y)
    ensures TrimStart(lead + y) == y
    decreases |lead|
  {
    if |lead| > 0 {
      TailOfAppend(lead, y);
      TrimStartBlank(lead[1..], y);
    } else {
      AppendEmpty(lead, y);
    }
  }

  lemma {:induction false} TrimEndBlank(x: string, trail: string)
    requires IsBlank(trail) && EndsWithInk(x)
    ensures TrimEnd(x + trail) == x
    decreases |trail|
  {
    if |trail| > 0 {
      InitOfAppend(x, trail);
      LastOfAppend(x, trail);
      TrimEndBlank(x, trail[..|trail| - 1]);
    } else {
      AppendNothing(x, trail);
    }
  }

  /** Surrounding whitespace is trimmed away, and nothing else. */
  lemma TrimAround(lead: string, x: string, trail: string)
    requires IsBlank(lead) && IsBlank(trail) && |x| > 0 && !IsSpace(x[0]) && EndsWithInk(x)
    ensures Trim(lead + x + trail) == x
  {
    Reassociate(lead, x, trail);
    TrimStartBlank(lead, x + trail);
    TrimEndBlank(x, trail);
  }

  lemma CollapseCommaTail(w2: string, b: string)
    requires Token(b) && IsBlank(w2)
    ensures Collapse("," + (w2 + b), false) == "," + (Gap(w2) + b)
  {
    CollapseAppend(",", w2 + b, false);
    CollapseGap(w2, b);
    CollapseNoSpace(b, false);
  }

  lemma CollapseCommaPair(a: string, w1: string, w2: string, b: string)
    requires Token(a) && Token(b) && IsBlank(w1) && IsBlank(w2)
    ensures Collapse(a + w1 + "," + w2 + b, false) == a + Gap(w1) + "," + Gap(w2) + b
  {
    var tail := "," + (w2 + b);
    var rest := w1 + tail;
    var c1 := Collapse(tail, false);
    var c2 := Collapse(rest, false);
    assert c1 == "," + (Gap(w2) + b) by {
      CollapseCommaTail(w2, b);
    }
    assert c2 == Gap(w1) + c1 by {
      CollapseGap(w1, tail);
    }
    assert Collapse(a + rest, false) == a + c2 by {
      assert !IsSpace(a[|a| - 1]);
      CollapseAppend(a, rest, false);
      CollapseNoSpace(a, false);
    }
    CollapseRegroup(a, w1, w2, b, Gap(w1), Gap(w2));
  }

  /** The regrouping of concatenations behind `CollapseCommaPair`. */
  lemma CollapseRegroup(a: string, w1: string, w2: string, b: string, g1: string, g2: string)
    requires Collapse(a + (w1 + ("," + (w2 + b))), false) == a + (g1 + ("," + (g2 + b)))
    ensures Collapse(a + w1 + "," + w2 + b, false) == a + g1 + "," + g2 + b
  {
    NestCommaRun(a, w1, w2, b);
    NestCommaRun(a, g1, g2, b);
  }

  /** Two typed coordinates around a comma, with any whitespace before,
      between and after them, normalise to `a,b`. */
  lemma NormalizeCommaPair(lead: string, a: string, w1: string, w2: string, b: string, trail: string)
    requires IsBlank(lead) && IsBlank(w1) && IsBlank(w2) && IsBlank(trail) && Token(a) && Token(b)
    ensures Normalize(lead + a + w1 + "," + w2 + b + trail) == a + "," + b
  {
    var input := lead + a + w1 + "," + w2 + b + trail;
    var x := a + w1 + "," + w2 + b;
    var c := a + Gap(w1) + "," + Gap(w2) + b;
    assert Trim(input) == x by {
      CommaPairTrim(lead, a, w1, w2, b, trail);
    }
    assert Collapse(x, false) == c by {
      CollapseCommaPair(a, w1, w2, b);
    }
    assert StripAroundCommas(c, false) == a + "," + b by {
      CommaPairStrip(a, Gap(w1), Gap(w2), b);
    }
    NormalizeSteps(input, x, c, a + "," + b);
  }

  /** `Normalize` is trimming, then collapsing, then stripping around commas. */
  lemma NormalizeSteps(input: string, x: string, c: string, r: string)
    requires Trim(input) == x && Collapse(x, false) == c && StripAroundCommas(c, false) == r
    ensures Normalize(input) == r
  {
  }

  lemma CommaPairTrim(lead: string, a: string, w1: string, w2: string, b: string, trail: string)
    requires IsBlank(lead) && IsBlank(trail) && Token(a) && Token(b)
    ensures Trim(lead + a + w1 + "," + w2 + b + trail) == a + w1 + "," + w2 + b
  {
    CommaPairEnds(lead, a, w1, w2, b, trail);
    TrimAround(lead, a + w1 + "," + w2 + b, trail);
  }

  lemma CommaPairStrip(a: string, g1: string, g2: string, b: string)
    requires Token(a) && Token(b) && IsBlank(g1) && IsBlank(g2)
    ensures StripAroundCommas(a + g1 + "," + g2 + b, false) == a + "," + b
  {
    StripCommaRun(a, g1, g2, b);
    StripNoSpace(a, false);
    StripNoSpace(b, false);
  }

  /** The typed text around a comma, grouped as trimming sees it. */
  lemma CommaPairEnds(lead: string, a: string, w1: string, w2: string, b: string, trail: string)
    requires |a| > 0 && |b| > 0
    ensures var x := a + w1 + "," + w2 + b;
      lead + a + w1 + "," + w2 + b + trail == lead + x + trail && x[0] == a[0] && x[|x| - 1] == b[|b| - 1]
  {
  }

  /** The typed text around a whitespace run, grouped as trimming sees it. */
  lemma SpacedPairEnds(lead: string, a: string, w: string, b: string, trail: string)
    requires |a| > 0 && |b| > 0
    ensures var x := a + w + b;
      lead + a + w + b + trail == lead + x + trail && x[0] == a[0] && x[|x| - 1] == b[|b| - 1]
  {
  }

  /** Two typed coordinates separated by whitespace alone normalise to
      `a b`. */
  lemma NormalizeSpacedPair(lead: string, a: string, w: string, b: string, trail: string)
    requires IsBlank(lead) && |w| > 0 && IsBlank(w) && IsBlank(trail) && Token(a) && Token(b)
    ensures Normalize(lead + a + w + b + trail) == a + " " + b
  {
    var x := a + w + b;
    assert Trim(lead + a + w + b + trail) == x by {
      SpacedPairEnds(lead, a, w, b, trail);
      TrimAround(lead, x, trail);
    }
    assert Collapse(x, false) == a + " " + b by {
      CollapseRun(a, w, b);
      CollapseNoSpace(a, false);
      CollapseNoSpace(b, false);
    }
    assert StripAroundCommas(a + " " + b, false) == a + " " + b by {
      StripKeepsRun(a, " ", b);
      StripNoSpace(a, false);
      StripNoSpace(b, false);
    }
  }

  /** Typed `latitude, longitude` (any whitespace around the comma) gives the
      custom location exactly when both numbers parse and are in range, with
      the first as latitude and the second as longitude. */
  lemma CommaPairParsed(lead: string, a: string, w1: string, w2: string, b: string, trail: string,
                        parseFloat: string -> Option<real>, fixed4: real -> string)
    requires IsBlank(lead) && IsBlank(w1) && IsBlank(w2) && IsBlank(trail) && Token(a) && Token(b)
    ensures var loc := CoordinateFallback(lead + a + w1 + "," + w2 + b + trail, parseFloat, fixed4);
      (loc.Some? <==> parseFloat(a).Some? && parseFloat(b).Some? && InRange(parseFloat(a).value, parseFloat(b).value))
      && (loc.Some? ==> loc.value.latitude == parseFloat(a).value && loc.value.longitude == parseFloat(b).value)
  {
    var input := lead + a + w1 + "," + w2 + b + trail;
    NormalizeCommaPair(lead, a, w1, w2, b, trail);
    PartsOfPair(a, b, ',');
    FallbackOfPair(input, a, b, parseFloat, fixed4);
  }

  /** Typed `latitude longitude` (separated by whitespace only) behaves the
      same way. */
  lemma SpacedPairParsed(lead: string, a: string, w: string, b: string, trail: string,
                         parseFloat: string -> Option<real>, fixed4: real -> string)
    requires IsBlank(lead) && |w| > 0 && IsBlank(w) && IsBlank(trail) && Token(a) && Token(b)
    ensures var loc := CoordinateFallback(lead + a + w + b + trail, parseFloat, fixed4);
      (loc.Some? <==> parseFloat(a).Some? && parseFloat(b).Some? && InRange(parseFloat(a).value, parseFloat(b).value))
      && (loc.Some? ==> loc.value.latitude == parseFloat(a).value && loc.value.longitude == parseFloat(b).value)
  {
    var input := lead + a + w + b + trail;
    NormalizeSpacedPair(lead, a, w, b, trail);
    PartsOfPair(a, b, ' ');
    FallbackOfPair(input, a, b, parseFloat, fixed4);
  }

  /** Two tokens joined by one separator split back into those tokens. */
  lemma PartsOfPair(a: string, b: string, sep: char)
    requires Token(a) && Token(b) && (sep == ',' || sep == ' ')
    ensures Parts(a + [sep] + b) == [a, b]
  {
    var n := a + [sep] + b;
    assert SplitOn(n, sep) == [a, b] by {
      SplitTwo(a, b, sep);
    }
    assert MapSeq(Trim, [a, b]) == [a, b] by {
      TrimInked(a);
      TrimInked(b);
    }
    assert sep in n by {
      assert n[|a|] == sep;
    }
    if sep == ',' {
      assert Parts(n) == MapSeq(Trim, SplitOn(n, ','));
    } else {
      assert ',' !in n by {
        NoCommaBetween(a, b, sep);
      }
      assert Parts(n) == MapSeq(Trim, SplitOn(n, ' '));
    }
  }

  lemma NoCommaBetween(a: string, b: string, sep: char)
    requires ',' !in a && ',' !in b && sep != ','
    ensures ',' !in a + [sep] + b
  {
  }

  /** Once the normalised text splits into exactly two parts, the fallback
      reads those parts as latitude and longitude. */
  lemma FallbackOfPair(input: string, a: string, b: string,
                       parseFloat: string -> Option<real>, fixed4: real -> string)
    requires Parts(Normalize(input)) == [a, b]
    ensures var loc := CoordinateFallback(input, parseFloat, fixed4);
      (loc.Some? <==> parseFloat(a).Some? && parseFloat(b).Some? && InRange(parseFloat(a).value, parseFloat(b).value))
      && (loc.Some? ==> loc.value.latitude == parseFloat(a).value && loc.value.longitude == parseFloat(b).value)
  {
  }

  /** Text with neither a comma nor a space after normalisation, such as a
      single number, never yields coordinates. */
  lemma SingleTokenRejected(input: string, parseFloat: string -> Option<real>, fixed4: real -> string)
    requires ',' !in Normalize(input) && ' ' !in Normalize(input)
    ensures CoordinateFallback(input, parseFloat, fixed4).None?
  {
  }

  // ---------------------------------------------------------------- submission

  const NotFoundMessage: string := "Location not found. Try \"City, Country\" or \"latitude, longitude\""

  /** What a submission does: nothing for blank text; otherwise the new
      location is passed to `onLocationChange` (and the form is cleared), or
      the not-found alert is shown. */
  datatype Outcome = Ignored | Changed(location: Location) | Alerted(message: string)

  /** `handleManualLocationSubmit`; `geocoded` is the geocoder's answer. */
  function Submit(input: string, geocoded: Option<Location>, parseFloat: string -> Option<real>,
                  fixed4: real -> string): (o: Outcome)
    ensures o.Ignored? <==> Trim(input) == ""
    ensures Trim(input) != "" && geocoded.Some? ==> o == Changed(geocoded.value)
    ensures Trim(input) != "" && geocoded.None? ==>
      (o.Changed? <==> CoordinateFallback(input, parseFloat, fixed4).Some?)
    ensures Trim(input) != "" && geocoded.None? && CoordinateFallback(input, parseFloat, fixed4).Some? ==>
      o == Changed(CoordinateFallback(input, parseFloat, fixed4).value)
    ensures o.Alerted? ==> o.message == NotFoundMessage
  {
    if Trim(input) == "" then Ignored
    else
      var found := if geocoded.Some? then geocoded else CoordinateFallback(input, parseFloat, fixed4);
      match found
      case Some(loc) => Changed(loc)
      case None => Alerted(NotFoundMessage)
  }

  /** A location set from typed coordinates, without a geocoder answer, is
      always in range; a rejected submission changes nothing. */
  lemma FallbackLocationsInRange(input: string, parseFloat: string -> Option<real>, fixed4: real -> string)
    ensures var o := Submit(input, None, parseFloat, fixed4);
      o.Changed? ==> InRange(o.location.latitude, o.location.longitude) && o.location.country == Some(CustomLocation)
  {
  }

  // ---------------------------------------------------------------- presets

  datatype Preset = Preset(name: string, latitude: real, longitude: real, country: string)

  /** The preset buttons: five Kenyan cities, then five international ones. */
  const Presets: seq<Preset> := [
    Preset("Nairobi", -1.2921, 36.8219, "Kenya"),
    Preset("Nakuru", -0.3031, 36.0800, "Kenya"),
    Preset("Mombasa", -4.0435, 39.6682, "Kenya"),
    Preset("Kisumu", -0.1022, 34.7617, "Kenya"),
    Preset("Eldoret", 0.5143, 35.2698, "Kenya"),
    Preset("London", 51.5074, -0.1278, "UK"),
    Preset("New York", 40.7128, -74.0060, "USA"),
    Preset("Tokyo", 35.6762, 139.6503, "Japan"),
    Preset("Sydney", -33.8688, 151.2093, "Australia"),
    Preset("Cairo", 30.0444, 31.2357, "Egypt")]

  /** The location a preset button passes to `onLocationChange`. */
  function PresetLocation(p: Preset): (loc: Location)
    ensures loc.latitude == p.latitude && loc.longitude == p.longitude
    ensures loc.city == Some(p.name) && loc.country == Some(p.country)
  {
    Location(p.latitude, p.longitude, Some(p.name), Some(p.country))
  }

  /** Every preset is a valid coordinate pair with distinct names. */
  lemma PresetsInRange()
    ensures forall k :: 0 <= k < |Presets| ==> InRange(Presets[k].latitude, Presets[k].longitude)
    ensures forall k, m :: 0 <= k < m < |Presets| ==> Presets[k].name != Presets[m].name
  {
  }
}
