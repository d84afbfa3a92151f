/** The JavaScript string operations the application uses, over UTF-16 code
    units (`string` = `seq<char>`). Case mapping and whitespace cover ASCII only. */
module Text {

  /** `c.toLowerCase()` on an ASCII letter; other characters are unchanged. */
  function LowerChar(c: char): char {
    if 'A' <= c <= 'Z' then (c as int + 32) as char else c
  }

  /** `c.toUpperCase()` on an ASCII letter; other characters are unchanged. */
  function UpperChar(c: char): char {
    if 'a' <= c <= 'z' then (c as int - 32) as char else c
  }

  /** `s.toLowerCase()`. */
  function Lower(s: string): (r: string)
    ensures |r| == |s|
  {
    seq(|s|, i requires 0 <= i < |s| => LowerChar(s[i]))
  }

  /** `s.charAt(0).toUpperCase()`: the empty string when `s` is empty. */
  function FirstCharUpper(s: string): (r: string)
    ensures |r| <= 1
  {
    if |s| == 0 then "" else [UpperChar(s[0])]
  }

  /** `s.startsWith(p)`. */
  predicate StartsWith(s: string, p: string) {
    p <= s
  }

  /** `h.includes(n)`: `n` occurs in `h` at some position. */
  predicate Includes(h: string, n: string)
    decreases |h|
  {
    n <= h || (|h| > 0 && Includes(h[1..], n))
  }

  /** Reference definition of a substring occurrence. */
  ghost predicate OccursAt(h: string, n: string, i: int) {
    0 <= i && i + |n| <= |h| && h[i..i + |n|] == n
  }

  /** Lower-casing twice is lower-casing once. */
  lemma LowerIdempotent(s: string)
    ensures Lower(Lower(s)) == Lower(s)
  {
  }

  /** `Includes` agrees with the positional definition of a substring. */
  lemma {:induction false} IncludesIffOccurs(h: string, n: string)
    ensures Includes(h, n) <==> exists i :: OccursAt(h, n, i)
    decreases |h|
  {
    if n <= h {
      assert OccursAt(h, n, 0);
    } else if |h| > 0 {
      IncludesIffOccurs(h[1..], n);
      if exists i :: OccursAt(h[1..], n, i) {
        var i :| OccursAt(h[1..], n, i);
        assert h[1..][i..i + |n|] == h[i + 1..i + 1 + |n|];
        assert OccursAt(h, n, i + 1);
      }
      if exists i :: OccursAt(h, n, i) {
        var i :| OccursAt(h, n, i);
        if i == 0 {
          assert false;
        }
        assert h[1..][i - 1..i - 1 + |n|] == h[i..i + |n|];
        assert OccursAt(h[1..], n, i - 1);
      }
    }
  }

  /** The empty string is included in every string. */
  lemma IncludesEmpty(h: string)
    ensures Includes(h, "")
  {
  }

  /** JavaScript whitespace, restricted to ASCII: the space, and tab, line
      feed, vertical tab, form feed and carriage return (codes 9 to 13). */
  predicate IsSpace(c: char) {
    c == ' ' || '\t' <= c <= '\r'
  }

  /** Every character is whitespace (so `s.trim()` is empty, and falsy). */
  ghost predicate IsBlank(s: string) {
    forall i :: 0 <= i < |s| ==> IsSpace(s[i])
  }

  /** `s.trimStart()`. */
  function TrimStart(s: string): (r: string)
    ensures |r| <= |s|
    ensures r == s[|s| - |r|..]
    ensures |r| > 0 ==> !IsSpace(r[0])
    ensures forall i :: 0 <= i < |s| - |r| ==> IsSpace(s[i])
    decreases |s|
  {
    if |s| > 0 && IsSpace(s[0]) then TrimStart(s[1..]) else s
  }

  /** `s.trimEnd()`. */
  function TrimEnd(s: string): (r: string)
    ensures |r| <= |s|
    ensures r == s[..|r|]
    ensures |r| > 0 ==> !IsSpace(r[|r| - 1])
    ensures forall i :: |r| <= i < |s| ==> IsSpace(s[i])
    decreases |s|
  {
    if |s| > 0 && IsSpace(s[|s| - 1]) then TrimEnd(s[..|s| - 1]) else s
  }

  /** `s.trim()`. */
  function Trim(s: string): (r: string)
    ensures |r| <= |s|
  {
    TrimEnd(TrimStart(s))
  }

  /** `s.trim()` is the empty string exactly when `s` is blank. */
  lemma TrimEmptyIffBlank(s: string)
    ensures Trim(s) == "" <==> IsBlank(s)
  {
  }

  /** Number of occurrences of `c` in `s`. */
  function Count(s: string, c: char): nat
    decreases |s|
  {
    if |s| == 0 then 0 else (if s[0] == c then 1 else 0) + Count(s[1..], c)
  }

  /** `s.split(sep)` for a one-character separator: never empty, and the
      pieces are the maximal separator-free runs. */
  function SplitOn(s: string, sep: char): (r: seq<string>)
    ensures |r| >= 1
    decreases |s|
  {
    if |s| == 0 then [""]
    else
      var rest := SplitOn(s[1..], sep);
      if s[0] == sep then [""] + rest
      else [[s[0]] + rest[0]] + rest[1..]
  }

  /** `parts.join(sep)`. */
  function Join(parts: seq<string>, sep: char): string
    decreases |parts|
  {
    if |parts| == 0 then ""
    else if |parts| == 1 then parts[0]
    else parts[0] + [sep] + Join(parts[1..], sep)
  }

  /** Joining the pieces of a split restores the string. */
  lemma {:induction false} JoinSplit(s: string, sep: char)
    ensures Join(SplitOn(s, sep), sep) == s
    decreases |s|
  {
    if |s| > 0 {
      JoinSplit(s[1..], sep);
      var rest := SplitOn(s[1..], sep);
      if s[0] == sep {
        assert SplitOn(s, sep) == [""] + rest;
        assert ([""] + rest)[1..] == rest;
      } else {
        var r := SplitOn(s, sep);
        assert r[0] == [s[0]] + rest[0] && r[1..] == rest[1..];
        if |rest| == 1 {
          assert Join(r, sep) == [s[0]] + rest[0];
          assert Join(rest, sep) == rest[0];
        } else {
          assert Join(r, sep) == [s[0]] + rest[0] + [sep] + Join(rest[1..], sep);
          assert Join(rest, sep) == rest[0] + [sep] + Join(rest[1..], sep);
        }
        assert [s[0]] + s[1..] == s;
      }
    }
  }

  /** Text without the separator splits into itself. */
  lemma {:induction false} SplitNoSeparator(s: string, sep: char)
    requires sep !in s
    ensures SplitOn(s, sep) == [s]
    decreases |s|
  {
    if |s| > 0 {
      SplitNoSeparator(s[1..], sep);
      assert [s[0]] + s[1..] == s;
    }
  }

  /** Two separator-free pieces joined by one separator split back into the
      two pieces. */
  lemma {:induction false} SplitTwo(a: string, b: string, sep: char)
    requires sep !in a && sep !in b
    ensures SplitOn(a + [sep] + b, sep) == [a, b]
    decreases |a|
  {
    if |a| == 0 {
      assert a + [sep] + b == [sep] + b;
      assert ([sep] + b)[1..] == b;
      SplitNoSeparator(b, sep);
    } else {
      assert (a + [sep] + b)[1..] == a[1..] + [sep] + b;
      SplitTwo(a[1..], b, sep);
      assert [a[0]] + a[1..] == a;
    }
  }

  /** A split yields one more piece than there are separators, and no piece
      contains the separator. */
  lemma {:induction false} SplitCount(s: string, sep: char)
    ensures |SplitOn(s, sep)| == Count(s, sep) + 1
    ensures forall k :: 0 <= k < |SplitOn(s, sep)| ==> sep !in SplitOn(s, sep)[k]
    decreases |s|
  {
    if |s| > 0 {
      SplitCount(s[1..], sep);
      var rest := SplitOn(s[1..], sep);
      var r := SplitOn(s, sep);
      if s[0] != sep {
        assert r[0] == [s[0]] + rest[0];
        forall k | 1 <= k < |r|
          ensures sep !in r[k]
        {
          assert r[k] == rest[k];
        }
      } else {
        forall k | 1 <= k < |r|
          ensures sep !in r[k]
        {
          assert r[k] == rest[k - 1];
        }
      }
    }
  }
}
