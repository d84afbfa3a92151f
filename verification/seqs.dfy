/** Sequence combinators that mirror JavaScript's `Array.prototype.filter`,
    `map`, `find` and `slice`, together with the facts the rest of the model
    relies on: filtering yields an order-preserving subsequence, filters fuse,
    and a push-then-check loop keeps the first qualifying elements. */
module Seqs {
  import opened Wrappers

  /** `a` can be obtained from `b` by deleting elements (order preserved). */
  ghost predicate IsSubsequence<T>(a: seq<T>, b: seq<T>)
    decreases |b|
  {
    |a| == 0 ||
    (|b| > 0 &&
     ((a[0] == b[0] && IsSubsequence(a[1..], b[1..])) || IsSubsequence(a, b[1..])))
  }

  /** `s.filter(p)`. */
  function Filter<T>(p: T -> bool, s: seq<T>): (r: seq<T>)
    ensures |r| <= |s|
    ensures forall i :: 0 <= i < |r| ==> r[i] in s && p(r[i])
    ensures forall i :: 0 <= i < |s| && p(s[i]) ==> s[i] in r
    decreases |s|
  {
    if |s| == 0 then []
    else if p(s[0]) then [s[0]] + Filter(p, s[1..])
    else Filter(p, s[1..])
  }

  /** `s.map(f)`. */
  function MapSeq<A, B>(f: A -> B, s: seq<A>): (r: seq<B>)
    ensures |r| == |s|
    ensures forall i :: 0 <= i < |s| ==> r[i] == f(s[i])
    decreases |s|
  {
    if |s| == 0 then [] else [f(s[0])] + MapSeq(f, s[1..])
  }

  /** Mapping a function that fixes every element changes nothing. */
  lemma MapSeqIdentity<A>(f: A -> A, s: seq<A>)
    requires forall k :: 0 <= k < |s| ==> f(s[k]) == s[k]
    ensures MapSeq(f, s) == s
  {
  }

  /** A loop that maps each element to an optional result and keeps the
      present ones (a `for` with `continue` on the rejected elements). */
  function FilterMap<A, B>(f: A -> Option<B>, s: seq<A>): (r: seq<B>)
    ensures |r| <= |s|
    decreases |s|
  {
    if |s| == 0 then []
    else if f(s[0]).Some? then [f(s[0]).value] + FilterMap(f, s[1..])
    else FilterMap(f, s[1..])
  }

  /** `s.slice(0, n)`. */
  function Take<T>(s: seq<T>, n: nat): (r: seq<T>)
    ensures |r| == if n < |s| then n else |s|
    ensures r <= s
  {
    if n < |s| then s[..n] else s
  }

  /** Both predicates hold. */
  function Both<T>(p: T -> bool, q: T -> bool): T -> bool {
    x => p(x) && q(x)
  }

  /** The predicate `p` applied after `f`. */
  function Compose<A, B>(f: A -> B, p: B -> bool): A -> bool {
    x => p(f(x))
  }

  /** Index of the first element satisfying `p` (`findIndex`, with `None` for -1). */
  function FindIndex<T>(p: T -> bool, s: seq<T>): (r: Option<nat>)
    ensures r.Some? ==> r.value < |s| && p(s[r.value])
    ensures r.Some? ==> forall j :: 0 <= j < r.value ==> !p(s[j])
    ensures r.None? <==> forall j :: 0 <= j < |s| ==> !p(s[j])
    decreases |s|
  {
    if |s| == 0 then None
    else if p(s[0]) then Some(0)
    else match FindIndex(p, s[1..])
      case None => None
      case Some(k) => Some(k + 1)
  }

  /** `x` is the element at the first position of `s` that satisfies `p`. */
  ghost predicate IsFirstMatch<T>(p: T -> bool, s: seq<T>, x: T) {
    exists i :: 0 <= i < |s| && s[i] == x && p(s[i]) && forall j :: 0 <= j < i ==> !p(s[j])
  }

  /** `s.find(p)`. */
  function Find<T>(p: T -> bool, s: seq<T>): (r: Option<T>)
    ensures r.Some? <==> exists i :: 0 <= i < |s| && p(s[i])
    ensures r.Some? ==> r.value in s && p(r.value)
    ensures r.Some? ==> IsFirstMatch(p, s, r.value)
  {
    match FindIndex(p, s)
    case None => None
    case Some(i) => Some(s[i])
  }

  /** A filter keeps its input's order: its output is a subsequence. */
  lemma {:induction false} FilterIsSubsequence<T>(p: T -> bool, s: seq<T>)
    ensures IsSubsequence(Filter(p, s), s)
    decreases |s|
  {
    if |s| > 0 {
      FilterIsSubsequence(p, s[1..]);
      if p(s[0]) {
        assert Filter(p, s)[1..] == Filter(p, s[1..]);
      }
    }
  }

  /** Filtering a sequence whose elements all pass returns it unchanged. */
  lemma {:induction false} FilterAllPass<T>(p: T -> bool, s: seq<T>)
    requires forall i :: 0 <= i < |s| ==> p(s[i])
    ensures Filter(p, s) == s
    decreases |s|
  {
    if |s| > 0 {
      FilterAllPass(p, s[1..]);
      assert [s[0]] + s[1..] == s;
    }
  }

  /** A filter that no element passes returns nothing. */
  lemma FilterNonePass<T>(p: T -> bool, s: seq<T>)
    requires forall i :: 0 <= i < |s| ==> !p(s[i])
    ensures Filter(p, s) == []
  {
  }

  /** Filtering twice with the same predicate is the same as filtering once. */
  lemma FilterIdempotent<T>(p: T -> bool, s: seq<T>)
    ensures Filter(p, Filter(p, s)) == Filter(p, s)
  {
    var r := Filter(p, s);
    FilterAllPass(p, r);
  }

  /** Two chained filters are one filter with the conjunction. */
  lemma {:induction false} FilterFilter<T>(p: T -> bool, q: T -> bool, s: seq<T>)
    ensures Filter(q, Filter(p, s)) == Filter(Both(p, q), s)
    decreases |s|
  {
    if |s| > 0 {
      FilterFilter(p, q, s[1..]);
      if p(s[0]) {
        assert Filter(p, s) == [s[0]] + Filter(p, s[1..]);
        assert Filter(p, s)[0] == s[0] && Filter(p, s)[1..] == Filter(p, s[1..]);
      }
    }
  }

  /** Filters with pointwise-equal predicates agree. */
  lemma {:induction false} FilterExtensional<T>(p: T -> bool, q: T -> bool, s: seq<T>)
    requires forall i :: 0 <= i < |s| ==> p(s[i]) == q(s[i])
    ensures Filter(p, s) == Filter(q, s)
    decreases |s|
  {
    if |s| > 0 {
      assert p(s[0]) == q(s[0]);
      FilterExtensional(p, q, s[1..]);
    }
  }

  /** A weaker predicate keeps a super-subsequence. */
  lemma {:induction false} FilterWeaken<T>(p: T -> bool, q: T -> bool, s: seq<T>)
    requires forall i :: 0 <= i < |s| ==> p(s[i]) ==> q(s[i])
    ensures IsSubsequence(Filter(p, s), Filter(q, s))
    decreases |s|
  {
    if |s| > 0 {
      FilterWeaken(p, q, s[1..]);
      var a, b := Filter(p, s), Filter(q, s);
      if p(s[0]) {
        assert q(s[0]);
        assert a[0] == b[0] && a[1..] == Filter(p, s[1..]) && b[1..] == Filter(q, s[1..]);
      } else if q(s[0]) {
        assert b[1..] == Filter(q, s[1..]);
      }
    }
  }

  /** Filtering after a map is mapping after filtering by the composite. */
  lemma {:induction false} FilterMapSeq<A, B>(f: A -> B, p: B -> bool, s: seq<A>)
    ensures Filter(p, MapSeq(f, s)) == MapSeq(f, Filter(Compose(f, p), s))
    decreases |s|
  {
    if |s| > 0 {
      FilterMapSeq(f, p, s[1..]);
      assert MapSeq(f, s)[0] == f(s[0]);
      assert MapSeq(f, s)[1..] == MapSeq(f, s[1..]);
    }
  }

  /** Mapping preserves the subsequence relation. */
  lemma {:induction false} MapSeqSubsequence<A, B>(f: A -> B, a: seq<A>, b: seq<A>)
    requires IsSubsequence(a, b)
    ensures IsSubsequence(MapSeq(f, a), MapSeq(f, b))
    decreases |b|
  {
    if |a| > 0 {
      var ma, mb := MapSeq(f, a), MapSeq(f, b);
      assert ma[1..] == MapSeq(f, a[1..]) && mb[1..] == MapSeq(f, b[1..]);
      if a[0] == b[0] && IsSubsequence(a[1..], b[1..]) {
        MapSeqSubsequence(f, a[1..], b[1..]);
      } else {
        MapSeqSubsequence(f, a, b[1..]);
      }
    }
  }

  /** The subsequence relation is transitive. */
  lemma {:induction false} SubsequenceTransitive<T>(a: seq<T>, b: seq<T>, c: seq<T>)
    requires IsSubsequence(a, b) && IsSubsequence(b, c)
    ensures IsSubsequence(a, c)
    decreases |c|
  {
    if |a| > 0 {
      if b[0] == c[0] && IsSubsequence(b[1..], c[1..]) {
        if a[0] == b[0] && IsSubsequence(a[1..], b[1..]) {
          SubsequenceTransitive(a[1..], b[1..], c[1..]);
        } else {
          SubsequenceTransitive(a, b[1..], c[1..]);
        }
      } else {
        SubsequenceTransitive(a, b, c[1..]);
      }
    }
  }

  /** FilterMap distributes over concatenation, so a prefix of the input
      yields a prefix of the output. */
  lemma {:induction false} FilterMapAppend<A, B>(f: A -> Option<B>, a: seq<A>, b: seq<A>)
    ensures FilterMap(f, a + b) == FilterMap(f, a) + FilterMap(f, b)
    decreases |a|
  {
    if |a| > 0 {
      FilterMapAppend(f, a[1..], b);
      assert (a + b)[1..] == a[1..] + b;
    } else {
      assert a + b == b;
    }
  }

  /** The output of FilterMap is exactly the present results, in order. */
  lemma {:induction false} FilterMapMembership<A, B>(f: A -> Option<B>, s: seq<A>, y: B)
    ensures y in FilterMap(f, s) <==> exists i :: 0 <= i < |s| && f(s[i]) == Some(y)
    decreases |s|
  {
    if |s| > 0 {
      FilterMapMembership(f, s[1..], y);
      if (exists i :: 0 <= i < |s| && f(s[i]) == Some(y)) {
        var i :| 0 <= i < |s| && f(s[i]) == Some(y);
        if i > 0 {
          assert s[1..][i - 1] == s[i];
        }
      }
      if (exists i :: 0 <= i < |s[1..]| && f(s[1..][i]) == Some(y)) {
        var i :| 0 <= i < |s[1..]| && f(s[1..][i]) == Some(y);
        assert s[i + 1] == s[1..][i];
      }
    }
  }

  /** A property every present result has is shared by the whole output. */
  lemma {:induction false} FilterMapAll<A, B>(f: A -> Option<B>, s: seq<A>, P: B -> bool)
    requires forall i :: 0 <= i < |s| ==> f(s[i]).Some? ==> P(f(s[i]).value)
    ensures forall j :: 0 <= j < |FilterMap(f, s)| ==> P(FilterMap(f, s)[j])
    decreases |s|
  {
    if |s| > 0 {
      FilterMapAll(f, s[1..], P);
      var r := FilterMap(f, s);
      if f(s[0]).Some? {
        assert r[1..] == FilterMap(f, s[1..]);
        forall j | 1 <= j < |r|
          ensures P(r[j])
        {
          assert r[j] == r[1..][j - 1];
        }
      }
    }
  }

  /** A limit read as JavaScript's push-then-check loop honours it: at least
      one element is always pushed before the first check. */
  function Cap(limit: int): (n: nat)
    ensures n >= 1 && n >= limit
    ensures limit >= 1 ==> n == limit
  {
    if limit < 1 then 1 else limit
  }

  /** The loop shape shared by the catalogue routes:
        for (const item of items) { if (rejected) continue; out.push(...);
                                    if (out.length >= limit) break }
      It returns the first `max(limit, 1)` selected results, in input order. */
  method CollectUpTo<A, B>(items: seq<A>, select: A -> Option<B>, limit: int) returns (out: seq<B>)
    ensures out == Take(FilterMap(select, items), Cap(limit))
    ensures |out| <= Cap(limit)
  {
    out := [];
    var i := 0;
    while i < |items|
      invariant 0 <= i <= |items|
      invariant out == FilterMap(select, items[..i])
      invariant |out| < Cap(limit)
    {
      FilterMapAppend(select, items[..i], [items[i]]);
      assert items[..i] + [items[i]] == items[..i + 1];
      var r := select(items[i]);
      if r.Some? {
        out := out + [r.value];
        if |out| >= limit {
          FilterMapAppend(select, items[..i + 1], items[i + 1..]);
          assert items[..i + 1] + items[i + 1..] == items;
          return;
        }
      }
      i := i + 1;
    }
    assert items[..i] == items;
  }
}
