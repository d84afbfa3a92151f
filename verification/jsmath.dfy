/** JavaScript `Math` and number semantics over exact reals: the truncating
    remainder `%`, `Math.min`/`max`/`abs`, and the trigonometric functions,
    which are passed in as a `Trig` record constrained only by their ranges. */
module JsMath {

  /** `Math.PI`. */
  const PI: real := 3.141592653589793

  function Min(a: real, b: real): real { if a <= b then a else b }
  function Max(a: real, b: real): real { if a >= b then a else b }
  function Abs(a: real): real { if a < 0.0 then -a else a }

  /** `Math.max(lo, Math.min(hi, x))`. */
  function Clamp(lo: real, hi: real, x: real): (r: real)
    requires lo <= hi
    ensures lo <= r <= hi
    ensures lo <= x <= hi ==> r == x
    ensures x <= lo ==> r == lo
    ensures x >= hi ==> r == hi
  {
    Max(lo, Min(hi, x))
  }

  /** `Math.trunc(x)`: rounds toward zero. */
  function Trunc(x: real): (k: int)
    ensures x >= 0.0 ==> k as real <= x < k as real + 1.0
    ensures x < 0.0 ==> k as real - 1.0 < x <= k as real
  {
    if x >= 0.0 then x.Floor else -((-x).Floor)
  }

  /** JavaScript's `a % b`: `a - b * Math.trunc(a / b)`, the remainder of the
      quotient truncated toward zero, which takes the sign of the dividend. */
  function JsRem(a: real, b: real): (r: real)
    requires b > 0.0
    ensures a >= 0.0 ==> 0.0 <= r < b
    ensures a < 0.0 ==> -b < r <= 0.0
    ensures -b < a < b ==> r == a
  {
    var t := Trunc(a / b) as real;
    DivComparesLikeProduct(a, b, 0.0);
    DivComparesLikeProduct(a, b, t);
    DivComparesLikeProduct(a, b, t + 1.0);
    DivComparesLikeProduct(a, b, t - 1.0);
    if -b < a < b then
      DivComparesLikeProduct(a, b, 1.0);
      DivComparesLikeProduct(a, b, -1.0);
      a - t * b
    else a - t * b
  }

  /** Scaling a fraction of `(-1, 1)` by a positive `b` keeps its sign and stays below `b`. */
  lemma FractionScales(f: real, b: real)
    requires b > 0.0
    ensures 0.0 <= f < 1.0 ==> 0.0 <= b * f < b
    ensures -1.0 < f <= 0.0 ==> -b < b * f <= 0.0
  {
  }

  /** Dividing by a positive `b` preserves comparisons against `c`. */
  lemma DivComparesLikeProduct(a: real, b: real, c: real)
    requires b > 0.0
    ensures a / b < c <==> a < c * b
    ensures a / b == c <==> a == c * b
  {
    var q := a / b;
    assert q * b == a;
    assert a - c * b == (q - c) * b;
    if q < c {
      assert (c - q) * b > 0.0;
    }
    if q > c {
      assert (q - c) * b > 0.0;
    }
  }

  /** `JsRem(a, b)` differs from `a` by the truncated quotient times `b`. */
  lemma JsRemQuotient(a: real, b: real)
    requires b > 0.0
    ensures a - JsRem(a, b) == b * (Trunc(a / b) as real)
  {
    assert b * (a / b) == a;
  }

  /** A remainder in `[0, m)` that differs from `a` by a whole multiple of `m`
      is the floored (Euclidean) remainder. */
  lemma EuclideanRemainderUnique(a: real, m: real, k: int, r: real)
    requires m > 0.0
    requires r == a - m * k as real
    requires 0.0 <= r < m
    ensures k == (a / m).Floor
  {
    assert a / m == k as real + r / m by {
      assert a == m * k as real + r;
    }
    DivComparesLikeProduct(r, m, 0.0);
    DivComparesLikeProduct(r, m, 1.0);
  }

  /** Reference definition of the floored remainder, which lies in `[0, m)`. */
  function FlooredRem(a: real, m: real): real
    requires m > 0.0
  {
    a - m * ((a / m).Floor as real)
  }

  /** `((a % m) + m) % m`, the usual idiom, is the floored remainder. */
  lemma DoubleRemIsFloored(a: real, m: real)
    requires m > 0.0
    ensures JsRem(JsRem(a, m) + m, m) == FlooredRem(a, m)
  {
    var t := JsRem(a, m);
    JsRemQuotient(a, m);
    JsRemQuotient(t + m, m);
    TwoRemainderSteps(a, t, JsRem(t + m, m), m, Trunc(a / m), Trunc((t + m) / m));
  }

  /** Two remainder steps compose: when `t` is `a` less `q1` moduli and `r`,
      in `[0, m)`, is `t + m` less `q2` moduli, `r` is the floored remainder. */
  lemma TwoRemainderSteps(a: real, t: real, r: real, m: real, q1: int, q2: int)
    requires m > 0.0 && 0.0 <= r < m
    requires a - t == m * q1 as real
    requires t + m - r == m * q2 as real
    ensures r == FlooredRem(a, m)
  {
    assert m * (q1 - 1 + q2) as real == m * q1 as real + m * q2 as real - m;
    EuclideanRemainderUnique(a, m, q1 - 1 + q2, r);
  }

  /** The floored remainder lies in `[0, m)`. */
  lemma FlooredRemRange(a: real, m: real)
    requires m > 0.0
    ensures 0.0 <= FlooredRem(a, m) < m
  {
    var k := (a / m).Floor as real;
    DivComparesLikeProduct(a, m, k);
    DivComparesLikeProduct(a, m, k + 1.0);
  }

  /** The floored remainder is periodic in its modulus. */
  lemma FlooredRemPeriodic(a: real, m: real)
    requires m > 0.0
    ensures FlooredRem(a + m, m) == FlooredRem(a, m)
  {
    var k := (a / m).Floor;
    FlooredRemRange(a, m);
    EuclideanRemainderUnique(a + m, m, k + 1, FlooredRem(a, m));
  }

  /** The trigonometric functions of `Math`, as parameters of the model. */
  datatype Trig = Trig(
    sin: real -> real,
    cos: real -> real,
    asin: real -> real,
    acos: real -> real,
    atan2: (real, real) -> real)

  /** The ranges of `Math.sin`, `cos`, `asin`, `acos` and `atan2`. */
  ghost predicate Lawful(t: Trig) {
    && (forall x :: -1.0 <= t.sin(x) <= 1.0)
    && (forall x :: -1.0 <= t.cos(x) <= 1.0)
    && (forall x :: -PI / 2.0 <= t.asin(x) <= PI / 2.0)
    && (forall x :: 0.0 <= t.acos(x) <= PI)
    && (forall y, x :: -PI <= t.atan2(y, x) <= PI)
  }
}
