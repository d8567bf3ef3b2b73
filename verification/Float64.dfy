/**
 IEEE 754 binary64 over the reals: which reals are values, and how a real is
 rounded to one (to nearest, ties to even).
 */
module Float64 {
  import opened Common

  const MIN_EXPONENT := -1074
  const MAX_EXPONENT := 971
  const TWO_52 := 0x10_0000_0000_0000
  const TWO_53 := 0x20_0000_0000_0000

  /** A double. Both zeros are `Finite(0.0)`, as `==` has it. */
  datatype F64 = Finite(x: real) | Infinite(negative: bool) | NaN

  function Magnitude(x: real): real { if x < 0.0 then -x else x }

  // ---- Powers of two --------------------------------------------------------

  function Exp2(e: int): (r: real)
    ensures r > 0.0
    decreases if e < 0 then -e else e
  {
    if e == 0 then 1.0 else if e > 0 then 2.0 * Exp2(e - 1) else Exp2(e + 1) / 2.0
  }

  lemma {:induction false} Exp2Add(e: int, n: nat)
    ensures Exp2(e + n) == Pow2(n) as real * Exp2(e)
  {
    if n > 0 {
      Exp2Add(e, n - 1);
      Exp2Twice(e + n - 1);
      Regroup(2.0, Pow2(n - 1) as real, Exp2(e));
    }
  }

  lemma {:induction false} Exp2Mono(d: int, e: int)
    requires d <= e
    ensures Exp2(d) <= Exp2(e)
    decreases e - d
  {
    if d < e {
      Exp2Twice(e - 1);
      Exp2Mono(d, e - 1);
    }
  }

  lemma Exp2Twice(e: int)
    ensures Exp2(e + 1) == 2.0 * Exp2(e)
  {
  }

  lemma Pow2At52()
    ensures Pow2(52) == TWO_52 && Pow2(53) == TWO_53
  {
    assert Pow2(10) == 1024;
    assert Pow2(20) == 1024 * Pow2(10);
    assert Pow2(30) == 1024 * Pow2(20);
    assert Pow2(40) == 1024 * Pow2(30);
    assert Pow2(50) == 1024 * Pow2(40);
  }

  /** The bounds of the significands of exponent `e`. */
  lemma Binade(e: int)
    ensures Exp2(e + 52) == TWO_52 as real * Exp2(e) && Exp2(e + 53) == TWO_53 as real * Exp2(e)
  {
    hide Exp2, Pow2;
    Pow2At52();
    Exp2Add(e, 52);
    Exp2Add(e, 53);
  }

  // ---- Rounding to integers -------------------------------------------------

  /** To the nearest integer, halves to the even one. */
  function RoundEven(x: real): (n: int)
    ensures Magnitude(n as real - x) <= 0.5
  {
    var f := x.Floor;
    if x - f as real < 0.5 || (x - f as real == 0.5 && f % 2 == 0) then f else f + 1
  }

  lemma RoundEvenClosest(x: real, n: int)
    ensures Magnitude(RoundEven(x) as real - x) <= Magnitude(n as real - x)
  {
    var f := x.Floor;
    if n <= f {
      assert n as real <= f as real;
    } else {
      assert n as real >= (f + 1) as real;
    }
  }

  lemma RoundEvenIs(x: real, n: int)
    requires Magnitude(n as real - x) < 0.5 || (Magnitude(n as real - x) == 0.5 && n % 2 == 0)
    ensures RoundEven(x) == n
  {
  }

  /** To the nearest multiple of `u`. */
  function RoundTo(x: real, u: real): real
    requires u > 0.0
  {
    RoundEven(x / u) as real * u
  }

  lemma Unscale(a: real, u: real)
    requires u > 0.0
    ensures a * u / u == a
  {
  }

  lemma ScaleMagnitude(a: real, u: real)
    requires u > 0.0
    ensures Magnitude(a * u) == Magnitude(a) * u
  {
    if a < 0.0 {
      assert a * u < 0.0;
    } else {
      assert a * u >= 0.0;
    }
  }

  /** No multiple of `u` is closer than the one rounded to. */
  lemma RoundToClosest(x: real, u: real, n: int, y: real)
    requires u > 0.0 && y == n as real * u
    ensures Magnitude(RoundTo(x, u) - x) <= Magnitude(y - x)
    ensures Magnitude(RoundTo(x, u) - x) <= u / 2.0
  {
    hide RoundEven, Magnitude;
    var q := x / u;
    var k := RoundEven(q);
    RoundEvenClosest(q, n);
    var a, b := Magnitude(k as real - q), Magnitude(n as real - q);
    Distance(k, x, u, RoundTo(x, u));
    Distance(n, x, u, y);
    ScaleMono(a, b, u);
    ScaleMono(a, 0.5, u);
  }

  lemma Distance(n: int, x: real, u: real, y: real)
    requires u > 0.0 && y == n as real * u
    ensures Magnitude(y - x) == Magnitude(n as real - x / u) * u
  {
    Quotient(x, u);
    Spread(n as real, x / u, u);
    ScaleMagnitude(n as real - x / u, u);
  }

  lemma Spread(a: real, b: real, u: real)
    ensures (a - b) * u == a * u - b * u
  {
  }

  lemma ScaleMono(a: real, b: real, u: real)
    requires a <= b && u > 0.0
    ensures a * u <= b * u
  {
  }

  // ---- Values ---------------------------------------------------------------

  predicate IsScaled(x: real, m: int, e: int) {
    MIN_EXPONENT <= e <= MAX_EXPONENT && -TWO_53 < m < TWO_53 && x == m as real * Exp2(e)
  }

  /** `x` is a finite double: a significand below `2^53` times a power of two. */
  ghost predicate IsValue(x: real) { exists m, e :: IsScaled(x, m, e) }

  /** The largest exponent up to `e` whose significands reach down to `x`. */
  function ExponentBelow(x: real, e: int): (r: int)
    requires MIN_EXPONENT <= e
    ensures MIN_EXPONENT <= r <= e
    ensures r > MIN_EXPONENT ==> x >= Exp2(r + 52)
    ensures r < e ==> x < Exp2(r + 53)
    decreases e - MIN_EXPONENT
  {
    if e == MIN_EXPONENT || x >= Exp2(e + 52) then e else ExponentBelow(x, e - 1)
  }

  /** Exponent of the spacing of doubles around `x`. */
  function Exponent(x: real): (r: int)
    ensures MIN_EXPONENT <= r <= MAX_EXPONENT
    ensures r > MIN_EXPONENT ==> x >= Exp2(r + 52)
    ensures r < MAX_EXPONENT ==> x < Exp2(r + 53)
  {
    ExponentBelow(x, MAX_EXPONENT)
  }

  lemma ExponentIs(x: real, e: int)
    requires MIN_EXPONENT <= e <= MAX_EXPONENT
    requires e > MIN_EXPONENT ==> x >= Exp2(e + 52)
    requires e < MAX_EXPONENT ==> x < Exp2(e + 53)
    ensures Exponent(x) == e
  {
    hide Exp2, Exponent;
    var r := Exponent(x);
    if r < e {
      Exp2Mono(r + 53, e + 52);
    } else if r > e {
      Exp2Mono(e + 53, r + 52);
    }
  }

  /** The first power of two above the doubles: `2^1024`. */
  function Limit(): real { TWO_53 as real * Exp2(MAX_EXPONENT) }

  /** The nearest double, were there no largest one. */
  function Nearest(x: real): real {
    if x < 0.0 then -RoundTo(-x, Exp2(Exponent(-x))) else RoundTo(x, Exp2(Exponent(x)))
  }

  /** The double an operation with the exact result `x` delivers. */
  function ToF64(x: real): F64 {
    var r := Nearest(x);
    if Magnitude(r) < Limit() then Finite(r) else Infinite(x < 0.0)
  }

  lemma NearestOfNegative(x: real)
    ensures Nearest(-x) == -Nearest(x)
  {
    if x == 0.0 {
      var u := Exp2(Exponent(x));
      Unscale(0.0, u);
      assert RoundEven(0.0) == 0;
      assert RoundTo(x, u) == 0.0;
    }
  }

  /** A multiple of a larger power of two is one of a smaller. */
  lemma Rescale(n: int, k: int, e: int) returns (j: int)
    requires k >= e
    ensures n as real * Exp2(k) == j as real * Exp2(e)
  {
    hide Exp2, Pow2;
    Exp2Add(e, k - e);
    j := n * Pow2(k - e);
    Regroup(n as real, Pow2(k - e) as real, Exp2(e));
  }

  lemma Regroup(a: real, b: real, c: real)
    ensures a * (b * c) == a * b * c
  {
  }

  /** A value with a finer exponent than the spacing at `x` lies below all significands of that spacing. */
  lemma FinerIsBelow(n: int, k: int, e: int)
    requires k < e && n < TWO_53
    ensures n as real * Exp2(k) < TWO_52 as real * Exp2(e)
  {
    hide Exp2;
    Exp2Twice(k);
    Exp2Mono(k + 1, e);
    ScaleLess(n as real, TWO_53 as real, Exp2(k));
    GrowScale(TWO_52 as real, 2.0 * Exp2(k), Exp2(e));
  }

  lemma NearestIsClosestAbove(x: real, y: real)
    requires x >= 0.0 && IsValue(y)
    ensures Magnitude(Nearest(x) - x) <= Magnitude(y - x)
  {
    hide Exp2, RoundTo, Exponent, Magnitude;
    var e := Exponent(x);
    var n, k :| IsScaled(y, n, k);
    if k >= e {
      var j := Rescale(n, k, e);
      RoundToClosest(x, Exp2(e), j, y);
    } else {
      FinerIsFarther(x, y, n, k);
    }
  }

  /** A value with a finer exponent than the spacing at `x` is no closer than the first significand. */
  lemma FinerIsFarther(x: real, y: real, n: int, k: int)
    requires x >= 0.0 && k < Exponent(x) && IsScaled(y, n, k)
    ensures Magnitude(RoundTo(x, Exp2(Exponent(x))) - x) <= Magnitude(y - x)
  {
    hide Exp2, RoundTo, Exponent;
    var u := Exp2(Exponent(x));
    var z := TWO_52 as real * u;
    FinerIsBelow(n, k, Exponent(x));
    Binade(Exponent(x));
    assert y < z <= x;
    RoundToClosest(x, u, TWO_52, z);
    assert Magnitude(z - x) <= Magnitude(y - x);
  }

  /** No double is closer to `x` than the one it is rounded to. */
  lemma NearestIsClosest(x: real, y: real)
    requires IsValue(y)
    ensures Magnitude(Nearest(x) - x) <= Magnitude(y - x)
  {
    hide Nearest;
    if x >= 0.0 {
      NearestIsClosestAbove(x, y);
    } else {
      NegativeIsValue(y);
      NearestIsClosestAbove(-x, -y);
      NearestOfNegative(x);
    }
  }

  lemma NegativeIsValue(y: real)
    requires IsValue(y)
    ensures IsValue(-y)
  {
    hide Exp2;
    var m, e :| IsScaled(y, m, e);
    Spread(0.0, m as real, Exp2(e));
    assert IsScaled(-y, -m, e);
  }

  /** Rounding keeps doubles. */
  lemma ValueIsNearest(y: real)
    requires IsValue(y)
    ensures Nearest(y) == y
  {
    NearestIsClosest(y, y);
  }

  lemma ValueBound(y: real)
    requires IsValue(y)
    ensures Magnitude(y) < Limit()
  {
    hide Exp2;
    var m, e :| IsScaled(y, m, e);
    var u := Exp2(e);
    Exp2Mono(e, MAX_EXPONENT);
    ScaleMagnitude(m as real, u);
    ScaleBoth(Magnitude(m as real), TWO_53 as real, u, Exp2(MAX_EXPONENT));
  }

  lemma ScaleBoth(a: real, b: real, u: real, w: real)
    requires 0.0 <= a < b && 0.0 < u <= w
    ensures a * u < b * w
  {
    ScaleLess(a, b, u);
    GrowScale(b, u, w);
  }

  lemma GrowScale(a: real, u: real, w: real)
    requires a >= 0.0 && u <= w
    ensures a * u <= a * w
  {
  }

  lemma ScaleLess(a: real, b: real, u: real)
    requires a < b && u > 0.0
    ensures a * u < b * u
  {
  }

  /** The significand of a non-negative real after rounding. */
  lemma Significand(x: real) returns (m: int, e: int)
    requires x >= 0.0 && Nearest(x) < Limit()
    ensures e == Exponent(x) && m == RoundEven(x / Exp2(e)) && Nearest(x) == m as real * Exp2(e)
    ensures 0 <= m <= TWO_53 && (m == TWO_53 ==> e < MAX_EXPONENT) && (e > MIN_EXPONENT ==> m >= TWO_52)
  {
    hide Exp2, Exponent, RoundEven;
    e := Exponent(x);
    var u := Exp2(e);
    m := RoundEven(x / u);
    Binade(e);
    Divide(if e > MIN_EXPONENT then TWO_52 else 0, x, u);
    if e < MAX_EXPONENT {
      DivideBelow(TWO_53, x, u);
    } else if m >= TWO_53 {
      ScaleMono(TWO_53 as real, m as real, u);
    }
  }

  /** Rounding does not cross an integer bound. */
  lemma Divide(n: int, x: real, u: real)
    requires u > 0.0 && x >= n as real * u
    ensures RoundEven(x / u) >= n
  {
    var y := x / u;
    Quotient(x, u);
    if y < n as real {
      ScaleLess(y, n as real, u);
      assert false;
    }
    assert y >= n as real;
  }

  lemma DivideBelow(n: int, x: real, u: real)
    requires u > 0.0 && x < n as real * u
    ensures RoundEven(x / u) <= n
  {
    Quotient(x, u);
    if x / u >= n as real {
      ScaleMono(n as real, x / u, u);
    }
  }

  lemma Quotient(x: real, u: real)
    requires u > 0.0
    ensures (x / u) * u == x
  {
  }

  /** What rounding delivers is a double, unless it overflows. */
  lemma NearestIsValue(x: real)
    requires Magnitude(Nearest(x)) < Limit()
    ensures IsValue(Nearest(x))
  {
    hide Exp2, Nearest, RoundEven, Exponent;
    NearestOfNegative(x);
    var a := Magnitude(x);
    var m, e := Significand(a);
    if m == TWO_53 {
      Exp2Twice(e);
      assert IsScaled(Nearest(a), TWO_52, e + 1);
    } else {
      assert IsScaled(Nearest(a), m, e);
    }
    NegativeIsValue(Nearest(a));
  }

  /** The doubles are exactly the reals that rounding keeps. */
  lemma ValueExact(x: real)
    ensures IsValue(x) <==> ToF64(x) == Finite(x)
  {
    if IsValue(x) {
      ValueIsNearest(x);
      ValueBound(x);
    } else if ToF64(x) == Finite(x) {
      NearestIsValue(x);
    }
  }

  /** A non-negative double as significand and exponent. */
  lemma Canonical(v: real) returns (m: int, e: int)
    requires v >= 0.0 && IsValue(v)
    ensures e == Exponent(v) && v == m as real * Exp2(e)
    ensures 0 <= m < TWO_53 && (e > MIN_EXPONENT ==> m >= TWO_52)
  {
    hide Exp2, Nearest, RoundEven, Exponent, IsValue;
    ValueIsNearest(v);
    ValueBound(v);
    m, e := Significand(v);
    Binade(e);
  }

  /** Rounding moves a real by at most half the spacing at the result. */
  lemma NearestError(x: real)
    requires x >= 0.0 && Nearest(x) < Limit()
    ensures Nearest(x) >= 0.0 && Magnitude(Nearest(x) - x) <= Exp2(Exponent(Nearest(x))) / 2.0
  {
    hide Exp2, Exponent, RoundEven;
    var m, e := Significand(x);
    var v := Nearest(x);
    RoundToClosest(x, Exp2(e), 0, 0.0);
    ScaleMono(0.0, m as real, Exp2(e));
    SpacingGrows(m, e, v);
    Exp2Mono(e, Exponent(v));
  }

  lemma SpacingGrows(m: int, e: int, v: real)
    requires v == m as real * Exp2(e) && MIN_EXPONENT <= e <= MAX_EXPONENT && (e > MIN_EXPONENT ==> m >= TWO_52)
    ensures Exponent(v) >= e
  {
    hide Exp2, Exponent;
    var r := Exponent(v);
    if r < e {
      Binade(e);
      Exp2Mono(r + 53, e + 52);
      ScaleMono(TWO_52 as real, m as real, Exp2(e));
    }
  }

  /** Integers up to `2^53` are doubles. */
  lemma SmallIntegerIsValue(n: int)
    requires -TWO_53 <= n <= TWO_53
    ensures IsValue(n as real)
  {
    if n == TWO_53 {
      assert IsScaled(n as real, TWO_52, 1);
    } else if n == -TWO_53 {
      assert IsScaled(n as real, -TWO_52, 1);
    } else {
      assert IsScaled(n as real, n, 0);
    }
  }
}
