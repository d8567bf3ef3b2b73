/**
 Rounding a double to tenths as `fmt_num` of `benches/regression.rs` does it:
 multiply by ten, round to an integer, divide by ten, each in binary64.
 */
module Tenths {
  import opened Common
  import opened Float64

  /** `f64::round`: to the nearest integer, halves away from zero. */
  function Round(x: real): int {
    if x >= 0.0 then (x + 0.5).Floor else -((0.5 - x).Floor)
  }

  /** The double `v * 10.0`, were there no largest one. */
  function TenTimes(v: real): real { Nearest(v * 10.0) }

  /** `(v * 10.0).round() / 10.0` while the product does not overflow. */
  function Rescaled(v: real): real { Nearest(Round(TenTimes(v)) as real / 10.0) }

  /** `v` is the double nearest to `t` tenths, and `t` itself is a double. */
  ghost predicate IsTenthOf(v: real, t: int) { IsValue(t as real) && v == Nearest(t as real / 10.0) }

  ghost predicate IsTenth(v: real) { exists t: int :: IsTenthOf(v, t) }

  const TWO_63 := 9223372036854775808.0

  // ---- Signs ----------------------------------------------------------------

  lemma RescaledOfNegative(v: real)
    ensures Rescaled(-v) == -Rescaled(v)
  {
    hide Nearest;
    NearestOfNegative(v * 10.0);
    var p := TenTimes(v);
    assert TenTimes(-v) == -p;
    assert Round(-p) == -Round(p);
    NearestOfNegative(Round(p) as real / 10.0);
  }

  lemma IsTenthOfNegative(v: real)
    requires IsTenth(v)
    ensures IsTenth(-v)
  {
    hide Nearest, IsValue;
    var t :| IsTenthOf(v, t);
    NegativeIsValue(t as real);
    NearestOfNegative(t as real / 10.0);
    assert (-t) as real / 10.0 == -(t as real / 10.0);
    assert IsTenthOf(-v, -t);
  }

  // ---- Scaled rounding ------------------------------------------------------

  /** Rounding a real whose significand is `y`. */
  lemma NearestScaled(x: real, y: real, e: int)
    requires MIN_EXPONENT <= e <= MAX_EXPONENT && TWO_52 as real <= y < TWO_53 as real && x == y * Exp2(e)
    ensures Nearest(x) == RoundEven(y) as real * Exp2(e)
  {
    hide Exp2, Exponent, RoundEven;
    var u := Exp2(e);
    Binade(e);
    Between(TWO_52 as real, y, TWO_53 as real, u, Exp2(e + 52), x, Exp2(e + 53));
    ExponentIs(x, e);
    Significance(x, y, u);
  }

  lemma Between(a: real, y: real, b: real, u: real, lo: real, x: real, hi: real)
    requires a <= y < b && u > 0.0 && lo == a * u && x == y * u && hi == b * u
    ensures lo <= x < hi
  {
    ScaleMono(a, y, u);
    ScaleLess(y, b, u);
  }

  lemma Significance(x: real, y: real, u: real)
    requires u > 0.0 && x == y * u
    ensures x / u == y && (y >= 0.0 ==> x >= 0.0)
  {
    Unscale(y, u);
  }

  /** `v` is the normal double with significand `m` and exponent `e`. */
  predicate Normal(v: real, m: int, e: int) {
    MIN_EXPONENT <= e <= MAX_EXPONENT - 4 && TWO_52 <= m < TWO_53 && v == m as real * Exp2(e)
  }

  const TWO_56 := 8 * TWO_53

  /** Ten times a significand, rounded to the spacing of the doubles there, in units of the significand. */
  function Product(m: int): int { 8 * Eighth(m) }

  function Eighth(m: int): int {
    if 10 * m < TWO_56 then RoundEven(10.0 * m as real / 8.0) else 2 * RoundEven(10.0 * m as real / 16.0)
  }

  lemma Exp2Eight(e: int)
    ensures Exp2(e + 3) == 8.0 * Exp2(e) && Exp2(e + 4) == 16.0 * Exp2(e)
  {
    hide Exp2;
    Exp2Twice(e);
    Exp2Twice(e + 1);
    Exp2Twice(e + 2);
    Exp2Twice(e + 3);
  }

  /** The product with ten in units of `v`'s own spacing. */
  lemma TenTimesIs(v: real, m: int, e: int)
    requires Normal(v, m, e)
    ensures TenTimes(v) == Product(m) as real * Exp2(e)
  {
    hide Exp2, Nearest, RoundEven;
    Exp2Eight(e);
    var u := Exp2(e);
    if 10 * m < TWO_56 {
      TenTimesScaled(v, m, e, 8.0, e + 3);
    } else {
      TenTimesScaled(v, m, e, 16.0, e + 4);
    }
  }

  lemma TenTimesScaled(v: real, m: int, e: int, g: real, f: int)
    requires Normal(v, m, e) && g > 0.0 && Exp2(f) == g * Exp2(e) && f <= MAX_EXPONENT && e <= f
    requires TWO_52 as real <= 10.0 * m as real / g < TWO_53 as real
    ensures TenTimes(v) == g * RoundEven(10.0 * m as real / g) as real * Exp2(e)
  {
    hide Exp2, Nearest, RoundEven;
    var y, w := 10.0 * m as real / g, Exp2(f);
    Regroup10(m as real, g, Exp2(e), v, w, y);
    NearestScaled(v * 10.0, y, f);
    Swap(RoundEven(y) as real, g, Exp2(e));
  }

  lemma Regroup10(a: real, g: real, u: real, v: real, w: real, y: real)
    requires g > 0.0 && v == a * u && w == g * u && y == 10.0 * a / g
    ensures v * 10.0 == y * w
  {
    Quotient(10.0 * a, g);
    Regroup(y, g, u);
  }

  lemma Swap(a: real, b: real, c: real)
    ensures a * (b * c) == b * a * c
  {
  }

  lemma ProductFacts(m: int)
    requires TWO_52 <= m < TWO_53
    ensures Product(m) == 8 * Eighth(m) && (m == TWO_52 ==> Product(m) == 10 * m)
    ensures -4 <= 4 * Eighth(m) - 5 * m <= 4 && Product(m) - 10 * m == 2 * (4 * Eighth(m) - 5 * m)
    ensures 10 * m < TWO_56 ==> -4 <= Product(m) - 10 * m <= 4
  {
    hide RoundEven;
    if 10 * m < TWO_56 {
      RoundEighth(m, RoundEven(10.0 * m as real / 8.0));
      if m == TWO_52 {
        RoundEvenIs(10.0 * m as real / 8.0, 5629499534213120);
      }
    } else {
      RoundSixteenth(m, RoundEven(10.0 * m as real / 16.0));
    }
  }

  lemma RoundEighth(m: int, k: int)
    requires Magnitude(k as real - 10.0 * m as real / 8.0) <= 0.5
    ensures -4 <= 8 * k - 10 * m <= 4
  {
    assert -4.0 <= (8 * k - 10 * m) as real <= 4.0;
  }

  lemma RoundSixteenth(m: int, k: int)
    requires Magnitude(k as real - 10.0 * m as real / 16.0) <= 0.5
    ensures -8 <= 16 * k - 10 * m <= 8
  {
    assert -8.0 <= (16 * k - 10 * m) as real <= 8.0;
  }

  // ---- Values read off tenths survive ---------------------------------------

  lemma NearestNonNegative(x: real)
    requires x >= 0.0
    ensures Nearest(x) >= 0.0
  {
    hide Exp2, Exponent, RoundEven;
    var u := Exp2(Exponent(x));
    Divide(0, x, u);
    ScaleMono(0.0, RoundEven(x / u) as real, u);
  }

  /** The numerator is within five spacings of ten times the value. */
  lemma TenthError(v: real, t: int)
    requires v > 0.0 && IsValue(v) && IsTenthOf(v, t)
    ensures t > 0 && Magnitude(t as real - 10.0 * v) <= 5.0 * Exp2(Exponent(v))
  {
    hide Nearest, Exp2, Exponent, IsValue;
    var x := t as real / 10.0;
    if t <= 0 {
      NearestNonNegative(-x);
      NearestOfNegative(x);
      assert false;
    }
    ValueBound(v);
    NearestError(x);
  }

  /** No integer that is a double is closer to ten times the value than the product computed. */
  lemma TenTimesClosest(v: real, t: int)
    requires IsValue(t as real)
    ensures Magnitude(TenTimes(v) - 10.0 * v) <= Magnitude(t as real - 10.0 * v)
  {
    hide Nearest, IsValue;
    NearestIsClosest(v * 10.0, t as real);
  }

  lemma RoundIs(x: real, t: int)
    requires Magnitude(x - t as real) < 0.5
    ensures Round(x) == t
  {
  }

  lemma Exp2Small()
    ensures Exp2(-3) == 0.125 && Exp2(-4) == 0.0625 && Exp2(-5) == 0.03125
  {
    assert Exp2(-1) == 0.5;
    assert Exp2(-2) == 0.25;
  }

  /** Spacing at most 1/32: rounding finds the numerator again. */
  lemma FineTenth(v: real, t: int)
    requires v > 0.0 && IsValue(v) && IsTenthOf(v, t) && Exponent(v) <= -5
    ensures Round(TenTimes(v)) == t
  {
    hide Nearest, Exp2, Exponent, IsValue, TenTimes;
    TenthError(v, t);
    TenTimesClosest(v, t);
    Exp2Small();
    Exp2Mono(Exponent(v), -5);
    RoundIs(TenTimes(v), t);
  }

  /** Spacing 1/16: the only doubt is a tie, which goes to the even neighbour and so to the integer. */
  lemma MiddleTenth(v: real, t: int, m: int)
    requires v > 0.0 && IsValue(v) && IsTenthOf(v, t) && Exponent(v) == -4 && Normal(v, m, -4)
    ensures Round(TenTimes(v)) == t
  {
    hide Nearest, Exp2, Exponent, IsValue, TenTimes, RoundEven, Product;
    Exp2Small();
    TenthError(v, t);
    TenTimesClosest(v, t);
    TenTimesIs(v, m, -4);
    MiddleProduct(m, t);
    var p := TenTimes(v);
    assert p == Product(m) as real / 16.0;
    assert 10.0 * v == 10.0 * m as real / 16.0;
    RoundIs(p, t);
  }

  lemma MiddleProduct(m: int, t: int)
    requires TWO_52 <= m < TWO_53 && -5 <= 16 * t - 10 * m <= 5
    ensures Product(m) == 16 * t
  {
    hide RoundEven;
    var d := 16 * t - 10 * m;
    assert d == 2 * (8 * t - 5 * m) && -4 <= d <= 4;
    HalfStep(m, t, d);
  }

  lemma HalfStep(m: int, t: int, d: int)
    requires d == 16 * t - 10 * m && -4 <= d <= 4
    ensures RoundEven(10.0 * m as real / 8.0) == 2 * t && RoundEven(10.0 * m as real / 16.0) == t
  {
    hide RoundEven;
    var x, y := 10.0 * m as real / 8.0, 10.0 * m as real / 16.0;
    var d' := d as real;
    assert (2 * t) as real - x == d' / 8.0 && t as real - y == d' / 16.0;
    RoundEvenIs(x, 2 * t);
    RoundEvenIs(y, t);
  }

  /** Spacing at least 1/8: the product is an integer, and dividing it comes back if it is within four units. */
  lemma CoarseIsInteger(v: real, m: int, e: int)
    requires Normal(v, m, e) && e >= -3
    ensures Round(TenTimes(v)) as real == TenTimes(v) == Product(m) as real * Exp2(e)
  {
    hide Exp2, TenTimes, Product, Pow2;
    TenTimesIs(v, m, e);
    ProductFacts(m);
    var k := Eighth(m);
    Exp2Eight(e);
    Exp2IsPow2(e + 3);
    Swap(k as real, 8.0, Exp2(e));
    assert Product(m) as real == 8.0 * k as real;
    IntegerProduct(k, Pow2(e + 3), TenTimes(v));
  }

  lemma IntegerProduct(a: int, b: int, p: real)
    requires p == a as real * b as real
    ensures Round(p) as real == p
  {
    assert p == (a * b) as real;
    RoundIs(p, a * b);
  }

  lemma Exp2IsPow2(n: nat)
    ensures Exp2(n) == Pow2(n) as real
  {
    Exp2Add(0, n);
  }

  lemma CoarseIs(v: real, m: int, e: int, n: int)
    requires Normal(v, m, e) && e >= -3 && RoundEven(Product(m) as real / 10.0) == n
    ensures Rescaled(v) == n as real * Exp2(e)
  {
    hide Exp2, TenTimes, Product, Nearest, RoundEven;
    CoarseIsInteger(v, m, e);
    ProductFacts(m);
    Tenfold(Product(m) as real, Exp2(e), TenTimes(v));
    NearestScaled(TenTimes(v) / 10.0, Product(m) as real / 10.0, e);
  }

  lemma CoarseExact(v: real, m: int, e: int)
    requires Normal(v, m, e) && e >= -3
    ensures Rescaled(v) == v <==> -4 <= Product(m) - 10 * m <= 4
  {
    hide Exp2, Rescaled, Product, RoundEven;
    ProductFacts(m);
    var d, y := Product(m) - 10 * m, Product(m) as real / 10.0;
    assert y == m as real + d as real / 10.0;
    if -4 <= d <= 4 {
      RoundEvenIs(y, m);
      CoarseIs(v, m, e, m);
    } else {
      var n := if d < 0 then m - 1 else m + 1;
      RoundEvenIs(y, n);
      CoarseIs(v, m, e, n);
      Injective(n, m, Exp2(e));
    }
  }

  lemma Tenfold(a: real, u: real, p: real)
    requires p == a * u
    ensures p / 10.0 == a / 10.0 * u
  {
  }

  lemma Injective(n: int, m: int, u: real)
    requires n != m && u > 0.0
    ensures n as real * u != m as real * u
  {
    if n < m {
      ScaleLess(n as real, m as real, u);
    } else {
      ScaleLess(m as real, n as real, u);
    }
  }

  lemma CoarseTenth(v: real, t: int, m: int, e: int)
    requires v > 0.0 && IsValue(v) && IsTenthOf(v, t) && Normal(v, m, e) && e == Exponent(v)
    ensures -4 <= Product(m) - 10 * m <= 4
  {
    hide Exp2, TenTimes, Product, Nearest, IsValue, Exponent;
    TenthError(v, t);
    TenTimesClosest(v, t);
    TenTimesIs(v, m, e);
    Cancel(Product(m), m, Exp2(e), TenTimes(v), v);
    ProductFacts(m);
  }

  lemma Cancel(a: int, m: int, u: real, p: real, v: real)
    requires u > 0.0 && p == a as real * u && v == m as real * u && Magnitude(p - 10.0 * v) <= 5.0 * u
    ensures -5 <= a - 10 * m <= 5
  {
    var d := a - 10 * m;
    assert p - 10.0 * v == d as real * u;
    if d >= 6 {
      ScaleMono(6.0, d as real, u);
    } else if d <= -6 {
      ScaleMono(d as real, -6.0, u);
    }
  }

  lemma Exp2At63()
    ensures Exp2(63) == TWO_63
  {
    hide Exp2;
    Binade(0);
    Exp2Add(53, 10);
    assert Pow2(10) == 1024;
    assert Exp2(0) == 1.0 by {
      Exp2IsPow2(0);
    }
  }

  /** A value near a tenth is neither subnormal nor, up to `2^63`, close to overflow. */
  lemma TenthIsNormal(v: real, t: int) returns (m: int, e: int)
    requires 0.0 < v <= TWO_63 && IsValue(v) && IsTenthOf(v, t)
    ensures e == Exponent(v) && Normal(v, m, e)
  {
    hide Exp2, Exponent, IsValue, IsTenthOf;
    m, e := Canonical(v);
    TenthError(v, t);
    Exp2Small();
    if e <= -58 {
      Exp2Mono(e + 53, -5);
      Exp2Mono(e, -5);
      assert false;
    }
    ExponentBelow64(v);
  }

  lemma ExponentBelow64(v: real)
    requires v <= TWO_63
    ensures Exponent(v) <= 11
  {
    hide Exp2, Exponent;
    if Exponent(v) > 11 {
      Exp2Mono(64, Exponent(v) + 52);
      Exp2Twice(63);
      Exp2At63();
    }
  }

  lemma TenthSurvives(v: real, t: int)
    requires 0.0 < v <= TWO_63 && IsValue(v) && IsTenthOf(v, t)
    ensures Rescaled(v) == v
  {
    hide Exp2, Exponent, IsValue, TenTimes, Nearest, Product;
    var m, e := TenthIsNormal(v, t);
    if e <= -5 {
      FineTenth(v, t);
    } else if e == -4 {
      MiddleTenth(v, t, m);
    } else {
      CoarseTenth(v, t, m, e);
      CoarseExact(v, m, e);
    }
  }

  // ---- Survivors are tenths -------------------------------------------------

  /** From `2^52` on every double is an integer. */
  lemma LargeIsInteger(p: real)
    requires IsValue(p) && p >= TWO_52 as real
    ensures Round(p) as real == p
  {
    hide Exp2, Exponent, Round, IsValue;
    var m, e := Canonical(p);
    if e < 0 {
      Exp2Mono(e + 53, 52);
      Exp2IsPow2(52);
      Pow2At52();
      assert false;
    }
    Exp2IsPow2(e);
    IntegerProduct(m, Pow2(e), p);
  }

  /** Rounding a double to an integer gives a double. */
  lemma RoundIsValue(p: real)
    requires IsValue(p) && p >= 0.0
    ensures IsValue(Round(p) as real)
  {
    if p < TWO_52 as real {
      SmallIntegerIsValue(Round(p));
    } else {
      LargeIsInteger(p);
    }
  }

  lemma SurvivorIsTenth(v: real)
    requires 0.0 <= v && TenTimes(v) < Limit() && Rescaled(v) == v
    ensures IsTenth(v)
  {
    hide Nearest, IsValue;
    var p := TenTimes(v);
    NearestNonNegative(v * 10.0);
    NearestIsValue(v * 10.0);
    RoundIsValue(p);
    assert IsTenthOf(v, Round(p));
  }

  /** Up to `2^63` the product with ten does not overflow. */
  lemma TenTimesFinite(v: real)
    requires Magnitude(v) <= TWO_63
    ensures Magnitude(TenTimes(v)) < Limit()
  {
    hide Nearest, Limit, IsValue;
    SmallIntegerIsValue(0);
    TenTimesClosest(v, 0);
    LimitIsLarge();
  }

  lemma LimitIsLarge()
    ensures Limit() >= 32.0 * TWO_63
  {
    hide Exp2;
    Exp2At63();
    Exp2Eight(63);
    Exp2Twice(67);
    Exp2Mono(68, MAX_EXPONENT + 53);
    Binade(MAX_EXPONENT);
  }

  /**
   Rounding a double to tenths keeps it exactly if it is the double nearest to
   some number of tenths which is itself a double.
   */
  lemma RescaledExact(v: real)
    requires IsValue(v) && Magnitude(v) <= TWO_63
    ensures Rescaled(v) == v <==> IsTenth(v)
  {
    hide Rescaled, IsValue, TenTimes, IsTenthOf;
    RescaledOfNegative(v);
    if v < 0.0 {
      NegativeIsValue(v);
      RescaledAbove(-v);
      if IsTenth(v) {
        IsTenthOfNegative(v);
      } else if IsTenth(-v) {
        IsTenthOfNegative(-v);
      }
    } else {
      RescaledAbove(v);
    }
  }

  lemma RescaledAbove(v: real)
    requires IsValue(v) && 0.0 <= v <= TWO_63
    ensures Rescaled(v) == v <==> IsTenth(v)
  {
    hide Rescaled, IsValue, TenTimes, IsTenthOf;
    TenTimesFinite(v);
    if Rescaled(v) == v {
      SurvivorIsTenth(v);
    } else if IsTenth(v) {
      var t :| IsTenthOf(v, t);
      if v == 0.0 {
        RescaledOfNegative(v);
      } else {
        TenthSurvives(v, t);
      }
    }
  }

  /** Every number of tenths up to `2^53` has a double that rounding to tenths keeps. */
  lemma TenthsSurvive(t: int)
    requires -TWO_53 <= t <= TWO_53
    ensures var v := Nearest(t as real / 10.0); IsValue(v) && Magnitude(v) <= TWO_63 && Rescaled(v) == v
  {
    hide Nearest, IsValue, Rescaled, Limit;
    var x := t as real / 10.0;
    SmallIntegerIsValue(0);
    NearestIsClosest(x, 0.0);
    var v := Nearest(x);
    LimitIsLarge();
    NearestIsValue(x);
    SmallIntegerIsValue(t);
    assert IsTenthOf(v, t);
    RescaledExact(v);
  }

  /**
   From `2^49` on, where the spacing is an eighth or more, exactly three in
   eight of the larger significands are lost.
   */
  lemma LargeExact(v: real, m: int, e: int)
    requires Normal(v, m, e) && e >= -3
    ensures Rescaled(v) == v <==> !(10 * m >= TWO_56 && m % 8 in {1, 4, 7})
  {
    hide Exp2, Rescaled, RoundEven;
    CoarseExact(v, m, e);
    ProductFacts(m);
    if 10 * m >= TWO_56 {
      LargeProduct(m);
    }
  }

  lemma LargeProduct(m: int)
    requires TWO_52 <= m < TWO_53 && 10 * m >= TWO_56
    ensures -4 <= Product(m) - 10 * m <= 4 <==> m % 8 !in {1, 4, 7}
  {
    hide RoundEven;
    ProductFacts(m);
    var k := RoundEven(10.0 * m as real / 16.0);
    var d := 16 * k - 10 * m;
    assert d == Product(m) - 10 * m;
    var q, r := m / 8, m % 8;
    assert d == 16 * (k - 5 * q) - 10 * r;
  }

  /** A quarter, and an integer just above `2^52`, change; ten to the 19th does not. */
  lemma RescaledValues()
    ensures Rescaled(0.25) != 0.25
    ensures IsValue(7846328423742807.0) && Rescaled(7846328423742807.0) == 7846328423742806.0
    ensures IsValue(10000000000000000000.0) && Rescaled(10000000000000000000.0) == 10000000000000000000.0
  {
    hide Rescaled, RoundEven;
    QuarterChanges();
    assert Exp2(0) == 1.0;
    var m := 7846328423742807;
    assert IsScaled(7846328423742807.0, m, 0);
    RoundEvenIs(10.0 * m as real / 16.0, 4903955264839254);
    RoundEvenIs(7846328423742806.4, 7846328423742806);
    CoarseIs(7846328423742807.0, m, 0, 7846328423742806);
    var n := 4882812500000000;
    Exp2At11();
    assert IsScaled(10000000000000000000.0, n, 11);
    RoundEvenIs(10.0 * n as real / 8.0, 6103515625000000);
    RoundEvenIs(4882812500000000.0, n);
    CoarseIs(10000000000000000000.0, n, 11, n);
  }

  lemma Exp2At11()
    ensures Exp2(11) == 2048.0
  {
    assert Exp2(3) == 8.0;
    assert Exp2(6) == 64.0;
    assert Exp2(9) == 512.0;
  }

  lemma QuarterChanges()
    ensures Rescaled(0.25) != 0.25
  {
    hide Nearest;
    Exp2Small();
    assert IsScaled(2.5, 20, -3) && IsScaled(0.3125, 5, -4);
    ValueIsNearest(2.5);
    assert TenTimes(0.25) == 2.5;
    assert Round(2.5) == 3;
    NearestIsClosest(0.3, 0.3125);
  }
}
