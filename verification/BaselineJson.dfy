/**
 The benchmark baseline file (`benches/regression.rs`): a flat JSON object of
 names and numbers, printed and parsed by hand. It is a subset of sections 4, 6
 and 7 of RFC 8259.

 Text is its bytes. Numbers are binary64 doubles. The digits the standard
 library shows for a double that is no integer are a parameter, `display`.
 */
module BaselineJson {
  import opened Common
  import opened Float64
  import opened Tenths
  import opened Text
  import opened Utf8

  const QUOTE: Byte := 0x22
  const BACKSLASH: Byte := 0x5c
  const NEWLINE: Byte := 0x0a
  const RETURN: Byte := 0x0d
  const TAB: Byte := 0x09
  const SPACE: Byte := 0x20
  const COLON: Byte := 0x3a
  const COMMA: Byte := 0x2c
  const OPEN: Byte := 0x7b
  const CLOSE: Byte := 0x7d
  const MINUS: Byte := 0x2d
  const PLUS: Byte := 0x2b
  const DOT: Byte := 0x2e
  const ZERO: Byte := 0x30
  const LOWER_E: Byte := 0x65
  const UPPER_E: Byte := 0x45
  const LOWER_N: Byte := 0x6e
  const LOWER_R: Byte := 0x72
  const LOWER_T: Byte := 0x74

  datatype JsonError =
    | ExpectedObject | Unterminated | ExpectedKey | UnterminatedKey | DanglingEscape
    | ExpectedColon | ExpectedNumber | InvalidNumber

  type Object = map<seq<Byte>, F64>

  // ---- Numbers --------------------------------------------------------------

  predicate IsDigit(b: Byte) { 0x30 <= b <= 0x39 }

  /** Decimal digits of `n`, without leading zeros. */
  function Digits(n: nat): (r: seq<Byte>)
    ensures r != [] && AllDigits(r)
  {
    if n < 10 then [ZERO + n] else Digits(n / 10) + [ZERO + n % 10]
  }

  predicate AllDigits(s: seq<Byte>) { forall i :: 0 <= i < |s| ==> IsDigit(s[i]) }

  /** The number a run of digits stands for. */
  function DigitsValue(s: seq<Byte>): int {
    if s == [] then 0 else 10 * DigitsValue(s[..|s| - 1]) + (s[|s| - 1] - ZERO)
  }

  lemma {:induction false} DigitsRoundTrip(n: nat)
    ensures DigitsValue(Digits(n)) == n
  {
    if n < 10 {
      assert Digits(n)[..0] == [];
    } else {
      DigitsRoundTrip(n / 10);
      assert Digits(n)[..|Digits(n)| - 1] == Digits(n / 10);
    }
  }

  /** The saturating cast `as i64`. */
  function Clamp(x: int): int {
    if x < I64_MIN then I64_MIN else if x > I64_MAX then I64_MAX else x
  }

  function Abs(x: int): nat { if x < 0 then -x else x }

  function Sign(negative: bool): seq<Byte> { if negative then [MINUS] else [] }

  /** `(v * 10.0).round() / 10.0`. */
  function Rounded(v: F64): F64 {
    if !v.Finite? then v
    else if Magnitude(TenTimes(v.x)) < Limit() then Finite(Rescaled(v.x))
    else Infinite(v.x < 0.0)
  }

  predicate IsInteger(x: real) { x.Floor as real == x }

  function IntegerText(n: int): seq<Byte> { Sign(n < 0) + Digits(Abs(n)) }

  /** `t` tenths in decimal. */
  function TenthText(t: int): seq<Byte> { Sign(t < 0) + Digits(Abs(t) / 10) + [DOT, ZERO + Abs(t) % 10] }

  const INF: seq<Byte> := [0x69, LOWER_N, 0x66]
  const NOT_A_NUMBER: seq<Byte> := [0x4e, 0x61, 0x4e]

  /** `fmt_num`: an integer as `i64`, any other double as the standard library displays it. */
  function FmtNum(v: F64, display: real -> int): seq<Byte> {
    match Rounded(v)
    case NaN => NOT_A_NUMBER
    case Infinite(negative) => Sign(negative) + INF
    case Finite(q) => if IsInteger(q) then IntegerText(Clamp(q.Floor)) else TenthText(display(q))
  }

  /** The digits shown for a double nearest to `t` tenths read back as that double. */
  predicate ShowsTenth(display: real -> int, t: int) {
    var q := Nearest(t as real / 10.0);
    !IsInteger(q) ==> Nearest(display(q) as real / 10.0) == q
  }

  /**
   What `Display` promises of the doubles `fmt_num` hands to it: the shortest
   digits that read back as the double. Some tenths do, so one fraction digit is
   enough; which of them are shown does not matter here.
   */
  ghost predicate Faithful(display: real -> int) { forall t: int :: ShowsTenth(display, t) }

  predicate ReadsAs(t: int, q: real) { Nearest(t as real / 10.0) == q }

  ghost function SomeTenth(q: real): int {
    if t: int :| ReadsAs(t, q) then t else 0
  }

  /** The promise can be kept. */
  lemma FaithfulExists()
    ensures exists display: real -> int :: Faithful(display)
  {
    hide Nearest;
    var display := q => SomeTenth(q);
    forall t: int
      ensures ShowsTenth(display, t)
    {
      assert ReadsAs(t, Nearest(t as real / 10.0));
    }
    assert Faithful(display);
  }

  // ---- Parsing a number -----------------------------------------------------

  /** Length of the leading run of digits. */
  function DigitRun(s: seq<Byte>): (n: nat)
    ensures n <= |s|
  {
    if s == [] || !IsDigit(s[0]) then 0 else 1 + DigitRun(s[1..])
  }

  function Pow10(n: nat): (r: real)
    ensures r > 0.0
  {
    if n == 0 then 1.0 else 10.0 * Pow10(n - 1)
  }

  function Scale(x: real, e: int): real {
    if e >= 0 then x * Pow10(e) else x / Pow10(-e)
  }

  /** The text after an optional sign. */
  function Unsigned(s: seq<Byte>): seq<Byte> {
    if s != [] && (s[0] == MINUS || s[0] == PLUS) then s[1..] else s
  }

  function Negative(s: seq<Byte>): bool { s != [] && s[0] == MINUS }

  /** Value of an exponent suffix, or `None` if there is text but no exponent. */
  function Exponent(s: seq<Byte>): Option<int> {
    if s == [] then Some(0)
    else if s[0] != LOWER_E && s[0] != UPPER_E then None
    else
      var u := Unsigned(s[1..]);
      var n := DigitRun(u);
      if n == 0 || n < |u| then None
      else
        var e := DigitsValue(u[..n]);
        Some(if Negative(s[1..]) then -e else e)
  }

  /** The digits before and after the dot, and what follows them. */
  datatype Mantissa = Mantissa(whole: seq<Byte>, fraction: seq<Byte>, rest: seq<Byte>)

  function SplitMantissa(u: seq<Byte>): Mantissa {
    var n := DigitRun(u);
    if n < |u| && u[n] == DOT then
      var f := u[n + 1..];
      var m := DigitRun(f);
      Mantissa(u[..n], f[..m], f[m..])
    else Mantissa(u[..n], [], u[n..])
  }

  function MantissaValue(m: Mantissa): Option<real> {
    if m.whole == [] && m.fraction == [] then None
    else
      match Exponent(m.rest)
      case None => None
      case Some(e) => Some(Scale(DigitsValue(m.whole + m.fraction) as real, e - |m.fraction|))
  }

  /** The real a number text stands for: an optional sign, a mantissa, an optional exponent. */
  function ParseNumber(s: seq<Byte>): Option<real> {
    match MantissaValue(SplitMantissa(Unsigned(s)))
    case None => None
    case Some(x) => Some(if Negative(s) then -x else x)
  }

  lemma {:induction false} DigitRunOf(d: seq<Byte>, t: seq<Byte>)
    requires AllDigits(d) && (t != [] ==> !IsDigit(t[0]))
    ensures DigitRun(d + t) == |d|
  {
    if d == [] {
      assert d + t == t;
    } else {
      assert (d + t)[1..] == d[1..] + t;
      DigitRunOf(d[1..], t);
    }
  }

  lemma SplitInteger(d: seq<Byte>)
    requires AllDigits(d)
    ensures SplitMantissa(d) == Mantissa(d, [], [])
  {
    DigitRunOf(d, []);
    assert d + [] == d && d[..|d|] == d && d[|d|..] == [];
  }

  lemma SplitDecimal(d: seq<Byte>, f: seq<Byte>)
    requires AllDigits(d) && AllDigits(f)
    ensures SplitMantissa(d + [DOT] + f) == Mantissa(d, f, [])
  {
    var u := d + [DOT] + f;
    DigitRunOf(d, [DOT] + f);
    assert d + ([DOT] + f) == u;
    assert u[..|d|] == d && u[|d| + 1..] == f;
    DigitRunOf(f, []);
    assert f + [] == f && f[..|f|] == f && f[|f|..] == [];
  }

  lemma IntegerValue(a: nat)
    ensures MantissaValue(Mantissa(Digits(a), [], [])) == Some(a as real)
  {
    DigitsRoundTrip(a);
    assert Digits(a) + [] == Digits(a);
    assert Pow10(0) == 1.0;
  }

  lemma TenthValue(a: nat)
    ensures MantissaValue(Mantissa(Digits(a / 10), [ZERO + a % 10], [])) == Some(a as real / 10.0)
  {
    var d, f: seq<Byte> := Digits(a / 10), [ZERO + a % 10];
    assert (d + f)[..|d|] == d;
    DigitsRoundTrip(a / 10);
    assert DigitsValue(d + f) == 10 * (a / 10) + a % 10 == a;
    ScaleTenth(a as real);
    assert MantissaValue(Mantissa(d, f, [])) == Some(Scale(DigitsValue(d + f) as real, 0 - |f|));
  }

  lemma ScaleTenth(x: real)
    ensures Scale(x, -1) == x / 10.0
  {
    assert Pow10(1) == 10.0 * Pow10(0);
  }

  /** A sign in front of an unsigned number negates it. */
  lemma SignReadsBack(negative: bool, u: seq<Byte>, x: real)
    requires u != [] && IsDigit(u[0]) && MantissaValue(SplitMantissa(u)) == Some(x)
    ensures ParseNumber(Sign(negative) + u) == Some(if negative then -x else x)
  {
    hide MantissaValue, SplitMantissa;
    assert Unsigned(Sign(negative) + u) == u;
  }

  /** An integer reads back as itself. */
  lemma IntegerReadsBack(n: int)
    ensures ParseNumber(IntegerText(n)) == Some(n as real)
  {
    hide MantissaValue, SplitMantissa, Digits, ParseNumber;
    SplitInteger(Digits(Abs(n)));
    IntegerValue(Abs(n));
    SignReadsBack(n < 0, Digits(Abs(n)), Abs(n) as real);
  }

  /** A number with one fraction digit reads back as its tenths. */
  lemma TenthReadsBack(t: int)
    ensures ParseNumber(TenthText(t)) == Some((t as real) / 10.0)
  {
    hide MantissaValue, SplitMantissa, Digits, ParseNumber;
    var d, f: seq<Byte> := Digits(Abs(t) / 10), [ZERO + Abs(t) % 10];
    assert TenthText(t) == Sign(t < 0) + (d + [DOT] + f);
    SplitDecimal(d, f);
    TenthValue(Abs(t));
    SignReadsBack(t < 0, d + [DOT] + f, Abs(t) as real / 10.0);
  }

  /** `str::parse::<f64>`: the double nearest to the number, infinite for one too large. */
  function ReadNumber(s: seq<Byte>): Option<F64> {
    match ParseNumber(s)
    case None => None
    case Some(x) => Some(ToF64(x))
  }

  // ---- What printing keeps of a number --------------------------------------

  /** What reading back the printed number gives. */
  function Shown(v: F64): Result<F64, JsonError> {
    match Rounded(v)
    case NaN => Err(ExpectedNumber)
    case Infinite(negative) => Err(if negative then InvalidNumber else ExpectedNumber)
    case Finite(q) => Ok(if IsInteger(q) then ToF64(Clamp(q.Floor) as real) else Finite(q))
  }

  /** The product with ten is finite, so that digits are printed. */
  predicate Readable(v: F64) { v.Finite? && Magnitude(TenTimes(v.x)) < Limit() }

  /** At most `2^63` in magnitude, and nearest to a number of tenths that is a double. */
  ghost predicate Survives(v: F64) { v.Finite? && Magnitude(v.x) <= TWO_63 && IsTenth(v.x) }

  /** The model's finite numbers are doubles. */
  ghost predicate WellFormed(v: F64) { v.Finite? ==> IsValue(v.x) }

  lemma RescaledFinite(x: real)
    requires Magnitude(TenTimes(x)) < Limit()
    ensures Magnitude(Rescaled(x)) < Limit() && IsValue(Rescaled(x))
  {
    hide Nearest, TenTimes, IsValue, Limit;
    var y := Round(TenTimes(x)) as real / 10.0;
    LimitIsLarge();
    SmallIntegerIsValue(0);
    NearestIsClosest(y, 0.0);
    NearestIsValue(y);
  }

  /** Digits printed for a readable number read back as the number shown. */
  lemma NumberReadsBack(v: F64, display: real -> int)
    requires Faithful(display) && Readable(v)
    ensures Shown(v).Ok? && ReadNumber(FmtNum(v, display)) == Some(Shown(v).value)
  {
    hide ParseNumber, IntegerText, TenthText, TenTimes, Nearest, IsValue, Limit, Clamp;
    var q := Rescaled(v.x);
    RescaledFinite(v.x);
    if IsInteger(q) {
      IntegerReadsBack(Clamp(q.Floor));
    } else {
      assert ShowsTenth(display, Round(TenTimes(v.x)));
      TenthReadsBack(display(q));
    }
  }

  /** The largest `i64` reads back as `2^63`, the smallest as itself. */
  lemma ClampReadsBack()
    ensures ToF64(I64_MAX as real) == Finite(TWO_63) && ToF64(I64_MIN as real) == Finite(-TWO_63)
    ensures IsValue(TWO_63) && IsTenth(TWO_63) && IsTenth(-TWO_63)
  {
    hide RoundEven, Exp2, Nearest, Rescaled, IsTenthOf, Limit;
    Exp2At11();
    assert IsScaled(TWO_63, TWO_52, 11);
    LimitIsLarge();
    ValueExact(TWO_63);
    NearestOfNegative(TWO_63);
    LargeExact(TWO_63, TWO_52, 11);
    RescaledExact(TWO_63);
    IsTenthOfNegative(TWO_63);
    TopRoundsUp();
  }

  lemma TopRoundsUp()
    ensures Nearest(I64_MAX as real) == TWO_63
  {
    hide RoundEven, Exp2, Nearest;
    Exp2At10();
    var y := I64_MAX as real / 1024.0;
    RoundEvenIs(y, TWO_53);
    NearestScaled(I64_MAX as real, y, 10);
  }

  lemma Exp2At10()
    ensures Exp2(10) == 1024.0
  {
    hide Exp2;
    Exp2At11();
    Exp2Twice(10);
  }

  /** The number shown is the rounded one, kept within `2^63` if it is an integer. */
  function Saturated(q: real): real {
    if !IsInteger(q) then q else if q > TWO_63 then TWO_63 else if q < -TWO_63 then -TWO_63 else q
  }

  lemma ShownIs(v: F64)
    requires Readable(v)
    ensures Shown(v) == Ok(Finite(Saturated(Rescaled(v.x))))
  {
    hide Nearest, TenTimes, Rescaled, IsTenth, IsValue, Limit, ToF64;
    var q := Rescaled(v.x);
    RescaledFinite(v.x);
    ValueExact(q);
    ClampReadsBack();
    if IsInteger(q) && q.Floor > I64_MAX {
      assert q >= TWO_63;
    }
  }

  /** Printing keeps exactly the survivors. */
  lemma ShownExact(v: F64)
    requires WellFormed(v)
    ensures Shown(v).Ok? <==> Readable(v)
    ensures Shown(v) == Ok(v) <==> Survives(v)
  {
    hide Nearest, TenTimes, Rescaled, IsTenth, IsValue, Limit;
    if Readable(v) {
      ShownIs(v);
      SaturatedExact(v.x);
    } else if v.Finite? && Magnitude(v.x) <= TWO_63 {
      TenTimesFinite(v.x);
    }
  }

  lemma SaturatedExact(x: real)
    requires IsValue(x)
    ensures Saturated(Rescaled(x)) == x <==> Magnitude(x) <= TWO_63 && IsTenth(x)
  {
    hide Rescaled, IsTenth, IsValue, IsInteger, ToF64;
    if Magnitude(x) <= TWO_63 {
      RescaledExact(x);
      ClampReadsBack();
    } else {
      NegativeIsValue(x);
      LargeIsInteger(Magnitude(x));
      WholeIsInteger(x, if x < 0.0 then -Round(-x) else Round(x));
    }
  }

  lemma WholeIsInteger(x: real, n: int)
    requires x == n as real
    ensures IsInteger(x)
  {
  }

  // ---- Parsing an object ----------------------------------------------------

  /** `char::is_whitespace` on a byte taken as a character. */
  predicate IsSpace(b: Byte) { 0x09 <= b <= 0x0d || b == 0x20 || b == 0x85 || b == 0xa0 }

  predicate IsNumberByte(b: Byte) {
    IsDigit(b) || b == MINUS || b == PLUS || b == DOT || b == LOWER_E || b == UPPER_E
  }

  function SkipSpaces(s: seq<Byte>): (r: seq<Byte>)
    ensures |r| <= |s| && (r != [] ==> !IsSpace(r[0]))
  {
    if s == [] || !IsSpace(s[0]) then s else SkipSpaces(s[1..])
  }

  /** Length of the leading run of number bytes. */
  function NumberRun(s: seq<Byte>): (n: nat)
    ensures n <= |s|
  {
    if s == [] || !IsNumberByte(s[0]) then 0 else 1 + NumberRun(s[1..])
  }

  /** What an escaped byte stands for. */
  function Unescape(b: Byte): Byte {
    if b == LOWER_N then NEWLINE
    else if b == LOWER_R then RETURN
    else if b == LOWER_T then TAB
    else b
  }

  /** The UTF-8 bytes of the character with number `b`, as `push(b as char)` appends them. */
  function WidenByte(b: Byte): (r: seq<Byte>)
    ensures r != []
  {
    if b < 0x80 then [b] else [0xc0 + b / 64, 0x80 + b % 64]
  }

  /** The rest of a key after its opening quote, and the text behind the closing quote. */
  function ParseKey(s: seq<Byte>): (r: Result<(seq<Byte>, seq<Byte>), JsonError>)
    ensures r.Ok? ==> |r.value.1| < |s|
    decreases |s|
  {
    if s == [] then Err(UnterminatedKey)
    else if s[0] == QUOTE then Ok(([], s[1..]))
    else if s[0] == BACKSLASH then
      if |s| < 2 then Err(DanglingEscape)
      else
        match ParseKey(s[2..])
        case Err(e) => Err(e)
        case Ok((key, rest)) => Ok((WidenByte(Unescape(s[1])) + key, rest))
    else
      match ParseKey(s[1..])
      case Err(e) => Err(e)
      case Ok((key, rest)) => Ok((WidenByte(s[0]) + key, rest))
  }

  /** Reads a number and steps over the comma behind it, if there is one. */
  function ParseValue(s: seq<Byte>): (r: Result<(F64, seq<Byte>), JsonError>)
    ensures r.Ok? ==> |r.value.1| <= |s|
  {
    var n := NumberRun(s);
    if n == 0 then Err(ExpectedNumber)
    else
      match ReadNumber(s[..n])
      case None => Err(InvalidNumber)
      case Some(x) =>
        var after := SkipSpaces(s[n..]);
        Ok((x, if after != [] && after[0] == COMMA then after[1..] else after))
  }

  /** One `"key": number` pair. */
  function ParsePair(s: seq<Byte>): (r: Result<(seq<Byte>, F64, seq<Byte>), JsonError>)
    requires s != []
    ensures r.Ok? ==> |r.value.2| < |s|
  {
    match ParseKey(s[1..])
    case Err(e) => Err(e)
    case Ok((key, afterKey)) =>
      var colon := SkipSpaces(afterKey);
      if colon == [] || colon[0] != COLON then Err(ExpectedColon)
      else
        match ParseValue(SkipSpaces(colon[1..]))
        case Err(e) => Err(e)
        case Ok((x, rest)) => Ok((key, x, rest))
  }

  /** The pairs up to the closing brace, added to `m`; a repeated key keeps its last value. */
  function ParsePairs(s: seq<Byte>, m: Object): (r: Result<Object, JsonError>)
    decreases |s|
  {
    var t := SkipSpaces(s);
    if t == [] then Err(Unterminated)
    else if t[0] == CLOSE then Ok(m)
    else if t[0] != QUOTE then Err(ExpectedKey)
    else
      match ParsePair(t)
      case Err(e) => Err(e)
      case Ok((key, x, rest)) => ParsePairs(rest, m[key := x])
  }

  function Parse(input: seq<Byte>): Result<Object, JsonError> {
    var t := SkipSpaces(input);
    if t == [] || t[0] != OPEN then Err(ExpectedObject) else ParsePairs(t[1..], map[])
  }

  // ---- Printing -------------------------------------------------------------

  type Entry = (seq<Byte>, F64)

  predicate Ascii(key: seq<Byte>) { forall i :: 0 <= i < |key| ==> key[i] < 0x80 }

  function EscapeByte(b: Byte): (r: seq<Byte>)
    ensures r != []
  {
    if b == QUOTE then [BACKSLASH, QUOTE]
    else if b == BACKSLASH then [BACKSLASH, BACKSLASH]
    else if b == NEWLINE then [BACKSLASH, LOWER_N]
    else if b == RETURN then [BACKSLASH, LOWER_R]
    else if b == TAB then [BACKSLASH, LOWER_T]
    else [b]
  }

  /** `json_escape`. */
  function Escape(key: seq<Byte>): seq<Byte> {
    if key == [] then [] else EscapeByte(key[0]) + Escape(key[1..])
  }

  /** One line of the object. */
  function Line(e: Entry, last: bool, display: real -> int): seq<Byte> {
    [SPACE, SPACE, QUOTE] + Escape(e.0) + [QUOTE, COLON, SPACE] + FmtNum(e.1, display)
    + (if last then [] else [COMMA]) + [NEWLINE]
  }

  function Lines(entries: seq<Entry>, display: real -> int): seq<Byte> {
    if entries == [] then [] else Line(entries[0], |entries| == 1, display) + Lines(entries[1..], display)
  }

  /** `to_json` of the entries, in the map's key order. */
  function Print(entries: seq<Entry>, display: real -> int): seq<Byte> {
    [OPEN, NEWLINE] + Lines(entries, display) + [CLOSE, NEWLINE]
  }

  // ---- Keys -----------------------------------------------------------------

  /** The key read back: every byte from 0x80 on became a character of its own. */
  function Widen(key: seq<Byte>): seq<Byte> {
    if key == [] then [] else WidenByte(key[0]) + Widen(key[1..])
  }

  /** An escaped byte reads back as its character, whatever follows it. */
  lemma ByteReadsBack(b: Byte, t: seq<Byte>)
    requires ParseKey(t).Ok?
    ensures ParseKey(EscapeByte(b) + t) == Ok((WidenByte(b) + ParseKey(t).value.0, ParseKey(t).value.1))
  {
    hide WidenByte;
    var s := EscapeByte(b) + t;
    if EscapeByte(b) == [b] {
      assert s[0] == b && s[1..] == t;
    } else {
      assert s[0] == BACKSLASH && Unescape(s[1]) == b && s[2..] == t;
    }
  }

  /** An escaped key reads back widened, whatever quotes, backslashes and control bytes it holds. */
  lemma {:induction false} KeyReadsBack(key: seq<Byte>, rest: seq<Byte>)
    ensures ParseKey(Escape(key) + ([QUOTE] + rest)) == Ok((Widen(key), rest))
  {
    hide WidenByte, EscapeByte;
    var s := Escape(key) + ([QUOTE] + rest);
    if key == [] {
      assert s == [QUOTE] + rest && s[1..] == rest;
    } else {
      hide ParseKey;
      var t := Escape(key[1..]) + ([QUOTE] + rest);
      KeyReadsBack(key[1..], rest);
      assert s == EscapeByte(key[0]) + t;
      ByteReadsBack(key[0], t);
    }
  }

  lemma {:induction false} WidenExact(key: seq<Byte>)
    ensures |Widen(key)| >= |key|
    ensures Ascii(key) ==> Widen(key) == key
    ensures !Ascii(key) ==> |Widen(key)| > |key| && !Ascii(Widen(key))
  {
    if key != [] {
      WidenExact(key[1..]);
      assert key == [key[0]] + key[1..];
      var head, tail := WidenByte(key[0]), Widen(key[1..]);
      if key[0] >= 0x80 {
        assert (head + tail)[0] >= 0x80;
      } else if !Ascii(key[1..]) {
        var i :| 0 <= i < |tail| && tail[i] >= 0x80;
        assert (head + tail)[i + 1] >= 0x80;
      }
    }
  }

  /** A key reads back as itself exactly if it is ASCII. */
  lemma KeyExact(key: seq<Byte>, rest: seq<Byte>)
    ensures ParseKey(Escape(key) + ([QUOTE] + rest)) == Ok((key, rest)) <==> Ascii(key)
  {
    hide ParseKey, Escape, Widen;
    KeyReadsBack(key, rest);
    WidenExact(key);
  }

  /** Different keys stay different. */
  lemma {:induction false} WidenInjective(a: seq<Byte>, b: seq<Byte>)
    requires Widen(a) == Widen(b)
    ensures a == b
  {
    if a != [] && b != [] {
      var x, y := WidenByte(a[0]), WidenByte(b[0]);
      var s, t := Widen(a[1..]), Widen(b[1..]);
      assert (x + s)[0] == (y + t)[0];
      if |x| == 2 {
        assert (x + s)[1] == (y + t)[1];
      }
      assert a[0] == b[0];
      assert (x + s)[|x|..] == s && (y + t)[|x|..] == t;
      WidenInjective(a[1..], b[1..]);
      assert a == [a[0]] + a[1..] && b == [b[0]] + b[1..];
    }
  }

  // ---- Reading the printed object -------------------------------------------

  /** What reading the entries back, one after the other, makes of the map `m`. */
  function ReadAll(m: Object, entries: seq<Entry>): Result<Object, JsonError>
    decreases |entries|
  {
    if entries == [] then Ok(m)
    else
      match Shown(entries[0].1)
      case Err(e) => Err(e)
      case Ok(x) => ReadAll(m[Widen(entries[0].0) := x], entries[1..])
  }

  lemma {:induction false} SkipRun(ws: seq<Byte>, t: seq<Byte>)
    requires (forall i :: 0 <= i < |ws| ==> IsSpace(ws[i])) && t != [] && !IsSpace(t[0])
    ensures SkipSpaces(ws + t) == t
  {
    if ws == [] {
      assert ws + t == t;
    } else {
      assert (ws + t)[1..] == ws[1..] + t;
      SkipRun(ws[1..], t);
    }
  }

  lemma {:induction false} NumberRunOf(d: seq<Byte>, t: seq<Byte>)
    requires (forall i :: 0 <= i < |d| ==> IsNumberByte(d[i])) && (t != [] ==> !IsNumberByte(t[0]))
    ensures NumberRun(d + t) == |d|
  {
    if d == [] {
      assert d + t == t;
    } else {
      assert (d + t)[1..] == d[1..] + t;
      NumberRunOf(d[1..], t);
    }
  }

  /** The text behind a printed number: a comma unless it is the last pair, then the end of the line. */
  function LineEnd(last: bool, rest: seq<Byte>): (r: seq<Byte>)
    ensures r != [] && (r[0] == COMMA || r[0] == NEWLINE)
  {
    (if last then [] else [COMMA]) + ([NEWLINE] + rest)
  }

  /** What is left to read behind a printed line. */
  function Behind(last: bool, rest: seq<Byte>): seq<Byte> {
    if last then SkipSpaces([NEWLINE] + rest) else [NEWLINE] + rest
  }

  predicate Closes(last: bool, rest: seq<Byte>) {
    last ==> Behind(last, rest) != [] && Behind(last, rest)[0] != COMMA
  }

  /** What `ParseValue` and `ParsePair` make of the number shown. */
  function ShownBefore(v: F64, rest: seq<Byte>): Result<(F64, seq<Byte>), JsonError> {
    match Shown(v)
    case Err(e) => Err(e)
    case Ok(x) => Ok((x, rest))
  }

  lemma DigitsReadBack(v: F64, display: real -> int, last: bool, rest: seq<Byte>)
    requires Faithful(display) && Readable(v) && Closes(last, rest)
    ensures ParseValue(FmtNum(v, display) + LineEnd(last, rest)) == ShownBefore(v, Behind(last, rest))
  {
    hide ReadNumber, Shown, Readable;
    var num, end := FmtNum(v, display), LineEnd(last, rest);
    FmtNumStarts(v, display);
    NumberRunOf(num, end);
    assert (num + end)[..|num|] == num && (num + end)[|num|..] == end;
    NumberReadsBack(v, display);
    if last {
      assert end == [NEWLINE] + rest;
    } else {
      assert end == [COMMA] + ([NEWLINE] + rest);
      assert end[1..] == [NEWLINE] + rest && SkipSpaces(end) == end;
    }
  }

  lemma FmtNumStarts(v: F64, display: real -> int)
    ensures FmtNum(v, display) != [] && !IsSpace(FmtNum(v, display)[0])
    ensures Readable(v) ==> forall i :: 0 <= i < |FmtNum(v, display)| ==> IsNumberByte(FmtNum(v, display)[i])
  {
    hide TenTimes, Rescaled, Limit, Clamp;
  }

  /** An infinity or a NaN is printed as letters, which the parser refuses. */
  lemma LettersFail(v: F64, display: real -> int, t: seq<Byte>)
    requires !Readable(v)
    ensures Shown(v).Err? && ParseValue(FmtNum(v, display) + t) == Err(Shown(v).error)
  {
    hide TenTimes, Rescaled, Limit;
    var s := FmtNum(v, display) + t;
    if Rounded(v) == Infinite(true) {
      assert s[0] == MINUS && s[1] == 0x69 && s[1..][0] == 0x69;
      assert NumberRun(s[1..]) == 0 && NumberRun(s) == 1;
      assert s[..1] == [MINUS];
      assert Unsigned([MINUS]) == [];
      assert ParseNumber([MINUS]) == None;
    }
  }

  lemma ValueReadsBack(v: F64, display: real -> int, last: bool, rest: seq<Byte>)
    requires Faithful(display) && Closes(last, rest)
    ensures ParseValue(FmtNum(v, display) + LineEnd(last, rest)) == ShownBefore(v, Behind(last, rest))
  {
    hide ParseValue, FmtNum, Shown, LineEnd, Behind, Readable;
    if Readable(v) {
      DigitsReadBack(v, display, last, rest);
    } else {
      LettersFail(v, display, LineEnd(last, rest));
    }
  }

  /** One printed line without its indentation. */
  function Pair(e: Entry, last: bool, rest: seq<Byte>, display: real -> int): (r: seq<Byte>)
    ensures r != [] && r[0] == QUOTE
  {
    [QUOTE] + (Escape(e.0) + ([QUOTE] + ([COLON] + ([SPACE] + (FmtNum(e.1, display) + LineEnd(last, rest))))))
  }

  /** A printed pair reads back as its widened key and its shown value, or as the error of its value. */
  lemma PairReadsBack(e: Entry, last: bool, rest: seq<Byte>, display: real -> int)
    requires Faithful(display) && Closes(last, rest)
    ensures ParsePair(Pair(e, last, rest, display)) ==
            match Shown(e.1)
            case Err(error) => Err(error)
            case Ok(x) => Ok((Widen(e.0), x, Behind(last, rest)))
  {
    hide ParseKey, ParseValue, FmtNum, Shown, LineEnd, Behind;
    var value := FmtNum(e.1, display) + LineEnd(last, rest);
    var afterKey := [COLON] + ([SPACE] + value);
    var s := Pair(e, last, rest, display);
    assert s[1..] == Escape(e.0) + ([QUOTE] + afterKey);
    KeyReadsBack(e.0, afterKey);
    assert SkipSpaces(afterKey) == afterKey;
    assert afterKey[1..] == [SPACE] + value;
    FmtNumStarts(e.1, display);
    assert value[0] == FmtNum(e.1, display)[0];
    SkipRun([SPACE], value);
    ValueReadsBack(e.1, display, last, rest);
  }

  /** A printed line is its indented pair, with the text behind it. */
  lemma LineIsPair(e: Entry, last: bool, rest: seq<Byte>, display: real -> int)
    ensures Line(e, last, display) + rest == [SPACE, SPACE] + Pair(e, last, rest, display)
  {
    hide Escape, FmtNum;
  }

  const FOOTER: seq<Byte> := [CLOSE, NEWLINE]

  /** A printed line puts its shown entry into the map, or stops with its error. */
  lemma LineReadsBack(ws: seq<Byte>, e: Entry, last: bool, rest: seq<Byte>, m: Object, display: real -> int)
    requires Faithful(display) && Closes(last, rest)
    requires forall i :: 0 <= i < |ws| ==> IsSpace(ws[i])
    ensures ParsePairs(ws + (Line(e, last, display) + rest), m) ==
            match Shown(e.1)
            case Err(error) => Err(error)
            case Ok(x) => ParsePairs(Behind(last, rest), m[Widen(e.0) := x])
  {
    hide ParsePair, Shown, Line, Pair, Widen, Behind;
    var pair := Pair(e, last, rest, display);
    LineIsPair(e, last, rest, display);
    assert ws + (Line(e, last, display) + rest) == (ws + [SPACE, SPACE]) + pair;
    SkipRun(ws + [SPACE, SPACE], pair);
    PairReadsBack(e, last, rest, display);
  }

  lemma FooterReadsBack(ws: seq<Byte>, m: Object)
    requires forall i :: 0 <= i < |ws| ==> IsSpace(ws[i])
    ensures SkipSpaces(ws + FOOTER) == FOOTER && ParsePairs(ws + FOOTER, m) == Ok(m) == ParsePairs(FOOTER, m)
  {
    SkipRun(ws, FOOTER);
  }

  /** Printed lines put exactly their shown entries into the map. */
  lemma {:induction false} LinesReadBack(ws: seq<Byte>, entries: seq<Entry>, m: Object, display: real -> int)
    requires Faithful(display) && forall i :: 0 <= i < |ws| ==> IsSpace(ws[i])
    ensures ParsePairs(ws + (Lines(entries, display) + FOOTER), m) == ReadAll(m, entries)
    decreases |entries|
  {
    hide ParsePairs, Shown, Line, SkipSpaces, Widen, Faithful;
    if entries == [] {
      assert Lines(entries, display) + FOOTER == FOOTER;
      FooterReadsBack(ws, m);
    } else {
      var e, last := entries[0], |entries| == 1;
      var rest := Lines(entries[1..], display) + FOOTER;
      assert Lines(entries, display) + FOOTER == Line(e, last, display) + rest;
      if last {
        assert entries[1..] == [] && rest == FOOTER;
        FooterReadsBack([NEWLINE], m);
      }
      LineReadsBack(ws, e, last, rest, m, display);
      if Shown(e.1).Ok? {
        var m' := m[Widen(e.0) := Shown(e.1).value];
        if last {
          FooterReadsBack([NEWLINE], m');
        } else {
          LinesReadBack([NEWLINE], entries[1..], m', display);
        }
      }
    }
  }

  /** Parsing the printed object reads its entries back, one after the other. */
  lemma PrintReadsBack(entries: seq<Entry>, display: real -> int)
    requires Faithful(display)
    ensures Parse(Print(entries, display)) == ReadAll(map[], entries)
  {
    hide ParsePairs, Lines, Faithful;
    var body := [NEWLINE] + (Lines(entries, display) + FOOTER);
    assert Print(entries, display) == [OPEN] + body;
    assert SkipSpaces([OPEN] + body) == [OPEN] + body;
    assert ([OPEN] + body)[1..] == body;
    LinesReadBack([NEWLINE], entries, map[], display);
  }

  // ---- Round trip -----------------------------------------------------------

  /** `entries` lists the map in its key order, as iterating a `BTreeMap` does. */
  ghost predicate Lists(entries: seq<Entry>, m: Object) {
    && (forall i, j :: 0 <= i < j < |entries| ==> Less(entries[i].0, entries[j].0))
    && (forall i :: 0 <= i < |entries| ==> entries[i].0 in m && m[entries[i].0] == entries[i].1)
    && (forall k :: k in m ==> HasKey(entries, k))
  }

  ghost predicate HasKey(entries: seq<Entry>, k: seq<Byte>) {
    exists i :: 0 <= i < |entries| && entries[i].0 == k
  }

  /** Reading succeeds exactly if every entry does. */
  lemma {:induction false} ReadAllOk(m: Object, entries: seq<Entry>)
    ensures ReadAll(m, entries).Ok? <==> forall i :: 0 <= i < |entries| ==> Shown(entries[i].1).Ok?
    decreases |entries|
  {
    hide Shown, Widen;
    if entries != [] && Shown(entries[0].1).Ok? {
      ReadAllOk(m[Widen(entries[0].0) := Shown(entries[0].1).value], entries[1..]);
      assert forall i :: 1 <= i < |entries| ==> entries[i] == entries[1..][i - 1];
    }
  }

  /** A key no entry widens to is left alone. */
  lemma {:induction false} ReadAllOther(m: Object, entries: seq<Entry>, k: seq<Byte>)
    requires ReadAll(m, entries).Ok? && forall i :: 0 <= i < |entries| ==> Widen(entries[i].0) != k
    ensures k in ReadAll(m, entries).value <==> k in m
    ensures k in m ==> ReadAll(m, entries).value[k] == m[k]
    decreases |entries|
  {
    hide Shown, Widen;
    if entries != [] {
      ReadAllOther(m[Widen(entries[0].0) := Shown(entries[0].1).value], entries[1..], k);
    }
  }

  lemma {:induction false} ReadAllAt(m: Object, entries: seq<Entry>, i: nat)
    requires ReadAll(m, entries).Ok? && i < |entries|
    requires forall j :: i < j < |entries| ==> Widen(entries[j].0) != Widen(entries[i].0)
    ensures Shown(entries[i].1).Ok? && Widen(entries[i].0) in ReadAll(m, entries).value
    ensures ReadAll(m, entries).value[Widen(entries[i].0)] == Shown(entries[i].1).value
    decreases |entries|
  {
    hide Shown, Widen;
    var m' := m[Widen(entries[0].0) := Shown(entries[0].1).value];
    if i == 0 {
      ReadAllOther(m', entries[1..], Widen(entries[0].0));
    } else {
      ReadAllAt(m', entries[1..], i - 1);
    }
  }

  /** The map read back: every key widened, every value as shown. */
  lemma ReadAllContents(m: Object, entries: seq<Entry>)
    requires Lists(entries, m) && ReadAll(map[], entries).Ok?
    ensures ReadBack(m, ReadAll(map[], entries).value)
  {
    hide Shown, Widen, ReadAll;
    var r := ReadAll(map[], entries).value;
    forall k | k in m
      ensures Shown(m[k]).Ok? && Widen(k) in r && r[Widen(k)] == Shown(m[k]).value
    {
      assert HasKey(entries, k);
      var i :| 0 <= i < |entries| && entries[i].0 == k;
      forall j | i < j < |entries|
        ensures Widen(entries[j].0) != Widen(k)
      {
        LessIrreflexive(k);
        if Widen(entries[j].0) == Widen(k) {
          WidenInjective(entries[j].0, k);
        }
      }
      ReadAllAt(map[], entries, i);
    }
    forall w | w in r
      ensures exists k :: k in m && Widen(k) == w
    {
      if forall i :: 0 <= i < |entries| ==> Widen(entries[i].0) != w {
        ReadAllOther(map[], entries, w);
      } else {
        var i :| 0 <= i < |entries| && Widen(entries[i].0) == w;
        assert entries[i].0 in m;
      }
    }
  }

  /** Of finitely many keys one is longest. */
  lemma {:induction false} Longest(keys: set<seq<Byte>>) returns (k: seq<Byte>)
    requires keys != {}
    ensures k in keys && forall o :: o in keys ==> |o| <= |k|
    decreases |keys|
  {
    k :| k in keys;
    var others := keys - {k};
    if others != {} {
      var o := Longest(others);
      k := if |o| > |k| then o else k;
    }
  }

  /** A set of keys that widening maps into itself is ASCII: the longest other key would widen to a longer one. */
  lemma ClosedIsAscii(keys: set<seq<Byte>>)
    requires forall k :: k in keys ==> Widen(k) in keys
    ensures forall k :: k in keys ==> Ascii(k)
  {
    hide Widen;
    var wide := set k | k in keys && !Ascii(k);
    if wide != {} {
      var k := Longest(wide);
      WidenExact(k);
      assert false;
    }
    assert forall k :: k in keys && !Ascii(k) ==> k in wide;
  }

  /**
   Parsing the printed baseline succeeds exactly if ten times every value is
   finite, and returns the same map exactly if every key is ASCII and every value
   is a double nearest to tenths, at most `2^63` in magnitude.
   */
  lemma RoundTripExact(m: Object, entries: seq<Entry>, display: real -> int)
    requires Lists(entries, m) && Faithful(display) && forall k :: k in m ==> WellFormed(m[k])
    ensures Parse(Print(entries, display)).Ok? <==> forall k :: k in m ==> Readable(m[k])
    ensures Parse(Print(entries, display)) == Ok(m) <==> forall k :: k in m ==> Ascii(k) && Survives(m[k])
  {
    hide Shown, Readable, Survives, WellFormed, Parse, Print, Widen, ReadAll, Ascii, Faithful, Lists, ReadBack;
    PrintReadsBack(entries, display);
    ReadAllReadable(m, entries);
    if ReadAll(map[], entries).Ok? {
      ReadAllContents(m, entries);
      ReadBackExact(m, ReadAll(map[], entries).value);
    }
    AllShownExact(m);
  }

  lemma AllShownExact(m: Object)
    requires forall k :: k in m ==> WellFormed(m[k])
    ensures forall k :: k in m ==> (Shown(m[k]) == Ok(m[k]) <==> Survives(m[k]))
    ensures forall k :: k in m ==> (Survives(m[k]) ==> Readable(m[k]))
  {
    hide Shown, Readable, Survives, WellFormed;
    forall k | k in m
      ensures Shown(m[k]) == Ok(m[k]) <==> Survives(m[k])
      ensures Survives(m[k]) ==> Readable(m[k])
    {
      ShownExact(m[k]);
    }
  }

  lemma ReadAllReadable(m: Object, entries: seq<Entry>)
    requires Lists(entries, m) && forall k :: k in m ==> WellFormed(m[k])
    ensures ReadAll(map[], entries).Ok? <==> forall k :: k in m ==> Readable(m[k])
  {
    hide Shown, Readable, WellFormed, ReadAll;
    ReadAllOk(map[], entries);
    forall i | 0 <= i < |entries|
      ensures Shown(entries[i].1).Ok? <==> Readable(m[entries[i].0])
    {
      ShownExact(m[entries[i].0]);
    }
  }

  /** `r` is what is read back of `m`: every key widened, every value as shown. */
  ghost predicate ReadBack(m: Object, r: Object) {
    && (forall k :: k in m ==> Shown(m[k]).Ok? && Widen(k) in r && r[Widen(k)] == Shown(m[k]).value)
    && (forall w :: w in r ==> exists k :: k in m && Widen(k) == w)
  }

  lemma ReadBackExact(m: Object, r: Object)
    requires ReadBack(m, r)
    ensures r == m <==> forall k :: k in m ==> Ascii(k) && Shown(m[k]) == Ok(m[k])
  {
    hide Shown, Widen, Ascii, ReadBack;
    if r == m {
      KeysClosed(m);
      ClosedIsAscii(m.Keys);
      SameMap(m, r);
    } else if forall k :: k in m ==> Ascii(k) && Shown(m[k]) == Ok(m[k]) {
      SameMap(m, r);
    }
  }

  lemma KeysClosed(m: Object)
    requires ReadBack(m, m)
    ensures forall k :: k in m.Keys ==> Widen(k) in m.Keys
  {
  }

  /** On ASCII keys the map read back has the same keys and the values shown. */
  lemma SameMap(m: Object, r: Object)
    requires ReadBack(m, r) && forall k :: k in m ==> Ascii(k)
    ensures r.Keys == m.Keys && forall k :: k in m ==> Shown(m[k]) == Ok(r[k])
  {
    hide Shown, Widen, Ascii;
    forall k | k in m
      ensures Widen(k) == k
    {
      WidenExact(k);
    }
  }

  /** Of finitely many keys one comes first. */
  lemma {:induction false} First(keys: set<seq<Byte>>) returns (k: seq<Byte>)
    requires keys != {}
    ensures k in keys && forall o :: o in keys && o != k ==> Less(k, o)
    decreases |keys|
  {
    hide Less;
    k :| k in keys;
    var others := keys - {k};
    if others != {} {
      var o := First(others);
      LessTrichotomy(k, o);
      if Less(o, k) {
        k := o;
      } else {
        forall x | x in others && x != o
          ensures Less(k, x)
        {
          LessTransitive(k, o, x);
        }
      }
    }
  }

  /** Every map is listed in key order by some entries. */
  lemma {:induction false} EveryMapIsListed(m: Object) returns (entries: seq<Entry>)
    ensures Lists(entries, m)
    decreases |m|
  {
    hide Less;
    if m == map[] {
      entries := [];
    } else {
      var k := First(m.Keys);
      var rest := EveryMapIsListed(m - {k});
      entries := [(k, m[k])] + rest;
      FirstLists(m, k, rest);
    }
  }

  lemma FirstLists(m: Object, k: seq<Byte>, rest: seq<Entry>)
    requires k in m && Lists(rest, m - {k}) && forall o :: o in m && o != k ==> Less(k, o)
    ensures Lists([(k, m[k])] + rest, m)
  {
    hide Less, HasKey;
    var entries := [(k, m[k])] + rest;
    assert forall i :: 1 <= i < |entries| ==> entries[i] == rest[i - 1];
    forall o | o in m
      ensures HasKey(entries, o)
    {
      if o == k {
        HasKeyNow((k, m[k]), rest);
      } else {
        assert o in m - {k};
        HasKeyLater((k, m[k]), rest, o);
      }
    }
  }

  lemma HasKeyNow(e: Entry, rest: seq<Entry>)
    ensures HasKey([e] + rest, e.0)
  {
    assert ([e] + rest)[0].0 == e.0;
  }

  lemma HasKeyLater(e: Entry, rest: seq<Entry>, o: seq<Byte>)
    requires HasKey(rest, o)
    ensures HasKey([e] + rest, o)
  {
    var i :| 0 <= i < |rest| && rest[i].0 == o;
    assert ([e] + rest)[i + 1].0 == o;
  }

  /**
   A quarter does not survive, an integer just above `2^52` loses one, `10^19`
   saturates, and the largest power of two is printed as letters.
   */
  lemma LostValues(key: seq<Byte>, display: real -> int)
    requires Ascii(key) && Faithful(display)
    ensures Parse(Print([(key, Finite(0.25))], display)) != Ok(map[key := Finite(0.25)])
    ensures Parse(Print([(key, Finite(7846328423742807.0))], display)) == Ok(map[key := Finite(7846328423742806.0)])
    ensures Parse(Print([(key, Finite(10000000000000000000.0))], display)) == Ok(map[key := Finite(TWO_63)])
    ensures Parse(Print([(key, Finite(Exp2(1023)))], display)) == Err(ExpectedNumber)
  {
    hide Parse, Print, Shown, Faithful, Widen, Ascii;
    LostShown();
    OneEntry(key, Finite(0.25), display);
    if Shown(Finite(0.25)).Ok? {
      assert map[key := Shown(Finite(0.25)).value][key] != Finite(0.25);
    }
    OneEntry(key, Finite(7846328423742807.0), display);
    OneEntry(key, Finite(10000000000000000000.0), display);
    OneEntry(key, Finite(Exp2(1023)), display);
  }

  lemma LostShown()
    ensures Shown(Finite(0.25)) != Ok(Finite(0.25))
    ensures Shown(Finite(7846328423742807.0)) == Ok(Finite(7846328423742806.0))
    ensures Shown(Finite(10000000000000000000.0)) == Ok(Finite(TWO_63))
    ensures Shown(Finite(Exp2(1023))) == Err(ExpectedNumber)
  {
    hide Nearest, Rescaled, TenTimes, Limit, Exp2, IsValue, Shown;
    RescaledValues();
    TenTimesFinite(0.25);
    ShownIs(Finite(0.25));
    TenTimesFinite(7846328423742807.0);
    ShownIs(Finite(7846328423742807.0));
    LargeShown();
    TopOverflows();
  }

  lemma LargeShown()
    ensures Shown(Finite(10000000000000000000.0)) == Ok(Finite(TWO_63))
  {
    hide Nearest, Rescaled, TenTimes, Limit, Exp2, IsValue, Shown;
    RescaledValues();
    var x := 10000000000000000000.0;
    SmallIntegerIsValue(0);
    TenTimesClosest(x, 0);
    LimitIsLarge();
    ShownIs(Finite(x));
  }

  lemma TopOverflows()
    ensures Shown(Finite(Exp2(1023))) == Err(ExpectedNumber)
  {
    hide Nearest, Exp2, RoundEven, Rescaled;
    var u := Exp2(MAX_EXPONENT);
    Binade(MAX_EXPONENT);
    var x := Exp2(1023);
    assert x == TWO_52 as real * u && x > 0.0;
    NearestAtTop(x * 10.0, 10 * TWO_52, u);
  }

  lemma NearestAtTop(x: real, m: int, u: real)
    requires u == Exp2(MAX_EXPONENT) && m >= TWO_53 && x == m as real * u
    ensures Nearest(x) >= Limit()
  {
    hide Exp2, RoundEven, Exponent;
    Binade(MAX_EXPONENT);
    ScaleMono(TWO_53 as real, m as real, u);
    ScaleMono(TWO_52 as real, m as real, u);
    ExponentIs(x, MAX_EXPONENT);
    Significance(x, m as real, u);
    RoundEvenIs(m as real, m);
  }

  lemma OneEntry(key: seq<Byte>, v: F64, display: real -> int)
    requires Ascii(key) && Faithful(display)
    ensures Parse(Print([(key, v)], display)) ==
            match Shown(v)
            case Err(e) => Err(e)
            case Ok(x) => Ok(map[key := x])
  {
    hide Parse, Print, Shown, Faithful, Widen, Ascii;
    PrintReadsBack([(key, v)], display);
    WidenExact(key);
    var none: seq<Entry> := [];
    assert [(key, v)][1..] == none;
    assert forall m: Object :: ReadAll(m, none) == Ok(m);
  }

  // ---- The code's own loops -------------------------------------------------

  method JsonEscape(key: seq<Byte>) returns (out: seq<Byte>)
    ensures out == Escape(key)
  {
    hide EscapeByte;
    out := [];
    for i := 0 to |key|
      invariant out + Escape(key[i..]) == Escape(key)
    {
      assert key[i..][1..] == key[i + 1..];
      assert out + (EscapeByte(key[i]) + Escape(key[i + 1..])) == (out + EscapeByte(key[i])) + Escape(key[i + 1..]);
      out := out + EscapeByte(key[i]);
    }
    assert key[|key|..] == [];
  }

  method ToJson(entries: seq<Entry>, display: real -> int) returns (s: seq<Byte>)
    ensures s == Print(entries, display)
  {
    hide FmtNum, Escape;
    s := [OPEN, NEWLINE];
    for i := 0 to |entries|
      invariant s + Lines(entries[i..], display) == [OPEN, NEWLINE] + Lines(entries, display)
    {
      var e := entries[i];
      assert entries[i..][1..] == entries[i + 1..];
      var escaped := JsonEscape(e.0);
      var comma := if i + 1 < |entries| then [COMMA] else [];
      var line := [SPACE, SPACE, QUOTE] + escaped + [QUOTE, COLON, SPACE] + FmtNum(e.1, display) + comma + [NEWLINE];
      assert line == Line(e, |entries[i..]| == 1, display);
      s := s + line;
    }
    assert entries[|entries|..] == [];
    s := s + [CLOSE, NEWLINE];
  }

  method SkipWs(bytes: seq<Byte>, start: nat) returns (i: nat)
    requires start <= |bytes|
    ensures start <= i <= |bytes| && bytes[i..] == SkipSpaces(bytes[start..])
  {
    i := start;
    while i < |bytes| && IsSpace(bytes[i])
      invariant start <= i <= |bytes| && SkipSpaces(bytes[i..]) == SkipSpaces(bytes[start..])
    {
      assert bytes[i..][1..] == bytes[i + 1..];
      i := i + 1;
    }
  }

  /** The result of reading the rest of a key behind the part already read. */
  function Prepend(key: seq<Byte>, r: Result<(seq<Byte>, seq<Byte>), JsonError>)
    : Result<(seq<Byte>, seq<Byte>), JsonError>
  {
    match r
    case Err(e) => Err(e)
    case Ok((more, rest)) => Ok((key + more, rest))
  }

  lemma PrependNone(r: Result<(seq<Byte>, seq<Byte>), JsonError>)
    ensures Prepend([], r) == r
  {
    if r.Ok? {
      assert [] + r.value.0 == r.value.0;
    }
  }

  lemma PrependMore(key: seq<Byte>, more: seq<Byte>, r: Result<(seq<Byte>, seq<Byte>), JsonError>)
    ensures Prepend(key, Prepend(more, r)) == Prepend(key + more, r)
  {
    if r.Ok? {
      assert key + (more + r.value.0) == (key + more) + r.value.0;
    }
  }

  /** The key loop of `parse_flat_json`; `i` is behind the opening quote. */
  method ReadKey(bytes: seq<Byte>, start: nat) returns (r: Result<(seq<Byte>, nat), JsonError>)
    requires start <= |bytes|
    ensures match ParseKey(bytes[start..])
      case Err(e) => r == Err(e)
      case Ok((key, rest)) => r.Ok? && r.value.0 == key && start < r.value.1 <= |bytes| && bytes[r.value.1..] == rest
  {
    hide WidenByte, Unescape;
    var i, key := start, [];
    PrependNone(ParseKey(bytes[start..]));
    while true
      invariant start <= i <= |bytes|
      invariant ParseKey(bytes[start..]) == Prepend(key, ParseKey(bytes[i..]))
      decreases |bytes| - i
    {
      if i >= |bytes| {
        assert bytes[i..] == [];
        return Err(UnterminatedKey);
      }
      var c := bytes[i];
      assert bytes[i..][1..] == bytes[i + 1..];
      if c == QUOTE {
        assert key + [] == key;
        return Ok((key, i + 1));
      }
      if c == BACKSLASH {
        i := i + 1;
        if i >= |bytes| {
          return Err(DanglingEscape);
        }
        assert bytes[i - 1..][2..] == bytes[i + 1..];
        PrependMore(key, WidenByte(Unescape(bytes[i])), ParseKey(bytes[i + 1..]));
        key := key + WidenByte(Unescape(bytes[i]));
        i := i + 1;
      } else {
        PrependMore(key, WidenByte(c), ParseKey(bytes[i + 1..]));
        key := key + WidenByte(c);
        i := i + 1;
      }
    }
  }

  method NumberEnd(bytes: seq<Byte>, start: nat) returns (i: nat)
    requires start <= |bytes|
    ensures start <= i <= |bytes| && i - start == NumberRun(bytes[start..])
    ensures forall k :: start <= k < i ==> IsNumberByte(bytes[k])
  {
    i := start;
    while i < |bytes| && IsNumberByte(bytes[i])
      invariant start <= i <= |bytes| && i - start + NumberRun(bytes[i..]) == NumberRun(bytes[start..])
      invariant forall k :: start <= k < i ==> IsNumberByte(bytes[k])
    {
      assert bytes[i..][1..] == bytes[i + 1..];
      i := i + 1;
    }
  }

  /** The value part of `parse_flat_json`, from behind the colon to behind the comma. */
  method ReadValue(bytes: seq<Byte>, start: nat) returns (r: Result<(F64, nat), JsonError>)
    requires start <= |bytes|
    ensures match ParseValue(bytes[start..])
      case Err(e) => r == Err(e)
      case Ok((x, rest)) => r.Ok? && r.value.0 == x && start <= r.value.1 <= |bytes| && bytes[r.value.1..] == rest
  {
    hide ReadNumber, NumberRun, SkipSpaces, IsUtf8, IsCharBoundary;
    var i := NumberEnd(bytes, start);
    if i == start {
      return Err(ExpectedNumber);
    }
    assert bytes[start..][..i - start] == bytes[start..i] && bytes[start..][i - start..] == bytes[i..];
    if IsUtf8(bytes) {
      AsciiRunOnBoundaries(bytes, start, i);
    }
    var value := ReadNumber(Slice(bytes, start, i));
    if value.None? {
      return Err(InvalidNumber);
    }
    i := SkipWs(bytes, i);
    if i < |bytes| && bytes[i] == COMMA {
      assert bytes[i..][1..] == bytes[i + 1..];
      i := i + 1;
    }
    r := Ok((value.value, i));
  }

  /** One pair of `parse_flat_json`; `start` is at the opening quote. */
  method ReadPair(bytes: seq<Byte>, start: nat) returns (r: Result<(seq<Byte>, F64, nat), JsonError>)
    requires start < |bytes|
    ensures match ParsePair(bytes[start..])
      case Err(e) => r == Err(e)
      case Ok((key, x, rest)) =>
        r.Ok? && r.value.0 == key && r.value.1 == x && start < r.value.2 <= |bytes| && bytes[r.value.2..] == rest
  {
    hide ParseKey, ParseValue;
    assert bytes[start..][1..] == bytes[start + 1..];
    var key := ReadKey(bytes, start + 1);
    if key.Err? {
      return Err(key.error);
    }
    var i := SkipWs(bytes, key.value.1);
    if i >= |bytes| || bytes[i] != COLON {
      return Err(ExpectedColon);
    }
    assert bytes[i..][1..] == bytes[i + 1..];
    i := SkipWs(bytes, i + 1);
    var value := ReadValue(bytes, i);
    if value.Err? {
      return Err(value.error);
    }
    r := Ok((key.value.0, value.value.0, value.value.1));
  }

  /** `parse_flat_json`: total on every input, in bounds, on character boundaries, and terminating. */
  method ParseFlatJson(bytes: seq<Byte>) returns (r: Result<Object, JsonError>)
    ensures r == Parse(bytes)
  {
    hide ParsePair;
    assert bytes[0..] == bytes;
    var i := SkipWs(bytes, 0);
    if i >= |bytes| || bytes[i] != OPEN {
      return Err(ExpectedObject);
    }
    assert bytes[i..][1..] == bytes[i + 1..];
    i := i + 1;
    var m: Object := map[];
    while true
      invariant i <= |bytes| && Parse(bytes) == ParsePairs(bytes[i..], m)
      decreases |bytes| - i
    {
      i := SkipWs(bytes, i);
      if i >= |bytes| {
        return Err(Unterminated);
      }
      if bytes[i] == CLOSE {
        break;
      }
      if bytes[i] != QUOTE {
        return Err(ExpectedKey);
      }
      var pair := ReadPair(bytes, i);
      if pair.Err? {
        return Err(pair.error);
      }
      m := m[pair.value.0 := pair.value.1];
      i := pair.value.2;
    }
    r := Ok(m);
  }

  /** Writing a map and reading it back, through the code's own loops. */
  method WriteThenRead(entries: seq<Entry>, display: real -> int, ghost m: Object)
    returns (r: Result<Object, JsonError>)
    requires Lists(entries, m) && Faithful(display) && forall k :: k in m ==> WellFormed(m[k])
    ensures r.Ok? <==> forall k :: k in m ==> Readable(m[k])
    ensures r == Ok(m) <==> forall k :: k in m ==> Ascii(k) && Survives(m[k])
  {
    hide Parse, Print, Readable, Survives, WellFormed, Faithful, Lists;
    var text := ToJson(entries, display);
    r := ParseFlatJson(text);
    RoundTripExact(m, entries, display);
  }
}
