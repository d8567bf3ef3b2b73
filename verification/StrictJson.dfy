/**
 The baseline file as JSON: sections 2, 4, 6 and 7 of RFC 8259 for an object
 whose members are numbers. `to_json` promises a JSON object, and
 `parse_flat_json` reads one tolerantly.
 */
module StrictJson {
  import opened Common
  import opened Text
  import opened Float64
  import opened Tenths
  import opened BaselineJson

  // ---- The grammar ----------------------------------------------------------

  predicate IsJsonSpace(b: Byte) { b == 0x20 || b == 0x09 || b == 0x0a || b == 0x0d }

  function AfterSpace(s: seq<Byte>): (r: seq<Byte>)
    ensures |r| <= |s| && (r != [] ==> !IsJsonSpace(r[0]))
  {
    if s == [] || !IsJsonSpace(s[0]) then s else AfterSpace(s[1..])
  }

  predicate IsHex(b: Byte) { 0x30 <= b <= 0x39 || 0x41 <= b <= 0x46 || 0x61 <= b <= 0x66 }

  /** An escape: one of eight letters, or `u` and four hexadecimal digits. Its length, or 0. */
  function EscapeLength(s: seq<Byte>): (n: nat)
    ensures n <= |s|
  {
    if |s| >= 2 && s[1] in {0x22, 0x5c, 0x2f, 0x62, 0x66, 0x6e, 0x72, 0x74} then 2
    else if |s| >= 6 && s[1] == 0x75 && IsHex(s[2]) && IsHex(s[3]) && IsHex(s[4]) && IsHex(s[5]) then 6
    else 0
  }

  /** What follows a string; `s` starts behind its opening quote. */
  function AfterString(s: seq<Byte>): (r: Option<seq<Byte>>)
    ensures r.Some? ==> |r.value| < |s|
    decreases |s|
  {
    if s == [] then None
    else if s[0] == 0x22 then Some(s[1..])
    else if s[0] == 0x5c then
      if EscapeLength(s) == 0 then None else AfterString(s[EscapeLength(s)..])
    else if s[0] < 0x20 then None
    else AfterString(s[1..])
  }

  function AfterExponent(s: seq<Byte>): (r: Option<seq<Byte>>)
    ensures r.Some? ==> |r.value| <= |s|
  {
    if s == [] || (s[0] != 0x65 && s[0] != 0x45) then Some(s)
    else
      var u := Unsigned(s[1..]);
      if DigitRun(u) == 0 then None else Some(u[DigitRun(u)..])
  }

  function AfterFraction(s: seq<Byte>): (r: Option<seq<Byte>>)
    ensures r.Some? ==> |r.value| <= |s|
  {
    if s == [] || s[0] != 0x2e then AfterExponent(s)
    else if DigitRun(s[1..]) == 0 then None
    else AfterExponent(s[1..][DigitRun(s[1..])..])
  }

  /** What follows a number: a minus, an integer without leading zeros, a fraction, an exponent. */
  function AfterNumber(s: seq<Byte>): (r: Option<seq<Byte>>)
    ensures r.Some? ==> |r.value| < |s|
  {
    var u := if s != [] && s[0] == 0x2d then s[1..] else s;
    if u == [] || !IsDigit(u[0]) then None
    else AfterFraction(if u[0] == 0x30 then u[1..] else u[DigitRun(u)..])
  }

  /** What follows a member and the space behind it. */
  function AfterMember(s: seq<Byte>): (r: Option<seq<Byte>>)
    ensures r.Some? ==> |r.value| < |s|
  {
    if s == [] || s[0] != 0x22 then None
    else
      match AfterString(s[1..])
      case None => None
      case Some(key) =>
        var colon := AfterSpace(key);
        if colon == [] || colon[0] != 0x3a then None
        else
          match AfterNumber(AfterSpace(colon[1..]))
          case None => None
          case Some(rest) => Some(AfterSpace(rest))
  }

  /** What follows the closing brace; members are separated by commas, none trailing. */
  function AfterMembers(s: seq<Byte>): Option<seq<Byte>>
    decreases |s|
  {
    match AfterMember(s)
    case None => None
    case Some(rest) =>
      if rest == [] then None
      else if rest[0] == 0x7d then Some(rest[1..])
      else if rest[0] == 0x2c then AfterMembers(AfterSpace(rest[1..]))
      else None
  }

  /** The text is a JSON object of numbers. */
  predicate IsFlatObject(s: seq<Byte>) {
    var t := AfterSpace(s);
    && t != [] && t[0] == 0x7b
    && var u := AfterSpace(t[1..]);
       match if u != [] && u[0] == 0x7d then Some(u[1..]) else AfterMembers(u)
       case None => false
       case Some(rest) => AfterSpace(rest) == []
  }

  // ---- What is printed ------------------------------------------------------

  /** No control byte but the three that are escaped. */
  predicate Printable(key: seq<Byte>) {
    forall i :: 0 <= i < |key| ==> key[i] >= 0x20 || key[i] == 0x09 || key[i] == 0x0a || key[i] == 0x0d
  }

  lemma {:induction false} KeyIsString(key: seq<Byte>, rest: seq<Byte>)
    ensures AfterString(Escape(key) + ([QUOTE] + rest)) == if Printable(key) then Some(rest) else None
  {
    if key == [] {
      assert Escape(key) + ([QUOTE] + rest) == [QUOTE] + rest;
    } else {
      hide Escape;
      var b, tail := key[0], Escape(key[1..]) + ([QUOTE] + rest);
      KeyIsString(key[1..], rest);
      EscapeFirst(key, [QUOTE] + rest);
      ByteIsString(b, tail);
      assert Printable(key) <==> Printable([b]) && Printable(key[1..]) by {
        assert key == [b] + key[1..];
      }
    }
  }

  lemma EscapeFirst(key: seq<Byte>, rest: seq<Byte>)
    requires key != []
    ensures Escape(key) + rest == EscapeByte(key[0]) + (Escape(key[1..]) + rest)
  {
    hide EscapeByte;
    var a, b := EscapeByte(key[0]), Escape(key[1..]);
    assert Escape(key) == a + b;
    Join(a, b, rest);
  }

  lemma Join(a: seq<Byte>, b: seq<Byte>, c: seq<Byte>)
    ensures a + b + c == a + (b + c)
  {
  }

  lemma ByteIsString(b: Byte, tail: seq<Byte>)
    ensures AfterString(EscapeByte(b) + tail) == if Printable([b]) then AfterString(tail) else None
  {
    var s := EscapeByte(b) + tail;
    if |EscapeByte(b)| == 2 {
      assert s[0] == BACKSLASH && s[2..] == tail && EscapeLength(s) == 2;
      assert b >= 0x20 || b == 0x09 || b == 0x0a || b == 0x0d;
    } else {
      assert s[0] == b && s[1..] == tail;
      assert Printable([b]) ==> [b][0] >= 0x20 || b == 0x09 || b == 0x0a || b == 0x0d;
    }
  }

  lemma {:induction false} DigitsLead(n: nat)
    ensures Digits(n)[0] == ZERO <==> n == 0
    ensures n == 0 ==> Digits(n) == [ZERO]
  {
    if n >= 10 {
      DigitsLead(n / 10);
    }
  }

  /** The text stops a number: a comma, a line end or nothing. */
  predicate Stops(t: seq<Byte>) { t != [] && (t[0] == COMMA || t[0] == NEWLINE) }

  /** Decimal digits are the integer part of a number, whatever fraction follows. */
  lemma DigitsAreInteger(negative: bool, n: nat, t: seq<Byte>)
    requires t != [] && !IsDigit(t[0])
    ensures AfterNumber(Sign(negative) + Digits(n) + t) == AfterFraction(t)
  {
    hide AfterFraction, Digits, DigitRun;
    var d := Digits(n);
    var s := Sign(negative) + d + t;
    var u := d + t;
    DigitsLead(n);
    assert IsDigit(d[0]) && u[0] == d[0];
    if negative {
      assert s == [MINUS] + u && s[1..] == u;
    } else {
      assert s == u;
    }
    DigitRunOf(d, t);
    assert u[|d|..] == t;
    assert n == 0 ==> |d| == 1;
  }

  lemma IntegerIsNumber(n: int, t: seq<Byte>)
    requires Stops(t)
    ensures AfterNumber(IntegerText(n) + t) == Some(t)
  {
    DigitsAreInteger(n < 0, Abs(n), t);
  }

  lemma TenthIsNumber(n: int, t: seq<Byte>)
    requires Stops(t)
    ensures AfterNumber(TenthText(n) + t) == Some(t)
  {
    hide Digits, AfterNumber, AfterFraction;
    var digit: Byte := ZERO + Abs(n) % 10;
    var f := [DOT, digit] + t;
    assert TenthText(n) + t == Sign(n < 0) + Digits(Abs(n) / 10) + f;
    DigitsAreInteger(n < 0, Abs(n) / 10, f);
    DigitIsFraction(digit, t);
  }

  lemma DigitIsFraction(digit: Byte, t: seq<Byte>)
    requires IsDigit(digit) && Stops(t)
    ensures AfterFraction([DOT, digit] + t) == Some(t)
  {
    hide DigitRun;
    var f := [DOT, digit] + t;
    assert f[1..] == [digit] + t;
    DigitRunOf([digit], t);
    assert f[1..][1..] == t;
  }

  /** A value is printed as a number exactly if ten times it is finite. */
  lemma ValueIsNumber(v: F64, display: real -> int, t: seq<Byte>)
    requires Stops(t)
    ensures AfterNumber(FmtNum(v, display) + t) == if Readable(v) then Some(t) else None
  {
    hide Digits, TenthText, IntegerText, AfterFraction, TenTimes, Limit;
    if Readable(v) {
      var q := Rounded(v).x;
      IntegerIsNumber(Clamp(q.Floor), t);
      TenthIsNumber(display(q), t);
    } else {
      assert (Sign(true) + INF + t)[1] == 0x69 && (Sign(false) + INF + t)[0] == 0x69;
      assert (NOT_A_NUMBER + t)[0] == 0x4e;
    }
  }

  predicate Good(e: Entry) { Readable(e.1) && Printable(e.0) }

  /** One line, behind its indentation, is a member exactly if its key and value are good. */
  lemma PairIsMember(e: Entry, last: bool, rest: seq<Byte>, display: real -> int)
    ensures AfterMember(Pair(e, last, rest, display)) == if Good(e) then Some(AfterSpace(LineEnd(last, rest))) else None
  {
    hide FmtNum, Escape, Readable, Printable, AfterString, AfterNumber;
    var number := FmtNum(e.1, display) + LineEnd(last, rest);
    var colon := [COLON] + ([SPACE] + number);
    var s := Pair(e, last, rest, display);
    assert s[1..] == Escape(e.0) + ([QUOTE] + colon);
    KeyIsString(e.0, colon);
    assert AfterSpace(colon) == colon && colon[1..] == [SPACE] + number;
    ValueIsNumber(e.1, display, LineEnd(last, rest));
    FmtNumStarts(e.1, display);
    assert ([SPACE] + number)[1..] == number && AfterSpace(number) == number;
  }

  lemma AfterIndent(t: seq<Byte>)
    requires t != [] && !IsJsonSpace(t[0])
    ensures AfterSpace([SPACE, SPACE] + t) == t
  {
    var s := [SPACE, SPACE] + t;
    assert s[1..] == [SPACE] + t && ([SPACE] + t)[1..] == t;
    assert AfterSpace([SPACE] + t) == t;
  }

  lemma {:induction false} LinesAreMembers(entries: seq<Entry>, display: real -> int)
    requires entries != []
    ensures AfterMembers(AfterSpace(Lines(entries, display) + FOOTER)) ==
            if forall i :: 0 <= i < |entries| ==> Good(entries[i]) then Some([NEWLINE]) else None
  {
    hide Good, Line, Pair;
    var e, last, rest := entries[0], |entries| == 1, Lines(entries[1..], display) + FOOTER;
    var s := Lines(entries, display) + FOOTER;
    assert s == Line(e, last, display) + rest;
    LineIsPair(e, last, rest, display);
    PairIsMember(e, last, rest, display);
    AfterIndent(Pair(e, last, rest, display));
    var end := LineEnd(last, rest);
    if last {
      assert rest == FOOTER && end[1..] == FOOTER;
      assert FOOTER[1..] == [NEWLINE];
      assert AfterSpace(end) == FOOTER;
    } else {
      LinesAreMembers(entries[1..], display);
      assert end[1..] == [NEWLINE] + rest && ([NEWLINE] + rest)[1..] == rest;
      assert AfterSpace(end) == end && AfterSpace(end[1..]) == AfterSpace(rest);
      assert entries == [e] + entries[1..];
    }
  }

  /**
   The printed file is a JSON object exactly if ten times every value is finite
   and no key holds a control character other than tab, newline and return.
   */
  lemma PrintIsJson(entries: seq<Entry>, display: real -> int)
    ensures IsFlatObject(Print(entries, display)) <==>
            forall i :: 0 <= i < |entries| ==> Readable(entries[i].1) && Printable(entries[i].0)
  {
    hide Lines, Readable, Printable, AfterMembers;
    var body := Lines(entries, display) + FOOTER;
    var s := Print(entries, display);
    assert s == [OPEN, NEWLINE] + body && s[1..] == [NEWLINE] + body && ([NEWLINE] + body)[1..] == body;
    assert AfterSpace(s) == s && AfterSpace(s[1..]) == AfterSpace(body);
    assert AfterSpace([NEWLINE]) == [];
    if entries == [] {
      EmptyBody(display);
      assert FOOTER[1..] == [NEWLINE];
    } else {
      LinesAreMembers(entries, display);
      LinesStart(entries, display);
      assert forall i :: 0 <= i < |entries| ==> (Good(entries[i]) <==> Readable(entries[i].1) && Printable(entries[i].0));
    }
  }

  lemma EmptyBody(display: real -> int)
    ensures Lines([], display) + FOOTER == FOOTER
  {
  }

  lemma LinesStart(entries: seq<Entry>, display: real -> int)
    requires entries != []
    ensures var t := AfterSpace(Lines(entries, display) + FOOTER); t != [] && t[0] == 0x22
  {
    hide Pair, Escape, FmtNum;
    var e, last, rest := entries[0], |entries| == 1, Lines(entries[1..], display) + FOOTER;
    var s := Lines(entries, display) + FOOTER;
    LineIsPair(e, last, rest, display);
    assert s == Line(e, last, display) + rest;
    AfterIndent(Pair(e, last, rest, display));
  }

  // ---- How a number is printed ----------------------------------------------

  /** The double nearest to an integer is an integer. */
  lemma NearestOfInteger(k: int)
    requires Magnitude(Nearest(k as real)) < Limit()
    ensures IsInteger(Nearest(k as real))
  {
    hide Nearest, Limit, IsValue, Round;
    var q := Nearest(k as real);
    NearestIsValue(k as real);
    if -TWO_53 <= k <= TWO_53 {
      SmallIntegerIsValue(k);
      ValueIsNearest(k as real);
    } else {
      SmallIntegerIsValue(if k > 0 then TWO_53 else -TWO_53);
      NearestIsClosest(k as real, if k > 0 then TWO_53 as real else -TWO_53 as real);
      if q < 0.0 {
        NegativeIsValue(q);
      }
      LargeIsInteger(Magnitude(q));
      WholeIsInteger(q, if q < 0.0 then -Round(-q) else Round(q));
    }
  }

  /** The digits shown for a double that is no integer do not end in a zero. */
  lemma LastDigitShows(v: F64, display: real -> int)
    requires Readable(v) && Faithful(display) && !IsInteger(Rounded(v).x)
    ensures Abs(display(Rounded(v).x)) % 10 != 0
  {
    hide Nearest, Limit, TenTimes, Round, IsInteger;
    var q, t := Rounded(v).x, Round(TenTimes(v.x));
    assert ShowsTenth(display, t);
    var shown := display(q);
    assert Nearest(shown as real / 10.0) == q;
    if Abs(shown) % 10 == 0 {
      var k := shown / 10;
      assert shown == 10 * k;
      assert shown as real / 10.0 == k as real;
      RescaledFinite(v.x);
      NearestOfInteger(k);
      assert false;
    }
  }

  lemma DigitsPlain(negative: bool, n: nat)
    ensures DOT !in Sign(negative) + Digits(n)
    ensures LOWER_E !in Sign(negative) + Digits(n) && UPPER_E !in Sign(negative) + Digits(n)
  {
    hide Digits;
  }

  /**
   Numbers are printed without an exponent. An integer is printed without a dot;
   any other value with one digit behind the dot, and that digit is no zero.
   */
  lemma NoTail(v: F64, display: real -> int)
    requires Readable(v) && Faithful(display)
    ensures var s := FmtNum(v, display);
      && LOWER_E !in s && UPPER_E !in s
      && (DOT in s <==> !IsInteger(Rounded(v).x))
      && (DOT in s ==> |s| >= 2 && s[|s| - 2] == DOT && s[|s| - 1] != ZERO)
  {
    hide Digits, Readable, Faithful, Rounded, Clamp, IsInteger, Nearest;
    FiniteWhenReadable(v);
    var q := Rounded(v).x;
    if IsInteger(q) {
      DigitsPlain(Clamp(q.Floor) < 0, Abs(Clamp(q.Floor)));
    } else {
      LastDigitShows(v, display);
      var t := display(q);
      DigitsPlain(t < 0, Abs(t) / 10);
      var s := FmtNum(v, display);
      assert s == Sign(t < 0) + Digits(Abs(t) / 10) + [DOT, ZERO + Abs(t) % 10];
      assert s[|s| - 2] == DOT;
    }
  }

  lemma FiniteWhenReadable(v: F64)
    requires Readable(v)
    ensures Rounded(v).Finite?
  {
  }

  // ---- Which keys are escaped -----------------------------------------------

  predicate NeedsEscape(b: Byte) { b == 0x22 || b == 0x5c || b == 0x0a || b == 0x0d || b == 0x09 }

  /** A key is printed as it is exactly if it holds no quote, backslash, newline, return or tab. */
  lemma {:induction false} EscapeExact(key: seq<Byte>)
    ensures |Escape(key)| >= |key|
    ensures Escape(key) == key <==> forall i :: 0 <= i < |key| ==> !NeedsEscape(key[i])
  {
    if key != [] {
      EscapeExact(key[1..]);
      assert key == [key[0]] + key[1..];
      assert |EscapeByte(key[0])| == if NeedsEscape(key[0]) then 2 else 1;
      if Escape(key) == key {
        assert EscapeByte(key[0]) == [key[0]];
        assert Escape(key)[1..] == Escape(key[1..]);
      }
    }
  }

  // ---- The parser accepts JSON ----------------------------------------------

  /** The parser's white space includes JSON's. */
  lemma {:induction false} SpacesAgree(s: seq<Byte>)
    requires AfterSpace(s) != [] ==> !IsSpace(AfterSpace(s)[0])
    ensures SkipSpaces(s) == AfterSpace(s)
  {
    if s != [] && IsJsonSpace(s[0]) {
      SpacesAgree(s[1..]);
    }
  }

  /** The parser ends a string where JSON does. */
  lemma {:induction false} StringIsKey(s: seq<Byte>)
    requires AfterString(s).Some?
    ensures ParseKey(s).Ok? && ParseKey(s).value.1 == AfterString(s).value
    decreases |s|
  {
    hide WidenByte, Unescape;
    if s[0] == 0x22 {
    } else if s[0] == 0x5c {
      var n := EscapeLength(s);
      StringIsKey(s[n..]);
      if n == 6 {
        assert s[2..][1..] == s[3..] && s[3..][1..] == s[4..] && s[4..][1..] == s[5..] && s[5..][1..] == s[6..];
        assert s[2..][0] == s[2] && s[3..][0] == s[3] && s[4..][0] == s[4] && s[5..][0] == s[5];
        assert ParseKey(s[5..]).Ok? && ParseKey(s[4..]).Ok? && ParseKey(s[3..]).Ok?;
      }
    } else {
      StringIsKey(s[1..]);
    }
  }

  predicate NumberBytes(s: seq<Byte>) { forall i :: 0 <= i < |s| ==> IsNumberByte(s[i]) }

  lemma {:induction false} DigitRunDigits(s: seq<Byte>)
    ensures AllDigits(s[..DigitRun(s)]) && (DigitRun(s) < |s| ==> !IsDigit(s[DigitRun(s)]))
  {
    if s != [] && IsDigit(s[0]) {
      DigitRunDigits(s[1..]);
      assert s[..DigitRun(s)] == [s[0]] + s[1..][..DigitRun(s[1..])];
    }
  }

  lemma DigitRunAll(d: seq<Byte>)
    requires AllDigits(d)
    ensures DigitRun(d) == |d|
  {
    DigitRunOf(d, []);
    assert d + [] == d;
  }

  lemma First(s: seq<Byte>)
    requires s != []
    ensures s == [s[0]] + s[1..]
  {
  }

  lemma NoneBefore(s: seq<Byte>)
    ensures s == [] + s
  {
  }

  lemma CutAt(s: seq<Byte>, n: nat)
    requires n <= |s|
    ensures s == s[..n] + s[n..]
  {
  }

  /** The part of the text that is an exponent, which the parser reads. */
  lemma ExponentPart(s: seq<Byte>) returns (e: seq<Byte>)
    requires AfterExponent(s).Some?
    ensures s == e + AfterExponent(s).value && NumberBytes(e) && BaselineJson.Exponent(e).Some?
    ensures e != [] ==> e[0] == LOWER_E || e[0] == UPPER_E
  {
    if s == [] || (s[0] != 0x65 && s[0] != 0x45) {
      e := [];
    } else {
      hide DigitRun, BaselineJson.Exponent, NumberBytes, AllDigits;
      var v := s[1..];
      var signed := v != [] && (v[0] == MINUS || v[0] == PLUS);
      var sign, u := if signed then [v[0]] else [], if signed then v[1..] else v;
      var d, rest := u[..DigitRun(u)], u[DigitRun(u)..];
      DigitRunDigits(u);
      e := [s[0]] + (sign + d);
      ExponentReads(s[0], sign, d);
      Rejoin([s[0]], sign, d, rest);
      First(s);
      if signed {
        First(v);
      } else {
        NoneBefore(v);
      }
      CutAt(u, DigitRun(u));
    }
  }

  lemma ExponentReads(letter: Byte, sign: seq<Byte>, d: seq<Byte>)
    requires (letter == LOWER_E || letter == UPPER_E) && d != [] && AllDigits(d)
    requires sign == [] || sign == [MINUS] || sign == [PLUS]
    ensures NumberBytes([letter] + (sign + d)) && BaselineJson.Exponent([letter] + (sign + d)).Some?
    ensures ([letter] + (sign + d))[0] == letter
  {
    hide DigitRun, DigitsValue;
    var e := [letter] + (sign + d);
    assert e[1..] == sign + d;
    assert IsDigit(d[0]);
    if sign == [] {
      assert sign + d == d;
    } else {
      assert (sign + d)[1..] == d;
    }
    assert Unsigned(e[1..]) == d;
    DigitRunAll(d);
  }

  /** Behind any whole digits, `m` makes a mantissa and an exponent the parser reads. */
  ghost predicate Completes(m: seq<Byte>) {
    forall w :: w != [] && AllDigits(w) ==> MantissaValue(SplitMantissa(w + m)).Some?
  }

  lemma PlainCompletes(e: seq<Byte>)
    requires BaselineJson.Exponent(e).Some? && (e != [] ==> e[0] == LOWER_E || e[0] == UPPER_E)
    ensures Completes(e)
  {
    hide DigitRun, DigitsValue, Scale, BaselineJson.Exponent;
    forall w | w != [] && AllDigits(w)
      ensures MantissaValue(SplitMantissa(w + e)).Some?
    {
      DigitRunOf(w, e);
      assert (w + e)[..|w|] == w && (w + e)[|w|..] == e;
      assert SplitMantissa(w + e) == Mantissa(w, [], e);
    }
  }

  lemma DottedCompletes(f: seq<Byte>, e: seq<Byte>)
    requires AllDigits(f) && BaselineJson.Exponent(e).Some? && (e != [] ==> e[0] == LOWER_E || e[0] == UPPER_E)
    ensures Completes([DOT] + (f + e))
  {
    hide DigitRun, DigitsValue, Scale, BaselineJson.Exponent;
    var m := [DOT] + (f + e);
    forall w | w != [] && AllDigits(w)
      ensures MantissaValue(SplitMantissa(w + m)).Some?
    {
      DigitRunOf(w, m);
      DigitRunOf(f, e);
      assert (w + m)[..|w|] == w && (w + m)[|w|] == DOT && (w + m)[|w| + 1..] == f + e;
      assert (f + e)[..|f|] == f && (f + e)[|f|..] == e;
      assert SplitMantissa(w + m) == Mantissa(w, f, e);
    }
  }

  lemma DottedBytes(d: seq<Byte>, e: seq<Byte>)
    requires AllDigits(d) && NumberBytes(e)
    ensures NumberBytes([DOT] + (d + e))
  {
  }

  lemma SignedBytes(negative: bool, d: seq<Byte>, f: seq<Byte>)
    requires AllDigits(d) && NumberBytes(f)
    ensures NumberBytes(Sign(negative) + (d + f))
  {
  }

  lemma Rejoin(a: seq<Byte>, b: seq<Byte>, c: seq<Byte>, r: seq<Byte>)
    ensures a + (b + (c + r)) == a + (b + c) + r
  {
  }

  /** The part of the text that is a fraction and an exponent. */
  lemma FractionPart(s: seq<Byte>) returns (m: seq<Byte>)
    requires AfterFraction(s).Some?
    ensures s == m + AfterFraction(s).value && NumberBytes(m) && Completes(m)
  {
    hide DigitRun, Completes, BaselineJson.Exponent, AfterExponent, NumberBytes, AllDigits;
    if s == [] || s[0] != 0x2e {
      m := ExponentPart(s);
      PlainCompletes(m);
    } else {
      var f := s[1..];
      var d, rest := f[..DigitRun(f)], f[DigitRun(f)..];
      DigitRunDigits(f);
      var e := ExponentPart(rest);
      m := [DOT] + (d + e);
      DottedCompletes(d, e);
      DottedBytes(d, e);
      Rejoin([DOT], d, e, AfterExponent(rest).value);
      First(s);
      CutAt(f, DigitRun(f));
    }
  }

  /** A JSON number is a number to the parser. */
  lemma NumberPart(s: seq<Byte>) returns (m: seq<Byte>)
    requires AfterNumber(s).Some?
    ensures s == m + AfterNumber(s).value && m != [] && NumberBytes(m) && ParseNumber(m).Some?
  {
    hide DigitRun, AfterFraction, Completes, NumberBytes, ParseNumber;
    var negative := s[0] == 0x2d;
    var u := if negative then s[1..] else s;
    var n := if u[0] == 0x30 then 1 else DigitRun(u);
    DigitRunDigits(u);
    RunStarts(u);
    var w, rest := u[..n], u[n..];
    assert AllDigits(w);
    var f := FractionPart(rest);
    m := Sign(negative) + (w + f);
    SignedReads(negative, w, f);
    SignedBytes(negative, w, f);
    Rejoin(Sign(negative), w, f, AfterFraction(rest).value);
    CutAt(u, n);
    if negative {
      First(s);
    } else {
      NoneBefore(s);
    }
  }

  lemma SignedReads(negative: bool, w: seq<Byte>, f: seq<Byte>)
    requires w != [] && AllDigits(w) && Completes(f)
    ensures ParseNumber(Sign(negative) + (w + f)).Some?
  {
    hide MantissaValue, SplitMantissa;
    var m := Sign(negative) + (w + f);
    assert IsDigit(w[0]);
    if negative {
      assert m[1..] == w + f;
    } else {
      assert m == w + f && m[0] == w[0];
    }
    assert Unsigned(m) == w + f;
  }

  lemma RunStarts(u: seq<Byte>)
    requires u != [] && IsDigit(u[0])
    ensures DigitRun(u) > 0
  {
  }

  lemma NumberStarts(s: seq<Byte>)
    requires AfterNumber(s).Some?
    ensures s != [] && !IsSpace(s[0])
  {
    hide AfterFraction, DigitRun;
  }

  lemma SpaceIsNoNumber(s: seq<Byte>)
    requires AfterSpace(s) != [] && !IsNumberByte(AfterSpace(s)[0])
    ensures s != [] && !IsNumberByte(s[0])
  {
  }

  /** A JSON number and the space behind it, as the parser reads them. */
  lemma NumberIsValue(v: seq<Byte>, r: seq<Byte>)
    requires AfterNumber(v).Some? && AfterSpace(AfterNumber(v).value) == r
    requires r != [] && (r[0] == CLOSE || r[0] == COMMA)
    ensures ParseValue(v).Ok? && ParseValue(v).value.1 == if r[0] == COMMA then r[1..] else r
  {
    hide AfterNumber, AfterSpace, ParseNumber, NumberBytes, NumberRun, SkipSpaces, ToF64;
    var m := NumberPart(v);
    var rest := AfterNumber(v).value;
    SpaceIsNoNumber(rest);
    NumberBytesRun(m, rest);
    assert v[..|m|] == m && v[|m|..] == rest;
    SpacesAgree(rest);
  }

  lemma NumberBytesRun(m: seq<Byte>, rest: seq<Byte>)
    requires NumberBytes(m) && rest != [] && !IsNumberByte(rest[0])
    ensures NumberRun(m + rest) == |m|
  {
    NumberRunOf(m, rest);
  }

  /** A member, and a separator behind it, as the parser reads them. */
  lemma MemberIsPair(s: seq<Byte>)
    requires AfterMember(s).Some? && AfterMember(s).value != []
    requires AfterMember(s).value[0] == CLOSE || AfterMember(s).value[0] == COMMA
    ensures ParsePair(s).Ok?
    ensures var r := AfterMember(s).value; ParsePair(s).value.2 == if r[0] == COMMA then r[1..] else r
  {
    hide AfterString, AfterNumber, AfterSpace, ParseKey, ParseValue, SkipSpaces;
    var key := AfterString(s[1..]).value;
    StringIsKey(s[1..]);
    var colon := AfterSpace(key);
    SpacesAgree(key);
    var v := AfterSpace(colon[1..]);
    NumberStarts(v);
    SpacesAgree(colon[1..]);
    NumberIsValue(v, AfterMember(s).value);
  }

  lemma {:induction false} MembersArePairs(s: seq<Byte>, m: Object)
    requires AfterMembers(s).Some?
    ensures ParsePairs(s, m).Ok?
    decreases |s|
  {
    hide AfterMember, ParsePair;
    var r := AfterMember(s).value;
    MemberStarts(s);
    MemberIsPair(s);
    var (key, x, rest) := ParsePair(s).value;
    if r[0] == COMMA {
      var next := AfterSpace(rest);
      MemberStarts(next);
      SpacesAgree(rest);
      MembersArePairs(next, m[key := x]);
      assert SkipSpaces(next) == next;
    } else {
      assert SkipSpaces(r) == r;
    }
  }

  lemma MemberStarts(s: seq<Byte>)
    requires AfterMember(s).Some?
    ensures s != [] && s[0] == QUOTE && SkipSpaces(s) == s
  {
  }

  /** The parser reads every JSON object of numbers. */
  lemma ParseAcceptsJson(s: seq<Byte>)
    requires IsFlatObject(s)
    ensures Parse(s).Ok?
  {
    hide AfterMembers;
    var t := AfterSpace(s);
    SpacesAgree(s);
    var u := AfterSpace(t[1..]);
    if u != [] && u[0] == 0x7d {
      SpacesAgree(t[1..]);
    } else {
      MembersStart(u);
      SpacesAgree(t[1..]);
      MembersArePairs(u, map[]);
      assert SkipSpaces(u) == u;
    }
  }

  lemma MembersStart(s: seq<Byte>)
    requires AfterMembers(s).Some?
    ensures s != [] && s[0] == QUOTE && SkipSpaces(s) == s
  {
    hide AfterMember;
    MemberStarts(s);
  }
}
