/**
 The codegen fingerprint (`build.rs`): every source file is framed as a record
 and the byte stream is folded into two 64-bit FNV-1a-style lanes.
 */
module Fingerprint {
  import opened Common
  import opened Text

  const FNV_OFFSET := 0xcbf2_9ce4_8422_2325
  const FNV_PRIME := 0x0000_0100_0000_01b3
  const UNIT_SEPARATOR: Byte := 0x1f
  const RECORD_SEPARATOR: Byte := 0x1e

  datatype SourceFile = SourceFile(path: seq<Byte>, content: seq<Byte>)

  datatype Lanes = Lanes(hi: nat, lo: nat)

  // ---- The fold -------------------------------------------------------------

  /** Bitwise exclusive or of the low `n` bits. */
  function Xor(x: nat, y: nat, n: nat): (r: nat)
    ensures r < Pow2(n)
  {
    if n == 0 then 0
    else (if x % 2 == y % 2 then 0 else 1) + 2 * Xor(x / 2, y / 2, n - 1)
  }

  /** Bit `k` of `x`. */
  function Bit(x: nat, k: nat): nat { x / Pow2(k) % 2 }

  lemma Associate(a: int, b: int, c: int)
    ensures a * b * c == a * (b * c)
  {
  }

  lemma Expand(a: int, b: int, c: int)
    ensures a * (b + c) == a * b + a * c
  {
  }

  lemma MultiplyOrder(m: nat, p: int, q: int)
    requires p > q
    ensures m * p >= m * q + m
  {
    Expand(m, q, p - q);
    assert m * (p - q) >= m;
  }

  /** Dividing twice is dividing by the product. */
  lemma DivideTwice(x: nat, a: nat, m: nat)
    requires a > 0 && m > 0
    ensures a * m > 0 && x / (a * m) == x / a / m
  {
    var y, t := x / a, x % a;
    var q, r := y / m, y % m;
    DivideParts(x, y, t, q, r, a, m, m * q, a * m);
    QuotientIs(x, a * m, q);
  }

  lemma DivideParts(x: nat, y: nat, t: nat, q: nat, r: nat, a: nat, m: nat, mq: nat, am: nat)
    requires mq == m * q && am == a * m && y == mq + r && x == a * y + t && r < m && t < a
    ensures am > 0 && am * q <= x < am * q + am
  {
    Expand(a, mq, r);
    Associate(a, m, q);
    Expand(a, r, m - r);
    assert a * (m - r) >= a;
  }

  lemma QuotientIs(x: nat, m: nat, q: nat)
    requires m > 0 && m * q <= x < m * q + m
    ensures x / m == q
  {
    var p := x / m;
    assert m * p <= x < m * p + m;
    if p > q {
      MultiplyOrder(m, p, q);
    } else if p < q {
      MultiplyOrder(m, q, p);
    }
  }

  lemma BitOfHalf(x: nat, k: nat)
    requires k > 0
    ensures Bit(x, k) == Bit(x / 2, k - 1)
  {
    DivideTwice(x, 2, Pow2(k - 1));
  }

  /** A bit of the result is set exactly if the bits of the operands differ. */
  lemma {:induction false} XorBits(x: nat, y: nat, n: nat, k: nat)
    requires k < n
    ensures Bit(Xor(x, y, n), k) == 1 <==> Bit(x, k) != Bit(y, k)
  {
    if k == 0 {
      assert Xor(x, y, n) % 2 == if x % 2 == y % 2 then 0 else 1;
    } else {
      XorBits(x / 2, y / 2, n - 1, k - 1);
      BitOfHalf(x, k);
      BitOfHalf(y, k);
      BitOfHalf(Xor(x, y, n), k);
      assert Xor(x, y, n) / 2 == Xor(x / 2, y / 2, n - 1);
    }
  }

  lemma Pow64()
    ensures Pow2(64) == TWO_64
  {
    assert Pow2(8) == 256 by {
      assert Pow2(4) == 16;
    }
    assert Pow2(16) == 65536 by {
      assert Pow2(12) == 4096;
    }
    assert Pow2(24) == 0x100_0000 by {
      assert Pow2(20) == 0x10_0000;
    }
    assert Pow2(32) == 0x1_0000_0000 by {
      assert Pow2(28) == 0x1000_0000;
    }
    assert Pow2(40) == 0x100_0000_0000 by {
      assert Pow2(36) == 0x10_0000_0000;
    }
    assert Pow2(48) == 0x1_0000_0000_0000 by {
      assert Pow2(44) == 0x1000_0000_0000;
    }
    assert Pow2(56) == 0x100_0000_0000_0000 by {
      assert Pow2(52) == 0x10_0000_0000_0000;
    }
    assert Pow2(60) == 0x1000_0000_0000_0000;
  }

  /** Exclusive or is injective in each argument. */
  lemma {:induction false} XorInjective(x: nat, y: nat, x': nat, y': nat, n: nat)
    requires x < Pow2(n) && y < Pow2(n) && x' < Pow2(n) && y' < Pow2(n)
    requires Xor(x, y, n) == Xor(x', y', n)
    ensures x == x' <==> y == y'
  {
    if n > 0 {
      XorInjective(x / 2, y / 2, x' / 2, y' / 2, n - 1);
    }
  }

  /** Multiplication by the odd prime is injective modulo `2^64`: the prime has an inverse. */
  lemma PrimeInjective(x: nat, y: nat)
    requires x < TWO_64 && y < TWO_64 && x * FNV_PRIME % TWO_64 == y * FNV_PRIME % TWO_64
    ensures x == y
  {
    var inverse := 0xce96_5057_aff6_957b;
    assert FNV_PRIME * inverse == 1 + 887285111055 * TWO_64;
    var q := x * FNV_PRIME / TWO_64 - y * FNV_PRIME / TWO_64;
    assert (x - y) * FNV_PRIME == q * TWO_64;
    assert (x - y) * (1 + 887285111055 * TWO_64) == q * inverse * TWO_64;
    assert x - y == TWO_64 * (q * inverse - 887285111055 * (x - y));
  }

  function MixHi(hi: nat, b: Byte): (r: nat)
    ensures r < TWO_64
  {
    Xor(hi, b, 64) * FNV_PRIME % TWO_64
  }

  /** The byte is rotated by one bit first, which for a byte is a doubling. */
  function MixLo(lo: nat, b: Byte): (r: nat)
    ensures r < TWO_64
  {
    Xor(lo, 2 * b, 64) * FNV_PRIME % TWO_64
  }

  /** `z` is `x` exclusive-or `y` on 64 bits, then times the FNV prime modulo `2^64`. */
  ghost predicate Mixed(x: nat, y: nat, z: nat) {
    exists w: nat :: w < 0x1_0000_0000_0000_0000
      && (forall k: nat :: k < 64 ==> (Bit(w, k) == 1 <==> Bit(x, k) != Bit(y, k)))
      && z < 0x1_0000_0000_0000_0000 && (z - 0x100_0000_01b3 * w) % 0x1_0000_0000_0000_0000 == 0
  }

  lemma MixedBy(x: nat, y: nat)
    ensures Mixed(x, y, Xor(x, y, 64) * FNV_PRIME % TWO_64)
  {
    hide Bit;
    var w, z := Xor(x, y, 64), Xor(x, y, 64) * FNV_PRIME % TWO_64;
    Pow64();
    forall k: nat | k < 64
      ensures Bit(w, k) == 1 <==> Bit(x, k) != Bit(y, k)
    {
      XorBits(x, y, 64, k);
    }
    assert z - 0x100_0000_01b3 * w == TWO_64 * -(w * FNV_PRIME / TWO_64);
    MultipleOfTwo64(-(w * FNV_PRIME / TWO_64));
  }

  lemma MultipleOfTwo64(m: int)
    ensures TWO_64 * m % TWO_64 == 0
  {
  }

  /** One step is the FNV-1a step on the byte, and on twice the byte in the low lane. */
  lemma MixExact(l: Lanes, b: Byte)
    ensures Mixed(l.hi, b, MixHi(l.hi, b)) && Mixed(l.lo, 2 * b, MixLo(l.lo, b))
  {
    hide Mixed;
    MixedBy(l.hi, b);
    MixedBy(l.lo, 2 * b);
  }

  function Mix(l: Lanes, bytes: seq<Byte>): (r: Lanes)
    requires l.hi < TWO_64 && l.lo < TWO_64
    ensures r.hi < TWO_64 && r.lo < TWO_64
  {
    if bytes == [] then l
    else
      var before := Mix(l, bytes[..|bytes| - 1]);
      var b := bytes[|bytes| - 1];
      Lanes(MixHi(before.hi, b), MixLo(before.lo, b))
  }

  lemma {:induction false} MixConcat(l: Lanes, a: seq<Byte>, b: seq<Byte>)
    requires l.hi < TWO_64 && l.lo < TWO_64
    ensures Mix(l, a + b) == Mix(Mix(l, a), b)
  {
    hide MixHi, MixLo;
    if b == [] {
      assert a + b == a;
    } else {
      MixConcat(l, a, b[..|b| - 1]);
      assert (a + b)[..|a + b| - 1] == a + b[..|b| - 1];
    }
  }

  /** One step is injective in the state and in the byte. */
  lemma MixHiInjective(hi: nat, b: Byte, hi': nat, b': Byte)
    requires hi < TWO_64 && hi' < TWO_64 && MixHi(hi, b) == MixHi(hi', b')
    ensures hi == hi' <==> b == b'
  {
    Pow64();
    PrimeInjective(Xor(hi, b, 64), Xor(hi', b', 64));
    XorInjective(hi, b, hi', b', 64);
  }

  lemma MixLoInjective(lo: nat, b: Byte, lo': nat, b': Byte)
    requires lo < TWO_64 && lo' < TWO_64 && MixLo(lo, b) == MixLo(lo', b')
    ensures lo == lo' <==> b == b'
  {
    Pow64();
    PrimeInjective(Xor(lo, 2 * b, 64), Xor(lo', 2 * b', 64));
    XorInjective(lo, 2 * b, lo', 2 * b', 64);
  }

  /** The two states differ in both lanes. */
  predicate Apart(l: Lanes, m: Lanes) { l.hi != m.hi && l.lo != m.lo }

  lemma MixStepApart(l: Lanes, b: Byte, m: Lanes, b': Byte)
    requires l.hi < TWO_64 && l.lo < TWO_64 && m.hi < TWO_64 && m.lo < TWO_64
    requires if b == b' then Apart(l, m) else l == m
    ensures Apart(Lanes(MixHi(l.hi, b), MixLo(l.lo, b)), Lanes(MixHi(m.hi, b'), MixLo(m.lo, b')))
  {
    hide MixHi, MixLo;
    if MixHi(l.hi, b) == MixHi(m.hi, b') {
      MixHiInjective(l.hi, b, m.hi, b');
    }
    if MixLo(l.lo, b) == MixLo(m.lo, b') {
      MixLoInjective(l.lo, b, m.lo, b');
    }
  }

  /** States that differ in both lanes still do after the same bytes. */
  lemma {:induction false} MixKeepsApart(l: Lanes, m: Lanes, bytes: seq<Byte>)
    requires l.hi < TWO_64 && l.lo < TWO_64 && m.hi < TWO_64 && m.lo < TWO_64 && Apart(l, m)
    ensures Apart(Mix(l, bytes), Mix(m, bytes))
  {
    hide MixHi, MixLo;
    if bytes != [] {
      var init, b := bytes[..|bytes| - 1], bytes[|bytes| - 1];
      MixKeepsApart(l, m, init);
      MixStepApart(Mix(l, init), b, Mix(m, init), b);
    }
  }

  /** Every other bit flipped, starting with the lowest. */
  function Flipped(x: nat): (r: nat)
    ensures r < TWO_64 && r % 2 != x % 2
  {
    Pow64();
    XorParity(x, 0x5555_5555_5555_5555, 64);
    Xor(x, 0x5555_5555_5555_5555, 64)
  }

  const SEED := Lanes(FNV_OFFSET, Flipped(FNV_OFFSET))

  /** The seeds are the FNV offset basis, and that with every other bit flipped. */
  lemma SeedExact(k: nat)
    requires k < 64
    ensures SEED.hi == 0xcbf2_9ce4_8422_2325
    ensures Bit(SEED.lo, k) == 1 <==> Bit(0xcbf2_9ce4_8422_2325, k) != Bit(0x5555_5555_5555_5555, k)
  {
    hide Xor, Bit;
    XorBits(FNV_OFFSET, 0x5555_5555_5555_5555, 64, k);
  }

  /** Streams that differ in one byte have digests that differ in both lanes. */
  lemma OneByteChanges(a: seq<Byte>, x: Byte, y: Byte, c: seq<Byte>)
    requires x != y
    ensures Apart(Mix(SEED, a + [x] + c), Mix(SEED, a + [y] + c))
  {
    hide MixHi, MixLo;
    var s := Mix(SEED, a);
    MixConcat(SEED, a + [x], c);
    MixConcat(SEED, a + [y], c);
    assert (a + [x])[..|a|] == a && (a + [y])[..|a|] == a;
    MixStepApart(s, x, s, y);
    MixKeepsApart(Mix(SEED, a + [x]), Mix(SEED, a + [y]), c);
  }

  // ---- The low lane loses a bit ---------------------------------------------

  lemma XorParity(x: nat, y: nat, n: nat)
    requires n > 0
    ensures Xor(x, y, n) % 2 == (x + y) % 2
  {
  }

  lemma EvenTimesPrime(x: nat)
    requires x % 2 == 0
    ensures x * FNV_PRIME % TWO_64 % 2 == 0
  {
    EvenRemainder(x / 2 * FNV_PRIME);
  }

  lemma EvenRemainder(m: nat)
    ensures 2 * m % TWO_64 % 2 == 0
  {
    var z := m - 2 * m / TWO_64 * 0x8000_0000_0000_0000;
    assert 2 * m % TWO_64 == 2 * z;
  }

  lemma MixLoIsEven(lo: nat, b: Byte)
    requires lo % 2 == 0
    ensures MixLo(lo, b) % 2 == 0
  {
    hide Xor;
    XorParity(lo, 2 * b, 64);
    EvenTimesPrime(Xor(lo, 2 * b, 64));
  }

  /** The low lane starts even and every rotated byte is even, so its lowest bit is always zero. */
  lemma {:induction false} LowLaneIsEven(bytes: seq<Byte>)
    ensures Mix(SEED, bytes).lo % 2 == 0
  {
    hide MixHi, MixLo;
    if bytes != [] {
      var init, b := bytes[..|bytes| - 1], bytes[|bytes| - 1];
      LowLaneIsEven(init);
      MixLoIsEven(Mix(SEED, init).lo, b);
    }
  }

  // ---- Record framing -------------------------------------------------------

  /** Little-endian bytes of an `n`-byte integer. */
  function LeBytes(x: nat, n: nat): (r: seq<Byte>)
    ensures |r| == n
  {
    if n == 0 then [] else [x % 256] + LeBytes(x / 256, n - 1)
  }

  function FromLe(bytes: seq<Byte>): nat {
    if bytes == [] then 0 else bytes[0] + 256 * FromLe(bytes[1..])
  }

  lemma {:induction false} LeRoundTrip(x: nat, n: nat)
    requires x < Pow2(8 * n)
    ensures FromLe(LeBytes(x, n)) == x
  {
    if n > 0 {
      assert Pow2(8 * n) == 256 * Pow2(8 * n - 8) by {
        PowStep(8 * n - 8);
      }
      LeRoundTrip(x / 256, n - 1);
      assert LeBytes(x, n)[1..] == LeBytes(x / 256, n - 1);
    }
  }

  lemma PowStep(n: nat)
    ensures Pow2(n + 8) == 256 * Pow2(n)
  {
    assert Pow2(n + 2) == 4 * Pow2(n) && Pow2(n + 4) == 4 * Pow2(n + 2);
    assert Pow2(n + 6) == 4 * Pow2(n + 4) && Pow2(n + 8) == 4 * Pow2(n + 6);
  }

  /** Byte `k` holds the bits from `8 * k` on: the lowest byte comes first. */
  lemma {:induction false} LeByteAt(x: nat, n: nat, k: nat)
    requires k < n
    ensures LeBytes(x, n)[k] == x / Pow2(8 * k) % 256
  {
    if k > 0 {
      LeByteAt(x / 256, n - 1, k - 1);
      PowStep(8 * k - 8);
      DivideTwice(x, 256, Pow2(8 * k - 8));
    }
  }

  /** One record: path, unit separator, content length, content, record separator. */
  function Record(f: SourceFile): (r: seq<Byte>)
    ensures |r| > 0
  {
    f.path + [UNIT_SEPARATOR] + LeBytes(|f.content|, 8) + f.content + [RECORD_SEPARATOR]
  }

  /** Where everything is in a record. */
  lemma RecordLayout(f: SourceFile)
    ensures var r, k, n := Record(f), |f.path|, |f.content|;
      && |r| == k + n + 10 && r[..k] == f.path && r[k] == 0x1f
      && (forall i: nat :: i < 8 ==> r[k + 1 + i] == n / Pow2(8 * i) % 256)
      && r[k + 9..k + 9 + n] == f.content && r[k + 9 + n] == 0x1e
  {
    hide LeBytes, Pow2;
    var r, k, n := Record(f), |f.path|, |f.content|;
    forall i: nat | i < 8
      ensures r[k + 1 + i] == n / Pow2(8 * i) % 256
    {
      LeByteAt(n, 8, i);
    }
  }

  function Serialize(files: seq<SourceFile>): seq<Byte> {
    if files == [] then [] else Record(files[0]) + Serialize(files[1..])
  }

  function Digest(files: seq<SourceFile>): Lanes { Mix(SEED, Serialize(files)) }

  /** `mix` updates both lanes byte by byte. */
  method MixBytes(l: Lanes, bytes: seq<Byte>) returns (r: Lanes)
    requires l.hi < TWO_64 && l.lo < TWO_64
    ensures r == Mix(l, bytes)
  {
    hide MixHi, MixLo;
    var hi, lo := l.hi, l.lo;
    for i := 0 to |bytes|
      invariant Lanes(hi, lo) == Mix(l, bytes[..i])
    {
      assert bytes[..i + 1][..i] == bytes[..i];
      hi := MixHi(hi, bytes[i]);
      lo := MixLo(lo, bytes[i]);
    }
    assert bytes[..|bytes|] == bytes;
    r := Lanes(hi, lo);
  }

  lemma {:induction false} SerializeSnoc(files: seq<SourceFile>, f: SourceFile)
    ensures Serialize(files + [f]) == Serialize(files) + Record(f)
  {
    hide Record;
    if files == [] {
      assert Serialize([f][1..]) == [] && files + [f] == [f];
    } else {
      SerializeSnoc(files[1..], f);
      assert (files + [f])[1..] == files[1..] + [f];
    }
  }

  /** The loop over the files of `emit_codegen_fingerprint`. */
  method EmitFingerprint(files: seq<SourceFile>) returns (r: Lanes)
    ensures r == Digest(files)
  {
    hide Mix;
    r := SEED;
    SeedMixed();
    for i := 0 to |files|
      invariant r == Mix(SEED, Serialize(files[..i])) && r.hi < TWO_64 && r.lo < TWO_64
    {
      var f := files[i];
      SerializeSnoc(files[..i], f);
      assert files[..i + 1] == files[..i] + [f];
      ghost var done := Serialize(files[..i]);
      MixConcat(SEED, done, Record(f));
      MixRecord(r, f);
      r := MixBytes(r, f.path);
      r := MixBytes(r, [UNIT_SEPARATOR]);
      r := MixBytes(r, LeBytes(|f.content|, 8));
      r := MixBytes(r, f.content);
      r := MixBytes(r, [RECORD_SEPARATOR]);
    }
    assert files[..|files|] == files;
  }

  lemma SeedMixed()
    ensures Mix(SEED, Serialize([])) == SEED
  {
  }

  lemma MixRecord(l: Lanes, f: SourceFile)
    requires l.hi < TWO_64 && l.lo < TWO_64
    ensures Mix(l, Record(f)) ==
            Mix(Mix(Mix(Mix(Mix(l, f.path), [UNIT_SEPARATOR]), LeBytes(|f.content|, 8)), f.content), [RECORD_SEPARATOR])
  {
    hide Mix;
    var a := f.path;
    var b := a + [UNIT_SEPARATOR];
    var c := b + LeBytes(|f.content|, 8);
    MixConcat(l, a, [UNIT_SEPARATOR]);
    MixConcat(l, b, LeBytes(|f.content|, 8));
    MixConcat(l, c, f.content);
    MixConcat(l, c + f.content, [RECORD_SEPARATOR]);
  }

  /** Changing any single content byte of any file changes both lanes of the digest. */
  lemma {:induction false} ContentByteChanges(files: seq<SourceFile>, i: nat, j: nat, y: Byte)
    requires i < |files| && j < |files[i].content| && y != files[i].content[j]
    ensures Apart(Digest(files), Digest(files[i := SourceFile(files[i].path, files[i].content[j := y])]))
  {
    var f := files[i];
    var g := SourceFile(f.path, f.content[j := y]);
    var a, c := SerializeAround(files, i, f, j);
    var a', c' := SerializeAround(files[i := g], i, g, j);
    assert g.content[..j] == f.content[..j] && g.content[j + 1..] == f.content[j + 1..];
    assert files[i := g][..i] == files[..i] && files[i := g][i + 1..] == files[i + 1..];
    OneByteChanges(a, f.content[j], y, c);
  }

  /** The stream around one content byte. */
  lemma SerializeAround(files: seq<SourceFile>, i: nat, f: SourceFile, j: nat) returns (a: seq<Byte>, c: seq<Byte>)
    requires i < |files| && files[i] == f && j < |f.content|
    ensures Serialize(files) == a + [f.content[j]] + c
    ensures a == Serialize(files[..i]) + (f.path + [UNIT_SEPARATOR] + LeBytes(|f.content|, 8) + f.content[..j])
    ensures c == f.content[j + 1..] + [RECORD_SEPARATOR] + Serialize(files[i + 1..])
  {
    hide Record, LeBytes;
    var before, after := Serialize(files[..i]), Serialize(files[i + 1..]);
    var head, tail := RecordAround(f, j);
    a, c := before + head, tail + after;
    SerializeConcat(files[..i], files[i..]);
    assert files == files[..i] + files[i..];
    assert files[i..][1..] == files[i + 1..];
    assert before + (head + [f.content[j]] + tail + after) == a + [f.content[j]] + c;
  }

  /** One record around one of its content bytes. */
  lemma RecordAround(f: SourceFile, j: nat) returns (head: seq<Byte>, tail: seq<Byte>)
    requires j < |f.content|
    ensures Record(f) == head + [f.content[j]] + tail
    ensures head == f.path + [UNIT_SEPARATOR] + LeBytes(|f.content|, 8) + f.content[..j]
    ensures tail == f.content[j + 1..] + [RECORD_SEPARATOR]
  {
    hide LeBytes;
    var frame := f.path + [UNIT_SEPARATOR] + LeBytes(|f.content|, 8);
    head, tail := frame + f.content[..j], f.content[j + 1..] + [RECORD_SEPARATOR];
    assert f.content == f.content[..j] + [f.content[j]] + f.content[j + 1..];
    assert frame + f.content + [RECORD_SEPARATOR] == head + [f.content[j]] + tail;
  }

  lemma {:induction false} SerializeConcat(a: seq<SourceFile>, b: seq<SourceFile>)
    ensures Serialize(a + b) == Serialize(a) + Serialize(b)
  {
    hide Record;
    if a == [] {
      assert a + b == b;
    } else {
      SerializeConcat(a[1..], b);
      assert (a + b)[1..] == a[1..] + b;
    }
  }

  // ---- Unique decoding ------------------------------------------------------

  /** The path holds no unit separator. */
  predicate Clean(f: SourceFile) { UNIT_SEPARATOR !in f.path }

  /** Every path is clean and every length fits its eight bytes. */
  predicate AllClean(files: seq<SourceFile>) {
    forall k :: 0 <= k < |files| ==> Clean(files[k]) && |files[k].content| < TWO_64
  }

  /** Position of the first unit separator. */
  function FirstSeparator(bytes: seq<Byte>): (r: Option<nat>)
    ensures r.Some? ==> r.value < |bytes| && bytes[r.value] == UNIT_SEPARATOR
    ensures r.Some? ==> forall j :: 0 <= j < r.value ==> bytes[j] != UNIT_SEPARATOR
    ensures r.None? ==> UNIT_SEPARATOR !in bytes
  {
    if bytes == [] then None
    else if bytes[0] == UNIT_SEPARATOR then Some(0)
    else
      match FirstSeparator(bytes[1..])
      case None => None
      case Some(k) => Some(k + 1)
  }

  /** Reads one record off the front of the stream. */
  function DecodeOne(bytes: seq<Byte>): (r: Option<(SourceFile, seq<Byte>)>)
    ensures r.Some? ==> Clean(r.value.0) && |r.value.1| < |bytes|
  {
    match FirstSeparator(bytes)
    case None => None
    case Some(k) =>
      var rest := bytes[k + 1..];
      if |rest| < 8 then None
      else
        var n := FromLe(rest[..8]);
        if |rest| < 8 + n + 1 || rest[8 + n] != RECORD_SEPARATOR then None
        else Some((SourceFile(bytes[..k], rest[8..8 + n]), rest[8 + n + 1..]))
  }

  function Decode(bytes: seq<Byte>): Option<seq<SourceFile>>
    decreases |bytes|
  {
    if bytes == [] then Some([])
    else
      match DecodeOne(bytes)
      case None => None
      case Some((f, rest)) =>
        match Decode(rest)
        case None => None
        case Some(more) => Some([f] + more)
  }

  /** Where the parts of a record are in the stream. */
  lemma RecordParts(f: SourceFile, rest: seq<Byte>)
    ensures var bytes, k, n := Record(f) + rest, |f.path|, |f.content|;
      && |bytes| == k + 1 + 8 + n + 1 + |rest|
      && bytes[..k] == f.path && bytes[k] == UNIT_SEPARATOR
      && bytes[k + 1..] == LeBytes(n, 8) + (f.content + ([RECORD_SEPARATOR] + rest))
  {
    hide LeBytes;
  }

  lemma TailParts(length: seq<Byte>, content: seq<Byte>, rest: seq<Byte>)
    requires |length| == 8
    ensures var tail, n := length + (content + ([RECORD_SEPARATOR] + rest)), |content|;
      && tail[..8] == length && tail[8..8 + n] == content
      && tail[8 + n] == RECORD_SEPARATOR && tail[8 + n + 1..] == rest
  {
  }

  lemma DecodeRecord(f: SourceFile, rest: seq<Byte>)
    requires Clean(f) && |f.content| < TWO_64
    ensures DecodeOne(Record(f) + rest) == Some((f, rest))
  {
    hide Record, LeBytes, FromLe, FirstSeparator;
    var bytes, k, n := Record(f) + rest, |f.path|, |f.content|;
    RecordParts(f, rest);
    assert forall j :: 0 <= j < k ==> bytes[j] == bytes[..k][j];
    SeparatorAt(bytes, k);
    TailParts(LeBytes(n, 8), f.content, rest);
    LengthRoundTrip(n);
  }

  lemma LengthRoundTrip(n: nat)
    requires n < TWO_64
    ensures FromLe(LeBytes(n, 8)) == n
  {
    Pow64();
    LeRoundTrip(n, 8);
  }

  lemma SeparatorAt(bytes: seq<Byte>, k: nat)
    requires k < |bytes| && bytes[k] == UNIT_SEPARATOR && forall j :: 0 <= j < k ==> bytes[j] != UNIT_SEPARATOR
    ensures FirstSeparator(bytes) == Some(k)
  {
  }

  lemma {:induction false} DecodeInverts(files: seq<SourceFile>)
    requires AllClean(files)
    ensures Decode(Serialize(files)) == Some(files)
  {
    hide Record, DecodeOne;
    if files != [] {
      DecodeRecord(files[0], Serialize(files[1..]));
      DecodeInverts(files[1..]);
      assert files == [files[0]] + files[1..];
    }
  }

  lemma {:induction false} LeInverse(bytes: seq<Byte>)
    ensures FromLe(bytes) < Pow2(8 * |bytes|) && LeBytes(FromLe(bytes), |bytes|) == bytes
  {
    if bytes != [] {
      LeInverse(bytes[1..]);
      PowStep(8 * |bytes| - 8);
    }
  }

  /** What `DecodeOne` takes off the front of the stream is the record it answers. */
  lemma DecodeOneSound(bytes: seq<Byte>)
    requires DecodeOne(bytes).Some?
    ensures var (f, rest) := DecodeOne(bytes).value;
      Clean(f) && |f.content| < TWO_64 && Record(f) + rest == bytes
  {
    hide LeBytes, FromLe, FirstSeparator;
    var (f, rest) := DecodeOne(bytes).value;
    var k := FirstSeparator(bytes).value;
    var tail := bytes[k + 1..];
    Pow64();
    LeInverse(tail[..8]);
    assert bytes == f.path + [UNIT_SEPARATOR] + tail;
    assert tail == tail[..8] + f.content + [RECORD_SEPARATOR] + rest;
  }

  lemma {:induction false} DecodeSound(bytes: seq<Byte>)
    requires Decode(bytes).Some?
    ensures AllClean(Decode(bytes).value) && Serialize(Decode(bytes).value) == bytes
    decreases |bytes|
  {
    hide Record, DecodeOne;
    if bytes != [] {
      var (f, rest) := DecodeOne(bytes).value;
      DecodeOneSound(bytes);
      DecodeSound(rest);
      assert ([f] + Decode(rest).value)[1..] == Decode(rest).value;
    }
  }

  /** Decoding inverts the framing: a stream decodes into `files` exactly if they are clean and it is their stream. */
  lemma DecodeExact(bytes: seq<Byte>, files: seq<SourceFile>)
    ensures Decode(bytes) == Some(files) <==> AllClean(files) && Serialize(files) == bytes
  {
    if Decode(bytes) == Some(files) {
      DecodeSound(bytes);
    } else if AllClean(files) {
      DecodeInverts(files);
    }
  }

  /** Different lists of clean files have different streams. */
  lemma SerializeInjective(a: seq<SourceFile>, b: seq<SourceFile>)
    requires AllClean(a) && AllClean(b) && Serialize(a) == Serialize(b)
    ensures a == b
  {
    DecodeInverts(a);
    DecodeInverts(b);
  }

  /** A list shares its stream with another, clean list exactly if it is not clean itself and its stream decodes. */
  lemma AliasExact(files: seq<SourceFile>)
    ensures (exists a :: a != files && AllClean(a) && Serialize(a) == Serialize(files)) <==>
            !AllClean(files) && Decode(Serialize(files)).Some?
  {
    hide AllClean, Serialize, Decode;
    var bytes := Serialize(files);
    if a :| a != files && AllClean(a) && Serialize(a) == bytes {
      DecodeInverts(a);
      if AllClean(files) {
        SerializeInjective(a, files);
      }
    }
    if !AllClean(files) && Decode(bytes).Some? {
      DecodeSound(bytes);
    }
  }

  /** With a unit separator in a path, two different files can have the same stream. */
  lemma SeparatorCollides()
    ensures var zeros := LeBytes(0, 8);
      var a := SourceFile([97], [UNIT_SEPARATOR] + zeros);
      var b := SourceFile([97, UNIT_SEPARATOR] + LeBytes(9, 8), []);
      a != b && Serialize([a]) == Serialize([b])
  {
    hide LeBytes;
    var a := SourceFile([97], [UNIT_SEPARATOR] + LeBytes(0, 8));
    var b := SourceFile([97, UNIT_SEPARATOR] + LeBytes(9, 8), []);
    assert a.path != b.path by {
      assert |b.path| == 10;
    }
    assert Record(a) == [97] + [UNIT_SEPARATOR] + LeBytes(9, 8) + [UNIT_SEPARATOR] + LeBytes(0, 8) + [RECORD_SEPARATOR];
    assert Record(b) == [97] + [UNIT_SEPARATOR] + LeBytes(9, 8) + [UNIT_SEPARATOR] + LeBytes(0, 8) + [RECORD_SEPARATOR];
    assert [a][1..] == [] && [b][1..] == [];
  }
}
