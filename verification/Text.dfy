/** Strings as their UTF-8 bytes, ordered bytewise as `str`'s `Ord` orders them. */
module Text {

  type Byte = x: int | 0 <= x < 256
  type Str = seq<Byte>

  /** Byte-lexicographic order; a proper prefix comes first. */
  predicate Less(a: Str, b: Str) {
    b != [] && (a == [] || a[0] < b[0] || (a[0] == b[0] && Less(a[1..], b[1..])))
  }

  predicate LessEq(a: Str, b: Str) { Less(a, b) || a == b }

  /** `a` is a proper prefix of `b`, or has the smaller byte where the two first differ. */
  ghost predicate Bytewise(a: Str, b: Str) {
    a < b || exists k :: 0 <= k < |a| && k < |b| && a[..k] == b[..k] && a[k] < b[k]
  }

  lemma {:induction false} LessIsBytewise(a: Str, b: Str)
    requires Less(a, b)
    ensures Bytewise(a, b)
  {
    if a == [] {
      assert a < b;
    } else if a[0] < b[0] {
      assert a[..0] == b[..0];
    } else {
      LessIsBytewise(a[1..], b[1..]);
      assert a == [a[0]] + a[1..] && b == [b[0]] + b[1..];
      if !(a[1..] < b[1..]) {
        var k :| 0 <= k < |a[1..]| && k < |b[1..]| && a[1..][..k] == b[1..][..k] && a[1..][k] < b[1..][k];
        assert a[..k + 1] == [a[0]] + a[1..][..k] && b[..k + 1] == [b[0]] + b[1..][..k];
        assert a[k + 1] < b[k + 1];
      }
    }
  }

  /** The order is the one `str` has: bytewise, and a proper prefix comes first. */
  lemma LessExact(a: Str, b: Str)
    ensures Less(a, b) <==> Bytewise(a, b)
  {
    if Less(a, b) {
      LessIsBytewise(a, b);
    } else if Bytewise(a, b) {
      LessTrichotomy(a, b);
      assert a != b;
      LessIsBytewise(b, a);
      BytewiseAsymmetric(a, b);
    }
  }

  lemma BytewiseAsymmetric(a: Str, b: Str)
    requires Bytewise(a, b)
    ensures !Bytewise(b, a)
  {
    if !(a < b) {
      var k :| 0 <= k < |a| && k < |b| && a[..k] == b[..k] && a[k] < b[k];
      FirstDifference(a, b, k);
    }
  }

  lemma FirstDifference(a: Str, b: Str, k: nat)
    requires k < |a| && k < |b| && a[..k] == b[..k] && a[k] < b[k]
    ensures !(b < a) && forall j :: 0 <= j < |a| && j < |b| && a[..j] == b[..j] ==> a[j] <= b[j]
  {
    forall j | 0 <= j < |a| && j < |b| && a[..j] == b[..j]
      ensures a[j] <= b[j]
    {
      if j < k {
        assert a[..k][j] == b[..k][j];
      }
    }
  }

  lemma {:induction false} LessIrreflexive(a: Str)
    ensures !Less(a, a)
  {
    if a != [] {
      LessIrreflexive(a[1..]);
    }
  }

  /** Exactly one of `<`, `=` and `>` holds. */
  lemma {:induction false} LessTrichotomy(a: Str, b: Str)
    ensures Less(a, b) || a == b || Less(b, a)
    ensures !(Less(a, b) && Less(b, a)) && !Less(a, a) && !Less(b, b)
  {
    LessIrreflexive(a);
    LessIrreflexive(b);
    if a != [] && b != [] {
      LessTrichotomy(a[1..], b[1..]);
      assert a == [a[0]] + a[1..] && b == [b[0]] + b[1..];
    }
  }

  lemma {:induction false} LessTransitive(a: Str, b: Str, c: Str)
    requires Less(a, b) && Less(b, c)
    ensures Less(a, c)
  {
    if a != [] && a[0] == b[0] == c[0] {
      LessTransitive(a[1..], b[1..], c[1..]);
    }
  }

  /** Strictly increasing, hence duplicate-free. */
  ghost predicate Sorted(d: seq<Str>) {
    forall i, j :: 0 <= i < j < |d| ==> Less(d[i], d[j])
  }

  lemma FirstIsMember(d: seq<Str>)
    requires d != []
    ensures d[0] in d
  {
  }

  /** A sorted sequence is determined by its members. */
  lemma {:induction false} SortedUnique(a: seq<Str>, b: seq<Str>)
    requires Sorted(a) && Sorted(b) && (forall s :: s in a <==> s in b)
    ensures a == b
  {
    if a == [] && b != [] {
      FirstIsMember(b);
      assert false;
    } else if a != [] && b == [] {
      FirstIsMember(a);
      assert false;
    } else if a != [] {
      SameHead(a, b);
      forall s | s in a[1..]
        ensures s in b[1..]
      {
        TailMember(a, b, s);
      }
      forall s | s in b[1..]
        ensures s in a[1..]
      {
        TailMember(b, a, s);
      }
      SortedUnique(a[1..], b[1..]);
      assert a == [a[0]] + a[1..] && b == [b[0]] + b[1..];
    }
  }

  lemma SameHead(a: seq<Str>, b: seq<Str>)
    requires a != [] && b != [] && Sorted(a) && Sorted(b) && (forall s :: s in a <==> s in b)
    ensures a[0] == b[0]
  {
    assert a[0] in b && b[0] in a;
    var i :| 0 <= i < |b| && b[i] == a[0];
    var j :| 0 <= j < |a| && a[j] == b[0];
    LessTrichotomy(a[0], b[0]);
  }

  lemma TailMember(a: seq<Str>, b: seq<Str>, s: Str)
    requires a != [] && b != [] && Sorted(a) && a[0] == b[0] && s in a[1..] && s in b
    ensures s in b[1..]
  {
    var i :| 1 <= i < |a| && a[i] == s;
    LessTrichotomy(a[0], s);
    assert b == [b[0]] + b[1..];
  }
}
