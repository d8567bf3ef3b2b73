/**
 Queries on dictionary codes (`src/cuda/dictionary.rs`): comparisons with a
 literal, comparisons across two dictionaries, and literal lookup.
 */
module DictionaryQuery {
  import opened Common
  import opened Text
  import opened Dictionary

  datatype BinaryOp = Lt | LtEq | Gt | GtEq | NotOrdering

  predicate Satisfies(op: BinaryOp, s: Str, probe: Str) {
    match op
    case Lt => Less(s, probe)
    case LtEq => LessEq(s, probe)
    case Gt => Less(probe, s)
    case GtEq => LessEq(probe, s)
    case NotOrdering => false
  }

  // ---- Literal predicates ---------------------------------------------------

  /** `indices_satisfying_in`: the codes whose strings satisfy the comparison, ascending. */
  function IndicesSatisfying(d: seq<Str>, op: BinaryOp, probe: Str): (r: seq<int>)
    ensures |r| <= |d|
    ensures forall k :: k in r <==> 1 <= k <= |d| && Satisfies(op, d[k - 1], probe)
    ensures forall i, j :: 0 <= i < j < |r| ==> r[i] < r[j]
  {
    if d == [] then []
    else
      var n := |d|;
      var rest := IndicesSatisfying(d[..n - 1], op, probe);
      assert forall i :: 0 <= i < |rest| ==> rest[i] in rest;
      if Satisfies(op, d[n - 1], probe) then rest + [n] else rest
  }

  /** Membership in the code set selects exactly the non-NULL rows that satisfy the comparison. */
  lemma RewriteIsExact(col: Column, vals: set<Str>, rows: seq<Option<Str>>, op: BinaryOp, probe: Str, i: nat)
    requires Encodes(col, vals, rows) && i < |rows|
    ensures col.indices[i] in IndicesSatisfying(col.dictionary, op, probe)
       <==> rows[i].Some? && var s := rows[i].value;
              match op
              case Lt => Bytewise(s, probe)
              case LtEq => Bytewise(s, probe) || s == probe
              case Gt => Bytewise(probe, s)
              case GtEq => Bytewise(probe, s) || s == probe
              case NotOrdering => false
  {
    hide Bytewise;
    if rows[i].Some? {
      LessExact(rows[i].value, probe);
      LessExact(probe, rows[i].value);
    }
    assert Codes(col.dictionary, col.indices[i], rows[i]);
  }

  /** `insertion_rank`: how many entries sort before the probe. */
  function InsertionRank(d: seq<Str>, probe: Str): (r: nat)
    ensures r <= |d|
  {
    if d == [] then 0
    else InsertionRank(d[..|d| - 1], probe) + if Less(d[|d| - 1], probe) then 1 else 0
  }

  /** The codes `lo + 1` to `hi`. */
  function CodeRange(lo: nat, hi: nat): (r: seq<int>)
    requires lo <= hi
  {
    seq(hi - lo, i => lo + i + 1)
  }

  /** On a sorted dictionary the probe's rank splits the entries into smaller ones and the rest. */
  lemma {:induction false} RankSplits(d: seq<Str>, probe: Str)
    requires Sorted(d)
    ensures forall i :: 0 <= i < |d| ==> (i < InsertionRank(d, probe) <==> Less(d[i], probe))
  {
    if d != [] {
      var n := |d| - 1;
      RankSplits(d[..n], probe);
      if Less(d[n], probe) {
        forall i | 0 <= i < n
          ensures Less(d[i], probe)
        {
          LessTransitive(d[i], d[n], probe);
        }
        assert n > 0 ==> (n - 1 < InsertionRank(d[..n], probe) <==> Less(d[..n][n - 1], probe));
      }
    }
  }

  /** A set of codes listed in ascending order and equal to a range is that range. */
  lemma {:induction false} AscendingRange(r: seq<int>, lo: nat, hi: nat)
    requires lo <= hi && (forall i, j :: 0 <= i < j < |r| ==> r[i] < r[j])
    requires forall k :: k in r <==> lo + 1 <= k <= hi
    ensures r == CodeRange(lo, hi)
    decreases hi - lo
  {
    if lo == hi {
      if r != [] {
        LastIsMember(r);
        assert false;
      }
    } else {
      assert hi in r;
      LastIsMember(r);
      var last := |r| - 1;
      assert r[last] == hi by {
        var k :| 0 <= k < |r| && r[k] == hi;
      }
      forall k
        ensures k in r[..last] <==> lo + 1 <= k <= hi - 1
      {
        if k in r && k != hi {
          var i :| 0 <= i < |r| && r[i] == k;
          assert r[..last][i] == k;
        }
      }
      AscendingRange(r[..last], lo, hi - 1);
      assert r == r[..last] + [hi];
    }
  }

  lemma LastIsMember(r: seq<int>)
    requires r != []
    ensures r[|r| - 1] in r
  {
  }

  /** Number of entries not greater than the probe: one more than its rank exactly if it is present. */
  function UpperRank(d: seq<Str>, probe: Str): (r: nat) {
    InsertionRank(d, probe) + if probe in d then 1 else 0
  }

  lemma RankOfMember(d: seq<Str>, p: nat)
    requires Sorted(d) && p < |d|
    ensures InsertionRank(d, d[p]) == p
  {
    RankSplits(d, d[p]);
    LessIrreflexive(d[p]);
    assert !Less(d[InsertionRank(d, d[p])], d[p]);
  }

  lemma UpperRankSplits(d: seq<Str>, probe: Str)
    requires Sorted(d)
    ensures UpperRank(d, probe) <= |d|
    ensures forall i :: 0 <= i < |d| ==> (i < UpperRank(d, probe) <==> LessEq(d[i], probe))
    ensures probe in d ==> d[InsertionRank(d, probe)] == probe
  {
    RankSplits(d, probe);
    var n := InsertionRank(d, probe);
    if probe in d {
      var p :| 0 <= p < |d| && d[p] == probe;
      RankOfMember(d, p);
    }
    forall i | 0 <= i < |d|
      ensures i < UpperRank(d, probe) <==> LessEq(d[i], probe)
    {
      if i > n && probe in d {
        LessTrichotomy(d[n], d[i]);
      }
    }
  }

  /** On a sorted dictionary every ordering predicate is a range of codes around the probe's rank. */
  lemma RewriteIsRange(d: seq<Str>, probe: Str)
    requires Sorted(d)
    ensures InsertionRank(d, probe) <= UpperRank(d, probe) <= |d|
    ensures IndicesSatisfying(d, Lt, probe) == CodeRange(0, InsertionRank(d, probe))
    ensures IndicesSatisfying(d, LtEq, probe) == CodeRange(0, UpperRank(d, probe))
    ensures IndicesSatisfying(d, Gt, probe) == CodeRange(UpperRank(d, probe), |d|)
    ensures IndicesSatisfying(d, GtEq, probe) == CodeRange(InsertionRank(d, probe), |d|)
    ensures forall i :: 0 <= i < |d| ==>
              && (i < InsertionRank(d, probe) <==> Bytewise(d[i], probe))
              && (i >= UpperRank(d, probe) <==> Bytewise(probe, d[i]))
  {
    hide IndicesSatisfying, Bytewise;
    RankSplits(d, probe);
    UpperRankSplits(d, probe);
    forall i | 0 <= i < |d|
      ensures Less(probe, d[i]) <==> !LessEq(d[i], probe)
      ensures LessEq(probe, d[i]) <==> !Less(d[i], probe)
      ensures Less(d[i], probe) <==> Bytewise(d[i], probe)
      ensures Less(probe, d[i]) <==> Bytewise(probe, d[i])
    {
      LessExact(d[i], probe);
      LessExact(probe, d[i]);
      LessTrichotomy(d[i], probe);
    }
    AscendingRange(IndicesSatisfying(d, Lt, probe), 0, InsertionRank(d, probe));
    AscendingRange(IndicesSatisfying(d, LtEq, probe), 0, UpperRank(d, probe));
    AscendingRange(IndicesSatisfying(d, Gt, probe), UpperRank(d, probe), |d|);
    AscendingRange(IndicesSatisfying(d, GtEq, probe), InsertionRank(d, probe), |d|);
  }

  // ---- Literal lookup -------------------------------------------------------

  /** `index_of`: code of the first entry equal to `s`. */
  function IndexOf(d: seq<Str>, s: Str): (r: Option<int>)
    ensures r.Some? ==> 1 <= r.value <= |d| && d[r.value - 1] == s
    ensures r.Some? ==> forall j :: 0 <= j < r.value - 1 ==> d[j] != s
    ensures r.None? ==> s !in d
  {
    if d == [] then None
    else
      var before := IndexOf(d[..|d| - 1], s);
      if before.Some? then before
      else if d[|d| - 1] == s then Some(|d|) else None
  }

  /** The reverse map `index_of_many` collects; a later entry overwrites an earlier one. */
  function ReverseMap(d: seq<Str>): map<Str, int> {
    if d == [] then map[] else ReverseMap(d[..|d| - 1])[d[|d| - 1] := |d|]
  }

  /** The reverse map knows the last code of each entry. */
  lemma {:induction false} ReverseMapIsLast(d: seq<Str>, s: Str)
    ensures s in ReverseMap(d) <==> s in d
    ensures s in ReverseMap(d) ==> 1 <= ReverseMap(d)[s] <= |d| && d[ReverseMap(d)[s] - 1] == s
    ensures s in ReverseMap(d) ==> forall j :: ReverseMap(d)[s] <= j < |d| ==> d[j] != s
  {
    if d != [] {
      var init := d[..|d| - 1];
      ReverseMapIsLast(init, s);
      assert d == init + [d[|d| - 1]];
    }
  }

  function IndexOfMany(d: seq<Str>, queries: seq<Str>): (r: seq<Option<int>>)
    ensures |r| == |queries|
  {
    var lookup := ReverseMap(d);
    seq(|queries|, k requires 0 <= k < |queries| => if queries[k] in lookup then Some(lookup[queries[k]]) else None)
  }

  /** The batched lookup agrees with the single one for every literal exactly when no entry repeats. */
  lemma BatchedLookupExact(d: seq<Str>)
    ensures (forall queries, k :: 0 <= k < |queries| ==> IndexOfMany(d, queries)[k] == IndexOf(d, queries[k]))
       <==> Distinct(d)
  {
    if Distinct(d) {
      forall queries, k | 0 <= k < |queries|
        ensures IndexOfMany(d, queries)[k] == IndexOf(d, queries[k])
      {
        ReverseMapIsLast(d, queries[k]);
      }
    } else {
      var i, j :| 0 <= i < j < |d| && d[i] == d[j];
      var s := d[i];
      RepeatedLookup(d, i, j);
      assert IndexOfMany(d, [s])[0] == Some(ReverseMap(d)[s]);
      assert [s][0] == s;
      assert IndexOfMany(d, [s])[0] != IndexOf(d, [s][0]);
    }
  }

  lemma RepeatedLookup(d: seq<Str>, i: nat, j: nat)
    requires i < j < |d| && d[i] == d[j]
    ensures IndexOf(d, d[i]).Some? && d[i] in ReverseMap(d)
    ensures IndexOf(d, d[i]).value <= i + 1 && ReverseMap(d)[d[i]] >= j + 1
  {
    ReverseMapIsLast(d, d[j]);
  }

  /** Equality with a literal is equality with its one code, which sits at the literal's rank. */
  lemma EqualityRewrite(col: Column, vals: set<Str>, rows: seq<Option<Str>>, s: Str, i: nat)
    requires Encodes(col, vals, rows) && i < |rows|
    ensures rows[i] == Some(s) <==> IndexOf(col.dictionary, s) == Some(col.indices[i])
    ensures s in vals ==> IndexOf(col.dictionary, s) == Some(InsertionRank(col.dictionary, s) + 1)
    ensures s !in vals ==> IndexOf(col.dictionary, s) == None
  {
    var d := col.dictionary;
    SortedIsDistinct(d);
    assert Codes(d, col.indices[i], rows[i]);
    UpperRankSplits(d, s);
  }

  // ---- Ranks across dictionaries --------------------------------------------

  const NULL_RANK_SENTINEL := -1

  /** `p` entries of `u` are smaller than `s`. */
  ghost predicate LowerBound(u: seq<Str>, s: Str, p: int) {
    && 0 <= p <= |u| && (forall j :: 0 <= j < p ==> Less(u[j], s))
    && (forall j :: p <= j < |u| ==> !Less(u[j], s))
  }

  /** `binary_search` on a sorted, duplicate-free slice. */
  method BinarySearch(u: seq<Str>, s: Str) returns (r: Result<nat, nat>)
    requires Sorted(u)
    ensures r.Ok? ==> r.value < |u| && u[r.value] == s && LowerBound(u, s, r.value)
    ensures r.Err? ==> s !in u && LowerBound(u, s, r.error)
  {
    var lo, hi := 0, |u|;
    while lo < hi
      invariant 0 <= lo <= hi <= |u|
      invariant forall j :: 0 <= j < lo ==> Less(u[j], s)
      invariant forall j :: hi <= j < |u| ==> Less(s, u[j])
    {
      var mid := (lo + hi) / 2;
      LessTrichotomy(u[mid], s);
      if u[mid] == s {
        BoundAt(u, s, mid);
        return Ok(mid);
      } else if Less(u[mid], s) {
        forall j | 0 <= j < mid
          ensures Less(u[j], s)
        {
          LessTransitive(u[j], u[mid], s);
        }
        lo := mid + 1;
      } else {
        forall j | mid < j < |u|
          ensures Less(s, u[j])
        {
          LessTransitive(s, u[mid], u[j]);
        }
        hi := mid;
      }
    }
    forall j | 0 <= j < |u|
      ensures u[j] != s && (lo <= j ==> !Less(u[j], s))
    {
      LessTrichotomy(u[j], s);
    }
    r := Err(lo);
  }

  lemma BoundAt(u: seq<Str>, s: Str, p: nat)
    requires Sorted(u) && p < |u| && u[p] == s
    ensures LowerBound(u, s, p)
  {
    forall j | p <= j < |u|
      ensures !Less(u[j], s)
    {
      LessTrichotomy(u[j], s);
    }
  }

  /** `rank_for_index_in`: the NULL sentinel, then each entry's position in the universe. */
  method RankForIndexIn(d: seq<Str>, universe: seq<Str>) returns (out: seq<int>)
    requires Sorted(universe)
    ensures |out| == |d| + 1 && out[0] == NULL_RANK_SENTINEL
    ensures forall k :: 1 <= k <= |d| ==> LowerBound(universe, d[k - 1], out[k])
  {
    out := [NULL_RANK_SENTINEL];
    for k := 0 to |d|
      invariant |out| == k + 1 && out[0] == NULL_RANK_SENTINEL
      invariant forall j :: 1 <= j <= k ==> LowerBound(universe, d[j - 1], out[j])
    {
      var found := BinarySearch(universe, d[k]);
      var rank := match found case Ok(pos) => pos case Err(pos) => pos;
      out := out + [rank];
    }
  }

  /** `Vec::dedup` on sorted strings: one copy of each. */
  method Dedup(d: seq<Str>) returns (u: seq<Str>)
    requires forall i, j :: 0 <= i < j < |d| ==> LessEq(d[i], d[j])
    ensures Sorted(u) && forall s :: s in u <==> s in d
  {
    u := [];
    for k := 0 to |d|
      invariant Sorted(u) && (forall s :: s in u <==> s in d[..k])
      invariant if k == 0 then u == [] else u != [] && u[|u| - 1] == d[k - 1]
    {
      assert d[..k + 1] == d[..k] + [d[k]];
      if k == 0 || d[k] != d[k - 1] {
        forall i | 0 <= i < |u|
          ensures Less(u[i], d[k])
        {
          assert k > 0 && LessEq(d[k - 1], d[k]);
          if i < |u| - 1 {
            LessTransitive(u[i], u[|u| - 1], d[k]);
          }
        }
        u := u + [d[k]];
      }
    }
    assert d[..|d|] == d;
  }

  lemma BoundIsPosition(u: seq<Str>, i: nat, p: int)
    requires Sorted(u) && i < |u| && LowerBound(u, u[i], p)
    ensures p == i
  {
    LessIrreflexive(u[i]);
    assert !Less(u[p], u[i]);
  }

  /** Positions of two universe members compare as the members do. */
  lemma BoundsCompare(u: seq<Str>, s: Str, t: Str, p: int, q: int)
    requires Sorted(u) && s in u && t in u && LowerBound(u, s, p) && LowerBound(u, t, q)
    ensures p < q <==> Less(s, t)
    ensures p == q <==> s == t
  {
    var i :| 0 <= i < |u| && u[i] == s;
    var j :| 0 <= j < |u| && u[j] == t;
    BoundIsPosition(u, i, p);
    BoundIsPosition(u, j, q);
    LessTrichotomy(s, t);
  }

  /**
   `unified_rank_maps_of`: for any two dictionaries, comparing the unified ranks
   of two non-NULL codes gives the answer of comparing their strings.
   */
  method UnifiedRankMapsOf(a: seq<Str>, b: seq<Str>) returns (rankA: seq<int>, rankB: seq<int>)
    ensures |rankA| == |a| + 1 && |rankB| == |b| + 1
    ensures rankA[0] == rankB[0] == -1
    ensures forall i, j :: 1 <= i <= |a| && 1 <= j <= |b| ==>
              && rankA[i] >= 0 && rankB[j] >= 0
              && (rankA[i] < rankB[j] <==> Bytewise(a[i - 1], b[j - 1]))
              && (rankA[i] <= rankB[j] <==> Bytewise(a[i - 1], b[j - 1]) || a[i - 1] == b[j - 1])
              && (rankA[i] == rankB[j] <==> a[i - 1] == b[j - 1])
              && (rankA[i] >= rankB[j] <==> Bytewise(b[j - 1], a[i - 1]) || a[i - 1] == b[j - 1])
              && (rankA[i] > rankB[j] <==> Bytewise(b[j - 1], a[i - 1]))
  {
    hide Bytewise;
    var order := SortSlots(a + b);
    var sorted := SortedStrings(a + b, order);
    SortedIsPermutation(a + b, order, sorted);
    var universe := Dedup(sorted);
    rankA := RankForIndexIn(a, universe);
    rankB := RankForIndexIn(b, universe);
    forall i, j | 1 <= i <= |a| && 1 <= j <= |b|
      ensures rankA[i] < rankB[j] <==> Bytewise(a[i - 1], b[j - 1])
      ensures rankA[i] == rankB[j] <==> a[i - 1] == b[j - 1]
      ensures rankA[i] > rankB[j] <==> Bytewise(b[j - 1], a[i - 1])
    {
      LessExact(a[i - 1], b[j - 1]);
      LessExact(b[j - 1], a[i - 1]);
      assert (a + b)[i - 1] == a[i - 1] && (a + b)[|a| + j - 1] == b[j - 1];
      assert a[i - 1] in sorted && b[j - 1] in sorted;
      BoundsCompare(universe, a[i - 1], b[j - 1], rankA[i], rankB[j]);
      LessTrichotomy(a[i - 1], b[j - 1]);
    }
  }
}
