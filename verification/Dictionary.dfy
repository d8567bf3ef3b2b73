/**
 Order-preserving string dictionaries (`src/cuda/dictionary.rs`): a column of
 optional strings becomes a sorted dictionary and one integer code per row, `0`
 for NULL and `k` for the `k`-th smallest string.
 */
module Dictionary {
  import opened Common
  import opened Text

  const I32_INDEX_THRESHOLD := I32_MAX - 1024

  datatype DictError = Overflow | NegativeIndex | OutOfRange | NegativeKey | KeyOutOfRange | NotWired | UploadFailed

  datatype Column = Column(dictionary: seq<Str>, indices: seq<int>)

  /** The distinct non-null strings of a column. */
  function Values(rows: seq<Option<Str>>): (r: set<Str>)
    ensures forall s :: s in r <==> Some(s) in rows
  {
    set o | o in rows && o.Some? :: o.value
  }

  /** Code `c` of dictionary `d` stands for the optional string `o`. */
  predicate Codes(d: seq<Str>, c: int, o: Option<Str>) {
    match o
    case None => c == 0
    case Some(s) => 1 <= c <= |d| && d[c - 1] == s
  }

  /** Every row's code stands for the row. */
  ghost predicate CodesAll(d: seq<Str>, indices: seq<int>, rows: seq<Option<Str>>) {
    |indices| == |rows| && forall r :: 0 <= r < |rows| ==> Codes(d, indices[r], rows[r])
  }

  /** `col` is the encoding of `rows` over exactly the strings `vals`. */
  ghost predicate Encodes(col: Column, vals: set<Str>, rows: seq<Option<Str>>) {
    && Sorted(col.dictionary)
    && (forall s :: s in col.dictionary <==> s in vals)
    && CodesAll(col.dictionary, col.indices, rows)
  }

  // ---- Sorting slots --------------------------------------------------------

  /** Slot `p` sorts before slot `q`; equal strings keep their order. */
  predicate Before(d: seq<Str>, p: nat, q: nat)
    requires p < |d| && q < |d|
  {
    Less(d[p], d[q]) || (d[p] == d[q] && p < q)
  }

  /** `order` lists the first `n` slots of `d`, sorted and stable. */
  ghost predicate StableOrder(d: seq<Str>, n: nat, order: seq<nat>) {
    && n <= |d| && |order| == n
    && (forall i :: 0 <= i < n ==> order[i] < n)
    && (forall p :: 0 <= p < n ==> p in order)
    && (forall i, j :: 0 <= i < j < n ==> Before(d, order[i], order[j]))
  }

  lemma BeforeTransitive(d: seq<Str>, p: nat, q: nat, r: nat)
    requires p < |d| && q < |d| && r < |d| && Before(d, p, q) && Before(d, q, r)
    ensures Before(d, p, r)
  {
    if Less(d[p], d[q]) && Less(d[q], d[r]) {
      LessTransitive(d[p], d[q], d[r]);
    }
  }

  lemma BeforeTrichotomy(d: seq<Str>, p: nat, q: nat)
    requires p < |d| && q < |d|
    ensures Before(d, p, q) || p == q || Before(d, q, p)
    ensures !(Before(d, p, q) && Before(d, q, p)) && !Before(d, p, p)
  {
    LessTrichotomy(d[p], d[q]);
  }

  /** Puts slot `n` behind the slots whose strings are not greater. */
  lemma InsertSlot(d: seq<Str>, n: nat, order: seq<nat>, at: nat)
    requires n < |d| && StableOrder(d, n, order) && at <= n
    requires at > 0 ==> Before(d, order[at - 1], n)
    requires at < n ==> Before(d, n, order[at])
    ensures StableOrder(d, n + 1, order[..at] + [n] + order[at..])
  {
    var next := order[..at] + [n] + order[at..];
    InsertKeepsSlots(order, n, at);
    forall i, j | 0 <= i < j < n + 1
      ensures Before(d, next[i], next[j])
    {
      if i < at - 1 && j == at {
        BeforeTransitive(d, order[i], order[at - 1], n);
      } else if i == at && j > at + 1 {
        BeforeTransitive(d, n, order[at], order[j - 1]);
      }
    }
  }

  lemma InsertKeepsSlots(order: seq<nat>, n: nat, at: nat)
    requires at <= |order| && forall p :: 0 <= p < n ==> p in order
    ensures forall p :: 0 <= p < n + 1 ==> p in order[..at] + [n] + order[at..]
  {
    var next := order[..at] + [n] + order[at..];
    assert next[at] == n;
    forall p | 0 <= p < n
      ensures p in next
    {
      assert p in order;
      assert order == order[..at] + order[at..];
    }
  }

  /** A stable sort of the slots by string. */
  method SortSlots(d: seq<Str>) returns (order: seq<nat>)
    ensures StableOrder(d, |d|, order)
  {
    order := [];
    for n := 0 to |d|
      invariant StableOrder(d, n, order)
    {
      var at := n;
      while at > 0 && Less(d[n], d[order[at - 1]])
        invariant at <= n
        invariant at < n ==> Before(d, n, order[at])
      {
        at := at - 1;
      }
      if at > 0 {
        LessTrichotomy(d[n], d[order[at - 1]]);
      }
      InsertSlot(d, n, order, at);
      order := order[..at] + [n] + order[at..];
    }
  }

  /** All correct stable sorts agree. */
  lemma OrderIndex(d: seq<Str>, order: seq<nat>, i: nat, j: nat)
    requires StableOrder(d, |d|, order) && i < |d| && j < |d|
    ensures i < j <==> Before(d, order[i], order[j])
    ensures i == j <==> order[i] == order[j]
  {
    BeforeTrichotomy(d, order[i], order[j]);
  }

  // ---- lex_sort_dictionary --------------------------------------------------

  /** The inverse of `order`, as 1-based codes. */
  method InvertOrder(d: seq<Str>, order: seq<nat>) returns (remap: seq<nat>)
    requires StableOrder(d, |d|, order)
    ensures |remap| == |d|
    ensures forall i :: 0 <= i < |d| ==> remap[order[i]] == i + 1
  {
    remap := seq(|d|, _ => 0);
    for i := 0 to |d|
      invariant |remap| == |d|
      invariant forall k :: 0 <= k < i ==> remap[order[k]] == k + 1
    {
      forall k | 0 <= k < i
        ensures order[k] != order[i]
      {
        OrderIndex(d, order, k, i);
      }
      remap := remap[order[i] := i + 1];
    }
  }

  /** The strings in sorted order. */
  method SortedStrings(d: seq<Str>, order: seq<nat>) returns (sorted: seq<Str>)
    requires StableOrder(d, |d|, order)
    ensures |sorted| == |d|
    ensures forall i :: 0 <= i < |d| ==> sorted[i] == d[order[i]]
  {
    sorted := [];
    for i := 0 to |d|
      invariant |sorted| == i
      invariant forall k :: 0 <= k < i ==> sorted[k] == d[order[k]]
    {
      sorted := sorted + [d[order[i]]];
    }
  }

  /**
   `lex_sort_dictionary` sorts the dictionary and rewrites every code in place,
   so that each row keeps its string.
   */
  method LexSortDictionary(d: seq<Str>, indices: array<int>) returns (sorted: seq<Str>)
    requires forall r :: 0 <= r < indices.Length ==> 0 <= indices[r] <= |d|
    modifies indices
    ensures |sorted| == |d| && forall s :: s in sorted <==> s in d
    ensures forall i, j :: 0 <= i < j < |sorted| ==> LessEq(sorted[i], sorted[j])
    ensures forall i, j :: 0 <= i < j < |sorted| ==> sorted[i] == sorted[j] || Bytewise(sorted[i], sorted[j])
    ensures Distinct(d) ==> Sorted(sorted)
    ensures forall r :: 0 <= r < indices.Length ==> 0 <= indices[r] <= |d|
    ensures forall r :: 0 <= r < indices.Length ==> (indices[r] == 0 <==> old(indices[r]) == 0)
    ensures forall r :: 0 <= r < indices.Length && indices[r] != 0 ==> sorted[indices[r] - 1] == d[old(indices[r]) - 1]
  {
    if d == [] {
      return d;
    }
    var order := SortSlots(d);
    var remap := InvertOrder(d, order);
    sorted := SortedStrings(d, order);
    SortedIsPermutation(d, order, sorted);
    forall i, j | 0 <= i < j < |sorted|
      ensures sorted[i] == sorted[j] || Bytewise(sorted[i], sorted[j])
    {
      LessExact(sorted[i], sorted[j]);
    }
    hide Bytewise;
    for r := 0 to indices.Length
      invariant forall k :: r <= k < indices.Length ==> indices[k] == old(indices[k])
      invariant forall k :: 0 <= k < r ==> 0 <= indices[k] <= |d|
      invariant forall k :: 0 <= k < r ==> (indices[k] == 0 <==> old(indices[k]) == 0)
      invariant forall k :: 0 <= k < r && indices[k] != 0 ==> sorted[indices[k] - 1] == d[old(indices[k]) - 1]
    {
      if indices[r] != 0 {
        var slot := indices[r] - 1;
        assert slot in order;
        indices[r] := remap[slot];
      }
    }
  }

  lemma SortedIsPermutation(d: seq<Str>, order: seq<nat>, sorted: seq<Str>)
    requires StableOrder(d, |d|, order) && |sorted| == |d|
    requires forall i :: 0 <= i < |d| ==> sorted[i] == d[order[i]]
    ensures forall s :: s in sorted <==> s in d
    ensures forall i, j :: 0 <= i < j < |sorted| ==> LessEq(sorted[i], sorted[j])
    ensures Distinct(d) ==> Sorted(sorted)
  {
    forall s | s in d
      ensures s in sorted
    {
      var p :| 0 <= p < |d| && d[p] == s;
      assert p in order;
      var i :| 0 <= i < |d| && order[i] == p;
      assert sorted[i] == s;
    }
    forall i, j | 0 <= i < j < |sorted|
      ensures LessEq(sorted[i], sorted[j]) && (Distinct(d) ==> Less(sorted[i], sorted[j]))
    {
      assert Before(d, order[i], order[j]);
      OrderIndex(d, order, i, j);
    }
  }

  // ---- from_string_array ----------------------------------------------------

  /** Bucket `lookup` holds the codes of `d`, each under its string's digest and only there. */
  ghost predicate Buckets(d: seq<Str>, hash: Str -> int, lookup: map<int, seq<int>>) {
    && (forall p :: 0 <= p < |d| ==> hash(d[p]) in lookup && p + 1 in lookup[hash(d[p])])
    && (forall h, k :: h in lookup && 0 <= k < |lookup[h]| ==> 1 <= lookup[h][k] <= |d|)
  }

  lemma BucketBounds(d: seq<Str>, hash: Str -> int, lookup: map<int, seq<int>>, h: int)
    requires Buckets(d, hash, lookup) && h in lookup
    ensures forall k :: 0 <= k < |lookup[h]| ==> 1 <= lookup[h][k] <= |d|
  {
  }

  /** Finds `s` among the candidates of its digest bucket, comparing the strings themselves. */
  method Probe(d: seq<Str>, hash: Str -> int, lookup: map<int, seq<int>>, s: Str) returns (r: Option<int>)
    requires Buckets(d, hash, lookup)
    ensures r.Some? ==> 1 <= r.value <= |d| && d[r.value - 1] == s
    ensures r.None? ==> s !in d
  {
    r := None;
    if hash(s) in lookup {
      var bucket := lookup[hash(s)];
      BucketBounds(d, hash, lookup, hash(s));
      for k := 0 to |bucket|
        invariant forall j :: 0 <= j < k ==> d[bucket[j] - 1] != s
      {
        if d[bucket[k] - 1] == s {
          return Some(bucket[k]);
        }
      }
      forall p | 0 <= p < |d|
        ensures d[p] != s
      {
        assert d[p] == s ==> p + 1 in bucket;
      }
    }
  }

  /** Adding a new string under its digest keeps the buckets right. */
  lemma PushBucket(d: seq<Str>, hash: Str -> int, lookup: map<int, seq<int>>, s: Str)
    requires Buckets(d, hash, lookup)
    ensures Buckets(d + [s], hash,
                    lookup[hash(s) := (if hash(s) in lookup then lookup[hash(s)] else []) + [|d| + 1]])
  {
  }

  lemma CodesLater(d: seq<Str>, s: Str, c: int, o: Option<Str>)
    requires Codes(d, c, o)
    ensures Codes(d + [s], c, o)
  {
  }

  /** The first-seen encoding of a prefix of the rows. */
  ghost predicate FirstSeen(d: seq<Str>, indices: seq<int>, rows: seq<Option<Str>>) {
    && Distinct(d) && (forall s :: s in d <==> s in Values(rows))
    && CodesAll(d, indices, rows)
  }

  lemma FirstSeenPush(d: seq<Str>, indices: seq<int>, rows: seq<Option<Str>>, s: Str)
    requires FirstSeen(d, indices, rows) && s !in d
    ensures FirstSeen(d + [s], indices + [|d| + 1], rows + [Some(s)])
  {
    forall r | 0 <= r < |rows|
      ensures Codes(d + [s], indices[r], rows[r])
    {
      CodesLater(d, s, indices[r], rows[r]);
    }
  }

  lemma FirstSeenAgain(d: seq<Str>, indices: seq<int>, rows: seq<Option<Str>>, c: int, o: Option<Str>)
    requires FirstSeen(d, indices, rows) && Codes(d, c, o)
    ensures FirstSeen(d, indices + [c], rows + [o])
  {
  }

  /** One pass over the rows: distinct strings in first-seen order and a code per row. */
  method Dedupe(rows: seq<Option<Str>>, hash: Str -> int) returns (r: Result<Column, DictError>)
    ensures r.Ok? ==> FirstSeen(r.value.dictionary, r.value.indices, rows)
    ensures r.Ok? ==> |r.value.dictionary| <= I32_MAX
    ensures r.Err? ==> r.error == Overflow && |Values(rows)| > I32_MAX
  {
    var d: seq<Str>, indices: seq<int> := [], [];
    var lookup: map<int, seq<int>> := map[];
    for i := 0 to |rows|
      invariant FirstSeen(d, indices, rows[..i]) && Buckets(d, hash, lookup) && |d| <= I32_MAX
    {
      assert rows[..i + 1] == rows[..i] + [rows[i]];
      if rows[i].None? {
        FirstSeenAgain(d, indices, rows[..i], 0, None);
        indices := indices + [0];
        continue;
      }
      var s := rows[i].value;
      var existing := Probe(d, hash, lookup, s);
      if existing.Some? {
        FirstSeenAgain(d, indices, rows[..i], existing.value, rows[i]);
        indices := indices + [existing.value];
      } else {
        if |d| + 1 > I32_MAX {
          TooMany(d + [s], rows);
          return Err(Overflow);
        }
        FirstSeenPush(d, indices, rows[..i], s);
        PushBucket(d, hash, lookup, s);
        var digest := hash(s);
        lookup := lookup[digest := (if digest in lookup then lookup[digest] else []) + [|d| + 1]];
        indices := indices + [|d| + 1];
        d := d + [s];
      }
    }
    assert rows[..|rows|] == rows;
    r := Ok(Column(d, indices));
  }

  /** A set holds as many elements as a duplicate-free sequence drawn from it, at least. */
  lemma {:induction false} DistinctBound(d: seq<Str>, vals: set<Str>)
    requires Distinct(d) && forall s :: s in d ==> s in vals
    ensures |d| <= |vals|
  {
    if d != [] {
      var last := d[|d| - 1];
      DistinctBound(d[..|d| - 1], vals - {last});
    }
  }

  lemma TooMany(d: seq<Str>, rows: seq<Option<Str>>)
    requires Distinct(d) && forall s :: s in d ==> s in Values(rows)
    ensures |d| <= |Values(rows)|
  {
    DistinctBound(d, Values(rows));
  }

  /** A sorted dictionary has one slot per value. */
  lemma {:induction false} DictionarySize(d: seq<Str>, vals: set<Str>)
    requires Distinct(d) && forall s :: s in d <==> s in vals
    ensures |d| == |vals|
  {
    if d == [] {
      assert vals == {};
    } else {
      var last := d[|d| - 1];
      assert d == d[..|d| - 1] + [last];
      DictionarySize(d[..|d| - 1], vals - {last});
    }
  }

  /** Sorts the dictionary of a first-seen encoding; every row keeps its string. */
  method SortColumn(col: Column, ghost rows: seq<Option<Str>>) returns (r: Column)
    requires Distinct(col.dictionary) && CodesAll(col.dictionary, col.indices, rows)
    ensures Sorted(r.dictionary) && (forall s :: s in r.dictionary <==> s in col.dictionary)
    ensures CodesAll(r.dictionary, r.indices, rows)
  {
    var d, codes := col.dictionary, col.indices;
    var indices := new int[|codes|](i requires 0 <= i < |codes| => codes[i]);
    forall i | 0 <= i < |codes|
      ensures 0 <= indices[i] <= |d|
    {
      assert Codes(d, codes[i], rows[i]);
    }
    var sorted := LexSortDictionary(d, indices);
    r := Column(sorted, indices[..]);
    forall i | 0 <= i < |rows|
      ensures Codes(sorted, r.indices[i], rows[i])
    {
      assert Codes(d, codes[i], rows[i]);
    }
  }

  /**
   `from_string_array`, for any hash function: the encoding over exactly the
   distinct non-null strings, or an error if they outnumber `i32::MAX`. `uploads`
   says whether the device takes the codes.
   */
  method FromStringArray(rows: seq<Option<Str>>, hash: Str -> int, uploads: bool)
    returns (r: Result<Column, DictError>)
    ensures r.Ok? <==> |Values(rows)| <= I32_MAX && uploads
    ensures r.Ok? ==> Encodes(r.value, Values(rows), rows)
    ensures r.Err? ==> r.error == if |Values(rows)| > I32_MAX then Overflow else UploadFailed
  {
    var deduped := Dedupe(rows, hash);
    if deduped.Err? {
      return deduped;
    }
    DictionarySize(deduped.value.dictionary, Values(rows));
    var col := SortColumn(deduped.value, rows);
    r := if uploads then Ok(col) else Err(UploadFailed);
  }

  /** `DictionaryAny::from_string_array`: too many distinct strings for `i32` codes are refused up front. */
  method AnyFromStringArray(rows: seq<Option<Str>>, hash: Str -> int, uploads: bool)
    returns (r: Result<Column, DictError>)
    ensures r.Ok? <==> |Values(rows)| < I32_INDEX_THRESHOLD && uploads
    ensures r.Ok? ==> Encodes(r.value, Values(rows), rows)
    ensures r.Err? ==> r.error == if |Values(rows)| >= I32_INDEX_THRESHOLD then NotWired else UploadFailed
  {
    var distinct := EstimateDistinctCount(rows);
    if distinct >= I32_INDEX_THRESHOLD {
      return Err(NotWired);
    }
    r := FromStringArray(rows, hash, uploads);
  }

  method EstimateDistinctCount(rows: seq<Option<Str>>) returns (n: nat)
    ensures n == |Values(rows)|
  {
    var seen: set<Str> := {};
    for i := 0 to |rows|
      invariant seen == Values(rows[..i])
    {
      assert rows[..i + 1] == rows[..i] + [rows[i]];
      if rows[i].Some? {
        seen := seen + {rows[i].value};
      }
    }
    assert rows[..|rows|] == rows;
    n := |seen|;
  }

  // ---- What the encoding promises -------------------------------------------

  /** `decode_index`. */
  function DecodeIndex(d: seq<Str>, c: int): Result<Option<Str>, DictError> {
    if c == 0 then Ok(None)
    else if c < 0 then Err(NegativeIndex)
    else if c - 1 >= |d| then Err(OutOfRange)
    else Ok(Some(d[c - 1]))
  }

  /** Decoding inverts encoding, and fails exactly outside `0..=len`. */
  lemma DecodeInverts(d: seq<Str>, c: int, o: Option<Str>)
    requires Distinct(d)
    ensures Codes(d, c, o) <==> DecodeIndex(d, c) == Ok(o)
    ensures DecodeIndex(d, c).Err? <==> c < 0 || c > |d|
  {
  }

  function DecodeColumn(col: Column): (r: seq<Result<Option<Str>, DictError>>)
  {
    seq(|col.indices|, i requires 0 <= i < |col.indices| => DecodeIndex(col.dictionary, col.indices[i]))
  }

  /** Round trip: decoding every code of an encoded column returns the column. */
  lemma RoundTrip(col: Column, vals: set<Str>, rows: seq<Option<Str>>)
    requires Encodes(col, vals, rows)
    ensures DecodeColumn(col) == seq(|rows|, i requires 0 <= i < |rows| => Ok(rows[i]))
  {
    SortedIsDistinct(col.dictionary);
    forall i | 0 <= i < |rows|
      ensures DecodeIndex(col.dictionary, col.indices[i]) == Ok(rows[i])
    {
      DecodeInverts(col.dictionary, col.indices[i], rows[i]);
    }
  }

  lemma SortedIsDistinct(d: seq<Str>)
    requires Sorted(d)
    ensures Distinct(d)
  {
    forall i, j | 0 <= i < j < |d|
      ensures d[i] != d[j]
    {
      LessIrreflexive(d[i]);
    }
  }

  /**
   Canonical form: the encoding of a column is unique, whatever the hash
   function, and the dictionary depends only on the set of values.
   */
  lemma EncodingIsCanonical(a: Column, b: Column, vals: set<Str>, rowsA: seq<Option<Str>>, rowsB: seq<Option<Str>>)
    requires Encodes(a, vals, rowsA) && Encodes(b, vals, rowsB)
    ensures a.dictionary == b.dictionary
    ensures rowsA == rowsB ==> a == b
  {
    SortedUnique(a.dictionary, b.dictionary);
    SortedIsDistinct(a.dictionary);
    if rowsA == rowsB {
      forall i | 0 <= i < |rowsA|
        ensures a.indices[i] == b.indices[i]
      {
        assert Codes(a.dictionary, a.indices[i], rowsA[i]) && Codes(a.dictionary, b.indices[i], rowsA[i]);
      }
    }
  }

  /** Comparing two codes compares their strings, and code 0 is exactly NULL. */
  lemma CodesEmbedOrder(col: Column, vals: set<Str>, rows: seq<Option<Str>>, i: nat, j: nat)
    requires Encodes(col, vals, rows) && i < |rows| && j < |rows|
    ensures col.indices[i] == 0 <==> rows[i].None?
    ensures rows[i].Some? && rows[j].Some? ==>
              && (col.indices[i] < col.indices[j] <==> Bytewise(rows[i].value, rows[j].value))
              && (col.indices[i] == col.indices[j] <==> rows[i].value == rows[j].value)
              && (col.indices[i] > col.indices[j] <==> Bytewise(rows[j].value, rows[i].value))
  {
    hide Bytewise;
    assert Codes(col.dictionary, col.indices[i], rows[i]) && Codes(col.dictionary, col.indices[j], rows[j]);
    if rows[i].Some? && rows[j].Some? {
      LessTrichotomy(rows[i].value, rows[j].value);
      LessExact(rows[i].value, rows[j].value);
      LessExact(rows[j].value, rows[i].value);
    }
  }

  // ---- collation_ranks_of ---------------------------------------------------

  /** `ranks[p]` is the position of slot `p` in the stable byte order. */
  ghost predicate IsRanking(d: seq<Str>, ranks: seq<nat>) {
    && |ranks| == |d| && (forall p :: 0 <= p < |d| ==> ranks[p] < |d|)
    && (forall p, q :: 0 <= p < |d| && 0 <= q < |d| ==> (ranks[p] < ranks[q] <==> Before(d, p, q)))
  }

  method CollationRanksOf(d: seq<Str>) returns (ranks: seq<nat>)
    ensures IsRanking(d, ranks)
    ensures forall k :: 0 <= k < |d| ==> k in ranks
  {
    var order := SortSlots(d);
    ranks := seq(|d|, _ => 0);
    for k := 0 to |d|
      invariant |ranks| == |d|
      invariant forall i :: 0 <= i < k ==> ranks[order[i]] == i
    {
      forall i | 0 <= i < k
        ensures order[i] != order[k]
      {
        OrderIndex(d, order, i, k);
      }
      ranks := ranks[order[k] := k];
    }
    forall p, q | 0 <= p < |d| && 0 <= q < |d|
      ensures ranks[p] < |d| && (ranks[p] < ranks[q] <==> Before(d, p, q))
    {
      assert p in order && q in order;
      var i :| 0 <= i < |d| && order[i] == p;
      var j :| 0 <= j < |d| && order[j] == q;
      OrderIndex(d, order, i, j);
    }
    forall k | 0 <= k < |d|
      ensures k in ranks
    {
      assert ranks[order[k]] == k;
    }
  }

  /** After ingest the codes are the ranks: the ranking of a sorted dictionary is the identity. */
  lemma RankingIsIdentity(d: seq<Str>, ranks: seq<nat>)
    requires Sorted(d) && IsRanking(d, ranks)
    ensures ranks == seq(|d|, p => p)
  {
    forall p | 0 <= p < |d|
      ensures ranks[p] == p
    {
      RankAtLeast(d, ranks, p);
      RankAtMost(d, ranks, p);
    }
  }

  lemma {:induction false} RankAtLeast(d: seq<Str>, ranks: seq<nat>, p: nat)
    requires Sorted(d) && IsRanking(d, ranks) && p < |d|
    ensures ranks[p] >= p
  {
    if p > 0 {
      RankAtLeast(d, ranks, p - 1);
      assert Before(d, p - 1, p);
    }
  }

  lemma {:induction false} RankAtMost(d: seq<Str>, ranks: seq<nat>, p: nat)
    requires Sorted(d) && IsRanking(d, ranks) && p < |d|
    ensures ranks[p] <= p
    decreases |d| - p
  {
    if p + 1 < |d| {
      RankAtMost(d, ranks, p + 1);
      assert Before(d, p, p + 1);
    }
  }
}
