/** Ingest of an Arrow dictionary array (`src/cuda/dictionary_any.rs`). */
module DictionaryArray {
  import opened Common
  import opened Text
  import opened Dictionary

  predicate ValidKey(values: seq<Option<Str>>, key: Option<int>) {
    key.Some? ==> 0 <= key.value < |values|
  }

  predicate ValidKeys(values: seq<Option<Str>>, keys: seq<Option<int>>) {
    forall r :: 0 <= r < |keys| ==> ValidKey(values, keys[r])
  }

  /** The logical column: NULL for a null key or a key of a null value. */
  function Expanded(values: seq<Option<Str>>, keys: seq<Option<int>>): (rows: seq<Option<Str>>)
    requires ValidKeys(values, keys)
    ensures |rows| == |keys|
  {
    seq(|keys|, r requires 0 <= r < |keys| =>
      assert ValidKey(values, keys[r]);
      if keys[r].None? then None else values[keys[r].value])
  }

  /** The first key that is not an index into the values. */
  ghost predicate FirstBadKey(values: seq<Option<Str>>, keys: seq<Option<int>>, r: nat) {
    r < |keys| && !ValidKey(values, keys[r]) && forall i :: 0 <= i < r ==> ValidKey(values, keys[i])
  }

  /** `seen` maps the strings of `d` to their codes. */
  ghost predicate Knows(d: seq<Str>, seen: map<Str, int>) {
    (forall s :: s in d <==> s in seen) && forall s :: s in seen ==> 1 <= seen[s] <= |d| && d[seen[s] - 1] == s
  }

  lemma KnowsPush(d: seq<Str>, seen: map<Str, int>, s: Str)
    requires Knows(d, seen)
    ensures Knows(d + [s], seen[s := |d| + 1])
  {
  }

  /** The codes of the value slots: duplicates share a code, null slots are 0. */
  method SlotCodes(values: seq<Option<Str>>) returns (r: Result<Column, DictError>)
    ensures r.Ok? <==> |Values(values)| <= I32_MAX
    ensures r.Ok? ==> FirstSeen(r.value.dictionary, r.value.indices, values)
    ensures r.Err? ==> r.error == Overflow
  {
    var d: seq<Str>, slotToGpu: seq<int>, seen: map<Str, int> := [], [], map[];
    for i := 0 to |values|
      invariant FirstSeen(d, slotToGpu, values[..i]) && |d| <= I32_MAX
      invariant Knows(d, seen)
    {
      assert values[..i + 1] == values[..i] + [values[i]];
      if values[i].None? {
        FirstSeenAgain(d, slotToGpu, values[..i], 0, None);
        slotToGpu := slotToGpu + [0];
      } else if values[i].value in seen {
        FirstSeenAgain(d, slotToGpu, values[..i], seen[values[i].value], values[i]);
        slotToGpu := slotToGpu + [seen[values[i].value]];
      } else {
        var s := values[i].value;
        if |d| + 1 > I32_MAX {
          TooMany(d + [s], values);
          return Err(Overflow);
        }
        FirstSeenPush(d, slotToGpu, values[..i], s);
        KnowsPush(d, seen, s);
        d, slotToGpu, seen := d + [s], slotToGpu + [|d| + 1], seen[s := |d| + 1];
      }
    }
    assert values[..|values|] == values;
    DictionarySize(d, Values(values));
    r := Ok(Column(d, slotToGpu));
  }

  /** Maps the keys through the slot codes. */
  method MapKeys(values: seq<Option<Str>>, slots: Column, keys: seq<Option<int>>)
    returns (r: Result<seq<int>, DictError>)
    requires FirstSeen(slots.dictionary, slots.indices, values)
    ensures r.Ok? <==> ValidKeys(values, keys)
    ensures r.Ok? ==> CodesAll(slots.dictionary, r.value, Expanded(values, keys))
    ensures r.Err? ==>
      exists at: nat :: FirstBadKey(values, keys, at)
        && r.error == if keys[at].value < 0 then NegativeKey else KeyOutOfRange
  {
    var indices: seq<int> := [];
    for i := 0 to |keys|
      invariant |indices| == i && forall j :: 0 <= j < i ==> ValidKey(values, keys[j])
      invariant forall j :: 0 <= j < i ==>
        Codes(slots.dictionary, indices[j], if keys[j].None? then None else values[keys[j].value])
    {
      if keys[i].None? {
        indices := indices + [0];
      } else {
        var k := keys[i].value;
        if k < 0 {
          assert FirstBadKey(values, keys, i);
          return Err(NegativeKey);
        }
        if k >= |slots.indices| {
          assert FirstBadKey(values, keys, i);
          return Err(KeyOutOfRange);
        }
        assert Codes(slots.dictionary, slots.indices[k], values[k]);
        indices := indices + [slots.indices[k]];
      }
    }
    r := Ok(indices);
  }

  /**
   `from_dictionary_array`: the encoding of the logical column over the distinct
   non-null values, so each distinct string has exactly one code. `uploads` says
   whether the device takes the codes.
   */
  method FromDictionaryArray(values: seq<Option<Str>>, keys: seq<Option<int>>, uploads: bool)
    returns (r: Result<Column, DictError>)
    ensures r.Ok? <==> |Values(values)| <= I32_MAX && ValidKeys(values, keys) && uploads
    ensures r.Ok? ==> Encodes(r.value, Values(values), Expanded(values, keys))
    ensures r == Err(Overflow) <==> |Values(values)| > I32_MAX
    ensures r == Err(UploadFailed) <==> |Values(values)| <= I32_MAX && ValidKeys(values, keys) && !uploads
    ensures r.Err? && r.error != Overflow && r.error != UploadFailed ==>
      exists at: nat :: FirstBadKey(values, keys, at)
        && r.error == if keys[at].value < 0 then NegativeKey else KeyOutOfRange
  {
    var slots := SlotCodes(values);
    if slots.Err? {
      return slots;
    }
    var mapped := MapKeys(values, slots.value, keys);
    if mapped.Err? {
      return Err(mapped.error);
    }
    var col := SortColumn(Column(slots.value.dictionary, mapped.value), Expanded(values, keys));
    r := if uploads then Ok(col) else Err(UploadFailed);
  }

  /**
   Encoding the dictionary array and encoding its expanded column give the same
   dictionary and codes exactly when every distinct value is referenced by a key.
   */
  lemma SameAsExpanded(values: seq<Option<Str>>, keys: seq<Option<int>>, a: Column, b: Column)
    requires ValidKeys(values, keys)
    requires Encodes(a, Values(values), Expanded(values, keys))
    requires Encodes(b, Values(Expanded(values, keys)), Expanded(values, keys))
    ensures a == b <==>
            (forall s :: s in Values(values) ==>
               exists r :: 0 <= r < |keys| && keys[r].Some? && values[keys[r].value] == Some(s))
  {
    var rows := Expanded(values, keys);
    forall s
      ensures s in Values(rows) <==> exists r :: 0 <= r < |keys| && keys[r].Some? && values[keys[r].value] == Some(s)
    {
      Referenced(values, keys, s);
    }
    assert Values(rows) <= Values(values);
    if a == b {
      assert forall s :: s in Values(values) ==> s in a.dictionary;
    } else if Values(values) <= Values(rows) {
      assert Values(values) == Values(rows);
      EncodingIsCanonical(a, b, Values(values), rows, rows);
      assert false;
    }
  }

  lemma Referenced(values: seq<Option<Str>>, keys: seq<Option<int>>, s: Str)
    requires ValidKeys(values, keys)
    ensures s in Values(Expanded(values, keys)) <==>
            exists r :: 0 <= r < |keys| && keys[r].Some? && values[keys[r].value] == Some(s)
    ensures s in Values(Expanded(values, keys)) ==> s in Values(values)
  {
    var rows := Expanded(values, keys);
    if s in Values(rows) {
      var r :| 0 <= r < |rows| && rows[r] == Some(s);
      assert ValidKey(values, keys[r]) && values[keys[r].value] == Some(s);
    }
    if r :| 0 <= r < |keys| && keys[r].Some? && values[keys[r].value] == Some(s) {
      assert rows[r] == Some(s);
    }
  }
}
