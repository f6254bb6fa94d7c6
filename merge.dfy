/** `merge_objects`: the deep merge that flattens `allOf` and enum-style
    `oneOf` and that builds every `anyOf` combination.  The dicts are folded
    from left to right into an output dict; a key seen for the first time is
    copied over, and a key already present meets the later value under
    `Combine`. */
module DeepMerge {
  import opened JsonValue

  // ---------------------------------------------------------------------
  // Specification.  The recursion through nested dicts terminates because
  // the depth of the values being merged goes down at every nesting level;
  // each function promises that its result is no deeper than its inputs,
  // which is what lets the next level be called.

  /** The value kept when a key already in the output meets a later value:
      two lists are concatenated, two dicts are merged, and on any other
      clash the earlier value stays. */
  function Combine(current: Json, later: Json): (r: Json)
    ensures Depth(r) <= Max(Depth(current), Depth(later))
    decreases Max(Depth(current), Depth(later)), 0
  {
    if current.Arr? && later.Arr? then
      ItemsDepthConcat(current.items, later.items, Max(ItemsDepth(current.items), ItemsDepth(later.items)));
      Arr(current.items + later.items)
    else if current.Obj? && later.Obj? then
      MaxFieldsDepthPair(current.fields, later.fields);
      Obj(Merge([current.fields, later.fields]))
    else
      current
  }

  /** One `key, value` step of the inner loop. */
  function MergeEntry(acc: Fields, k: string, v: Json): (r: Fields)
    ensures FieldsDepth(r) <= Max(FieldsDepth(acc), Depth(v))
    decreases Max(FieldsDepth(acc), Depth(v)), 1
  {
    var bound := Max(FieldsDepth(acc), Depth(v));
    if k !in Keys(acc) then
      PutDepth(acc, k, v, bound);
      Put(acc, k, v)
    else
      FieldsDepthBound(acc, FieldsDepth(acc));
      var c := Combine(acc[IndexOf(acc, k)].1, v);
      PutDepth(acc, k, c, bound);
      Put(acc, k, c)
  }

  /** The inner loop: every entry of dict `d`, in order, merged into `acc`. */
  function MergeInto(acc: Fields, d: Fields): (r: Fields)
    ensures FieldsDepth(r) <= Max(FieldsDepth(acc), FieldsDepth(d))
    decreases Max(FieldsDepth(acc), FieldsDepth(d)), 2, |d|
  {
    if d == [] then acc
    else
      var n := |d| - 1;
      FieldsDepthPrefix(d, n);
      FieldsDepthBound(d, FieldsDepth(d));
      MergeEntry(MergeInto(acc, d[..n]), d[n].0, d[n].1)
  }

  /** `merge_objects(ds)`: the dicts folded from left to right into `{}`. */
  function Merge(ds: seq<Fields>): (r: Fields)
    ensures FieldsDepth(r) <= MaxFieldsDepth(ds)
    decreases MaxFieldsDepth(ds), 3, |ds|
  {
    if ds == [] then []
    else
      var n := |ds| - 1;
      MaxFieldsDepthBound(ds, MaxFieldsDepth(ds));
      MaxFieldsDepthBound(ds[..n], MaxFieldsDepth(ds));
      MergeInto(Merge(ds[..n]), ds[n])
  }

  lemma MaxFieldsDepthPair(a: Fields, b: Fields)
    ensures MaxFieldsDepth([a, b]) == Max(FieldsDepth(a), FieldsDepth(b))
  {
    assert [a, b][..1] == [a];
    assert [a][..0] == [];
    assert MaxFieldsDepth([a]) == FieldsDepth(a);
  }

  /** Storing back the value a key already holds changes nothing. */
  lemma PutUnchanged(fs: Fields, k: string)
    requires k in Keys(fs)
    ensures Put(fs, k, fs[IndexOf(fs, k)].1) == fs
  {
  }

  /** One more entry of the inner loop. */
  lemma MergeIntoStep(acc: Fields, d: Fields, j: nat)
    requires j < |d|
    ensures MergeInto(acc, d[..j + 1]) == MergeEntry(MergeInto(acc, d[..j]), d[j].0, d[j].1)
  {
    assert d[..j + 1][..j] == d[..j];
  }

  // ---------------------------------------------------------------------
  // The loops of the source.

  /** `merge_objects`, loop for loop: the outer loop over the dicts, the
      inner loop over each dict's items, `output[key] = ...` on a new key or
      on a clash of two lists or two dicts, and nothing on any other clash. */
  method MergeObjects(dictionaries: seq<Fields>) returns (output: Fields)
    ensures output == Merge(dictionaries)
    decreases MaxFieldsDepth(dictionaries), 1
  {
    output := [];
    var n := 0;
    MaxFieldsDepthBound(dictionaries, MaxFieldsDepth(dictionaries));
    while n < |dictionaries|
      invariant 0 <= n <= |dictionaries|
      invariant output == Merge(dictionaries[..n])
      invariant FieldsDepth(output) <= MaxFieldsDepth(dictionaries)
    {
      var dictionary := dictionaries[n];
      ghost var before := output;
      var j := 0;
      FieldsDepthBound(dictionary, FieldsDepth(dictionary));
      while j < |dictionary|
        invariant 0 <= j <= |dictionary|
        invariant output == MergeInto(before, dictionary[..j])
        invariant FieldsDepth(output) <= MaxFieldsDepth(dictionaries)
      {
        var (key, value) := dictionary[j];
        FieldsDepthBound(dictionary, FieldsDepth(dictionary));
        output := MergeItem(output, key, value);
        MergeIntoStep(before, dictionary, j);
        j := j + 1;
      }
      assert dictionary[..j] == dictionary;
      assert dictionaries[..n + 1][..n] == dictionaries[..n];
      n := n + 1;
    }
    assert dictionaries[..n] == dictionaries;
  }

  /** The body of the inner loop: one `key, value` of a dict met with the
      output so far. */
  method MergeItem(output: Fields, key: string, value: Json) returns (r: Fields)
    ensures r == MergeEntry(output, key, value)
    decreases Max(FieldsDepth(output), Depth(value)), 0
  {
    if key !in Keys(output) {
      r := Put(output, key, value);
    } else {
      var current := output[IndexOf(output, key)].1;
      if current.Arr? && value.Arr? {
        r := Put(output, key, Arr(current.items + value.items));
      } else if current.Obj? && value.Obj? {
        FieldsDepthBound(output, FieldsDepth(output));
        MaxFieldsDepthPair(current.fields, value.fields);
        var merged := MergeObjects([current.fields, value.fields]);
        r := Put(output, key, Obj(merged));
      } else {
        PutUnchanged(output, key);
        r := output;
      }
    }
  }

  // ---------------------------------------------------------------------
  // What the merged dict holds, key by key.

  /** Reference for one key: the values it takes across the dicts, in order,
      the first one copied and each later one met under `Combine`. */
  function Collected(ds: seq<Fields>, k: string): Option<Json> {
    if ds == [] then None
    else
      var p := Collected(ds[..|ds| - 1], k);
      match Get(ds[|ds| - 1], k)
      case None => p
      case Some(v) => if p.None? then Some(v) else Some(Combine(p.value, v))
  }

  lemma MergeEntryGet(acc: Fields, k: string, v: Json, k': string)
    ensures Get(MergeEntry(acc, k, v), k') ==
      if k' != k then Get(acc, k')
      else if Get(acc, k).None? then Some(v)
      else Some(Combine(Get(acc, k).value, v))
  {
    if k !in Keys(acc) {
      PutGet(acc, k, v, k');
    } else {
      PutGet(acc, k, Combine(acc[IndexOf(acc, k)].1, v), k');
    }
  }

  /** The last entry of a dict with unique keys is the only one for its key. */
  lemma GetLast(d: Fields, k: string)
    requires UniqueKeys(d) && d != []
    ensures Get(d, k) == if k == d[|d| - 1].0 then Some(d[|d| - 1].1) else Get(d[..|d| - 1], k)
  {
    var n := |d| - 1;
    var pre := d[..n];
    assert forall j :: 0 <= j < n ==> pre[j].0 != d[n].0;
    PutNew(pre, d[n].0, d[n].1);
    assert d == pre + [(d[n].0, d[n].1)];
    PutGet(pre, d[n].0, d[n].1, k);
  }

  lemma {:induction false} MergeIntoGet(acc: Fields, d: Fields, k: string)
    requires UniqueKeys(d)
    ensures Get(MergeInto(acc, d), k) ==
      match Get(d, k)
      case None => Get(acc, k)
      case Some(v) => if Get(acc, k).None? then Some(v) else Some(Combine(Get(acc, k).value, v))
    decreases |d|
  {
    if d != [] {
      var n := |d| - 1;
      var pre := d[..n];
      assert UniqueKeys(pre);
      MergeIntoGet(acc, pre, k);
      MergeEntryGet(MergeInto(acc, pre), d[n].0, d[n].1, k);
      GetLast(d, k);
      if k == d[n].0 {
        KeysMember(pre, k);
      }
    }
  }

  /** Each key of the merged dict holds what `Collected` says: its value in
      the first dict that has it, combined in order with its later values. */
  lemma {:induction false} MergeGet(ds: seq<Fields>, k: string)
    requires forall i :: 0 <= i < |ds| ==> UniqueKeys(ds[i])
    ensures Get(Merge(ds), k) == Collected(ds, k)
  {
    if ds != [] {
      var n := |ds| - 1;
      MergeGet(ds[..n], k);
      MergeIntoGet(Merge(ds[..n]), ds[n], k);
    }
  }

  // ---------------------------------------------------------------------
  // Which keys the merged dict has, and in what order.

  /** First occurrences, in order. */
  function Dedup(s: seq<string>): seq<string> {
    if s == [] then []
    else
      var p := Dedup(s[..|s| - 1]);
      if s[|s| - 1] in p then p else p + [s[|s| - 1]]
  }

  /** The keys of all the dicts, one dict after another. */
  function AllKeys(ds: seq<Fields>): seq<string> {
    if ds == [] then [] else AllKeys(ds[..|ds| - 1]) + Keys(ds[|ds| - 1])
  }

  lemma {:induction false} DedupMember(s: seq<string>)
    ensures forall x :: x in Dedup(s) <==> x in s
    ensures forall i, j :: 0 <= i < j < |Dedup(s)| ==> Dedup(s)[i] != Dedup(s)[j]
  {
    if s != [] {
      DedupMember(s[..|s| - 1]);
      assert s == s[..|s| - 1] + [s[|s| - 1]];
    }
  }

  lemma DedupSnoc(s: seq<string>, x: string)
    ensures Dedup(s + [x]) == if x in Dedup(s) then Dedup(s) else Dedup(s) + [x]
  {
    assert (s + [x])[..|s|] == s;
  }

  lemma {:induction false} AllKeysMember(ds: seq<Fields>, k: string)
    ensures k in AllKeys(ds) <==> exists i :: 0 <= i < |ds| && k in Keys(ds[i])
  {
    if ds != [] {
      var n := |ds| - 1;
      AllKeysMember(ds[..n], k);
      if k in AllKeys(ds[..n]) {
        var i :| 0 <= i < n && k in Keys(ds[..n][i]);
        assert ds[i] == ds[..n][i];
      }
      if exists i :: 0 <= i < |ds| && k in Keys(ds[i]) {
        var i :| 0 <= i < |ds| && k in Keys(ds[i]);
        if i < n {
          assert ds[..n][i] == ds[i];
        }
      }
    }
  }

  lemma MergeEntryKeys(acc: Fields, k: string, v: Json)
    ensures Keys(MergeEntry(acc, k, v)) == if k in Keys(acc) then Keys(acc) else Keys(acc) + [k]
  {
    if k !in Keys(acc) {
      PutKeys(acc, k, v);
    } else {
      PutKeys(acc, k, Combine(acc[IndexOf(acc, k)].1, v));
    }
  }

  lemma {:induction false} MergeIntoKeys(acc: Fields, d: Fields, s: seq<string>)
    requires Keys(acc) == Dedup(s)
    ensures Keys(MergeInto(acc, d)) == Dedup(s + Keys(d))
    decreases |d|
  {
    if d == [] {
      assert s + Keys(d) == s;
    } else {
      var n := |d| - 1;
      var s' := s + Keys(d[..n]);
      MergeIntoKeys(acc, d[..n], s);
      var mid := MergeInto(acc, d[..n]);
      assert Keys(mid) == Dedup(s');
      var k := d[n].0;
      MergeEntryKeys(mid, k, d[n].1);
      KeysSnoc(d);
      assert s + Keys(d) == s' + [k];
      DedupSnoc(s', k);
    }
  }

  /** The merged dict has each key of the inputs exactly once, in the order
      of first appearance: the key set is the union of the inputs' key sets. */
  lemma {:induction false} MergeKeys(ds: seq<Fields>)
    ensures Keys(Merge(ds)) == Dedup(AllKeys(ds))
    ensures UniqueKeys(Merge(ds))
    ensures forall k :: k in Keys(Merge(ds)) <==> exists i :: 0 <= i < |ds| && k in Keys(ds[i])
  {
    if ds != [] {
      var n := |ds| - 1;
      MergeKeys(ds[..n]);
      MergeIntoKeys(Merge(ds[..n]), ds[n], AllKeys(ds[..n]));
    }
    DedupMember(AllKeys(ds));
    UniqueKeysDistinct(Merge(ds));
    forall k ensures k in Keys(Merge(ds)) <==> exists i :: 0 <= i < |ds| && k in Keys(ds[i]) {
      AllKeysMember(ds, k);
    }
  }

  // ---------------------------------------------------------------------
  // The clash rules.

  /** Two dicts: a key in only one of them keeps that value; two lists are
      concatenated earlier-first; two dicts are merged; any other clash keeps
      the earlier value and drops the later one. */
  lemma MergePair(a: Fields, b: Fields, k: string)
    requires UniqueKeys(a) && UniqueKeys(b)
    ensures Get(a, k).None? ==> Get(Merge([a, b]), k) == Get(b, k)
    ensures Get(b, k).None? ==> Get(Merge([a, b]), k) == Get(a, k)
    ensures Get(a, k).Some? && Get(b, k).Some? ==>
      var x, y := Get(a, k).value, Get(b, k).value;
      Get(Merge([a, b]), k) ==
        if x.Arr? && y.Arr? then Some(Arr(x.items + y.items))
        else if x.Obj? && y.Obj? then Some(Obj(Merge([x.fields, y.fields])))
        else Some(x)
  {
    MergeGet([a, b], k);
    assert [a, b][..1] == [a];
    assert [a][..0] == [];
    assert Collected([a], k) == Get(a, k);
  }

  lemma {:induction false} CollectedAbsent(ds: seq<Fields>, k: string)
    requires forall i :: 0 <= i < |ds| ==> Get(ds[i], k).None?
    ensures Collected(ds, k).None?
  {
    if ds != [] {
      CollectedAbsent(ds[..|ds| - 1], k);
    }
  }

  lemma {:induction false} CollectedFirstScalar(ds: seq<Fields>, k: string, i: nat)
    requires i < |ds| && Get(ds[i], k).Some?
    requires !Get(ds[i], k).value.Arr? && !Get(ds[i], k).value.Obj?
    requires forall j :: 0 <= j < i ==> Get(ds[j], k).None?
    ensures Collected(ds, k) == Get(ds[i], k)
  {
    var n := |ds| - 1;
    if n == i {
      CollectedAbsent(ds[..n], k);
    } else {
      CollectedFirstScalar(ds[..n], k, i);
    }
  }

  /** First wins: when the first dict that has the key holds a scalar there,
      the merged dict keeps that scalar whatever the later dicts hold. */
  lemma MergeFirstScalarWins(ds: seq<Fields>, k: string, i: nat)
    requires forall j :: 0 <= j < |ds| ==> UniqueKeys(ds[j])
    requires i < |ds| && Get(ds[i], k).Some?
    requires !Get(ds[i], k).value.Arr? && !Get(ds[i], k).value.Obj?
    requires forall j :: 0 <= j < i ==> Get(ds[j], k).None?
    ensures Get(Merge(ds), k) == Get(ds[i], k)
  {
    MergeGet(ds, k);
    CollectedFirstScalar(ds, k, i);
  }

  /** The lists the dicts hold under `k`, one after another. */
  function ListsUnder(ds: seq<Fields>, k: string): seq<Json> {
    if ds == [] then []
    else
      var last := Get(ds[|ds| - 1], k);
      ListsUnder(ds[..|ds| - 1], k) + if last.Some? && last.value.Arr? then last.value.items else []
  }

  lemma {:induction false} CollectedLists(ds: seq<Fields>, k: string)
    requires ds != []
    requires forall i :: 0 <= i < |ds| ==> Get(ds[i], k).Some? && Get(ds[i], k).value.Arr?
    ensures Collected(ds, k) == Some(Arr(ListsUnder(ds, k)))
  {
    var n := |ds| - 1;
    if n > 0 {
      CollectedLists(ds[..n], k);
    } else {
      assert ds[..n] == [];
      assert ListsUnder(ds, k) == Get(ds[0], k).value.items;
    }
  }

  /** When every dict holds a list under `k`, the merged dict holds all of
      them concatenated in order, duplicates kept. */
  lemma MergeConcatenatesLists(ds: seq<Fields>, k: string)
    requires forall i :: 0 <= i < |ds| ==> UniqueKeys(ds[i])
    requires ds != []
    requires forall i :: 0 <= i < |ds| ==> Get(ds[i], k).Some? && Get(ds[i], k).value.Arr?
    ensures Get(Merge(ds), k) == Some(Arr(ListsUnder(ds, k)))
  {
    MergeGet(ds, k);
    CollectedLists(ds, k);
  }

  /** Merging a single dict copies it. */
  lemma {:induction false} MergeIntoEmpty(d: Fields)
    requires UniqueKeys(d)
    ensures MergeInto([], d) == d
  {
    if d != [] {
      var n := |d| - 1;
      assert UniqueKeys(d[..n]);
      MergeIntoEmpty(d[..n]);
      assert forall j :: 0 <= j < n ==> d[..n][j].0 != d[n].0;
      PutNew(d[..n], d[n].0, d[n].1);
      assert d[..n] + [(d[n].0, d[n].1)] == d;
    }
  }

  lemma MergeSingle(d: Fields)
    requires UniqueKeys(d)
    ensures Merge([d]) == d
  {
    assert [d][..0] == [];
    MergeIntoEmpty(d);
  }

  /** The `properties` dicts of the source's merge test. */
  lemma MergeTwoPropertyDicts(str: Json)
    ensures Merge([[("key1", str)], [("key2", str)]]) == [("key1", str), ("key2", str)]
  {
    var p1, p2 := [("key1", str)], [("key2", str)];
    MergeSingle(p1);
    assert [p1, p2][..1] == [p1];
    assert p2[..0] == [];
    assert MergeInto(p1, p2) == MergeEntry(MergeInto(p1, []), "key2", str);
    assert "key2" !in Keys(p1);
    PutNew(p1, "key2", str);
  }

  /** The three entries of the second schema of the source's merge test,
      merged one after another into the first. */
  lemma MergeTestTypeEntry(t: Json, r: Json, p: Json)
    ensures MergeEntry([("type", t), ("required", r), ("properties", p)], "type", Str("object")) ==
      [("type", t), ("required", r), ("properties", p)][0 := ("type", Combine(t, Str("object")))]
  {
    var d := [("type", t), ("required", r), ("properties", p)];
    assert Keys(d)[0] == "type";
    assert IndexOf(d, "type") == 0;
  }

  lemma MergeTestRequiredEntry(t: Json, r: Json, p: Json)
    ensures MergeEntry([("type", t), ("required", r), ("properties", p)], "required", Arr([Str("key2")])) ==
      [("type", t), ("required", Combine(r, Arr([Str("key2")]))), ("properties", p)]
  {
    var d := [("type", t), ("required", r), ("properties", p)];
    assert Keys(d)[1] == "required";
    assert IndexOf(d, "required") == 1;
  }

  lemma MergeTestPropertiesEntry(t: Json, r: Json, p: Json)
    ensures MergeEntry([("type", t), ("required", r), ("properties", p)], "properties", Obj([("key2", Obj([("type", Str("string"))]))])) ==
      [("type", t), ("required", r), ("properties", Combine(p, Obj([("key2", Obj([("type", Str("string"))]))])))]
  {
    var d := [("type", t), ("required", r), ("properties", p)];
    assert Keys(d)[2] == "properties";
    assert IndexOf(d, "properties") == 2;
  }

  /** The two object schemas of the source's own merge test: `required`
      lists are concatenated and `properties` dicts merged. */
  lemma MergeTwoObjectSchemas(object1: Fields, object2: Fields)
    requires object1 == [("type", Str("object")), ("required", Arr([Str("key1")])),
                         ("properties", Obj([("key1", Obj([("type", Str("string"))]))]))]
    requires object2 == [("type", Str("object")), ("required", Arr([Str("key2")])),
                         ("properties", Obj([("key2", Obj([("type", Str("string"))]))]))]
    ensures Merge([object1, object2]) ==
      [("type", Str("object")), ("required", Arr([Str("key1"), Str("key2")])),
       ("properties", Obj([("key1", Obj([("type", Str("string"))])),
                           ("key2", Obj([("type", Str("string"))]))]))]
  {
    assert Merge([object1, object2]) == MergeInto(object1, object2) by {
      assert UniqueKeys(object1);
      MergeSingle(object1);
      assert [object1, object2][..1] == [object1];
    }
    MergeTestThirdEntry(object1, object2);
  }

  /** The merge test, after the `type` entry of the second schema. */
  lemma MergeTestFirstEntry(object1: Fields, object2: Fields)
    requires object1 == [("type", Str("object")), ("required", Arr([Str("key1")])),
                         ("properties", Obj([("key1", Obj([("type", Str("string"))]))]))]
    requires object2 == [("type", Str("object")), ("required", Arr([Str("key2")])),
                         ("properties", Obj([("key2", Obj([("type", Str("string"))]))]))]
    ensures MergeInto(object1, object2[..1]) == object1
  {
    MergeIntoStep(object1, object2, 0);
    assert object2[..0] == [];
    MergeTestTypeEntry(Str("object"), Arr([Str("key1")]), object1[2].1);
  }

  /** The merge test, after the `required` entry of the second schema. */
  lemma MergeTestSecondEntry(object1: Fields, object2: Fields)
    requires object1 == [("type", Str("object")), ("required", Arr([Str("key1")])),
                         ("properties", Obj([("key1", Obj([("type", Str("string"))]))]))]
    requires object2 == [("type", Str("object")), ("required", Arr([Str("key2")])),
                         ("properties", Obj([("key2", Obj([("type", Str("string"))]))]))]
    ensures MergeInto(object1, object2[..2]) ==
      [("type", Str("object")), ("required", Arr([Str("key1"), Str("key2")])), object1[2]]
  {
    MergeTestFirstEntry(object1, object2);
    MergeIntoStep(object1, object2, 1);
    MergeTestRequiredEntry(Str("object"), Arr([Str("key1")]), object1[2].1);
    assert [Str("key1")] + [Str("key2")] == [Str("key1"), Str("key2")];
  }

  /** The merge test, after the `properties` entry of the second schema. */
  lemma MergeTestThirdEntry(object1: Fields, object2: Fields)
    requires object1 == [("type", Str("object")), ("required", Arr([Str("key1")])),
                         ("properties", Obj([("key1", Obj([("type", Str("string"))]))]))]
    requires object2 == [("type", Str("object")), ("required", Arr([Str("key2")])),
                         ("properties", Obj([("key2", Obj([("type", Str("string"))]))]))]
    ensures MergeInto(object1, object2) ==
      [("type", Str("object")), ("required", Arr([Str("key1"), Str("key2")])),
       ("properties", Obj([("key1", Obj([("type", Str("string"))])),
                           ("key2", Obj([("type", Str("string"))]))]))]
  {
    var str := Obj([("type", Str("string"))]);
    MergeTestSecondEntry(object1, object2);
    MergeIntoStep(object1, object2, 2);
    assert object2[..3] == object2;
    MergeTestPropertiesEntry(Str("object"), Arr([Str("key1"), Str("key2")]), object1[2].1);
    CombinePropertyDicts(str);
  }

  /** The `properties` values of the source's merge test, met under `Combine`. */
  lemma CombinePropertyDicts(str: Json)
    ensures Combine(Obj([("key1", str)]), Obj([("key2", str)])) == Obj([("key1", str), ("key2", str)])
  {
    MergeTwoPropertyDicts(str);
  }
}
