/** `normalize_schema_section`: a schema section is copied, a non-empty
    `allOf` is flattened by deep-merging its members over the node, an
    enum-style `oneOf` is collapsed the same way, and then every dict value
    and every dict inside a list value is normalized in turn. */
module SchemaNormalizer {
  import opened JsonValue
  import opened DeepMerge

  // ---------------------------------------------------------------------
  // Specification.

  /** A dict method called on each item: an item that is not a dict raises
      AttributeError. */
  function AsDicts(items: seq<Json>): Result<seq<Fields>> {
    if items == [] then Ok([])
    else if !items[0].Obj? then Err(AttributeError)
    else
      var rest :- AsDicts(items[1..]);
      Ok([items[0].fields] + rest)
  }

  /** The dicts of a list of dicts. */
  function FieldsOf(items: seq<Json>): (ds: seq<Fields>)
    requires forall i :: 0 <= i < |items| ==> items[i].Obj?
    ensures |ds| == |items| && forall i :: 0 <= i < |items| ==> items[i] == Obj(ds[i])
  {
    seq(|items|, i requires 0 <= i < |items| => items[i].fields)
  }

  /** What `merge_objects(value)` reads: the items of `value`, each a dict. */
  function Members(v: Json): Result<seq<Fields>> {
    var items :- Iterate(v);
    AsDicts(items)
  }

  /** `{**node_without_key, **merge_objects(members)}` with `key` popped. */
  function Overlay(node: Fields, key: string, members: seq<Fields>): Fields {
    Update(Remove(node, key), Merge(members))
  }

  /** The `enum` of the dict is present and truthy. */
  predicate HasTruthyEnum(fs: Fields) {
    Get(fs, "enum").Some? && Truthy(Get(fs, "enum").value)
  }

  /** `all(item.get("enum") for item in items)`: the scan stops at the first
      dict whose `enum` is falsy; an item met before that which is not a
      dict raises AttributeError. */
  function AllHaveEnum(items: seq<Json>): Result<bool> {
    if items == [] then Ok(true)
    else if !items[0].Obj? then Err(AttributeError)
    else if !HasTruthyEnum(items[0].fields) then Ok(false)
    else AllHaveEnum(items[1..])
  }

  /** `oneOf` is a non-empty list of dicts each with a truthy `enum`. */
  predicate EnumOneOf(node: Fields) {
    var oneOf := Get(node, "oneOf");
    oneOf.Some? && oneOf.value.Arr? && oneOf.value.items != [] &&
    forall i :: 0 <= i < |oneOf.value.items| ==> EnumDict(oneOf.value.items[i])
  }

  /** The `allOf` step. */
  function FlattenAllOf(node: Fields): (r: Result<Fields>)
    ensures r.Ok? ==> FieldsDepth(r.value) <= FieldsDepth(node)
  {
    var allOf := Get(node, "allOf");
    if allOf.Some? && Truthy(allOf.value) then
      var members :- Members(allOf.value);
      GetDepth(node, "allOf");
      OverlayDepth(node, "allOf", members, allOf.value);
      Ok(Overlay(node, "allOf", members))
    else
      Ok(node)
  }

  /** The `oneOf` step. */
  function CollapseEnumOneOf(node: Fields): (r: Result<Fields>)
    ensures r.Ok? ==> FieldsDepth(r.value) <= FieldsDepth(node)
  {
    var oneOf := Get(node, "oneOf");
    if oneOf.Some? && Truthy(oneOf.value) then
      var items :- Iterate(oneOf.value);
      var all :- AllHaveEnum(items);
      if all then
        var members :- AsDicts(items);
        GetDepth(node, "oneOf");
        OverlayDepth(node, "oneOf", members, oneOf.value);
        Ok(Overlay(node, "oneOf", members))
      else
        Ok(node)
    else
      Ok(node)
  }

  /** `normalize_schema_section(node)`. */
  function Normalize(node: Fields): Result<Fields>
    decreases Depth(Obj(node)), 3
  {
    var flat :- FlattenAllOf(node);
    var collapsed :- CollapseEnumOneOf(flat);
    NormalizeEntries(collapsed)
  }

  /** The final loop over the entries, left to right. */
  function NormalizeEntries(fs: Fields): Result<Fields>
    decreases Depth(Obj(fs)), 2, |fs|
  {
    if fs == [] then Ok([])
    else
      var n := |fs| - 1;
      FieldsDepthPrefix(fs, n);
      FieldsDepthBound(fs, FieldsDepth(fs));
      var prefix :- NormalizeEntries(fs[..n]);
      var v :- NormalizeValue(fs[n].1);
      Ok(prefix + [(fs[n].0, v)])
  }

  /** A dict value is normalized, a list value has its dicts normalized,
      anything else is kept. */
  function NormalizeValue(v: Json): Result<Json>
    decreases Depth(v), 4
  {
    match v
    case Obj(m) =>
      var r :- Normalize(m);
      Ok(Obj(r))
    case Arr(xs) =>
      var r :- NormalizeItems(xs);
      Ok(Arr(r))
    case _ => Ok(v)
  }

  /** The list comprehension: dict entries normalized, other entries kept. */
  function NormalizeItems(xs: seq<Json>): Result<seq<Json>>
    decreases Depth(Arr(xs)), 1, |xs|
  {
    if xs == [] then Ok([])
    else
      var n := |xs| - 1;
      ItemsDepthPrefix(xs, n);
      ItemsDepthBound(xs, ItemsDepth(xs));
      var prefix :- NormalizeItems(xs[..n]);
      if xs[n].Obj? then
        var r :- Normalize(xs[n].fields);
        Ok(prefix + [Obj(r)])
      else
        Ok(prefix + [xs[n]])
  }

  // ---------------------------------------------------------------------
  // The procedure, step by step as the source writes it.

  /** `normalize_schema_section(schema_section)`: the deep copy is the value
      itself, `output` is reassigned by the two rewrites and then updated
      entry by entry. */
  method NormalizeSchemaSection(schemaSection: Fields) returns (r: Result<Fields>)
    ensures r == Normalize(schemaSection)
    decreases Depth(Obj(schemaSection)), 1
  {
    var flat := FlattenAllOfStep(schemaSection);
    if flat.Err? {
      return Err(flat.error);
    }
    var collapsedOrErr := CollapseEnumOneOfStep(flat.value);
    if collapsedOrErr.Err? {
      return Err(collapsedOrErr.error);
    }
    r := NormalizeEntriesLoop(collapsedOrErr.value);
  }

  /** The loop over the entries of `output`, each value replaced in place by
      its normalized form; the first failure is raised. */
  method NormalizeEntriesLoop(collapsed: Fields) returns (r: Result<Fields>)
    ensures r == NormalizeEntries(collapsed)
    decreases Depth(Obj(collapsed)), 0
  {
    var output := collapsed;
    FieldsDepthBound(collapsed, FieldsDepth(collapsed));
    var i := 0;
    while i < |output|
      invariant 0 <= i <= |output| == |collapsed|
      invariant output[i..] == collapsed[i..]
      invariant NormalizeEntries(collapsed[..i]) == Ok(output[..i])
    {
      var (key, value) := output[i];
      assert output[i] == collapsed[i];
      var normalized := NormalizeEntryValue(value);
      NormalizeEntriesStep(collapsed, i);
      if normalized.Err? {
        NormalizeEntriesErr(collapsed, i + 1);
        return Err(normalized.error);
      }
      output := output[i := (key, normalized.value)];
      assert output[..i + 1] == output[..i] + [(key, normalized.value)];
      i := i + 1;
    }
    assert collapsed[..i] == collapsed;
    assert output[..i] == output;
    return Ok(output);
  }

  /** The body of the loop over the entries: a dict is normalized, a list
      has its dicts normalized, anything else is left as it is. */
  method NormalizeEntryValue(value: Json) returns (r: Result<Json>)
    ensures r == NormalizeValue(value)
    decreases Depth(value), 3
  {
    if value.Obj? {
      var fields := NormalizeSchemaSection(value.fields);
      if fields.Err? {
        return Err(fields.error);
      }
      return Ok(Obj(fields.value));
    } else if value.Arr? {
      var items := NormalizeList(value.items);
      if items.Err? {
        return Err(items.error);
      }
      return Ok(Arr(items.value));
    }
    return Ok(value);
  }

  /** The `allOf` rewrite: pop the key, then lay the merged members over
      what is left. */
  method FlattenAllOfStep(node: Fields) returns (r: Result<Fields>)
    ensures r == FlattenAllOf(node)
  {
    var output := node;
    var allOf := Get(output, "allOf");
    if allOf.Some? && Truthy(allOf.value) {
      var members := Members(allOf.value);
      if members.Err? {
        return Err(members.error);
      }
      var merged := MergeObjects(members.value);
      output := Update(Remove(output, "allOf"), merged);
    }
    return Ok(output);
  }

  /** The `oneOf` rewrite, taken only when every member has a truthy `enum`. */
  method CollapseEnumOneOfStep(node: Fields) returns (r: Result<Fields>)
    ensures r == CollapseEnumOneOf(node)
  {
    var output := node;
    var oneOf := Get(output, "oneOf");
    if oneOf.Some? && Truthy(oneOf.value) {
      var items := Iterate(oneOf.value);
      if items.Err? {
        return Err(items.error);
      }
      var all := AllHaveEnum(items.value);
      if all.Err? {
        return Err(all.error);
      }
      if all.value {
        var members := AsDicts(items.value);
        if members.Err? {
          return Err(members.error);
        }
        var merged := MergeObjects(members.value);
        output := Update(Remove(output, "oneOf"), merged);
      }
    }
    return Ok(output);
  }

  /** The list comprehension over a list value. */
  method NormalizeList(items: seq<Json>) returns (r: Result<seq<Json>>)
    ensures r == NormalizeItems(items)
    decreases Depth(Arr(items)), 2
  {
    ItemsDepthBound(items, ItemsDepth(items));
    var output := [];
    var j := 0;
    while j < |items|
      invariant 0 <= j <= |items|
      invariant NormalizeItems(items[..j]) == Ok(output)
    {
      assert items[..j + 1][..j] == items[..j];
      var entry := items[j];
      if entry.Obj? {
        var normalized := NormalizeSchemaSection(entry.fields);
        if normalized.Err? {
          NormalizeItemsErr(items, j + 1);
          return Err(normalized.error);
        }
        output := output + [Obj(normalized.value)];
      } else {
        output := output + [entry];
      }
      j := j + 1;
    }
    assert items[..j] == items;
    return Ok(output);
  }

  /** One more entry of the loop. */
  lemma NormalizeEntriesStep(fs: Fields, i: nat)
    requires i < |fs| && NormalizeEntries(fs[..i]).Ok?
    ensures NormalizeEntries(fs[..i + 1]) ==
      if NormalizeValue(fs[i].1).Err? then Err(NormalizeValue(fs[i].1).error)
      else Ok(NormalizeEntries(fs[..i]).value + [(fs[i].0, NormalizeValue(fs[i].1).value)])
  {
    assert fs[..i + 1][..i] == fs[..i];
  }

  /** The first entry that fails decides the outcome of the whole loop. */
  lemma {:induction false} NormalizeEntriesErr(fs: Fields, i: nat)
    requires i <= |fs| && NormalizeEntries(fs[..i]).Err?
    ensures NormalizeEntries(fs) == NormalizeEntries(fs[..i])
    decreases |fs|
  {
    if i < |fs| {
      var n := |fs| - 1;
      assert fs[..n][..i] == fs[..i];
      NormalizeEntriesErr(fs[..n], i);
    } else {
      assert fs[..i] == fs;
    }
  }

  lemma {:induction false} NormalizeItemsErr(xs: seq<Json>, i: nat)
    requires i <= |xs| && NormalizeItems(xs[..i]).Err?
    ensures NormalizeItems(xs) == NormalizeItems(xs[..i])
    decreases |xs|
  {
    if i < |xs| {
      var n := |xs| - 1;
      assert xs[..n][..i] == xs[..i];
      NormalizeItemsErr(xs[..n], i);
    } else {
      assert xs[..i] == xs;
    }
  }

  // ---------------------------------------------------------------------
  // Depth facts behind termination.

  lemma {:induction false} AsDictsShape(items: seq<Json>)
    ensures AsDicts(items).Ok? <==> forall i :: 0 <= i < |items| ==> items[i].Obj?
    ensures AsDicts(items).Ok? ==> AsDicts(items).value == FieldsOf(items)
    ensures AsDicts(items).Err? ==> AsDicts(items).error == AttributeError
  {
    if items != [] {
      AsDictsShape(items[1..]);
    }
  }

  lemma MembersDepth(v: Json, members: seq<Fields>)
    requires Members(v) == Ok(members)
    ensures MaxFieldsDepth(members) <= Depth(v)
  {
    var items := Iterate(v).value;
    AsDictsShape(items);
    if v.Arr? {
      ItemsDepthBound(v.items, ItemsDepth(v.items));
      forall i | 0 <= i < |members| ensures FieldsDepth(members[i]) <= Depth(v) {
        assert Depth(Obj(members[i])) == 1 + FieldsDepth(members[i]);
      }
    } else {
      assert members == [];
    }
    MaxFieldsDepthBound(members, Depth(v));
  }

  lemma OverlayDepth(node: Fields, key: string, members: seq<Fields>, v: Json)
    requires Members(v) == Ok(members)
    requires Depth(v) <= FieldsDepth(node)
    ensures FieldsDepth(Overlay(node, key, members)) <= FieldsDepth(node)
  {
    MembersDepth(v, members);
    RemoveDepth(node, key);
    UpdateDepth(Remove(node, key), Merge(members), FieldsDepth(node));
  }

  // ---------------------------------------------------------------------
  // What the rewrites do.

  /** What `merge_objects` accepts as the members of a truthy `allOf`: a
      list of dicts.  A dict or a string is iterated as its keys or its
      characters and fails on the first of them; a truthy number or boolean
      is not iterable at all. */
  lemma MembersSpec(v: Json)
    requires Truthy(v)
    ensures Members(v).Ok? <==> v.Arr? && forall i :: 0 <= i < |v.items| ==> v.items[i].Obj?
    ensures Members(v).Ok? ==> Members(v).value == FieldsOf(v.items)
    ensures Members(v).Err? ==>
      Members(v).error == if v.Bool? || v.Num? then TypeError else AttributeError
  {
    if Iterate(v).Ok? {
      var items := Iterate(v).value;
      AsDictsShape(items);
      if !v.Arr? {
        assert items[0].Str?;
      }
    }
  }

  /** A dict whose `enum` is truthy. */
  predicate EnumDict(j: Json) {
    j.Obj? && HasTruthyEnum(j.fields)
  }

  /** `all(item.get("enum") for item in items)` is true exactly when every
      item is a dict with a truthy `enum`. */
  lemma {:induction false} AllHaveEnumTrue(items: seq<Json>)
    ensures AllHaveEnum(items) == Ok(true) <==> forall i :: 0 <= i < |items| ==> EnumDict(items[i])
  {
    if items != [] {
      AllHaveEnumTrue(items[1..]);
      assert forall i :: 0 < i < |items| ==> items[i] == items[1..][i - 1];
    }
  }

  /** It raises, always AttributeError, exactly when an item that is not a
      dict comes before any dict whose `enum` is falsy. */
  lemma {:induction false} AllHaveEnumErr(items: seq<Json>)
    ensures AllHaveEnum(items).Err? <==>
      exists i :: 0 <= i < |items| && !items[i].Obj? && forall j :: 0 <= j < i ==> EnumDict(items[j])
    ensures AllHaveEnum(items).Err? ==> AllHaveEnum(items).error == AttributeError
  {
    if items != [] && EnumDict(items[0]) {
      var rest := items[1..];
      AllHaveEnumErr(rest);
      if AllHaveEnum(rest).Err? {
        var i :| 0 <= i < |rest| && !rest[i].Obj? && forall j :: 0 <= j < i ==> EnumDict(rest[j]);
        assert !items[i + 1].Obj?;
        assert forall j :: 0 < j < i + 1 ==> items[j] == rest[j - 1];
      } else {
        forall i | 0 <= i < |items| && !items[i].Obj?
          ensures exists j :: 0 <= j < i && !EnumDict(items[j])
        {
          assert rest[i - 1] == items[i];
          var j :| 0 <= j < i - 1 && !EnumDict(rest[j]);
          assert items[j + 1] == rest[j];
        }
      }
    }
  }

  /** The `allOf` rewrite.  Absent or falsy (an empty list, say), `allOf` is
      left in place.  Otherwise it fails exactly when its members are not a
      list of dicts, and else the node becomes its other entries, in their
      order, overlaid by the merged members: a key the members have takes
      the merged value, `allOf` itself is gone unless a member brings one
      back, and every other key keeps its value. */
  lemma FlattenAllOfSpec(node: Fields, k: string)
    requires UniqueKeys(node)
    ensures var allOf := Get(node, "allOf");
      !(allOf.Some? && Truthy(allOf.value)) ==> FlattenAllOf(node) == Ok(node)
    ensures var allOf := Get(node, "allOf");
      allOf.Some? && Truthy(allOf.value) ==>
        (FlattenAllOf(node).Ok? <==> allOf.value.Arr? && forall i :: 0 <= i < |allOf.value.items| ==> allOf.value.items[i].Obj?)
    ensures var allOf := Get(node, "allOf");
      allOf.Some? && Truthy(allOf.value) && Members(allOf.value).Ok? ==>
        var merged := Merge(Members(allOf.value).value);
        var r := FlattenAllOf(node).value;
        UniqueKeys(r) &&
        Keys(Remove(node, "allOf")) <= Keys(r) &&
        Get(r, k) ==
          if k in Keys(merged) then Get(merged, k)
          else if k == "allOf" then None
          else Get(node, k)
  {
    var allOf := Get(node, "allOf");
    if allOf.Some? && Truthy(allOf.value) {
      MembersSpec(allOf.value);
      if Members(allOf.value).Ok? {
        OverlaySpec(node, "allOf", Members(allOf.value).value, k);
      }
    }
  }

  /** `{**node_without_key, **merged}`: unique keys, the remaining entries
      first in their order, the merged values winning. */
  lemma OverlaySpec(node: Fields, key: string, members: seq<Fields>, k: string)
    requires UniqueKeys(node)
    ensures var merged := Merge(members);
      var r := Overlay(node, key, members);
      UniqueKeys(r) &&
      Keys(Remove(node, key)) <= Keys(r) &&
      Get(r, k) ==
        if k in Keys(merged) then Get(merged, k)
        else if k == key then None
        else Get(node, k)
  {
    var rest := Remove(node, key);
    MergeKeys(members);
    RemoveShape(node, key);
    UpdateKeys(rest, Merge(members));
    UpdateGet(rest, Merge(members), k);
    RemoveGet(node, key, k);
  }

  /** Scanning `items` for `enum` meets a non-dict before any dict without
      a truthy `enum`. */
  predicate EnumScanRaises(items: seq<Json>) {
    exists i :: 0 <= i < |items| && !items[i].Obj? && forall j :: 0 <= j < i ==> EnumDict(items[j])
  }

  /** The `oneOf` rewrite.  It happens exactly when `oneOf` is a non-empty
      list of dicts each with a truthy `enum`; the node then becomes its
      other entries overlaid by the merged members, just as for `allOf`.
      It raises exactly when a truthy `oneOf` cannot be iterated (a number
      or a boolean: TypeError) or when the scan for `enum` meets a non-dict
      first (AttributeError).  In every other case the node is kept. */
  lemma CollapseEnumOneOfSpec(node: Fields, k: string)
    requires UniqueKeys(node)
    ensures var oneOf := Get(node, "oneOf");
      CollapseEnumOneOf(node).Err? <==>
        (oneOf.Some? && Truthy(oneOf.value) &&
         (Iterate(oneOf.value).Err? || EnumScanRaises(Iterate(oneOf.value).value)))
    ensures var oneOf := Get(node, "oneOf");
      CollapseEnumOneOf(node).Err? ==>
        (oneOf.Some? &&
         CollapseEnumOneOf(node).error ==
           if oneOf.value.Bool? || oneOf.value.Num? then TypeError else AttributeError)
    ensures !EnumOneOf(node) && CollapseEnumOneOf(node).Ok? ==> CollapseEnumOneOf(node).value == node
    ensures EnumOneOf(node) ==>
      var merged := Merge(FieldsOf(Get(node, "oneOf").value.items));
      var r := CollapseEnumOneOf(node);
      r.Ok? && UniqueKeys(r.value) &&
      Keys(Remove(node, "oneOf")) <= Keys(r.value) &&
      Get(r.value, k) ==
        if k in Keys(merged) then Get(merged, k)
        else if k == "oneOf" then None
        else Get(node, k)
  {
    var oneOf := Get(node, "oneOf");
    if oneOf.Some? && Truthy(oneOf.value) && Iterate(oneOf.value).Ok? {
      var items := Iterate(oneOf.value).value;
      AllHaveEnumTrue(items);
      AllHaveEnumErr(items);
      AsDictsShape(items);
      if EnumOneOf(node) {
        OverlaySpec(node, "oneOf", FieldsOf(items), k);
      }
    }
  }

  /** drf-spectacular's enum pattern: when every member of an enum-style
      `oneOf` holds a list under `enum`, the collapsed node's `enum` is
      those lists concatenated in member order, duplicates kept. */
  lemma CollapseConcatenatesEnums(node: Fields)
    requires UniqueKeys(node) && EnumOneOf(node)
    requires var items := Get(node, "oneOf").value.items;
      forall i :: 0 <= i < |items| ==> UniqueKeys(items[i].fields) && Get(items[i].fields, "enum").value.Arr?
    ensures var ms := FieldsOf(Get(node, "oneOf").value.items);
      CollapseEnumOneOf(node).Ok? &&
      Get(CollapseEnumOneOf(node).value, "enum") == Some(Arr(ListsUnder(ms, "enum")))
  {
    var items := Get(node, "oneOf").value.items;
    AsDictsShape(items);
    var ms := FieldsOf(items);
    CollapseEnumOneOfSpec(node, "enum");
    MergeKeys(ms);
    assert "enum" in Keys(ms[0]);
    MergeConcatenatesLists(ms, "enum");
  }

  // ---------------------------------------------------------------------
  // The recursion into the entries.

  /** Every entry keeps its key and position and has its value normalized:
      a dict value recursively, a list value entry by entry, a scalar not at
      all.  The loop fails exactly when some value fails, and then with the
      error of the first one that does. */
  lemma {:induction false} NormalizeEntriesSpec(fs: Fields)
    ensures NormalizeEntries(fs).Ok? <==> forall i :: 0 <= i < |fs| ==> NormalizeValue(fs[i].1).Ok?
    ensures NormalizeEntries(fs).Ok? ==>
      var r := NormalizeEntries(fs).value;
      |r| == |fs| && forall i :: 0 <= i < |fs| ==> r[i] == (fs[i].0, NormalizeValue(fs[i].1).value)
    ensures NormalizeEntries(fs).Err? ==>
      exists i :: 0 <= i < |fs| && NormalizeValue(fs[i].1) == Err(NormalizeEntries(fs).error) &&
        forall j :: 0 <= j < i ==> NormalizeValue(fs[j].1).Ok?
    decreases |fs|
  {
    if fs != [] {
      var n := |fs| - 1;
      var pre := fs[..n];
      NormalizeEntriesSpec(pre);
      NormalizeEntriesLast(fs);
      var p, v := NormalizeEntries(pre), NormalizeValue(fs[n].1);
      if p.Ok? && v.Ok? {
        EntriesSnocOk(fs, pre, p.value, v.value);
      } else if p.Ok? {
        EntriesPrefixOk(fs, pre);
        assert v == Err(NormalizeEntries(fs).error);
      } else {
        EntriesPrefixErr(fs, pre, p.error);
      }
    }
  }

  /** The loop's last entry, met with those before it. */
  lemma NormalizeEntriesLast(fs: Fields)
    requires fs != []
    ensures var p, v := NormalizeEntries(fs[..|fs| - 1]), NormalizeValue(fs[|fs| - 1].1);
      NormalizeEntries(fs) ==
        if p.Err? then Err(p.error)
        else if v.Err? then Err(v.error)
        else Ok(p.value + [(fs[|fs| - 1].0, v.value)])
  {
  }

  lemma EntriesPrefixOk(fs: Fields, pre: Fields)
    requires fs != [] && pre == fs[..|fs| - 1]
    requires forall i :: 0 <= i < |pre| ==> NormalizeValue(pre[i].1).Ok?
    ensures forall i :: 0 <= i < |pre| ==> NormalizeValue(fs[i].1).Ok?
  {
    forall i | 0 <= i < |pre| ensures NormalizeValue(fs[i].1).Ok? {
      assert pre[i] == fs[i];
    }
  }

  lemma EntriesSnocOk(fs: Fields, pre: Fields, p: Fields, y: Json)
    requires fs != [] && pre == fs[..|fs| - 1] && |p| == |pre|
    requires forall i :: 0 <= i < |pre| ==>
      (NormalizeValue(pre[i].1).Ok? && p[i] == (pre[i].0, NormalizeValue(pre[i].1).value))
    requires NormalizeValue(fs[|fs| - 1].1) == Ok(y)
    ensures forall i :: 0 <= i < |fs| ==>
      (NormalizeValue(fs[i].1).Ok? &&
       (p + [(fs[|fs| - 1].0, y)])[i] == (fs[i].0, NormalizeValue(fs[i].1).value))
  {
    var r := p + [(fs[|fs| - 1].0, y)];
    forall i | 0 <= i < |fs|
      ensures NormalizeValue(fs[i].1).Ok? && r[i] == (fs[i].0, NormalizeValue(fs[i].1).value)
    {
      if i < |pre| {
        assert pre[i] == fs[i];
        assert r[i] == p[i];
      } else {
        assert r[i] == (fs[|fs| - 1].0, y);
      }
    }
  }

  lemma EntriesPrefixErr(fs: Fields, pre: Fields, e: Exception)
    requires fs != [] && pre == fs[..|fs| - 1]
    requires exists i :: 0 <= i < |pre| && NormalizeValue(pre[i].1) == Err(e) &&
                         (forall j :: 0 <= j < i ==> NormalizeValue(pre[j].1).Ok?)
    ensures exists i :: 0 <= i < |fs| && NormalizeValue(fs[i].1) == Err(e) &&
                        (forall j :: 0 <= j < i ==> NormalizeValue(fs[j].1).Ok?)
  {
    var i :| 0 <= i < |pre| && NormalizeValue(pre[i].1) == Err(e) &&
      forall j :: 0 <= j < i ==> NormalizeValue(pre[j].1).Ok?;
    assert pre[i] == fs[i];
    forall j | 0 <= j < i ensures NormalizeValue(fs[j].1).Ok? {
      assert pre[j] == fs[j];
    }
  }

  /** One entry of a list value: a dict is normalized, anything else kept. */
  function NormalizeListEntry(x: Json): Result<Json> {
    if x.Obj? then
      var r :- Normalize(x.fields);
      Ok(Obj(r))
    else
      Ok(x)
  }

  /** The comprehension's last entry, met with those before it. */
  lemma NormalizeItemsLast(xs: seq<Json>)
    requires xs != []
    ensures var p, last := NormalizeItems(xs[..|xs| - 1]), NormalizeListEntry(xs[|xs| - 1]);
      NormalizeItems(xs) ==
        if p.Err? then Err(p.error)
        else if last.Err? then Err(last.error)
        else Ok(p.value + [last.value])
  {
  }

  /** Every dict in a list value is normalized; every other entry, a nested
      list included, is kept as it is. */
  lemma {:induction false} NormalizeItemsSpec(xs: seq<Json>)
    ensures NormalizeItems(xs).Ok? <==> forall i :: 0 <= i < |xs| ==> NormalizeListEntry(xs[i]).Ok?
    ensures NormalizeItems(xs).Ok? ==>
      |NormalizeItems(xs).value| == |xs| &&
      forall i :: 0 <= i < |xs| ==> NormalizeItems(xs).value[i] == NormalizeListEntry(xs[i]).value
    decreases |xs|
  {
    if xs != [] {
      var n := |xs| - 1;
      NormalizeItemsSpec(xs[..n]);
      NormalizeItemsLast(xs);
      var p, last := NormalizeItems(xs[..n]), NormalizeListEntry(xs[n]);
      if p.Ok? && last.Ok? {
        ItemsSnocOk(xs, p.value, last.value);
      } else if p.Err? {
        ItemsPrefixErr(xs, xs[..n]);
      }
    }
  }

  /** The entries before the last normalized to `p`, the last to `y`. */
  lemma ItemsSnocOk(xs: seq<Json>, p: seq<Json>, y: Json)
    requires xs != [] && |p| == |xs| - 1
    requires forall i :: 0 <= i < |p| ==>
      (NormalizeListEntry(xs[..|xs| - 1][i]).Ok? && p[i] == NormalizeListEntry(xs[..|xs| - 1][i]).value)
    requires NormalizeListEntry(xs[|xs| - 1]) == Ok(y)
    ensures forall i :: 0 <= i < |xs| ==>
      (NormalizeListEntry(xs[i]).Ok? && (p + [y])[i] == NormalizeListEntry(xs[i]).value)
  {
    var pre := xs[..|xs| - 1];
    forall i | 0 <= i < |xs|
      ensures NormalizeListEntry(xs[i]).Ok? && (p + [y])[i] == NormalizeListEntry(xs[i]).value
    {
      if i < |p| {
        assert pre[i] == xs[i];
        assert (p + [y])[i] == p[i];
      } else {
        assert (p + [y])[i] == y;
      }
    }
  }

  /** An entry before the last that fails is an entry of the whole list
      that fails. */
  lemma ItemsPrefixErr(xs: seq<Json>, pre: seq<Json>)
    requires xs != [] && pre == xs[..|xs| - 1]
    requires exists i :: 0 <= i < |pre| && NormalizeListEntry(pre[i]).Err?
    ensures exists i :: 0 <= i < |xs| && NormalizeListEntry(xs[i]).Err?
  {
    var i :| 0 <= i < |pre| && NormalizeListEntry(pre[i]).Err?;
    assert pre[i] == xs[i];
  }

  // ---------------------------------------------------------------------
  // One pass is not always enough.

  lemma MembersSingle(d: Fields)
    ensures Members(Arr([Obj(d)])) == Ok([d])
  {
    assert [Obj(d)][1..] == [];
    assert AsDicts([]) == Ok([]);
    assert [d] + [] == [d];
  }

  /** `{"type": "string"}` is already normal. */
  lemma NormalizeStringSchema(leaf: Fields)
    requires leaf == [("type", Str("string"))]
    ensures Normalize(leaf) == Ok(leaf)
  {
    assert Keys(leaf) == ["type"];
    assert FlattenAllOf(leaf) == Ok(leaf);
    assert CollapseEnumOneOf(leaf) == Ok(leaf);
    assert leaf[..0] == [];
    assert NormalizeEntries(leaf) == Ok([] + [leaf[0]]);
    assert [] + [leaf[0]] == leaf;
  }

  /** An `allOf` holding one single-entry dict flattens to that dict. */
  lemma FlattenSingleMember(node: Fields, d: Fields)
    requires |d| == 1 && node == [("allOf", Arr([Obj(d)]))]
    ensures FlattenAllOf(node) == Ok(d)
  {
    assert Keys(node) == ["allOf"];
    MembersSingle(d);
    MergeSingle(d);
    assert Remove(node, "allOf") == [];
    assert Update([], d) == d by {
      assert d[..0] == [];
      assert [] + [d[0]] == d;
    }
  }

  /** `{"allOf": [{"type": "string"}]}` flattens to its one member. */
  lemma NormalizeSingleAllOf(node: Fields, leaf: Fields)
    requires leaf == [("type", Str("string"))]
    requires node == [("allOf", Arr([Obj(leaf)]))]
    ensures Normalize(node) == Ok(leaf)
  {
    FlattenSingleMember(node, leaf);
    NormalizeStringSchema(leaf);
  }

  /** `{"allOf": [{"type": "string"}]}` is left as it is once it has been
      reached through a member: its own entries are already normal. */
  lemma NormalizeEntriesSingleAllOf(inner: Fields, leaf: Fields)
    requires leaf == [("type", Str("string"))]
    requires inner == [("allOf", Arr([Obj(leaf)]))]
    ensures NormalizeEntries(inner) == Ok(inner)
  {
    NormalizeStringSchema(leaf);
    assert NormalizeItems([Obj(leaf)]) == Ok([Obj(leaf)]) by {
      assert [Obj(leaf)][..0] == [];
      assert [] + [Obj(leaf)] == [Obj(leaf)];
    }
    assert NormalizeValue(Arr([Obj(leaf)])) == Ok(Arr([Obj(leaf)]));
    assert inner[..0] == [];
    assert [] + [inner[0]] == inner;
  }

  /** A member that itself holds an `allOf` brings it back to the top: the
      nested `{"allOf": [{"allOf": [{"type": "string"}]}]}` normalizes to
      `{"allOf": [{"type": "string"}]}`, which still holds `allOf` and which
      a second pass would flatten further. */
  lemma NormalizeKeepsNestedAllOf(node: Fields, inner: Fields, leaf: Fields)
    requires leaf == [("type", Str("string"))]
    requires inner == [("allOf", Arr([Obj(leaf)]))]
    requires node == [("allOf", Arr([Obj(inner)]))]
    ensures Normalize(node) == Ok(inner)
    ensures Get(Normalize(node).value, "allOf").Some?
    ensures Normalize(Normalize(node).value) != Normalize(node)
  {
    FlattenSingleMember(node, inner);
    assert Keys(inner) == ["allOf"];
    assert CollapseEnumOneOf(inner) == Ok(inner);
    NormalizeEntriesSingleAllOf(inner, leaf);
    NormalizeSingleAllOf(inner, leaf);
  }
}
