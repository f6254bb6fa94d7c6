/** `get_required_keys`: the entries of a schema's `required` list that a
    message in the given direction must carry.  A request never has to
    carry a read-only property and a response never a write-only one
    (section 4.7.24 of the OpenAPI Specification 3.0.3, the `readOnly` and
    `writeOnly` fixed fields of the Schema Object). */
module RequiredKeys {
  import opened JsonValue

  /** `key in props`: only a string can equal one of the property names. */
  predicate Listed(key: Json, props: seq<string>) {
    key.Str? && key.s in props
  }

  /** `[key for key in keys if key not in props]` */
  function Keep(keys: seq<Json>, props: seq<string>): seq<Json> {
    if keys == [] then []
    else
      var n := |keys| - 1;
      Keep(keys[..n], props) + if Listed(keys[n], props) then [] else [keys[n]]
  }

  /** A list, a dict or a string: what a `for` loop accepts. */
  predicate Iterable(j: Json) {
    j.Arr? || j.Obj? || j.Str?
  }

  /** What a `for` over `schema_section.get("required", [])` yields. */
  function RequiredEntries(section: Fields): Result<seq<Json>> {
    match Get(section, "required")
    case None => Ok([])
    case Some(required) => Iterate(required)
  }

  /** `get_required_keys(schema_section, http_message, write_only_props,
      read_only_props)` */
  function GetRequiredKeys(section: Fields, httpMessage: string,
                           writeOnlyProps: seq<string>, readOnlyProps: seq<string>): Result<seq<Json>>
  {
    if httpMessage == "request" then
      var keys :- RequiredEntries(section);
      Ok(Keep(keys, readOnlyProps))
    else if httpMessage == "response" then
      var keys :- RequiredEntries(section);
      Ok(Keep(keys, writeOnlyProps))
    else
      Ok([])
  }

  // ---------------------------------------------------------------------
  // The filter.

  /** `a` is `b` with some entries left out, the rest in their order. */
  predicate Subsequence(a: seq<Json>, b: seq<Json>)
    decreases |b|
  {
    if a == [] then true
    else if b == [] then false
    else
      (a[|a| - 1] == b[|b| - 1] && Subsequence(a[..|a| - 1], b[..|b| - 1])) ||
      Subsequence(a, b[..|b| - 1])
  }

  /** The filter keeps the entries in their order, each unlisted entry as
      often as it occurs and no listed entry at all. */
  lemma KeepSpec(keys: seq<Json>, props: seq<string>)
    ensures Subsequence(Keep(keys, props), keys)
    ensures forall x :: multiset(Keep(keys, props))[x] ==
                         (if Listed(x, props) then 0 else multiset(keys)[x])
  {
    KeepSubsequence(keys, props);
    KeepCounts(keys, props);
  }

  lemma {:induction false} KeepSubsequence(keys: seq<Json>, props: seq<string>)
    ensures Subsequence(Keep(keys, props), keys)
  {
    if keys != [] {
      var n := |keys| - 1;
      KeepSubsequence(keys[..n], props);
      var r := Keep(keys, props);
      if Listed(keys[n], props) {
        assert r == Keep(keys[..n], props);
      } else {
        assert r[..|r| - 1] == Keep(keys[..n], props);
      }
    }
  }

  lemma {:induction false} KeepCounts(keys: seq<Json>, props: seq<string>)
    ensures forall x :: multiset(Keep(keys, props))[x] ==
                         (if Listed(x, props) then 0 else multiset(keys)[x])
  {
    if keys != [] {
      var n := |keys| - 1;
      KeepCounts(keys[..n], props);
      assert keys == keys[..n] + [keys[n]];
    }
  }

  /** Filtering twice changes nothing more. */
  lemma {:induction false} KeepIdempotent(keys: seq<Json>, props: seq<string>)
    ensures Keep(Keep(keys, props), props) == Keep(keys, props)
  {
    if keys != [] {
      var n := |keys| - 1;
      var pre := Keep(keys[..n], props);
      KeepIdempotent(keys[..n], props);
      if !Listed(keys[n], props) {
        var r := pre + [keys[n]];
        assert Keep(keys, props) == r;
        assert r[..|r| - 1] == pre;
        assert Keep(r, props) == Keep(pre, props) + [keys[n]];
      } else {
        assert Keep(keys, props) == pre;
      }
    }
  }

  // ---------------------------------------------------------------------
  // The direction of the message.

  /** A request drops exactly the read-only properties from `required`, a
      response exactly the write-only ones, keeping order and repetitions;
      an absent `required` counts as empty; any other message needs no
      keys at all.  A `required` that is not iterable raises TypeError. */
  lemma GetRequiredKeysSpec(section: Fields, httpMessage: string,
                            writeOnlyProps: seq<string>, readOnlyProps: seq<string>)
    ensures var r := GetRequiredKeys(section, httpMessage, writeOnlyProps, readOnlyProps);
      httpMessage != "request" && httpMessage != "response" ==> r == Ok([])
    ensures var r := GetRequiredKeys(section, httpMessage, writeOnlyProps, readOnlyProps);
      (httpMessage == "request" || httpMessage == "response") ==>
        (Get(section, "required").None? ==> r == Ok([])) &&
        (r.Err? <==> (Get(section, "required").Some? && !Iterable(Get(section, "required").value))) &&
        (r.Err? ==> r.error == TypeError)
    ensures var r := GetRequiredKeys(section, httpMessage, writeOnlyProps, readOnlyProps);
      var props := if httpMessage == "request" then readOnlyProps else writeOnlyProps;
      (httpMessage == "request" || httpMessage == "response") && r.Ok? ==>
        var keys := RequiredEntries(section).value;
        Subsequence(r.value, keys) &&
        forall x :: multiset(r.value)[x] == if Listed(x, props) then 0 else multiset(keys)[x]
  {
    if RequiredEntries(section).Ok? {
      KeepSpec(RequiredEntries(section).value, readOnlyProps);
      KeepSpec(RequiredEntries(section).value, writeOnlyProps);
    }
  }

  // ---------------------------------------------------------------------
  // The cases pinned by tests/test_utils.py.

  /** `{"type": "object", "required": ["key1", "key2"], "properties": ...}`
      with `extra` appended: the required list is `["key1", "key2"]`. */
  lemma TestSectionRequired(section: Fields, extra: Fields)
    requires section == [
      ("type", Str("object")),
      ("required", Arr([Str("key1"), Str("key2")])),
      ("properties", Obj([("key1", Obj([("type", Str("string"))])),
                          ("key2", Obj([("type", Str("string"))]))]))] + extra
    ensures RequiredEntries(section) == Ok([Str("key1"), Str("key2")])
  {
    assert Keys(section)[0] == "type";
    assert Keys(section)[1] == "required";
    assert IndexOf(section, "required") == 1;
  }

  /** Two required keys, nothing read- or write-only: a response needs both. */
  lemma TestResponseKeepsAll(section: Fields)
    requires section == [
      ("type", Str("object")),
      ("required", Arr([Str("key1"), Str("key2")])),
      ("properties", Obj([("key1", Obj([("type", Str("string"))])),
                          ("key2", Obj([("type", Str("string"))]))]))]
    ensures GetRequiredKeys(section, "response", [], []) == Ok([Str("key1"), Str("key2")])
  {
    assert section == section + [];
    TestSectionRequired(section, []);
    KeepNothingListed([Str("key1"), Str("key2")], []);
  }

  /** `key2` read-only: a request needs only `key1`. */
  lemma TestRequestDropsReadOnly(section: Fields)
    requires section == [
      ("type", Str("object")),
      ("required", Arr([Str("key1"), Str("key2")])),
      ("properties", Obj([("key1", Obj([("type", Str("string"))])),
                          ("key2", Obj([("type", Str("string"))]))])),
      ("readOnly", Arr([Str("key2")]))]
    ensures GetRequiredKeys(section, "request", [], ["key2"]) == Ok([Str("key1")])
  {
    TestSectionRequired(section, [("readOnly", Arr([Str("key2")]))]);
    KeepDropsSecond(["key2"]);
  }

  /** `key2` write-only: a response needs only `key1`. */
  lemma TestResponseDropsWriteOnly(section: Fields)
    requires section == [
      ("type", Str("object")),
      ("required", Arr([Str("key1"), Str("key2")])),
      ("properties", Obj([("key1", Obj([("type", Str("string"))])),
                          ("key2", Obj([("type", Str("string"))]))])),
      ("writeOnly", Arr([Str("key2")]))]
    ensures GetRequiredKeys(section, "response", ["key2"], []) == Ok([Str("key1")])
  {
    TestSectionRequired(section, [("writeOnly", Arr([Str("key2")]))]);
    KeepDropsSecond(["key2"]);
  }

  lemma KeepNothingListed(keys: seq<Json>, props: seq<string>)
    requires props == [] && keys == [Str("key1"), Str("key2")]
    ensures Keep(keys, props) == keys
  {
    assert keys[..1] == [Str("key1")];
    assert [Str("key1")][..0] == [];
    assert Keep([Str("key1")], props) == [] + [Str("key1")];
    assert Keep(keys, props) == [Str("key1")] + [Str("key2")];
  }

  lemma KeepDropsSecond(props: seq<string>)
    requires props == ["key2"]
    ensures Keep([Str("key1"), Str("key2")], props) == [Str("key1")]
  {
    var keys := [Str("key1"), Str("key2")];
    assert keys[..1] == [Str("key1")];
    assert [Str("key1")][..0] == [];
    assert "key1" != "key2" by {
      assert "key1"[3] != "key2"[3];
    }
    assert Keep([Str("key1")], props) == [] + [Str("key1")];
    assert Listed(Str("key2"), props);
    assert Keep(keys, props) == [Str("key1")] + [];
  }
}
