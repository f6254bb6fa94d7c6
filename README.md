# Schema utilities of an OpenAPI response tester, in Dafny

The tester checks live HTTP requests and responses against an OpenAPI
schema. Before it compares a value with a schema section, it rewrites the
section with a few helpers in `openapi_tester/utils.py`. This project models
those helpers and proves what they do:

- `merge_objects` deep-merges a sequence of dicts from left to right:
  - a new key is copied over;
  - two lists under the same key are concatenated;
  - two dicts under the same key are merged recursively;
  - any other clash keeps the earlier value.
- `normalize_schema_section` works on a copy of a schema section:
  - it flattens a non-empty `allOf` by laying the merged members over the
    node;
  - it collapses a `oneOf` whose members all carry a truthy `enum` in the
    same way;
  - it then normalizes every dict value, and every dict inside a list value.
- `lazy_combinations` yields the merge of every choice of at least two
  options. Choices come in order of size, and each size in the order of
  `itertools.combinations`.
- `get_required_keys` filters a schema's `required` list by the direction of
  the message. Requests drop read-only properties and responses drop
  write-only ones, following the `readOnly` and `writeOnly` fixed fields of
  the Schema Object (section 4.7.24 of the OpenAPI Specification 3.0.3).

Files:

- `json.dfy` (module `JsonValue`): the parsed JSON tree and the Python dict
  operations the helpers use.
  - A dict is a sequence of entries in insertion order, because the helpers
    depend on that order: which value is "first", and in what order lists
    are concatenated.
  - It defines `d.get`, `d[k] = v`, `d.pop` and `{**a, **b}`.
  - It defines the depth measure that every recursion over the tree
    decreases.
  - Python exceptions become the `Err` case of `Result`.
- `merge.dfy` (module `DeepMerge`): `merge_objects`.
  - `Merge` is a fold over the dicts and states the meaning.
  - `MergeObjects` follows the loops of the source and is proved equal to
    `Merge`. The body of its inner loop is the method `MergeItem`.
- `normalize.dfy` (module `SchemaNormalizer`): `normalize_schema_section`.
  - `Normalize` and its helper functions state the meaning.
  - The methods `NormalizeSchemaSection`, `FlattenAllOfStep`,
    `CollapseEnumOneOfStep`, `NormalizeEntriesLoop`, `NormalizeEntryValue`
    and `NormalizeList` follow
    the source's statements and loops, and are proved equal to those
    functions.
- `combinations.dfy` (module `CombinationSearch`): `itertools.combinations`
  and `lazy_combinations`, with counting and ordering proofs.
- `required_keys.dfy` (module `RequiredKeys`): `get_required_keys`.

**One pass of `normalize_schema_section` does not always remove `allOf`.**
Its docstring says it removes `allOf` (openapi_tester/utils.py:39), and one
would expect a normalizer to be idempotent: normalizing twice should give
the same result as normalizing once. The code does neither when a member of
`allOf` itself holds an `allOf`. The merged members are laid over the node
after `allOf` has been popped, so the nested `allOf` comes back to the top,
and the loop over the entries only descends into values. This model follows
the code. `SchemaNormalizer.NormalizeKeepsNestedAllOf` proves the
consequence on `{"allOf": [{"allOf": [{"type": "string"}]}]}`: one pass
gives `{"allOf": [{"type": "string"}]}`, which still holds `allOf`, and a
second pass changes it again.

## Model

| member | source | states |
|---|---|---|
| DeepMerge.MergeObjects | openapi_tester/utils.py:17-34 | the two nested loops leave `output` equal to `Merge(dictionaries)`: each dict's items are folded in order, a new key is stored, a list/list or dict/dict clash is replaced by the concatenation or the recursive merge, and any other clash leaves the output unchanged |
| DeepMerge.MergeItem | openapi_tester/utils.py:24-33 | one pass of the inner loop's body returns `MergeEntry(output, key, value)`: a new key is stored, a list/list or dict/dict clash is replaced by the concatenation or the recursive merge (through `MergeObjects`), and any other clash leaves the output as it was |
| DeepMerge.Merge | openapi_tester/utils.py:17-34 | the merged dict is never deeper than the deepest input dict, which bounds the recursion into nested dicts |
| DeepMerge.MergeGet | openapi_tester/utils.py:22-33 | for input dicts with unique keys, every key of the merge holds the per-key reference `Collected`: its value in the first dict that has it, combined in order with each later value |
| DeepMerge.MergeKeys | openapi_tester/utils.py:21-26 | the merge's keys are the inputs' keys in order of first appearance, each once; a key is present exactly when some input has it |
| DeepMerge.MergePair | openapi_tester/utils.py:24-33 | for two dicts: a key in only one keeps that value; two lists concatenate earlier-first; two dicts merge; any other clash keeps the earlier value and drops the later |
| DeepMerge.MergeFirstScalarWins | openapi_tester/utils.py:24-26 | when the first dict holding a key holds a scalar there, the merge keeps that scalar whatever later dicts hold |
| DeepMerge.MergeConcatenatesLists | openapi_tester/utils.py:28-30 | when every dict holds a list under a key, the merge holds all of those lists concatenated in order, duplicates kept |
| DeepMerge.MergeSingle | openapi_tester/utils.py:21-26 | merging a single dict with unique keys gives that dict back |
| DeepMerge.MergeTwoObjectSchemas | tests/test_utils.py:23-43 | the two object schemas of the merge test merge to `required: ["key1", "key2"]` and both properties, in that order |
| JsonValue.UpdateGet | openapi_tester/utils.py:44 | in `{**a, **b}` a key of `b` takes `b`'s value, and any other key keeps `a`'s |
| JsonValue.UpdateKeys | openapi_tester/utils.py:44 | `{**a, **b}` keeps `a`'s keys first and in order, has exactly the keys of both, and has unique keys when `a` does |
| JsonValue.RemoveGet | openapi_tester/utils.py:43 | after `pop(k)` the key `k` is absent and every other key keeps its value |
| JsonValue.PutGet | openapi_tester/utils.py:25 | after `d[k] = v`, `k` holds `v` and every other key keeps its value |
| SchemaNormalizer.NormalizeSchemaSection | openapi_tester/utils.py:37-57 | the procedure returns `Normalize(schemaSection)`: the same dict, or the same exception, that the two rewrites followed by the entry loop produce |
| SchemaNormalizer.FlattenAllOfStep | openapi_tester/utils.py:42-44 | the `allOf` statement returns `FlattenAllOf(node)` |
| SchemaNormalizer.CollapseEnumOneOfStep | openapi_tester/utils.py:45-48 | the `oneOf` statement returns `CollapseEnumOneOf(node)` |
| SchemaNormalizer.NormalizeEntriesLoop | openapi_tester/utils.py:49-56 | the loop that rewrites `output` entry by entry returns `NormalizeEntries(output)`: every value replaced in place by its normalized form, or the first failure |
| SchemaNormalizer.NormalizeEntryValue | openapi_tester/utils.py:50-56 | the body of the entry loop returns `NormalizeValue(value)` |
| SchemaNormalizer.NormalizeList | openapi_tester/utils.py:53-56 | the list comprehension returns `NormalizeItems(items)` |
| SchemaNormalizer.FlattenAllOf | openapi_tester/utils.py:42-44 | the flattened node is never deeper than the node |
| SchemaNormalizer.CollapseEnumOneOf | openapi_tester/utils.py:45-48 | the collapsed node is never deeper than the node |
| SchemaNormalizer.FlattenAllOfSpec | openapi_tester/utils.py:42-44 | an absent or falsy `allOf` leaves the node as it is. A truthy one succeeds exactly when it is a list of dicts; the result then has unique keys, keeps the other entries first and in order, gives each key of the merged members the merged value, drops `allOf` unless a member brings it back, and keeps every other key |
| SchemaNormalizer.CollapseEnumOneOfSpec | openapi_tester/utils.py:45-48 | the rewrite happens exactly when `oneOf` is a non-empty list of dicts with truthy `enum`s, and the members are then merged over the node as for `allOf`. It raises exactly when a truthy `oneOf` is a number or boolean (TypeError) or when the scan meets a non-dict before any dict with a falsy `enum` (AttributeError). Otherwise the node is kept |
| SchemaNormalizer.CollapseConcatenatesEnums | openapi_tester/utils.py:45-48 | when each member's `enum` is a list, the collapsed node's `enum` is those lists concatenated in member order, duplicates kept |
| SchemaNormalizer.MembersSpec | openapi_tester/utils.py:43-44 | `merge_objects(all_of)` succeeds exactly on a list of dicts. A truthy dict or string raises AttributeError on its first key or character; a truthy number or boolean raises TypeError |
| SchemaNormalizer.AllHaveEnumTrue | openapi_tester/utils.py:45 | `all(item.get("enum") ...)` is true exactly when every item is a dict with a truthy `enum` |
| SchemaNormalizer.AllHaveEnumErr | openapi_tester/utils.py:45 | `all(item.get("enum") ...)` raises exactly when a non-dict comes before any dict with a falsy `enum`, and the error is then AttributeError |
| SchemaNormalizer.NormalizeEntriesSpec | openapi_tester/utils.py:49-56 | the loop keeps every key and position and replaces each value by its normalized form. It fails exactly when some value fails, with the first failure's error |
| SchemaNormalizer.NormalizeItemsSpec | openapi_tester/utils.py:53-56 | in a list value, each dict is normalized and every other entry, nested lists included, is kept. It fails exactly when some dict fails |
| SchemaNormalizer.NormalizeEntriesErr | openapi_tester/utils.py:49-56 | once an entry fails, the whole loop fails with that error |
| SchemaNormalizer.NormalizeKeepsNestedAllOf | openapi_tester/utils.py:42-44 | `{"allOf": [{"allOf": [{"type": "string"}]}]}` normalizes to a node that still holds `allOf`, and normalizing that result changes it again |
| SchemaNormalizer.NormalizeSingleAllOf | openapi_tester/utils.py:42-44 | `{"allOf": [{"type": "string"}]}` normalizes to `{"type": "string"}` |
| CombinationSearch.LazyCombinationsCount | openapi_tester/utils.py:64-70 | `n` options yield `2^n - n - 1` merged dicts, and none when `n < 2` |
| CombinationSearch.LazyCombinationsSpec | openapi_tester/utils.py:64-70 | the i-th yielded dict is the merge of the options at the i-th position list. The position lists are increasing, in range and of size at least two. They come by size and then in dictionary order, so none repeats, and every such list appears |
| CombinationSearch.CombinationsCount | openapi_tester/utils.py:69 | `combinations(xs, k)` has `Binom(|xs|, k)` elements |
| CombinationSearch.RangeCombinationsSorted | openapi_tester/utils.py:69 | the choices of one size come in strictly increasing dictionary order of their positions |
| CombinationSearch.RangeCombinationsComplete | openapi_tester/utils.py:69 | every `k` increasing positions are among the choices of size `k` |
| CombinationSearch.CombinationsPick | openapi_tester/utils.py:69 | each choice from the options holds the options at the matching position list |
| CombinationSearch.BinomSumAll | openapi_tester/utils.py:68-69 | the choices of all sizes number `2^n` in total |
| RequiredKeys.GetRequiredKeysSpec | openapi_tester/utils.py:86-104 | a message other than "request" or "response" needs no keys. An absent `required` counts as empty. A `required` that is null, a boolean or a number raises TypeError. Otherwise the result is an order-preserving subsequence of `required` that drops every occurrence of a read-only key (request) or write-only key (response) and keeps every other entry as often as it occurs |
| RequiredKeys.KeepSpec | openapi_tester/utils.py:93-97 | the filter is an order-preserving subsequence of its input with exactly the unlisted entries, each with its multiplicity |
| RequiredKeys.KeepIdempotent | openapi_tester/utils.py:93-97 | filtering twice gives the same as filtering once |
| RequiredKeys.TestResponseKeepsAll | tests/test_utils.py:65-85 | a response with no write-only properties needs `["key1", "key2"]` |
| RequiredKeys.TestRequestDropsReadOnly | tests/test_utils.py:88-110 | a request with `key2` read-only needs `["key1"]` |
| RequiredKeys.TestResponseDropsWriteOnly | tests/test_utils.py:113-134 | a response with `key2` write-only needs `["key1"]` |

## Left out

- `serialize_schema_section_data` (openapi_tester/utils.py:60-61) and `serialize_json` (openapi_tester/utils.py:73-83) are not modelled. They are thin wrappers over the orjson library and the HTTP test client.
- `query_params_to_object` is not part of this model. Its definition is not among the source files.
- Numbers are integers. JSON floats are not modelled, and neither is Python's equality of `True` with `1`.
- The deep copy (openapi_tester/utils.py:41) and the argument being left unchanged hold by construction, because every value here is immutable. Aliasing between the input and the output dicts is not modelled.
- `LazyCombinations` is the whole sequence the generator would yield. The laziness of the generator and the caller stopping early are not modelled.
- Python dicts always have unique keys. Here that is a precondition (`UniqueKeys`) of the lemmas that need it, not a property of the type.
- `CombinationSearch.Combinations` is the recursive definition of the order `itertools.combinations` documents. The library's iterative algorithm is not part of this model.
