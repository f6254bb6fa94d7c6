/** JSON-like values as the schema utilities see them: the parsed schema
    tree that Python holds as nested dicts, lists and scalars.  A dict keeps
    its insertion order, so an object is an ordered sequence of entries; the
    dict operations the utilities use (`d[k] = v`, `d.pop(k)`, `{**a, **b}`)
    are defined here once, together with the depth measure that bounds every
    recursion over the tree. */
module JsonValue {

  /** The Python exceptions a malformed schema makes the utilities raise. */
  datatype Exception = TypeError | AttributeError

  datatype Result<T> = Ok(value: T) | Err(error: Exception) {
    predicate IsFailure() { Err? }
    function PropagateFailure<U>(): Result<U> requires Err? { Err(error) }
    function Extract(): T requires Ok? { value }
  }

  datatype Option<T> = None | Some(value: T)

  /** Numbers are integers: JSON floats are not part of this model. */
  datatype Json =
    | Null
    | Bool(b: bool)
    | Num(n: int)
    | Str(s: string)
    | Arr(items: seq<Json>)
    | Obj(fields: seq<(string, Json)>)

  /** The entries of a dict, in insertion order. */
  type Fields = seq<(string, Json)>

  /** Python truthiness: None, False, 0 and empty strings, lists and dicts are false. */
  predicate Truthy(j: Json) {
    match j
    case Null => false
    case Bool(b) => b
    case Num(n) => n != 0
    case Str(s) => s != []
    case Arr(xs) => xs != []
    case Obj(fs) => fs != []
  }

  /** What a Python `for` loop over the value yields: the items of a list,
      the keys of a dict, the one-character strings of a string; iterating
      any other value raises TypeError. */
  function Iterate(j: Json): Result<seq<Json>> {
    match j
    case Arr(xs) => Ok(xs)
    case Obj(fs) => Ok(seq(|fs|, i requires 0 <= i < |fs| => Str(fs[i].0)))
    case Str(s) => Ok(seq(|s|, i requires 0 <= i < |s| => Str([s[i]])))
    case _ => Err(TypeError)
  }

  function Max(a: nat, b: nat): nat {
    if a > b then a else b
  }

  // ---------------------------------------------------------------------
  // Depth of a tree: scalars are 0, a list or dict is one more than its
  // deepest element.

  function Depth(j: Json): nat
    decreases j, 1
  {
    match j
    case Arr(xs) => 1 + DeepestItem(j, |xs|)
    case Obj(fs) => 1 + DeepestValue(j, |fs|)
    case _ => 0
  }

  /** Depth of the deepest of the first `n` items of list `j`. */
  function DeepestItem(j: Json, n: nat): nat
    requires j.Arr? && n <= |j.items|
    decreases j, 0, n
  {
    if n == 0 then 0
    else
      var p := DeepestItem(j, n - 1);
      var d := Depth(j.items[n - 1]);
      if d > p then d else p
  }

  /** Depth of the deepest of the first `n` values of dict `j`. */
  function DeepestValue(j: Json, n: nat): nat
    requires j.Obj? && n <= |j.fields|
    decreases j, 0, n
  {
    if n == 0 then 0
    else
      var p := DeepestValue(j, n - 1);
      var d := Depth(j.fields[n - 1].1);
      if d > p then d else p
  }

  /** Depth of the deepest item of a list (0 for an empty list). */
  function ItemsDepth(xs: seq<Json>): nat {
    DeepestItem(Arr(xs), |xs|)
  }

  /** Depth of the deepest value of a dict (0 for an empty dict). */
  function FieldsDepth(fs: Fields): nat {
    DeepestValue(Obj(fs), |fs|)
  }

  /** Depth of the deepest value among several dicts. */
  function MaxFieldsDepth(ds: seq<Fields>): nat {
    if ds == [] then 0
    else
      var p := MaxFieldsDepth(ds[..|ds| - 1]);
      var last := FieldsDepth(ds[|ds| - 1]);
      if last > p then last else p
  }

  lemma {:induction false} DeepestItemBound(j: Json, n: nat, b: nat)
    requires j.Arr? && n <= |j.items|
    ensures DeepestItem(j, n) <= b <==> forall i :: 0 <= i < n ==> Depth(j.items[i]) <= b
  {
    if n > 0 {
      DeepestItemBound(j, n - 1, b);
    }
  }

  lemma {:induction false} DeepestValueBound(j: Json, n: nat, b: nat)
    requires j.Obj? && n <= |j.fields|
    ensures DeepestValue(j, n) <= b <==> forall i :: 0 <= i < n ==> Depth(j.fields[i].1) <= b
  {
    if n > 0 {
      DeepestValueBound(j, n - 1, b);
    }
  }

  lemma ItemsDepthBound(xs: seq<Json>, b: nat)
    ensures ItemsDepth(xs) <= b <==> forall i :: 0 <= i < |xs| ==> Depth(xs[i]) <= b
  {
    DeepestItemBound(Arr(xs), |xs|, b);
  }

  lemma FieldsDepthBound(fs: Fields, b: nat)
    ensures FieldsDepth(fs) <= b <==> forall i :: 0 <= i < |fs| ==> Depth(fs[i].1) <= b
  {
    DeepestValueBound(Obj(fs), |fs|, b);
  }

  lemma {:induction false} MaxFieldsDepthBound(ds: seq<Fields>, b: nat)
    ensures MaxFieldsDepth(ds) <= b <==> forall i :: 0 <= i < |ds| ==> FieldsDepth(ds[i]) <= b
  {
    if ds != [] {
      var pre := ds[..|ds| - 1];
      MaxFieldsDepthBound(pre, b);
      assert forall i :: 0 <= i < |pre| ==> pre[i] == ds[i];
    }
  }

  lemma ItemsDepthPrefix(xs: seq<Json>, n: nat)
    requires n <= |xs|
    ensures ItemsDepth(xs[..n]) <= ItemsDepth(xs)
  {
    ItemsDepthBound(xs, ItemsDepth(xs));
    ItemsDepthBound(xs[..n], ItemsDepth(xs));
  }

  lemma FieldsDepthPrefix(fs: Fields, n: nat)
    requires n <= |fs|
    ensures FieldsDepth(fs[..n]) <= FieldsDepth(fs)
  {
    FieldsDepthBound(fs, FieldsDepth(fs));
    FieldsDepthBound(fs[..n], FieldsDepth(fs));
  }

  lemma ItemsDepthConcat(a: seq<Json>, b: seq<Json>, bound: nat)
    requires ItemsDepth(a) <= bound && ItemsDepth(b) <= bound
    ensures ItemsDepth(a + b) <= bound
  {
    ItemsDepthBound(a, bound);
    ItemsDepthBound(b, bound);
    ItemsDepthBound(a + b, bound);
  }

  // ---------------------------------------------------------------------
  // Ordered dicts.

  /** Keys in insertion order. */
  function Keys(fs: Fields): (ks: seq<string>)
    ensures |ks| == |fs| && forall i {:trigger ks[i]} :: 0 <= i < |fs| ==> ks[i] == fs[i].0
  {
    seq(|fs|, i requires 0 <= i < |fs| => fs[i].0)
  }

  lemma KeysSnoc(fs: Fields)
    requires fs != []
    ensures Keys(fs) == Keys(fs[..|fs| - 1]) + [fs[|fs| - 1].0]
  {
  }

  /** A Python dict never holds a key twice. */
  predicate UniqueKeys(fs: Fields) {
    forall i, j :: 0 <= i < j < |fs| ==> fs[i].0 != fs[j].0
  }

  /** Position of the entry for `k`. */
  function IndexOf(fs: Fields, k: string): (i: nat)
    requires k in Keys(fs)
    ensures i < |fs| && fs[i].0 == k
    ensures forall j :: 0 <= j < i ==> fs[j].0 != k
  {
    if fs[0].0 == k then 0
    else
      assert k in Keys(fs[1..]) by {
        var j :| 0 <= j < |fs| && Keys(fs)[j] == k;
        assert Keys(fs[1..])[j - 1] == k;
      }
      1 + IndexOf(fs[1..], k)
  }

  /** `d.get(k)` */
  function Get(fs: Fields, k: string): Option<Json> {
    if k in Keys(fs) then Some(fs[IndexOf(fs, k)].1) else None
  }

  lemma GetDepth(fs: Fields, k: string)
    requires Get(fs, k).Some?
    ensures Depth(Get(fs, k).value) <= FieldsDepth(fs)
  {
    FieldsDepthBound(fs, FieldsDepth(fs));
  }

  /** `d[k] = v`: overwrite in place, or append a new key at the end. */
  function Put(fs: Fields, k: string, v: Json): Fields {
    if k in Keys(fs) then fs[IndexOf(fs, k) := (k, v)] else fs + [(k, v)]
  }

  /** `d.pop(k)` without its result: the entry for `k` is taken out. */
  function Remove(fs: Fields, k: string): Fields {
    if k in Keys(fs) then fs[..IndexOf(fs, k)] + fs[IndexOf(fs, k) + 1..] else fs
  }

  /** `{**a, **b}`: the entries of `a`, each of `b` laid over them in order. */
  function Update(a: Fields, b: Fields): Fields
    decreases |b|
  {
    if b == [] then a
    else
      var n := |b| - 1;
      Put(Update(a, b[..n]), b[n].0, b[n].1)
  }

  lemma PutGet(fs: Fields, k: string, v: Json, k': string)
    ensures Get(Put(fs, k, v), k') == if k' == k then Some(v) else Get(fs, k')
  {
    var r := Put(fs, k, v);
    assert |r| >= |fs| && forall j :: 0 <= j < |fs| ==> r[j].0 == fs[j].0;
    var pos := if k in Keys(fs) then IndexOf(fs, k) else |fs|;
    assert r[pos] == (k, v);
    assert forall j :: 0 <= j < |r| && j != pos ==> r[j] == fs[j];
    if k' == k {
      assert forall j :: 0 <= j < pos ==> fs[j].0 != k by {
        forall j | 0 <= j < pos ensures fs[j].0 != k {
          assert Keys(fs)[j] == fs[j].0;
        }
      }
      GetAt(r, k, pos);
    } else if k' in Keys(fs) {
      GetAt(r, k', IndexOf(fs, k'));
    } else {
      KeysMember(fs, k');
      KeysMember(r, k');
    }
  }

  /** Appending a key the dict lacks is `d[k] = v` on a new key. */
  lemma PutNew(fs: Fields, k: string, v: Json)
    requires forall j :: 0 <= j < |fs| ==> fs[j].0 != k
    ensures Put(fs, k, v) == fs + [(k, v)]
  {
    KeysMember(fs, k);
  }

  /** Keys are unique exactly when the key sequence has no repetition. */
  lemma UniqueKeysDistinct(fs: Fields)
    ensures UniqueKeys(fs) <==> forall i, j :: 0 <= i < j < |fs| ==> Keys(fs)[i] != Keys(fs)[j]
  {
    var ks := Keys(fs);
    assert forall i :: 0 <= i < |fs| ==> ks[i] == fs[i].0;
  }

  lemma PutKeys(fs: Fields, k: string, v: Json)
    ensures Keys(Put(fs, k, v)) == if k in Keys(fs) then Keys(fs) else Keys(fs) + [k]
  {
  }

  lemma PutUnique(fs: Fields, k: string, v: Json)
    requires UniqueKeys(fs)
    ensures UniqueKeys(Put(fs, k, v))
  {
    if k !in Keys(fs) {
      var r := Put(fs, k, v);
      forall i, j | 0 <= i < j < |r| ensures r[i].0 != r[j].0 {
        if j == |fs| {
          assert Keys(fs)[i] == r[i].0;
        }
      }
    }
  }

  lemma PutDepth(fs: Fields, k: string, v: Json, bound: nat)
    requires FieldsDepth(fs) <= bound && Depth(v) <= bound
    ensures FieldsDepth(Put(fs, k, v)) <= bound
  {
    FieldsDepthBound(fs, bound);
    FieldsDepthBound(Put(fs, k, v), bound);
  }

  lemma KeysMember(fs: Fields, k: string)
    ensures k in Keys(fs) <==> exists j :: 0 <= j < |fs| && fs[j].0 == k
  {
    if k in Keys(fs) {
      var j :| 0 <= j < |fs| && Keys(fs)[j] == k;
    } else {
      forall j | 0 <= j < |fs| ensures fs[j].0 != k {
        assert Keys(fs)[j] == fs[j].0;
      }
    }
  }

  /** The value of a key is the one at its first position. */
  lemma GetAt(fs: Fields, k: string, i: nat)
    requires i < |fs| && fs[i].0 == k
    requires forall j :: 0 <= j < i ==> fs[j].0 != k
    ensures Get(fs, k) == Some(fs[i].1)
  {
    assert Keys(fs)[i] == k;
  }

  lemma RemoveAt(fs: Fields, k: string)
    requires k in Keys(fs)
    ensures |Remove(fs, k)| == |fs| - 1
    ensures forall j :: 0 <= j < |fs| - 1 ==>
      Remove(fs, k)[j] == if j < IndexOf(fs, k) then fs[j] else fs[j + 1]
  {
    var i := IndexOf(fs, k);
    var r := fs[..i] + fs[i + 1..];
    assert Remove(fs, k) == r;
    forall j | 0 <= j < |fs| - 1
      ensures r[j] == if j < i then fs[j] else fs[j + 1]
    {
      if j < i {
        assert r[j] == fs[..i][j];
      } else {
        assert r[j] == fs[i + 1..][j - i];
      }
    }
  }

  lemma RemoveGet(fs: Fields, k: string, k': string)
    requires UniqueKeys(fs)
    ensures Get(Remove(fs, k), k') == if k' == k then None else Get(fs, k')
  {
    if k in Keys(fs) {
      if k' == k {
        RemoveGone(fs, k);
      } else if k' in Keys(fs) {
        RemoveKept(fs, k, k');
      } else {
        RemoveAbsent(fs, k, k');
      }
    }
  }

  /** The popped key is gone. */
  lemma RemoveGone(fs: Fields, k: string)
    requires UniqueKeys(fs) && k in Keys(fs)
    ensures k !in Keys(Remove(fs, k))
  {
    var i := IndexOf(fs, k);
    var r := Remove(fs, k);
    RemoveAt(fs, k);
    forall j | 0 <= j < |r| ensures r[j].0 != k {
      assert r[j] == fs[if j < i then j else j + 1];
    }
    KeysMember(r, k);
  }

  /** Any other key keeps its value. */
  lemma RemoveKept(fs: Fields, k: string, k': string)
    requires k in Keys(fs) && k' in Keys(fs) && k' != k
    ensures Get(Remove(fs, k), k') == Get(fs, k')
  {
    var i, i' := IndexOf(fs, k), IndexOf(fs, k');
    var r := fs[..i] + fs[i + 1..];
    assert Remove(fs, k) == r;
    if i' < i {
      RemoveKeptBefore(fs, i, i', k');
    } else {
      assert i != i' by {
        assert fs[i].0 == k && fs[i'].0 == k';
      }
      RemoveKeptAfter(fs, i, i', k');
    }
  }

  lemma RemoveKeptBefore(fs: Fields, i: nat, i': nat, k': string)
    requires i' < i < |fs| && fs[i'].0 == k'
    requires forall j :: 0 <= j < i' ==> fs[j].0 != k'
    ensures Get(fs[..i] + fs[i + 1..], k') == Some(fs[i'].1)
  {
    var r := fs[..i] + fs[i + 1..];
    forall j | 0 <= j <= i' ensures r[j] == fs[j] {
      assert r[j] == fs[..i][j];
    }
    GetAt(r, k', i');
  }

  lemma RemoveKeptAfter(fs: Fields, i: nat, i': nat, k': string)
    requires i < i' < |fs| && fs[i'].0 == k'
    requires forall j :: 0 <= j < i' ==> fs[j].0 != k'
    ensures Get(fs[..i] + fs[i + 1..], k') == Some(fs[i'].1)
  {
    var r := fs[..i] + fs[i + 1..];
    forall j | 0 <= j < i' ensures r[j] == if j < i then fs[j] else fs[j + 1] {
      if j < i {
        assert r[j] == fs[..i][j];
      } else {
        assert r[j] == fs[i + 1..][j - i];
      }
    }
    GetAt(r, k', i' - 1);
  }

  /** A key the dict never had is not brought in. */
  lemma RemoveAbsent(fs: Fields, k: string, k': string)
    requires k in Keys(fs) && k' !in Keys(fs)
    ensures k' !in Keys(Remove(fs, k))
  {
    var i := IndexOf(fs, k);
    var r := Remove(fs, k);
    RemoveAt(fs, k);
    KeysMember(fs, k');
    forall j | 0 <= j < |r| ensures r[j].0 != k' {
      assert r[j] == fs[if j < i then j else j + 1];
    }
    KeysMember(r, k');
  }

  lemma RemoveShape(fs: Fields, k: string)
    requires UniqueKeys(fs)
    ensures UniqueKeys(Remove(fs, k))
    ensures k !in Keys(Remove(fs, k))
    ensures |Remove(fs, k)| == if k in Keys(fs) then |fs| - 1 else |fs|
    ensures forall k' :: k' in Keys(Remove(fs, k)) <==> k' in Keys(fs) && k' != k
  {
    forall k' ensures k' in Keys(Remove(fs, k)) <==> k' in Keys(fs) && k' != k {
      RemoveGet(fs, k, k');
    }
  }

  lemma RemoveDepth(fs: Fields, k: string)
    ensures FieldsDepth(Remove(fs, k)) <= FieldsDepth(fs)
  {
    FieldsDepthBound(fs, FieldsDepth(fs));
    if k in Keys(fs) {
      RemoveAt(fs, k);
    }
    FieldsDepthBound(Remove(fs, k), FieldsDepth(fs));
  }

  lemma {:induction false} UpdateGet(a: Fields, b: Fields, k: string)
    requires UniqueKeys(b)
    ensures Get(Update(a, b), k) == if k in Keys(b) then Get(b, k) else Get(a, k)
    decreases |b|
  {
    if b != [] {
      var n := |b| - 1;
      var pre := b[..n];
      assert UniqueKeys(pre);
      UpdateGet(a, pre, k);
      PutGet(Update(a, pre), b[n].0, b[n].1, k);
      assert Keys(b) == Keys(pre) + [b[n].0];
      if k in Keys(pre) {
        var i := IndexOf(pre, k);
        assert IndexOf(b, k) == i;
      } else if k == b[n].0 {
        assert IndexOf(b, k) == n;
      }
    }
  }

  lemma {:induction false} UpdateKeys(a: Fields, b: Fields)
    ensures |Update(a, b)| >= |a| && Keys(Update(a, b))[..|a|] == Keys(a)
    ensures forall k :: k in Keys(Update(a, b)) <==> k in Keys(a) || k in Keys(b)
    ensures UniqueKeys(a) ==> UniqueKeys(Update(a, b))
    decreases |b|
  {
    if b != [] {
      var n := |b| - 1;
      var pre := b[..n];
      UpdateKeys(a, pre);
      PutKeys(Update(a, pre), b[n].0, b[n].1);
      assert Keys(b) == Keys(pre) + [b[n].0];
      if UniqueKeys(a) {
        PutUnique(Update(a, pre), b[n].0, b[n].1);
      }
    }
  }

  lemma {:induction false} UpdateDepth(a: Fields, b: Fields, bound: nat)
    requires FieldsDepth(a) <= bound && FieldsDepth(b) <= bound
    ensures FieldsDepth(Update(a, b)) <= bound
    decreases |b|
  {
    if b != [] {
      var n := |b| - 1;
      FieldsDepthPrefix(b, n);
      UpdateDepth(a, b[..n], bound);
      FieldsDepthBound(b, bound);
      PutDepth(Update(a, b[..n]), b[n].0, b[n].1, bound);
    }
  }
}
