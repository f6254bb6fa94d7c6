/** `lazy_combinations`: the merged dict of every choice of at least two of
    the options, the choices of two first, then of three, and so on, each
    size in the order of `itertools.combinations`. */
module CombinationSearch {
  import opened JsonValue
  import opened DeepMerge

  // ---------------------------------------------------------------------
  // `itertools.combinations`.

  /** `[x] + c` for every `c`, in order. */
  function Prefixed<T>(x: T, cs: seq<seq<T>>): (r: seq<seq<T>>)
    ensures |r| == |cs| && forall i :: 0 <= i < |cs| ==> r[i] == [x] + cs[i]
  {
    seq(|cs|, i requires 0 <= i < |cs| => [x] + cs[i])
  }

  /** The `k`-element choices from `xs`, keeping their order: those that
      take the first element, then those that skip it.  This is the order in
      which `itertools.combinations` emits them (lexicographic in the
      positions chosen, proved below as `RangeCombinationsSorted`). */
  function Combinations<T>(xs: seq<T>, k: nat): seq<seq<T>>
    decreases |xs|
  {
    if k == 0 then [[]]
    else if xs == [] then []
    else Prefixed(xs[0], Combinations(xs[1..], k - 1)) + Combinations(xs[1..], k)
  }

  /** The choices of every size from `k` up to `|xs|`, size by size. */
  function CombinationsFrom<T>(xs: seq<T>, k: nat): seq<seq<T>>
    decreases |xs| + 1 - k
  {
    if k > |xs| then [] else Combinations(xs, k) + CombinationsFrom(xs, k + 1)
  }

  /** `lazy_combinations(options_list)`, as the sequence it yields. */
  function LazyCombinations(options: seq<Fields>): seq<Fields> {
    var choices := CombinationsFrom(options, 2);
    seq(|choices|, i requires 0 <= i < |choices| => Merge(choices[i]))
  }

  // ---------------------------------------------------------------------
  // Counting.

  function Binom(n: nat, k: nat): nat {
    if k == 0 then 1
    else if n == 0 then 0
    else Binom(n - 1, k - 1) + Binom(n - 1, k)
  }

  /** `Binom(n, k) + Binom(n, k + 1) + ... + Binom(n, n)`. */
  function BinomSum(n: nat, k: nat): nat
    decreases n + 1 - k
  {
    if k > n then 0 else Binom(n, k) + BinomSum(n, k + 1)
  }

  function Pow2(n: nat): nat {
    if n == 0 then 1 else 2 * Pow2(n - 1)
  }

  lemma {:induction false} BinomAbove(n: nat, k: nat)
    requires k > n
    ensures Binom(n, k) == 0
  {
    if n > 0 {
      BinomAbove(n - 1, k - 1);
      BinomAbove(n - 1, k);
    }
  }

  lemma {:induction false} BinomOne(n: nat)
    ensures Binom(n, 1) == n
  {
    if n > 0 {
      BinomOne(n - 1);
    }
  }

  /** There are `Binom(|xs|, k)` choices of `k` elements. */
  lemma {:induction false} CombinationsCount<T>(xs: seq<T>, k: nat)
    ensures |Combinations(xs, k)| == Binom(|xs|, k)
    decreases |xs|
  {
    if k > 0 && xs != [] {
      var tail := xs[1..];
      CombinationsCount(tail, k - 1);
      CombinationsCount(tail, k);
      assert Combinations(xs, k) == Prefixed(xs[0], Combinations(tail, k - 1)) + Combinations(tail, k);
      assert Binom(|xs|, k) == Binom(|tail|, k - 1) + Binom(|tail|, k);
    }
  }

  /** Pascal's rule, summed. */
  lemma {:induction false} BinomSumPascal(n: nat, k: nat)
    requires k <= n + 1
    ensures BinomSum(n + 1, k + 1) == BinomSum(n, k) + BinomSum(n, k + 1)
    decreases n + 1 - k
  {
    if k <= n {
      BinomSumPascal(n, k + 1);
      if k + 1 > n {
        BinomAbove(n, k + 1);
      }
    }
  }

  /** The sizes of all subsets add up to `2^n`. */
  lemma {:induction false} BinomSumAll(n: nat)
    ensures BinomSum(n, 0) == Pow2(n)
  {
    if n > 0 {
      BinomSumAll(n - 1);
      BinomSumPascal(n - 1, 0);
    }
  }

  lemma {:induction false} CombinationsFromCount<T>(xs: seq<T>, k: nat)
    ensures |CombinationsFrom(xs, k)| == BinomSum(|xs|, k)
    decreases |xs| + 1 - k
  {
    if k <= |xs| {
      CombinationsCount(xs, k);
      CombinationsFromCount(xs, k + 1);
    }
  }

  /** `lazy_combinations` yields `2^n - n - 1` merged dicts for `n` options:
      one per subset of at least two of them, none at all below two. */
  lemma LazyCombinationsCount(options: seq<Fields>)
    ensures |LazyCombinations(options)| == Pow2(|options|) - |options| - 1
    ensures |options| < 2 ==> LazyCombinations(options) == []
  {
    var n := |options|;
    CombinationsFromCount(options, 2);
    BinomSumAll(n);
    BinomOne(n);
    if n == 1 {
      assert Pow2(1) == 2;
    }
  }

  // ---------------------------------------------------------------------
  // Positions: the choices as strictly increasing index sequences.

  /** `[lo, lo + 1, ..., n - 1]`. */
  function Range(lo: nat, n: nat): (r: seq<nat>)
    ensures |r| == if lo <= n then n - lo else 0
    ensures forall i :: 0 <= i < |r| ==> r[i] == lo + i
    decreases n - lo
  {
    if lo >= n then [] else [lo] + Range(lo + 1, n)
  }

  /** The elements of `xs` at the positions `idx`. */
  function Pick<T>(xs: seq<T>, idx: seq<nat>): (r: seq<T>)
    requires forall j :: 0 <= j < |idx| ==> idx[j] < |xs|
    ensures |r| == |idx| && forall j :: 0 <= j < |idx| ==> r[j] == xs[idx[j]]
  {
    seq(|idx|, j requires 0 <= j < |idx| => xs[idx[j]])
  }

  predicate Increasing(c: seq<nat>) {
    forall i, j :: 0 <= i < j < |c| ==> c[i] < c[j]
  }

  predicate Within(c: seq<nat>, lo: nat, n: nat) {
    forall i :: 0 <= i < |c| ==> lo <= c[i] < n
  }

  /** Each of `cs` is `k` increasing positions from `[lo, n)`. */
  predicate Shaped(cs: seq<seq<nat>>, k: nat, lo: nat, n: nat) {
    forall i :: 0 <= i < |cs| ==> |cs[i]| == k && Increasing(cs[i]) && Within(cs[i], lo, n)
  }

  /** `a` comes before `b` in dictionary order. */
  predicate LexLess(a: seq<nat>, b: seq<nat>) {
    exists p :: 0 <= p <= |a| && p < |b| && a[..p] == b[..p] && (p == |a| || a[p] < b[p])
  }

  predicate LexSorted(cs: seq<seq<nat>>) {
    forall i, j :: 0 <= i < j < |cs| ==> LexLess(cs[i], cs[j])
  }

  /** `cs` holds the elements of `xs` at each of the position lists `ics`. */
  ghost predicate Picked<T>(xs: seq<T>, ics: seq<seq<nat>>, cs: seq<seq<T>>) {
    |cs| == |ics| &&
    forall i :: 0 <= i < |ics| ==>
      (forall j :: 0 <= j < |ics[i]| ==> ics[i][j] < |xs|) && cs[i] == Pick(xs, ics[i])
  }

  /** Choosing `lo` ahead of increasing positions above it keeps them
      increasing. */
  lemma PrependShape(lo: nat, n: nat, c: seq<nat>)
    requires lo < n && Increasing(c) && Within(c, lo + 1, n)
    ensures Increasing([lo] + c) && Within([lo] + c, lo, n)
  {
    var d := [lo] + c;
    assert forall i :: 0 < i < |d| ==> d[i] == c[i - 1];
  }

  /** Shaped runs concatenate to a shaped run. */
  lemma ShapedConcat(a: seq<seq<nat>>, b: seq<seq<nat>>, k: nat, lo: nat, n: nat)
    requires Shaped(a, k, lo, n) && Shaped(b, k, lo, n)
    ensures Shaped(a + b, k, lo, n)
  {
    var cs := a + b;
    forall i | 0 <= i < |cs| ensures |cs[i]| == k && Increasing(cs[i]) && Within(cs[i], lo, n) {
      if i < |a| {
        assert cs[i] == a[i];
      } else {
        assert cs[i] == b[i - |a|];
      }
    }
  }

  /** Choices above `lo`, with `lo` taken ahead of each, are shaped from `lo`. */
  lemma PrefixedShape(lo: nat, n: nat, k: nat, cs: seq<seq<nat>>)
    requires lo < n && k > 0 && Shaped(cs, k - 1, lo + 1, n)
    ensures Shaped(Prefixed(lo, cs), k, lo, n)
  {
    var ps := Prefixed(lo, cs);
    forall i | 0 <= i < |ps| ensures |ps[i]| == k && Increasing(ps[i]) && Within(ps[i], lo, n) {
      PrependShape(lo, n, cs[i]);
    }
  }

  /** Shaped above `lo` is shaped from `lo`. */
  lemma ShapedWiden(cs: seq<seq<nat>>, k: nat, lo: nat, n: nat)
    requires Shaped(cs, k, lo + 1, n)
    ensures Shaped(cs, k, lo, n)
  {
  }

  /** Every choice of positions from `[lo, n)` has `k` increasing positions
      in range. */
  lemma {:induction false} RangeCombinationsShape(lo: nat, n: nat, k: nat)
    ensures Shaped(Combinations(Range(lo, n), k), k, lo, n)
    decreases n - lo
  {
    var r := Range(lo, n);
    if k > 0 && r != [] {
      assert r[1..] == Range(lo + 1, n);
      var first := Combinations(Range(lo + 1, n), k - 1);
      var rest := Combinations(Range(lo + 1, n), k);
      assert Shaped(Prefixed(lo, first), k, lo, n) by {
        RangeCombinationsShape(lo + 1, n, k - 1);
        PrefixedShape(lo, n, k, first);
      }
      assert Shaped(rest, k, lo, n) by {
        RangeCombinationsShape(lo + 1, n, k);
        ShapedWiden(rest, k, lo, n);
      }
      ShapedConcat(Prefixed(lo, first), rest, k, lo, n);
      assert Combinations(r, k) == Prefixed(lo, first) + rest;
    }
  }

  /** Past the first position, increasing positions lie above it. */
  lemma TailShape(c: seq<nat>, lo: nat, n: nat)
    requires c != [] && Increasing(c) && Within(c, lo, n)
    ensures Increasing(c[1..]) && Within(c[1..], c[0] + 1, n) && lo <= c[0]
  {
    var tail := c[1..];
    assert forall i :: 0 <= i < |tail| ==> tail[i] == c[i + 1];
  }

  /** Increasing positions that skip `lo` all lie above it. */
  lemma SkipShape(c: seq<nat>, lo: nat, n: nat)
    requires c != [] && Increasing(c) && Within(c, lo, n) && c[0] != lo
    ensures Within(c, lo + 1, n)
  {
    forall i | 0 <= i < |c| ensures lo + 1 <= c[i] {
      if i > 0 {
        assert c[0] < c[i];
      }
    }
  }

  /** A choice in `first` comes back with `x` ahead of it. */
  lemma PrefixedMember<T>(x: T, first: seq<seq<T>>, tail: seq<T>)
    requires tail in first
    ensures [x] + tail in Prefixed(x, first)
  {
    var i :| 0 <= i < |first| && first[i] == tail;
    assert Prefixed(x, first)[i] == [x] + tail;
  }

  /** Every `k` increasing positions from `[lo, n)` are among the choices. */
  lemma {:induction false} RangeCombinationsComplete(lo: nat, n: nat, k: nat, c: seq<nat>)
    requires |c| == k && Increasing(c) && Within(c, lo, n)
    ensures c in Combinations(Range(lo, n), k)
    decreases n - lo
  {
    var r := Range(lo, n);
    if k > 0 {
      assert lo <= c[0] < n;
      assert r[1..] == Range(lo + 1, n);
      var first := Combinations(Range(lo + 1, n), k - 1);
      var rest := Combinations(Range(lo + 1, n), k);
      assert Combinations(r, k) == Prefixed(lo, first) + rest;
      if c[0] == lo {
        TailShape(c, lo, n);
        RangeCombinationsComplete(lo + 1, n, k - 1, c[1..]);
        PrefixedMember(lo, first, c[1..]);
        assert c == [lo] + c[1..];
      } else {
        SkipShape(c, lo, n);
        RangeCombinationsComplete(lo + 1, n, k, c);
      }
    }
  }

  /** Putting the same position first keeps dictionary order. */
  lemma PrependLexLess(lo: nat, a: seq<nat>, b: seq<nat>)
    requires LexLess(a, b)
    ensures LexLess([lo] + a, [lo] + b)
  {
    var p :| 0 <= p <= |a| && p < |b| && a[..p] == b[..p] && (p == |a| || a[p] < b[p]);
    assert ([lo] + a)[..p + 1] == [lo] + a[..p];
    assert ([lo] + b)[..p + 1] == [lo] + b[..p];
  }

  /** A smaller first position comes first. */
  lemma LexLessFirst(a: seq<nat>, b: seq<nat>)
    requires a != [] && b != [] && a[0] < b[0]
    ensures LexLess(a, b)
  {
    assert a[..0] == b[..0];
  }

  /** Putting the same position ahead of sorted choices keeps them sorted. */
  lemma PrefixedSorted(lo: nat, cs: seq<seq<nat>>)
    requires LexSorted(cs)
    ensures LexSorted(Prefixed(lo, cs))
  {
    var ps := Prefixed(lo, cs);
    forall i, j | 0 <= i < j < |ps| ensures LexLess(ps[i], ps[j]) {
      PrependLexLess(lo, cs[i], cs[j]);
    }
  }

  /** Two sorted runs, every choice of the first before every choice of the
      second, make one sorted run. */
  lemma SortedConcat(a: seq<seq<nat>>, b: seq<seq<nat>>)
    requires LexSorted(a) && LexSorted(b)
    requires forall i, j :: 0 <= i < |a| && 0 <= j < |b| ==> LexLess(a[i], b[j])
    ensures LexSorted(a + b)
  {
    var cs := a + b;
    forall i, j | 0 <= i < j < |cs| ensures LexLess(cs[i], cs[j]) {
      if j < |a| {
        assert cs[i] == a[i] && cs[j] == a[j];
      } else if i >= |a| {
        assert cs[i] == b[i - |a|] && cs[j] == b[j - |a|];
      } else {
        assert cs[i] == a[i] && cs[j] == b[j - |a|];
      }
    }
  }

  /** The choices that take `lo` come before those that skip it. */
  lemma TakenBeforeSkipped(lo: nat, n: nat, k: nat, first: seq<seq<nat>>, rest: seq<seq<nat>>)
    requires k > 0 && Shaped(rest, k, lo + 1, n)
    ensures forall i, j :: 0 <= i < |first| && 0 <= j < |rest| ==>
      LexLess(Prefixed(lo, first)[i], rest[j])
  {
    var ps := Prefixed(lo, first);
    forall i, j | 0 <= i < |first| && 0 <= j < |rest| ensures LexLess(ps[i], rest[j]) {
      assert ps[i][0] == lo;
      assert rest[j][0] >= lo + 1;
      LexLessFirst(ps[i], rest[j]);
    }
  }

  /** The choices of each size come in strictly increasing dictionary order
      of their positions, so none is repeated. */
  lemma {:induction false} RangeCombinationsSorted(lo: nat, n: nat, k: nat)
    ensures LexSorted(Combinations(Range(lo, n), k))
    decreases n - lo
  {
    var r := Range(lo, n);
    if k > 0 && r != [] {
      assert r[1..] == Range(lo + 1, n);
      var first := Combinations(Range(lo + 1, n), k - 1);
      var rest := Combinations(Range(lo + 1, n), k);
      var taken := Prefixed(lo, first);
      assert LexSorted(taken) by {
        RangeCombinationsSorted(lo + 1, n, k - 1);
        PrefixedSorted(lo, first);
      }
      assert LexSorted(rest) by {
        RangeCombinationsSorted(lo + 1, n, k);
      }
      assert forall i, j :: 0 <= i < |taken| && 0 <= j < |rest| ==> LexLess(taken[i], rest[j]) by {
        RangeCombinationsShape(lo + 1, n, k);
        TakenBeforeSkipped(lo, n, k, first, rest);
      }
      SortedConcat(taken, rest);
      assert Combinations(r, k) == taken + rest;
    }
  }

  /** Picking distributes over concatenation. */
  lemma PickedConcat<T>(xs: seq<T>, a: seq<seq<nat>>, ca: seq<seq<T>>, b: seq<seq<nat>>, cb: seq<seq<T>>)
    requires Picked(xs, a, ca) && Picked(xs, b, cb)
    ensures Picked(xs, a + b, ca + cb)
  {
    var ics, cs := a + b, ca + cb;
    forall i | 0 <= i < |ics|
      ensures (forall j :: 0 <= j < |ics[i]| ==> ics[i][j] < |xs|) && cs[i] == Pick(xs, ics[i])
    {
      if i < |a| {
        assert ics[i] == a[i] && cs[i] == ca[i];
      } else {
        assert ics[i] == b[i - |a|] && cs[i] == cb[i - |a|];
      }
    }
  }

  /** Taking position `lo` ahead of each choice takes `xs[lo]` ahead of
      each picked choice. */
  lemma PickedPrefixed<T>(xs: seq<T>, lo: nat, ics: seq<seq<nat>>, cs: seq<seq<T>>)
    requires lo < |xs| && Picked(xs, ics, cs)
    ensures Picked(xs, Prefixed(lo, ics), Prefixed(xs[lo], cs))
  {
    var pi, pc := Prefixed(lo, ics), Prefixed(xs[lo], cs);
    forall i | 0 <= i < |pi|
      ensures (forall j :: 0 <= j < |pi[i]| ==> pi[i][j] < |xs|) && pc[i] == Pick(xs, pi[i])
    {
      assert pi[i] == [lo] + ics[i] && pc[i] == [xs[lo]] + cs[i];
    }
  }

  /** The choices from `xs` are the elements at the chosen positions. */
  lemma {:induction false} CombinationsPick<T>(xs: seq<T>, lo: nat, k: nat)
    requires lo <= |xs|
    ensures Picked(xs, Combinations(Range(lo, |xs|), k), Combinations(xs[lo..], k))
    decreases |xs| - lo
  {
    RangeCombinationsShape(lo, |xs|, k);
    var r := Range(lo, |xs|);
    if k > 0 && lo < |xs| {
      assert r[1..] == Range(lo + 1, |xs|);
      assert xs[lo..][1..] == xs[lo + 1..];
      CombinationsPick(xs, lo + 1, k - 1);
      CombinationsPick(xs, lo + 1, k);
      var first := Combinations(Range(lo + 1, |xs|), k - 1);
      var firstPicked := Combinations(xs[lo + 1..], k - 1);
      var rest := Combinations(Range(lo + 1, |xs|), k);
      var restPicked := Combinations(xs[lo + 1..], k);
      assert Combinations(r, k) == Prefixed(lo, first) + rest;
      assert Combinations(xs[lo..], k) == Prefixed(xs[lo], firstPicked) + restPicked;
      PickedPrefixed(xs, lo, first, firstPicked);
      PickedConcat(xs, Prefixed(lo, first), Prefixed(xs[lo], firstPicked), rest, restPicked);
    } else if k > 0 {
      assert xs[lo..] == [];
    }
  }

  /** `CombinationsFrom` over positions: every size from `k` up. */
  function IndexCombinationsFrom(n: nat, k: nat): seq<seq<nat>> {
    CombinationsFrom(Range(0, n), k)
  }

  /** `a` comes before `b`: fewer positions, or as many and before in
      dictionary order. */
  predicate Before(a: seq<nat>, b: seq<nat>) {
    |a| < |b| || (|a| == |b| && LexLess(a, b))
  }

  /** Each of `cs` is at least `k` increasing positions below `n`, and they
      come in (size, dictionary) order. */
  predicate SizeOrdered(cs: seq<seq<nat>>, k: nat, n: nat) {
    (forall i :: 0 <= i < |cs| ==> k <= |cs[i]| && Increasing(cs[i]) && Within(cs[i], 0, n)) &&
    (forall i, j :: 0 <= i < j < |cs| ==> Before(cs[i], cs[j]))
  }

  /** A sorted block of size-`k` choices ahead of size-ordered larger ones
      is size-ordered from `k`. */
  lemma SizeOrderedConcat(block: seq<seq<nat>>, later: seq<seq<nat>>, k: nat, n: nat)
    requires Shaped(block, k, 0, n) && LexSorted(block) && SizeOrdered(later, k + 1, n)
    ensures SizeOrdered(block + later, k, n)
  {
    var ics := block + later;
    forall i | 0 <= i < |ics| ensures k <= |ics[i]| && Increasing(ics[i]) && Within(ics[i], 0, n) {
      if i >= |block| {
        assert ics[i] == later[i - |block|];
      } else {
        assert ics[i] == block[i];
      }
    }
    forall i, j | 0 <= i < j < |ics| ensures Before(ics[i], ics[j]) {
      if j < |block| {
        assert ics[i] == block[i] && ics[j] == block[j];
      } else if i >= |block| {
        assert ics[i] == later[i - |block|] && ics[j] == later[j - |block|];
      } else {
        assert ics[i] == block[i] && ics[j] == later[j - |block|];
      }
    }
  }

  lemma {:induction false} IndexCombinationsFromShape(n: nat, k: nat)
    ensures SizeOrdered(IndexCombinationsFrom(n, k), k, n)
    decreases n + 1 - k
  {
    if k <= n {
      var block, later := Combinations(Range(0, n), k), IndexCombinationsFrom(n, k + 1);
      assert SizeOrdered(later, k + 1, n) by {
        IndexCombinationsFromShape(n, k + 1);
      }
      assert Shaped(block, k, 0, n) && LexSorted(block) by {
        RangeCombinationsShape(0, n, k);
        RangeCombinationsSorted(0, n, k);
      }
      SizeOrderedConcat(block, later, k, n);
      assert IndexCombinationsFrom(n, k) == block + later;
    }
  }

  /** Increasing positions in `[lo, n)` number at most `n - lo`. */
  lemma {:induction false} AtMostRange(c: seq<nat>, lo: nat, n: nat)
    requires lo <= n && Increasing(c) && Within(c, lo, n)
    ensures |c| + lo <= n
    decreases |c|
  {
    if c != [] {
      TailShape(c, lo, n);
      AtMostRange(c[1..], c[0] + 1, n);
    }
  }

  /** Every set of at least `k` positions below `n` appears. */
  lemma {:induction false} IndexCombinationsFromComplete(n: nat, k: nat, c: seq<nat>)
    requires k <= |c| && Increasing(c) && Within(c, 0, n)
    ensures c in IndexCombinationsFrom(n, k)
    decreases |c| - k
  {
    AtMostRange(c, 0, n);
    if k < |c| {
      IndexCombinationsFromComplete(n, k + 1, c);
    } else {
      RangeCombinationsComplete(0, n, |c|, c);
    }
  }

  lemma {:induction false} CombinationsFromPick<T>(xs: seq<T>, k: nat)
    ensures Picked(xs, IndexCombinationsFrom(|xs|, k), CombinationsFrom(xs, k))
    decreases |xs| + 1 - k
  {
    if k <= |xs| {
      var block, later := Combinations(Range(0, |xs|), k), IndexCombinationsFrom(|xs|, k + 1);
      assert Picked(xs, block, Combinations(xs, k)) by {
        CombinationsPick(xs, 0, k);
        assert xs[0..] == xs;
      }
      assert Picked(xs, later, CombinationsFrom(xs, k + 1)) by {
        CombinationsFromPick(xs, k + 1);
      }
      PickedConcat(xs, block, Combinations(xs, k), later, CombinationsFrom(xs, k + 1));
      assert IndexCombinationsFrom(|xs|, k) == block + later;
      assert CombinationsFrom(xs, k) == Combinations(xs, k) + CombinationsFrom(xs, k + 1);
    }
  }

  /** `lazy_combinations(options_list)` yields, for each set of at least two
      positions, in order of size and then dictionary order of positions,
      the merge of the options at those positions, and each such set once. */
  lemma LazyCombinationsSpec(options: seq<Fields>)
    ensures SizeOrdered(IndexCombinationsFrom(|options|, 2), 2, |options|)
    ensures forall c :: 2 <= |c| && Increasing(c) && Within(c, 0, |options|) ==>
      c in IndexCombinationsFrom(|options|, 2)
    ensures |LazyCombinations(options)| == |IndexCombinationsFrom(|options|, 2)|
    ensures forall i :: 0 <= i < |LazyCombinations(options)| ==>
      Within(IndexCombinationsFrom(|options|, 2)[i], 0, |options|) &&
      LazyCombinations(options)[i] == Merge(Pick(options, IndexCombinationsFrom(|options|, 2)[i]))
  {
    CombinationsFromPick(options, 2);
    IndexCombinationsFromShape(|options|, 2);
    forall c | 2 <= |c| && Increasing(c) && Within(c, 0, |options|)
      ensures c in IndexCombinationsFrom(|options|, 2)
    {
      IndexCombinationsFromComplete(|options|, 2, c);
    }
  }
}
