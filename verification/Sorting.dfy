/** Orders for sort keys, stable orders of positions, and the number of inversions. */
module Sorting {
  import opened Wrappers

  // ---------- comparing keys ----------

  /** The sign of a comparison orders the keys; different keys may compare equal. */
  ghost predicate IsOrder<K(!new)>(cmp: (K, K) -> int) {
    && (forall a, b :: cmp(a, b) > 0 <==> cmp(b, a) < 0)
    && (forall a, b, c :: cmp(a, b) <= 0 && cmp(b, c) <= 0 ==> cmp(a, c) <= 0)
  }

  function Lower(c: char): char {
    if 'A' <= c <= 'Z' then (c as int + 32) as char else c
  }

  /** `strcasecmp` */
  function CaseCompare(a: string, b: string): int {
    if |a| == 0 then (if |b| == 0 then 0 else -1)
    else if |b| == 0 then 1
    else if Lower(a[0]) != Lower(b[0]) then Lower(a[0]) as int - Lower(b[0]) as int
    else CaseCompare(a[1..], b[1..])
  }

  /** `xml_strcasecmp`: a missing string is smaller than every other. */
  function TextCompare(a: Option<string>, b: Option<string>): int {
    if a.None? && b.None? then 0
    else if a.None? then -1
    else if b.None? then 1
    else CaseCompare(a.value, b.value)
  }

  function NumberCompare(a: real, b: real): int {
    if a - b > 0.0 then 1 else if a == b then 0 else -1
  }

  lemma {:induction false} CaseSwap(a: string, b: string)
    ensures CaseCompare(a, b) > 0 <==> CaseCompare(b, a) < 0
    decreases |a|
  {
    if |a| > 0 && |b| > 0 && Lower(a[0]) == Lower(b[0]) {
      CaseSwap(a[1..], b[1..]);
    }
  }

  lemma {:induction false} CaseChain(a: string, b: string, c: string)
    requires CaseCompare(a, b) <= 0 && CaseCompare(b, c) <= 0
    ensures CaseCompare(a, c) <= 0
    decreases |a|
  {
    if |a| > 0 && |b| > 0 && |c| > 0 && Lower(a[0]) == Lower(b[0]) == Lower(c[0]) {
      CaseChain(a[1..], b[1..], c[1..]);
    }
  }

  lemma TextIsOrder()
    ensures IsOrder(TextCompare)
  {
    forall a: Option<string>, b: Option<string> ensures TextCompare(a, b) > 0 <==> TextCompare(b, a) < 0 {
      if a.Some? && b.Some? {
        CaseSwap(a.value, b.value);
      }
    }
    forall a: Option<string>, b: Option<string>, c: Option<string> | TextCompare(a, b) <= 0 && TextCompare(b, c) <= 0
      ensures TextCompare(a, c) <= 0
    {
      if a.Some? && b.Some? && c.Some? {
        CaseChain(a.value, b.value, c.value);
      }
    }
  }

  lemma NumberIsOrder()
    ensures IsOrder(NumberCompare)
  {
  }

  /** A letter of the alphabet made small; everything else as it is. */
  function Small(c: char): char {
    if 'A' <= c <= 'Z' then "abcdefghijklmnopqrstuvwxyz"[c as int - 'A' as int] else c
  }

  function SmallAll(s: string): (r: string)
    ensures |r| == |s| && forall i :: 0 <= i < |s| ==> r[i] == Small(s[i])
  {
    seq(|s|, i requires 0 <= i < |s| => Small(s[i]))
  }

  /** They agree up to place `k`; there the first one ends, or has the smaller character. */
  ghost predicate PartAt(a: string, b: string, k: nat) {
    && k <= |a| && k < |b| && (forall i :: 0 <= i < k ==> a[i] == b[i])
    && (k < |a| ==> a[k] < b[k])
  }

  /** The order of a dictionary. */
  ghost predicate DictionaryBefore(a: string, b: string) {
    exists k: nat :: PartAt(a, b, k)
  }

  lemma LowerIsSmall(c: char)
    ensures Lower(c) == Small(c)
  {
    if 'A' <= c <= 'Z' {
      var k := c as int - 'A' as int;
      assert "abcdefghijklmnopqrstuvwxyz"[k] == ('a' as int + k) as char;
    }
  }

  lemma SmallTail(s: string)
    requires s != []
    ensures SmallAll(s)[1..] == SmallAll(s[1..])
  {
  }

  /** Behind equal first characters the dictionary goes on. */
  lemma DictionaryTail(a: string, b: string)
    requires a != [] && b != [] && a[0] == b[0]
    ensures DictionaryBefore(a, b) <==> DictionaryBefore(a[1..], b[1..])
  {
    if k: nat :| PartAt(a, b, k) {
      assert k > 0 && PartAt(a[1..], b[1..], k - 1);
    }
    if k: nat :| PartAt(a[1..], b[1..], k) {
      assert PartAt(a, b, k + 1);
    }
  }

  /** `strcasecmp` is negative exactly where the small letters stand in the order of a dictionary. */
  lemma {:induction false} CaseIsDictionary(a: string, b: string)
    ensures CaseCompare(a, b) < 0 <==> DictionaryBefore(SmallAll(a), SmallAll(b))
    ensures CaseCompare(a, b) == 0 <==> SmallAll(a) == SmallAll(b)
    decreases |a|
  {
    var x, y := SmallAll(a), SmallAll(b);
    if a == [] || b == [] {
      assert a == [] && b != [] ==> PartAt(x, y, 0);
    } else {
      LowerIsSmall(a[0]);
      LowerIsSmall(b[0]);
      if Lower(a[0]) == Lower(b[0]) {
        CaseIsDictionary(a[1..], b[1..]);
        SmallTail(a);
        SmallTail(b);
        DictionaryTail(x, y);
        assert x == [x[0]] + x[1..] && y == [y[0]] + y[1..];
      } else {
        assert x[0] < y[0] ==> PartAt(x, y, 0);
        assert forall k: nat :: PartAt(x, y, k) ==> k == 0;
      }
    }
  }

  /** A missing text stands before every other. */
  ghost predicate TextBefore(a: Option<string>, b: Option<string>) {
    b.Some? && (a.None? || DictionaryBefore(SmallAll(a.value), SmallAll(b.value)))
  }

  ghost predicate SameText(a: Option<string>, b: Option<string>) {
    if a.None? || b.None? then a == b else SmallAll(a.value) == SmallAll(b.value)
  }

  lemma TextCompareIs(a: Option<string>, b: Option<string>)
    ensures TextCompare(a, b) < 0 <==> TextBefore(a, b)
    ensures TextCompare(a, b) == 0 <==> SameText(a, b)
  {
    if a.Some? && b.Some? {
      CaseIsDictionary(a.value, b.value);
    }
  }

  lemma NumberCompareIs(a: real, b: real)
    ensures NumberCompare(a, b) < 0 <==> a < b
    ensures NumberCompare(a, b) == 0 <==> a == b
  {
  }

  /** The order a sort asks for: backwards when `down`. */
  function Directed<K>(cmp: (K, K) -> int, down: bool): (K, K) -> int {
    (a, b) => if down then -cmp(a, b) else cmp(a, b)
  }

  lemma DirectedIs<K>(cmp: (K, K) -> int, down: bool, a: K, b: K)
    ensures Directed(cmp, down)(a, b) == if down then -cmp(a, b) else cmp(a, b)
  {
  }

  lemma DirectedIsOrder<K(!new)>(cmp: (K, K) -> int, down: bool)
    requires IsOrder(cmp)
    ensures IsOrder(Directed(cmp, down))
  {
    var d := Directed(cmp, down);
    forall a, b, c | d(a, b) <= 0 && d(b, c) <= 0 ensures d(a, c) <= 0 {
      if down {
        assert cmp(b, a) <= 0 && cmp(c, b) <= 0;
        assert cmp(c, a) <= 0;
        assert !(cmp(c, a) > 0);
      }
    }
  }

  // ---------- inversions ----------

  /** How many keys of `s` are smaller than x. */
  function Smaller<K>(cmp: (K, K) -> int, x: K, s: seq<K>): nat {
    if |s| == 0 then 0 else (if cmp(x, s[0]) > 0 then 1 else 0) + Smaller(cmp, x, s[1..])
  }

  function Inversions<K>(cmp: (K, K) -> int, s: seq<K>): nat {
    if |s| == 0 then 0 else Smaller(cmp, s[0], s[1..]) + Inversions(cmp, s[1..])
  }

  lemma {:induction false} SmallerSwap<K>(cmp: (K, K) -> int, x: K, s: seq<K>, i: nat)
    requires i + 1 < |s|
    ensures Smaller(cmp, x, s[i := s[i + 1]][i + 1 := s[i]]) == Smaller(cmp, x, s)
    decreases i
  {
    var t := s[i := s[i + 1]][i + 1 := s[i]];
    if i == 0 {
      assert t[1..][1..] == s[1..][1..];
    } else {
      SmallerSwap(cmp, x, s[1..], i - 1);
      assert t[1..] == s[1..][i - 1 := s[1..][i]][i := s[1..][i - 1]];
    }
  }

  /** Swapping two neighbours that are out of order removes one inversion. */
  lemma {:induction false} SwapInversion<K(!new)>(cmp: (K, K) -> int, s: seq<K>, i: nat)
    requires IsOrder(cmp) && i + 1 < |s| && cmp(s[i], s[i + 1]) > 0
    ensures Inversions(cmp, s[i := s[i + 1]][i + 1 := s[i]]) + 1 == Inversions(cmp, s)
    decreases i
  {
    var t := s[i := s[i + 1]][i + 1 := s[i]];
    if i == 0 {
      assert t[1..][1..] == s[1..][1..];
      assert cmp(s[1], s[0]) < 0;
    } else {
      assert t[1..] == s[1..][i - 1 := s[1..][i]][i := s[1..][i - 1]];
      SwapInversion(cmp, s[1..], i - 1);
      SmallerSwap(cmp, s[0], s[1..], i - 1);
    }
  }

  // ---------- stable orders ----------

  /** `order` lists every position below n once. */
  ghost predicate IsPerm(order: seq<nat>, n: nat) {
    && |order| == n && (forall i :: 0 <= i < n ==> order[i] < n)
    && (forall i, j :: 0 <= i < j < n ==> order[i] != order[j])
  }

  /** Positions out of their first order have strictly smaller keys. */
  ghost predicate Kept<K>(cmp: (K, K) -> int, keys: seq<K>, order: seq<nat>)
    requires forall i :: 0 <= i < |order| ==> order[i] < |keys|
  {
    forall i, j :: 0 <= i < j < |order| ==> order[i] < order[j] || cmp(keys[order[i]], keys[order[j]]) < 0
  }

  /** The first key is smaller, or they are equal and the first stood before the second. */
  ghost predicate Before<K>(cmp: (K, K) -> int, keys: seq<K>, i: nat, j: nat)
    requires i < |keys| && j < |keys|
  {
    cmp(keys[i], keys[j]) < 0 || (cmp(keys[i], keys[j]) == 0 && i < j)
  }

  /** The stable order of the keys. */
  ghost predicate IsStable<K>(cmp: (K, K) -> int, keys: seq<K>, order: seq<nat>) {
    IsPerm(order, |keys|) && forall i, j :: 0 <= i < j < |order| ==> Before(cmp, keys, order[i], order[j])
  }

  lemma {:induction false} AdjacentSorted<K(!new)>(cmp: (K, K) -> int, s: seq<K>, i: nat, j: nat)
    requires IsOrder(cmp) && i < j < |s| && forall k :: 0 < k < |s| ==> cmp(s[k - 1], s[k]) <= 0
    ensures cmp(s[i], s[j]) <= 0
    decreases j
  {
    assert cmp(s[j - 1], s[j]) <= 0;
    if i < j - 1 {
      AdjacentSorted(cmp, s, i, j - 1);
    }
  }

  lemma SortedIsStable<K(!new)>(cmp: (K, K) -> int, keys: seq<K>, order: seq<nat>, now: seq<K>)
    requires IsOrder(cmp) && IsPerm(order, |keys|) && Kept(cmp, keys, order)
    requires |now| == |keys| && forall i :: 0 <= i < |now| ==> now[i] == keys[order[i]]
    requires forall k :: 0 < k < |now| ==> cmp(now[k - 1], now[k]) <= 0
    ensures IsStable(cmp, keys, order)
  {
    forall i, j | 0 <= i < j < |order| ensures Before(cmp, keys, order[i], order[j]) {
      AdjacentSorted(cmp, now, i, j);
    }
  }

  /** There is only one stable order. */
  lemma {:induction false} StableIsUnique<K(!new)>(cmp: (K, K) -> int, keys: seq<K>, o1: seq<nat>, o2: seq<nat>, n: nat)
    requires IsOrder(cmp) && IsStable(cmp, keys, o1) && IsStable(cmp, keys, o2) && n <= |keys|
    ensures forall i :: 0 <= i < n ==> o1[i] == o2[i]
    decreases n
  {
    if n > 0 {
      StableIsUnique(cmp, keys, o1, o2, n - 1);
      var k := n - 1;
      if o1[k] != o2[k] {
        var p := IndexIn(o2, |keys|, o1[k]);
        var q := IndexIn(o1, |keys|, o2[k]);
      }
    }
  }

  /** The positions below n. */
  function Range(n: nat): (r: set<nat>)
    ensures |r| == n && forall x: nat :: x in r <==> x < n
  {
    if n == 0 then {} else Range(n - 1) + {n - 1}
  }

  /** A permutation reaches every position. */
  lemma IndexIn(order: seq<nat>, n: nat, v: nat) returns (i: nat)
    requires IsPerm(order, n) && v < n
    ensures i < n && order[i] == v
  {
    if forall j :: 0 <= j < n ==> order[j] != v {
      var values := set j | 0 <= j < n :: order[j];
      Images(order, n, n);
      assert values <= Range(n) - {v};
      Subset(values, Range(n) - {v});
    }
    i :| 0 <= i < n && order[i] == v;
  }

  lemma {:induction false} Images(order: seq<nat>, n: nat, k: nat)
    requires IsPerm(order, n) && k <= n
    ensures |set j | 0 <= j < k :: order[j]| == k
  {
    if k > 0 {
      Images(order, n, k - 1);
      var before := set j | 0 <= j < k - 1 :: order[j];
      assert (set j | 0 <= j < k :: order[j]) == before + {order[k - 1]};
    }
  }

  lemma {:induction false} Subset<T>(a: set<T>, b: set<T>)
    requires a <= b
    ensures |a| <= |b|
  {
    if a != {} {
      var x :| x in a;
      Subset(a - {x}, b - {x});
    }
  }

  lemma SwapKeeps<K(!new)>(cmp: (K, K) -> int, keys: seq<K>, order: seq<nat>, i: nat)
    requires IsPerm(order, |keys|) && Kept(cmp, keys, order) && i + 1 < |order|
    requires IsOrder(cmp) && cmp(keys[order[i]], keys[order[i + 1]]) > 0
    ensures var o := order[i := order[i + 1]][i + 1 := order[i]]; IsPerm(o, |keys|) && Kept(cmp, keys, o)
  {
    var o := order[i := order[i + 1]][i + 1 := order[i]];
    forall k, l | 0 <= k < l < |o| ensures o[k] < o[l] || cmp(keys[o[k]], keys[o[l]]) < 0 {
    }
  }

  // ---------- several passes ----------

  /** A pass compares the things sorted, given by their first positions. */
  type Pass = (nat, nat) -> int

  /** The last pass is the most significant; the first positions decide in the end. */
  ghost predicate LexBefore(passes: seq<Pass>, i: nat, j: nat)
    decreases |passes|
  {
    if |passes| == 0 then i < j
    else
      var last := passes[|passes| - 1](i, j);
      last < 0 || (last == 0 && LexBefore(passes[..|passes| - 1], i, j))
  }

  ghost predicate LexSorted(passes: seq<Pass>, order: seq<nat>) {
    IsPerm(order, |order|) && forall i, j :: 0 <= i < j < |order| ==> LexBefore(passes, order[i], order[j])
  }

  /** The keys of one pass in the current order. */
  ghost predicate KeysOf<K>(pass: Pass, cmp: (K, K) -> int, keys: seq<K>, order: seq<nat>) {
    |keys| == |order| && forall i, j :: 0 <= i < |keys| && 0 <= j < |keys| ==>
        cmp(keys[i], keys[j]) == pass(order[i], order[j])
  }

  function Compose(order: seq<nat>, next: seq<nat>): (r: seq<nat>)
    requires forall i :: 0 <= i < |next| ==> next[i] < |order|
    ensures |r| == |next| && forall i :: 0 <= i < |r| ==> r[i] == order[next[i]]
  {
    seq(|next|, i requires 0 <= i < |next| => order[next[i]])
  }

  /** A stable sort on top of earlier passes. */
  lemma OnePass<K(!new)>(passes: seq<Pass>, pass: Pass, cmp: (K, K) -> int, keys: seq<K>, order: seq<nat>,
      next: seq<nat>)
    requires LexSorted(passes, order) && KeysOf(pass, cmp, keys, order) && IsStable(cmp, keys, next)
    ensures LexSorted(passes + [pass], Compose(order, next))
  {
    var r := Compose(order, next);
    var all := passes + [pass];
    assert all[..|all| - 1] == passes;
    forall i, j | 0 <= i < j < |r| ensures r[i] != r[j] && LexBefore(all, r[i], r[j]) {
      assert Before(cmp, keys, next[i], next[j]);
      assert next[i] != next[j];
    }
  }
}
