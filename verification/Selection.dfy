/** Sorting of node selections: the arrays of the context, and the relinked list. */
module Selection {
  import opened Wrappers
  import opened Sorting

  class Node {
    var next: Node?
    var prev: Node?
    var position: nat

    constructor ()
      ensures next == null && prev == null
    {
      next, prev, position := null, null, 0;
    }
  }

  /** One `xsl:sort`: its flags, and its key as a function of the node. */
  datatype Sort = Sort(numeric: bool, descending: bool, key: Node -> Option<string>)

  /** `ns` is the list that starts at `head`. */
  ghost predicate IsList(head: Node?, ns: seq<Node>)
    reads ns
  {
    && (if |ns| == 0 then head == null else head == ns[0])
    && (forall i :: 0 <= i < |ns| ==>
        (i + 1 < |ns| ==> ns[i].next == ns[i + 1]) && (i + 1 == |ns| ==> ns[i].next == null))
    && (forall i, j :: 0 <= i < j < |ns| ==> ns[i] != ns[j])
  }

  /** Back links and positions agree with the list. */
  ghost predicate IsNumbered(ns: seq<Node>)
    reads ns
  {
    forall i :: 0 <= i < |ns| ==> ns[i].position == i + 1 && (i > 0 ==> ns[i].prev == ns[i - 1]) && (i == 0 ==>
        ns[i].prev == null)
  }

  /** The nodes of `ns` in the order given by positions. */
  function Arranged(ns: seq<Node>, order: seq<nat>): (r: seq<Node>)
    requires forall i :: 0 <= i < |order| ==> order[i] < |ns|
    ensures |r| == |order| && forall i :: 0 <= i < |r| ==> r[i] == ns[order[i]]
  {
    seq(|order|, i requires 0 <= i < |order| => ns[order[i]])
  }

  function NumberKey(sort: Sort, number: string -> real, x: Node): real {
    match sort.key(x)
    case Some(s) => number(s)
    case None => -9999999999.0
  }

  function NumberKeys(sort: Sort, number: string -> real, ns: seq<Node>): (r: seq<real>)
    ensures |r| == |ns| && forall i :: 0 <= i < |r| ==> r[i] == NumberKey(sort, number, ns[i])
  {
    seq(|ns|, i requires 0 <= i < |ns| => NumberKey(sort, number, ns[i]))
  }

  function TextKeys(sort: Sort, ns: seq<Node>): (r: seq<Option<string>>)
    ensures |r| == |ns| && forall i :: 0 <= i < |r| ==> r[i] == sort.key(ns[i])
  {
    seq(|ns|, i requires 0 <= i < |ns| => sort.key(ns[i]))
  }

  /** The order is the stable one of the keys of `sort`, forwards or backwards. */
  ghost predicate StableBy(sort: Sort, number: string -> real, ns: seq<Node>, order: seq<nat>) {
    if sort.numeric then IsStable(Directed(NumberCompare, sort.descending), NumberKeys(sort, number, ns), order)
    else IsStable(Directed(TextCompare, sort.descending), TextKeys(sort, ns), order)
  }

  /** A missing key counts as this number. */
  function Number(key: Option<string>, number: string -> real): real {
    if key.Some? then number(key.value) else -9999999999.0
  }

  /** One node comes before another for the sort: by number, or by text without regard to case. */
  ghost predicate Ascends(sort: Sort, number: string -> real, x: Node, y: Node) {
    if sort.numeric then Number(sort.key(x), number) < Number(sort.key(y), number)
    else TextBefore(sort.key(x), sort.key(y))
  }

  ghost predicate Precedes(sort: Sort, number: string -> real, x: Node, y: Node) {
    if sort.descending then Ascends(sort, number, y, x) else Ascends(sort, number, x, y)
  }

  ghost predicate SameKey(sort: Sort, number: string -> real, x: Node, y: Node) {
    if sort.numeric then Number(sort.key(x), number) == Number(sort.key(y), number)
    else SameText(sort.key(x), sort.key(y))
  }

  /** Of any two nodes of a sorted selection the first precedes, or the keys are equal and it stood first before. */
  lemma SortedMeans(sort: Sort, number: string -> real, ns: seq<Node>, order: seq<nat>, i: nat, j: nat)
    requires StableBy(sort, number, ns, order) && i < j < |order| && IsPerm(order, |ns|)
    ensures Precedes(sort, number, ns[order[i]], ns[order[j]])
      || (SameKey(sort, number, ns[order[i]], ns[order[j]]) && order[i] < order[j])
  {
    var x, y := ns[order[i]], ns[order[j]];
    if sort.numeric {
      assert Before(Directed(NumberCompare, sort.descending), NumberKeys(sort, number, ns), order[i], order[j]);
      NumberCompareIs(NumberKey(sort, number, x), NumberKey(sort, number, y));
      NumberCompareIs(NumberKey(sort, number, y), NumberKey(sort, number, x));
    } else {
      assert Before(Directed(TextCompare, sort.descending), TextKeys(sort, ns), order[i], order[j]);
      TextSign(sort.key(x), sort.key(y));
    }
  }

  /** The sign of a comparison of texts, both ways round. */
  lemma TextSign(a: Option<string>, b: Option<string>)
    ensures TextCompare(a, b) < 0 <==> TextBefore(a, b)
    ensures TextCompare(a, b) > 0 <==> TextBefore(b, a)
    ensures TextCompare(a, b) == 0 <==> SameText(a, b)
  {
    TextCompareIs(a, b);
    TextCompareIs(b, a);
    TextIsOrder();
  }

  /** The tables hold what they held at first, in the order given. */
  ghost predicate Tables<K>(cmp: (K, K) -> int, nodes0: seq<Node?>, keys0: seq<K>, nodes: seq<Node?>, keys: seq<K>,
      order: seq<nat>)
  {
    && |nodes| == |keys| == |nodes0| == |keys0| && IsPerm(order, |keys|) && Kept(cmp, keys0, order)
    && forall i :: 0 <= i < |keys| ==> keys[i] == keys0[order[i]] && nodes[i] == nodes0[order[i]]
  }

  function Swapped<T>(s: seq<T>, i: nat): seq<T>
    requires i + 1 < |s|
  {
    s[i := s[i + 1]][i + 1 := s[i]]
  }

  lemma Exchanged<K(!new)>(cmp: (K, K) -> int, nodes0: seq<Node?>, keys0: seq<K>, nodes: seq<Node?>, keys: seq<K>,
      order: seq<nat>, i: nat)
    requires IsOrder(cmp) && Tables(cmp, nodes0, keys0, nodes, keys, order) && i + 1 < |keys|
      && cmp(keys[i], keys[i + 1]) > 0
    ensures Tables(cmp, nodes0, keys0, Swapped(nodes, i), Swapped(keys, i), Swapped(order, i))
  {
    SwapKeeps(cmp, keys0, order, i);
    var n, k, o := Swapped(nodes, i), Swapped(keys, i), Swapped(order, i);
    assert IsPerm(o, |keys|) && Kept(cmp, keys0, o);
    forall j | 0 <= j < |k| ensures k[j] == keys0[o[j]] && n[j] == nodes0[o[j]] {
      var was := if j == i then i + 1 else if j == i + 1 then i else j;
      assert k[j] == keys[was] && n[j] == nodes[was] && o[j] == order[was];
    }
  }

  ghost predicate SortedTo<K>(cmp: (K, K) -> int, keys: seq<K>, i: nat) {
    forall k :: 0 < k < i && k < |keys| ==> cmp(keys[k - 1], keys[k]) <= 0
  }

  /** The bubble sort, with the comparison of the flags: passes until nothing changes. */
  method Bubble<K(!new)>(nodes: array<Node?>, keys: array<K>, n: nat, cmp: (K, K) -> int)
      returns (ghost order: seq<nat>)
    requires IsOrder(cmp) && n <= nodes.Length && n <= keys.Length && (nodes as object) != (keys as object)
    modifies nodes, keys
    ensures IsStable(cmp, old(keys[..n]), order)
    ensures |order| == n && forall i :: 0 <= i < n ==> order[i] < n && nodes[i] == old(nodes[..n])[order[i]]
  {
    ghost var nodes0, keys0 := nodes[..n], keys[..n];
    order := seq(n, i => i);
    var again := true;
    while again
      invariant Tables(cmp, nodes0, keys0, nodes[..n], keys[..n], order)
      invariant !again ==> SortedTo(cmp, keys[..n], n)
      decreases Inversions(cmp, keys[..n]), again
    {
      again, order := BubblePass(nodes, keys, n, cmp, nodes0, keys0, order);
    }
    SortedIsStable(cmp, keys0, order, keys[..n]);
  }

  method BubblePass<K(!new)>(nodes: array<Node?>, keys: array<K>, n: nat, cmp: (K, K) -> int,
      ghost nodes0: seq<Node?>, ghost keys0: seq<K>, ghost was: seq<nat>)
    returns (again: bool, ghost order: seq<nat>)
    requires IsOrder(cmp) && n <= nodes.Length && n <= keys.Length && (nodes as object) != (keys as object)
    requires Tables(cmp, nodes0, keys0, nodes[..n], keys[..n], was)
    modifies nodes, keys
    ensures Tables(cmp, nodes0, keys0, nodes[..n], keys[..n], order)
    ensures if again then Inversions(cmp, keys[..n]) < old(Inversions(cmp, keys[..n]))
            else keys[..n] == old(keys[..n]) && SortedTo(cmp, keys[..n], n)
  {
    again, order := false, was;
    var i := 1;
    while i < n
      invariant 1 <= i
      invariant Tables(cmp, nodes0, keys0, nodes[..n], keys[..n], order)
      invariant if again then Inversions(cmp, keys[..n]) < old(Inversions(cmp, keys[..n]))
                else keys[..n] == old(keys[..n]) && SortedTo(cmp, keys[..n], i)
    {
      var swapped;
      swapped, order := BubbleStep(nodes, keys, n, cmp, nodes0, keys0, order, i);
      if swapped {
        again := true;
      }
      i := i + 1;
    }
  }

  /** Two neighbours change places if their keys are out of order. */
  method BubbleStep<K(!new)>(nodes: array<Node?>, keys: array<K>, ghost n: nat, cmp: (K, K) -> int,
      ghost nodes0: seq<Node?>, ghost keys0: seq<K>, ghost was: seq<nat>, i: nat)
    returns (swapped: bool, ghost order: seq<nat>)
    requires IsOrder(cmp) && n <= nodes.Length && n <= keys.Length && (nodes as object) != (keys as object)
    requires 0 < i < n && Tables(cmp, nodes0, keys0, nodes[..n], keys[..n], was)
    modifies nodes, keys
    ensures Tables(cmp, nodes0, keys0, nodes[..n], keys[..n], order)
    ensures swapped ==> Inversions(cmp, keys[..n]) + 1 == old(Inversions(cmp, keys[..n]))
    ensures !swapped ==> keys[..n] == old(keys[..n]) && cmp(keys[..n][i - 1], keys[..n][i]) <= 0
  {
    order, swapped := was, false;
    if cmp(keys[i - 1], keys[i]) > 0 {
      Exchanged(cmp, nodes0, keys0, nodes[..n], keys[..n], order, i - 1);
      SwapInversion(cmp, keys[..n], i - 1);
      Exchange(nodes, keys, n, i);
      order := Swapped(order, i - 1);
      swapped := true;
    }
  }

  /** Two neighbours change places in both tables. */
  method Exchange<K>(nodes: array<Node?>, keys: array<K>, ghost n: nat, i: nat)
    requires n <= nodes.Length && n <= keys.Length && (nodes as object) != (keys as object) && 0 < i < n
    modifies nodes, keys
    ensures nodes[..n] == old(Swapped(nodes[..n], i - 1)) && keys[..n] == old(Swapped(keys[..n], i - 1))
  {
    var node := nodes[i];
    nodes[i] := nodes[i - 1];
    nodes[i - 1] := node;
    var key := keys[i];
    keys[i] := keys[i - 1];
    keys[i - 1] := key;
  }

  lemma LongList(head: Node?, ns: seq<Node>)
    requires IsList(head, ns) && |ns| >= 2
    ensures head != null && head.next != null
  {
    assert ns[0].next == ns[1];
  }

  method Length(selection: Node?, ghost ns: seq<Node>) returns (n: nat)
    requires IsList(selection, ns)
    ensures n == |ns|
  {
    n := 0;
    var p := selection;
    while p != null
      invariant n <= |ns| && p == if n < |ns| then ns[n] else null
      decreases |ns| - n
    {
      assert p == ns[n] && p.next == ns[n].next;
      n := n + 1;
      p := p.next;
    }
  }

  class Context {
    var sortSize: nat
    var sortNodes: array<Node?>
    var sortKeys: array<Option<string>>

    constructor ()
      ensures Valid() && fresh(sortNodes) && fresh(sortKeys)
    {
      sortSize := 0;
      sortNodes := new Node?[0];
      sortKeys := new Option<string>[0];
    }

    ghost predicate Valid()
      reads this
    {
      sortNodes.Length == sortSize && sortKeys.Length == sortSize
    }

    /** `xpath_sort_selection`; `number` is `strtod`. */
    method SortSelection(selection: Node?, sort: Sort, number: string -> real, ghost ns: seq<Node>)
      returns (newsel: Node?, ghost order: seq<nat>)
      requires Valid() && IsList(selection, ns)
      modifies this, sortNodes, sortKeys, ns
      ensures Valid() && (fresh(sortNodes) || sortNodes == old(sortNodes))
        && (fresh(sortKeys) || sortKeys == old(sortKeys))
      ensures IsPerm(order, |ns|) && StableBy(sort, number, ns, order)
      ensures IsList(newsel, Arranged(ns, order))
      ensures |ns| >= 2 ==> IsNumbered(Arranged(ns, order))
      ensures |ns| < 2 ==> newsel == selection && forall x :: x in ns ==> x.position == old(x.position)
    {
      if |ns| >= 2 {
        LongList(selection, ns);
      }
      if selection == null || selection.next == null {
        order := seq(|ns|, i => i);
        assert Arranged(ns, order) == ns;
        return selection, order;
      }
      assert ns[0].next != null;
      var n := Length(selection, ns);
      Enlarge(n);
      Fill(selection, sort, n, ns);
      order := SortTables(sort, number, n, ns);
      Relink(n, Arranged(ns, order));
      newsel := sortNodes[0];
    }

    /** Larger tables where the selection does not fit. */
    method Enlarge(n: nat)
      requires Valid()
      modifies this
      ensures Valid() && n <= sortSize
      ensures (fresh(sortNodes) || sortNodes == old(sortNodes)) && (fresh(sortKeys) || sortKeys == old(sortKeys))
    {
      if sortSize < n {
        sortSize := n * 2;
        sortKeys := new Option<string>[sortSize];
        sortNodes := new Node?[sortSize];
      }
    }

    /** The two loops: numbers in a table of their own, or the texts themselves. */
    method SortTables(sort: Sort, number: string -> real, n: nat, ghost ns: seq<Node>) returns (ghost order: seq<nat>)
      requires Valid() && n == |ns| <= sortSize && sortNodes[..n] == ns && forall k :: 0 <= k < n ==>
        sortKeys[k] == sort.key(ns[k])
      modifies sortNodes, sortKeys
      ensures IsPerm(order, n) && StableBy(sort, number, ns, order)
      ensures forall k :: 0 <= k < n ==> sortNodes[k] == ns[order[k]]
    {
      if sort.numeric {
        var nsk := new real[n];
        var i := 0;
        while i < n
          invariant i <= n && fresh(nsk)
          invariant forall k :: 0 <= k < i ==> nsk[k] == NumberKey(sort, number, ns[k])
          invariant sortNodes[..n] == ns && forall k :: 0 <= k < n ==> sortKeys[k] == sort.key(ns[k])
        {
          nsk[i] := match sortKeys[i] case Some(s) => number(s) case None => -9999999999.0;
          i := i + 1;
        }
        NumberIsOrder();
        DirectedIsOrder(NumberCompare, sort.descending);
        assert nsk[..n] == NumberKeys(sort, number, ns);
        order := Bubble(sortNodes, nsk, n, Directed(NumberCompare, sort.descending));
      } else {
        TextIsOrder();
        DirectedIsOrder(TextCompare, sort.descending);
        assert sortKeys[..n] == TextKeys(sort, ns);
        order := Bubble(sortNodes, sortKeys, n, Directed(TextCompare, sort.descending));
      }
    }

    /** The tables before the sort. */
    method Fill(selection: Node, sort: Sort, n: nat, ghost ns: seq<Node>)
      requires Valid() && IsList(selection, ns) && n == |ns| && n <= sortSize
      modifies sortNodes, sortKeys
      ensures sortNodes[..n] == ns && forall k :: 0 <= k < n ==> sortKeys[k] == sort.key(ns[k])
    {
      var p: Node? := selection;
      var i := 0;
      while i < n
        invariant i <= n && p == if i < n then ns[i] else null
        invariant forall k :: 0 <= k < i ==> sortNodes[k] == ns[k] && sortKeys[k] == sort.key(ns[k])
      {
        assert p == ns[i] && p.next == ns[i].next;
        sortNodes[i] := p;
        sortKeys[i] := sort.key(p);
        p := p.next;
        i := i + 1;
      }
    }

    /** The list is linked again in the order of the table. */
    method Relink(n: nat, ghost sorted: seq<Node>)
      requires Valid() && 0 < n <= sortSize && |sorted| == n
      requires forall k :: 0 <= k < n ==> sortNodes[k] == sorted[k]
      requires forall i, j :: 0 <= i < j < n ==> sorted[i] != sorted[j]
      modifies sorted
      ensures IsList(sortNodes[0], sorted) && IsNumbered(sorted)
    {
      LinkFront(n, sorted);
      sortNodes[n - 1].next := null;
      sortNodes[n - 1].position := n;
    }

    method LinkFront(n: nat, ghost sorted: seq<Node>)
      requires Valid() && 0 < n <= sortSize && |sorted| == n
      requires forall k :: 0 <= k < n ==> sortNodes[k] == sorted[k]
      requires forall i, j :: 0 <= i < j < n ==> sorted[i] != sorted[j]
      modifies sorted
      ensures forall k :: 0 <= k < n ==>
        (k > 0 ==> sorted[k].prev == sorted[k - 1]) && (k == 0 ==> sorted[k].prev == null)
      ensures forall k :: 0 <= k < n - 1 ==> sorted[k].position == k + 1 && sorted[k].next == sorted[k + 1]
    {
      sortNodes[0].prev := null;
      var i := 1;
      while i < n
        invariant 1 <= i <= n
        invariant forall k :: 0 <= k < i ==>
          (k > 0 ==> sorted[k].prev == sorted[k - 1]) && (k == 0 ==> sorted[k].prev == null)
        invariant forall k :: 0 <= k < i - 1 ==> sorted[k].position == k + 1 && sorted[k].next == sorted[k + 1]
        modifies sorted
      {
        sortNodes[i - 1].position := i;
        sortNodes[i].prev := sortNodes[i - 1];
        sortNodes[i - 1].next := sortNodes[i];
        i := i + 1;
      }
    }
  }

  // ---------- one pass for each xsl:sort ----------

  /** How a sort compares two nodes of the selection, by their first positions. */
  ghost function PassOf(sort: Sort, number: string -> real, ns: seq<Node>): Pass {
    (i: nat, j: nat) =>
      if i >= |ns| || j >= |ns| then 0
      else if sort.numeric then Directed(NumberCompare, sort.descending)(NumberKey(sort, number, ns[i]),
          NumberKey(sort, number, ns[j]))
      else Directed(TextCompare, sort.descending)(sort.key(ns[i]), sort.key(ns[j]))
  }

  lemma PassIsCompare(sort: Sort, number: string -> real, ns: seq<Node>, i: nat, j: nat)
    requires i < |ns| && j < |ns|
    ensures var c := if sort.numeric then NumberCompare(NumberKey(sort, number, ns[i]), NumberKey(sort, number, ns[j]))
                     else TextCompare(sort.key(ns[i]), sort.key(ns[j]));
            PassOf(sort, number, ns)(i, j) == if sort.descending then -c else c
  {
    if sort.numeric {
      DirectedIs(NumberCompare, sort.descending, NumberKey(sort, number, ns[i]), NumberKey(sort, number, ns[j]));
    } else {
      DirectedIs(TextCompare, sort.descending, sort.key(ns[i]), sort.key(ns[j]));
    }
  }

  /** The sign of a pass is the order of the keys. */
  lemma PassMeans(sort: Sort, number: string -> real, ns: seq<Node>, i: nat, j: nat)
    requires i < |ns| && j < |ns|
    ensures PassOf(sort, number, ns)(i, j) < 0 <==> Precedes(sort, number, ns[i], ns[j])
    ensures PassOf(sort, number, ns)(i, j) == 0 <==> SameKey(sort, number, ns[i], ns[j])
  {
    PassIsCompare(sort, number, ns, i, j);
    NumberCompareIs(NumberKey(sort, number, ns[i]), NumberKey(sort, number, ns[j]));
    NumberCompareIs(NumberKey(sort, number, ns[j]), NumberKey(sort, number, ns[i]));
    TextSign(sort.key(ns[i]), sort.key(ns[j]));
  }

  /** By the last sort first, then by the one before it; what stood first before decides in the end. */
  ghost predicate Ordered(sorts: seq<Sort>, number: string -> real, ns: seq<Node>, p: nat, q: nat)
    requires p < |ns| && q < |ns|
  {
    if |sorts| == 0 then p < q
    else
      var last := sorts[|sorts| - 1];
      Precedes(last, number, ns[p], ns[q])
        || (SameKey(last, number, ns[p], ns[q]) && Ordered(sorts[..|sorts| - 1], number, ns, p, q))
  }

  lemma {:induction false} LexMeans(sorts: seq<Sort>, number: string -> real, ns: seq<Node>, p: nat, q: nat)
    requires p < |ns| && q < |ns|
    ensures LexBefore(PassesOf(sorts, number, ns), p, q) <==> Ordered(sorts, number, ns, p, q)
    decreases |sorts|
  {
    if |sorts| > 0 {
      var n := |sorts| - 1;
      LexMeans(sorts[..n], number, ns, p, q);
      PassMeans(sorts[n], number, ns, p, q);
      var passes := PassesOf(sorts, number, ns);
      assert passes[n] == PassOf(sorts[n], number, ns) && passes[..n] == PassesOf(sorts[..n], number, ns);
    }
  }

  ghost function PassesOf(sorts: seq<Sort>, number: string -> real, ns: seq<Node>): (r: seq<Pass>)
    ensures |r| == |sorts|
  {
    if |sorts| == 0 then [] else PassesOf(sorts[..|sorts| - 1], number, ns) + [PassOf(sorts[|sorts| - 1], number, ns)]
  }

  /** The sort of the nodes as they stand now adds its pass to those before. */
  lemma PassAdded(sort: Sort, number: string -> real, ns: seq<Node>, passes: seq<Pass>, order: seq<nat>, next: seq<nat>)
    requires |order| == |ns| && LexSorted(passes, order)
    requires StableBy(sort, number, Arranged(ns, order), next)
    ensures LexSorted(passes + [PassOf(sort, number, ns)], Compose(order, next))
  {
    var now := Arranged(ns, order);
    if sort.numeric {
      OnePass(passes, PassOf(sort, number, ns), Directed(NumberCompare, sort.descending),
          NumberKeys(sort, number, now), order, next);
    } else {
      OnePass(passes, PassOf(sort, number, ns), Directed(TextCompare, sort.descending), TextKeys(sort, now), order,
          next);
    }
  }

  /** The sorting of a selection in `instruction_for_each`: one pass for each sort, in document order. */
  method SortAll(ctx: Context, selection: Node?, sorts: seq<Sort>, number: string -> real, ghost ns: seq<Node>)
    returns (newsel: Node?, ghost order: seq<nat>)
    requires ctx.Valid() && IsList(selection, ns)
    modifies ctx, ctx.sortNodes, ctx.sortKeys, ns
    ensures LexSorted(PassesOf(sorts, number, ns), order) && |order| == |ns|
    ensures forall i, j :: 0 <= i < j < |ns| ==> Ordered(sorts, number, ns, order[i], order[j])
    ensures IsList(newsel, Arranged(ns, order))
  {
    newsel := selection;
    order := seq(|ns|, i => i);
    assert Arranged(ns, order) == ns;
    var k := 0;
    while k < |sorts|
      invariant k <= |sorts| && ctx.Valid()
      invariant (fresh(ctx.sortNodes) || ctx.sortNodes == old(ctx.sortNodes))
        && (fresh(ctx.sortKeys) || ctx.sortKeys == old(ctx.sortKeys))
      invariant SortedBy(PassesOf(sorts[..k], number, ns), ns, order, newsel)
    {
      newsel, order := SortOnce(ctx, newsel, sorts[k], number, ns, PassesOf(sorts[..k], number, ns), order);
      OnePassMore(sorts, k, number, ns);
      k := k + 1;
    }
    assert sorts[..k] == sorts;
    AllOrdered(sorts, number, ns, order);
  }

  lemma AllOrdered(sorts: seq<Sort>, number: string -> real, ns: seq<Node>, order: seq<nat>)
    requires LexSorted(PassesOf(sorts, number, ns), order) && |order| == |ns|
    ensures forall i, j :: 0 <= i < j < |ns| ==> Ordered(sorts, number, ns, order[i], order[j])
  {
    forall i, j | 0 <= i < j < |ns| ensures Ordered(sorts, number, ns, order[i], order[j]) {
      LexMeans(sorts, number, ns, order[i], order[j]);
    }
  }

  lemma OnePassMore(sorts: seq<Sort>, k: nat, number: string -> real, ns: seq<Node>)
    requires k < |sorts|
    ensures PassesOf(sorts[..k + 1], number, ns) == PassesOf(sorts[..k], number, ns) + [PassOf(sorts[k], number, ns)]
  {
    assert sorts[..k + 1][..k] == sorts[..k];
  }

  /** The list from `newsel` on is the selection in an order that respects the passes. */
  ghost predicate SortedBy(passes: seq<Pass>, ns: seq<Node>, order: seq<nat>, newsel: Node?)
    reads ns
  {
    |order| == |ns| && LexSorted(passes, order) && IsList(newsel, Arranged(ns, order))
  }

  method SortOnce(ctx: Context, selection: Node?, sort: Sort, number: string -> real, ghost ns: seq<Node>,
      ghost passes: seq<Pass>, ghost was: seq<nat>)
    returns (newsel: Node?, ghost order: seq<nat>)
    requires ctx.Valid() && SortedBy(passes, ns, was, selection)
    modifies ctx, ctx.sortNodes, ctx.sortKeys, ns
    ensures ctx.Valid() && (fresh(ctx.sortNodes) || ctx.sortNodes == old(ctx.sortNodes))
      && (fresh(ctx.sortKeys) || ctx.sortKeys == old(ctx.sortKeys))
    ensures SortedBy(passes + [PassOf(sort, number, ns)], ns, order, newsel)
  {
    ghost var now := Arranged(ns, was);
    ghost var next;
    newsel, next := ctx.SortSelection(selection, sort, number, now);
    PassAdded(sort, number, ns, passes, was, next);
    order := Compose(was, next);
    assert Arranged(now, next) == Arranged(ns, order);
  }
}
