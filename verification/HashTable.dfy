/** The hash table of the logger: an array of doubly linked chains that stands for a map. */
module HashTable {
  import opened Wrappers
  import opened HashChains

  class Entry<K, V> {
    var hashKey: nat
    var key: K
    var value: V
    var prev: Entry?<K, V>
    var next: Entry?<K, V>

    constructor (h: nat, k: K, v: V)
      ensures hashKey == h && key == k && value == v && prev == null && next == null
    {
      hashKey, key, value, prev, next := h, k, v, null, null;
    }
  }

  function Pointer<K, V>(p: Entry?<K, V>): Option<Entry<K, V>> {
    if p == null then None else Some(p)
  }

  ghost function Pointers<K, V>(tab: seq<Entry?<K, V>>): (r: seq<Option<Entry<K, V>>>)
    ensures |r| == |tab| && forall b :: 0 <= b < |tab| ==> r[b] == Pointer(tab[b])
  {
    seq(|tab|, b requires 0 <= b < |tab| => Pointer(tab[b]))
  }

  /** The fields of the members are their links. */
  ghost predicate Mirrors<K, V>(links: map<Entry<K, V>, Link<Entry<K, V>>>)
    reads links.Keys
  {
    forall e :: e in links ==>
        e.hashKey == links[e].at && Pointer(e.next) == links[e].next && Pointer(e.prev) == links[e].prev
  }

  datatype Item<K, V> = Item(key: K, value: V)

  /** The keys and values of the members. */
  ghost predicate Stored<K, V>(items: map<Entry<K, V>, Item<K, V>>)
    reads items.Keys
  {
    forall e :: e in items ==> e.key == items[e].key && e.value == items[e].value
  }

  ghost predicate HasKey<T, K, V>(items: map<T, Item<K, V>>, k: K) {
    exists e :: e in items && items[e].key == k
  }

  ghost predicate SameKey<T, K, V>(items: map<T, Item<K, V>>, e: T, f: T) {
    e in items && f in items && items[e].key == items[f].key
  }

  /** The members are the entries of the map, one for each key, and each knows its hash. */
  ghost predicate Keyed<T, K, V>(hash: K -> nat, links: map<T, Link<T>>, items: map<T, Item<K, V>>, model: map<K, V>) {
    && items.Keys == links.Keys
    && (forall e {:trigger links[e].at} :: e in links ==> links[e].at == hash(items[e].key))
    && (forall e {:trigger items[e]} :: e in items ==> items[e].key in model && model[items[e].key] == items[e].value)
    && (forall e, f {:trigger SameKey(items, e, f)} :: e in items && f in items && SameKey(items, e, f) ==> e == f)
    && (forall k {:trigger HasKey(items, k)} :: k in model ==> HasKey(items, k))
  }

  /** An entry goes to the front of its chain. */
  method PushFront<K, V>(tab: array<Entry?<K, V>>, p: Entry<K, V>, ghost links: map<Entry<K, V>, Link<Entry<K, V>>>)
    returns (ghost links2: map<Entry<K, V>, Link<Entry<K, V>>>)
    requires tab.Length > 0 && Linked(Pointers(tab[..]), links) && Mirrors(links) && p !in links
    modifies tab, p`next, p`prev, links.Keys`prev
    ensures Linked(Pointers(tab[..]), links2) && Mirrors(links2) && links2.Keys == links.Keys + {p}
    ensures links2[p].at == p.hashKey && forall e :: e in links ==> links2[e].at == links[e].at
  {
    ghost var was := Pointers(tab[..]);
    PushForward(was, links, p, p.hashKey);
    PushHeaded(was, links, p, p.hashKey);
    PushBackward(was, links, p, p.hashKey);
    p.next := null;
    p.prev := null;
    var j := p.hashKey % tab.Length;
    if tab[j] != null {
      tab[j].prev := p;
      p.next := tab[j];
    }
    tab[j] := p;
    links2 := Pushed(was, links, p, p.hashKey);
    assert Pointers(tab[..]) == was[j := Some(p)];
  }

  /** A member leaves its chain. */
  method Unlink<K, V>(tab: array<Entry?<K, V>>, p: Entry<K, V>, ghost links: map<Entry<K, V>, Link<Entry<K, V>>>)
    returns (ghost links2: map<Entry<K, V>, Link<Entry<K, V>>>)
    requires tab.Length > 0 && Linked(Pointers(tab[..]), links) && Mirrors(links) && p in links
    modifies tab, links.Keys`next, links.Keys`prev
    ensures Linked(Pointers(tab[..]), links2) && Mirrors(links2) && links2.Keys == links.Keys - {p}
    ensures forall e :: e in links2 ==> links2[e].at == links[e].at
  {
    ghost var was := Pointers(tab[..]);
    Neighbours(was, links, p);
    WithoutForward(was, links, p);
    WithoutHeaded(was, links, p);
    WithoutBackward(was, links, p);
    if p.next != null {
      p.next.prev := p.prev;
    }
    if p.prev != null {
      p.prev.next := p.next;
    } else {
      var i := p.hashKey % tab.Length;
      tab[i] := p.next;
    }
    links2 := Without(links, p);
    assert Pointers(tab[..]) == TabWithout(was, links, p);
  }

  lemma KeyedChange<T, K, V>(hash: K -> nat, links: map<T, Link<T>>, items: map<T, Item<K, V>>, model: map<K, V>,
      p: T, k: K, v: V)
    requires Keyed(hash, links, items, model) && p in items && items[p].key == k
    ensures Keyed(hash, links, items[p := Item(k, v)], model[k := v])
  {
    var items2, model2 := items[p := Item(k, v)], model[k := v];
    assert items2.Keys == items.Keys;
    forall e, f | e in items2 && f in items2 && SameKey(items2, e, f) ensures e == f {
      assert SameKey(items, e, f);
    }
    forall e | e in items2 ensures items2[e].key in model2 && model2[items2[e].key] == items2[e].value {
      assert SameKey(items, e, p) ==> e == p;
      assert items[e].key in model;
    }
    forall h | h in model2 ensures HasKey(items2, h) {
      if h != k {
        assert HasKey(items, h);
        var e :| e in items && items[e].key == h;
        assert items2[e].key == h;
      } else {
        assert items2[p].key == h;
      }
    }
  }

  lemma KeyedAdd<T, K, V>(hash: K -> nat, links: map<T, Link<T>>, links2: map<T, Link<T>>,
      items: map<T, Item<K, V>>, model: map<K, V>, p: T, k: K, v: V)
    requires Keyed(hash, links, items, model) && p !in items && k !in model
    requires links2.Keys == links.Keys + {p} && links2[p].at == hash(k) && forall e :: e in links ==>
      links2[e].at == links[e].at
    ensures Keyed(hash, links2, items[p := Item(k, v)], model[k := v])
  {
    var items2, model2 := items[p := Item(k, v)], model[k := v];
    assert forall e :: e in items ==> items[e].key in model;
    forall e, f | e in items2 && f in items2 && SameKey(items2, e, f) ensures e == f {
      if e != p && f != p {
        assert SameKey(items, e, f);
      }
    }
    forall h | h in model2 ensures HasKey(items2, h) {
      if h != k {
        assert HasKey(items, h);
        var e :| e in items && items[e].key == h;
        assert items2[e].key == h;
      } else {
        assert items2[p].key == h;
      }
    }
  }

  lemma KeyedRemove<T, K, V>(hash: K -> nat, links: map<T, Link<T>>, links2: map<T, Link<T>>,
      items: map<T, Item<K, V>>, model: map<K, V>, p: T)
    requires Keyed(hash, links, items, model) && p in items
    requires links2.Keys == links.Keys - {p} && forall e :: e in links2 ==> links2[e].at == links[e].at
    ensures items[p].key in model && Keyed(hash, links2, items - {p}, model - {items[p].key})
  {
    var k := items[p].key;
    var items2, model2 := items - {p}, model - {k};
    forall e, f | e in items2 && f in items2 && SameKey(items2, e, f) ensures e == f {
      assert SameKey(items, e, f);
    }
    forall e | e in items2 ensures items2[e].key in model2 && model2[items2[e].key] == items2[e].value {
      assert SameKey(items, e, p) ==> e == p;
      assert items[e].key in model;
    }
    forall h | h in model2 ensures HasKey(items2, h) {
      assert HasKey(items, h);
      var e :| e in items && items[e].key == h;
      assert items2[e].key == h;
    }
  }

  lemma OneMore<K, V>(model: map<K, V>, k: K, v: V)
    ensures |model[k := v]| == if k in model then |model| else |model| + 1
  {
    assert model[k := v].Keys == model.Keys + {k};
  }

  lemma OneLess<K, V>(model: map<K, V>, k: K)
    requires k in model
    ensures |model - {k}| == |model| - 1
  {
    assert (model - {k}).Keys == model.Keys - {k};
  }

  /** The part of what a table is that depends on values only: chains, keys and the number of members. */
  ghost predicate Sound<T, K, V>(heads: seq<Option<T>>, hash: K -> nat, links: map<T, Link<T>>,
      items: map<T, Item<K, V>>, model: map<K, V>, n: nat)
  {
    |heads| > 0 && Linked(heads, links) && Keyed(hash, links, items, model) && n == |links.Keys| == |model|
  }

  /** What holds after an entry is gone. */
  lemma SoundWithout<T, K, V>(heads: seq<Option<T>>, hash: K -> nat, links: map<T, Link<T>>, links2: map<T, Link<T>>,
      items: map<T, Item<K, V>>, model: map<K, V>, p: T, n: nat)
    requires p in items && Keyed(hash, links, items, model) && n == |links.Keys| == |model|
    requires |heads| > 0 && Linked(heads, links2) && links2.Keys == links.Keys - {p} && forall e :: e in links2 ==>
      links2[e].at == links[e].at
    ensures n > 0 && items[p].key in model && Sound(heads, hash, links2, items - {p}, model - {items[p].key}, n - 1)
  {
    KeyedRemove(hash, links, links2, items, model, p);
    OneLess(model, items[p].key);
    assert links2.Keys == links.Keys - {p};
  }

  /** What holds after an entry is added. */
  lemma SoundWith<T, K, V>(heads: seq<Option<T>>, hash: K -> nat, links: map<T, Link<T>>, links2: map<T, Link<T>>,
      items: map<T, Item<K, V>>, model: map<K, V>, p: T, k: K, v: V, n: nat)
    requires p !in links && k !in model && Keyed(hash, links, items, model) && n == |links.Keys| == |model|
    requires |heads| > 0 && Linked(heads, links2) && links2.Keys == links.Keys + {p} && links2[p].at == hash(k)
    requires forall e :: e in links ==> links2[e].at == links[e].at
    ensures Sound(heads, hash, links2, items[p := Item(k, v)], model[k := v], n + 1)
  {
    KeyedAdd(hash, links, links2, items, model, p, k, v);
    OneMore(model, k, v);
    assert links2.Keys == links.Keys + {p};
  }

  /** Pushing leaves keys and values alone. */
  method PushStored<K, V>(tab: array<Entry?<K, V>>, p: Entry<K, V>,
      ghost links: map<Entry<K, V>, Link<Entry<K, V>>>, ghost items: map<Entry<K, V>, Item<K, V>>)
    returns (ghost links2: map<Entry<K, V>, Link<Entry<K, V>>>)
    requires tab.Length > 0 && Linked(Pointers(tab[..]), links) && Mirrors(links) && p !in links && Stored(items)
    modifies tab, p`next, p`prev, links.Keys`prev
    ensures Linked(Pointers(tab[..]), links2) && Mirrors(links2) && links2.Keys == links.Keys + {p}
    ensures links2[p].at == p.hashKey && forall e :: e in links ==> links2[e].at == links[e].at
    ensures Stored(items[p := Item(p.key, p.value)])
  {
    links2 := PushFront(tab, p, links);
  }

  /** The new entry of a new key. */
  method Insert<K, V>(tab: array<Entry?<K, V>>, p: Entry<K, V>, ghost hash: K -> nat,
      ghost links: map<Entry<K, V>, Link<Entry<K, V>>>, ghost items: map<Entry<K, V>, Item<K, V>>,
          ghost model: map<K, V>, ghost n: nat)
    returns (ghost links2: map<Entry<K, V>, Link<Entry<K, V>>>)
    requires tab.Length > 0 && Sound(Pointers(tab[..]), hash, links, items, model, n) && Mirrors(links) && Stored(items)
    requires p.key !in model && p !in links && p.hashKey == hash(p.key)
    modifies tab, links.Keys`prev, p`prev, p`next
    ensures Mirrors(links2) && Stored(items[p := Item(p.key, p.value)])
    ensures Sound(Pointers(tab[..]), hash, links2, items[p := Item(p.key, p.value)], model[p.key := p.value], n + 1)
  {
    links2 := PushStored(tab, p, links, items);
    SoundWith(Pointers(tab[..]), hash, links, links2, items, model, p, p.key, p.value, n);
  }

  /** The entry of a key goes. */
  method Delete<K, V>(tab: array<Entry?<K, V>>, p: Entry<K, V>, ghost hash: K -> nat,
      ghost links: map<Entry<K, V>, Link<Entry<K, V>>>, ghost items: map<Entry<K, V>, Item<K, V>>,
          ghost model: map<K, V>, ghost n: nat)
    returns (ghost links2: map<Entry<K, V>, Link<Entry<K, V>>>)
    requires tab.Length > 0 && Sound(Pointers(tab[..]), hash, links, items, model, n) && Mirrors(links) && Stored(items)
    requires p in links
    modifies tab, links.Keys`prev, links.Keys`next
    ensures Mirrors(links2) && Stored(items - {p})
    ensures n > 0 && Sound(Pointers(tab[..]), hash, links2, items - {p}, model - {p.key}, n - 1)
  {
    assert items[p].key == p.key;
    links2 := Unlink(tab, p, links);
    SoundWithout(Pointers(tab[..]), hash, links, links2, items, model, p, n);
  }

  // ---------- the rehash ----------

  /** Members that wait to be moved: only their links forward still matter. */
  ghost predicate Waits<K, V>(rest: map<Entry<K, V>, Link<Entry<K, V>>>)
    reads rest.Keys
  {
    forall e :: e in rest ==> e.hashKey == rest[e].at && Pointer(e.next) == rest[e].next
  }

  /** What has been moved and what waits make up the members, with their hashes. */
  ghost predicate Parts<T>(first: map<T, Link<T>>, moved: map<T, Link<T>>, rest: map<T, Link<T>>) {
    && moved.Keys + rest.Keys == first.Keys && moved.Keys !! rest.Keys
    && (forall e :: e in moved ==> moved[e].at == first[e].at) && (forall e :: e in rest ==> rest[e].at == first[e].at)
  }

  ghost predicate Ordered<T>(heads: seq<Option<T>>, rest: map<T, Link<T>>) {
    |heads| > 0 && Forward(|heads|, rest) && Headed(heads, rest)
  }

  /** In the middle of the rehash: `moved` hangs in the new table, `rest` waits below `heads`. */
  ghost predicate Moving<K, V>(tab2: array<Entry?<K, V>>, first: map<Entry<K, V>, Link<Entry<K, V>>>,
      moved: map<Entry<K, V>, Link<Entry<K, V>>>, rest: map<Entry<K, V>, Link<Entry<K, V>>>,
          heads: seq<Option<Entry<K, V>>>)
    reads tab2, moved.Keys, rest.Keys
  {
    && tab2.Length > 0 && Linked(Pointers(tab2[..]), moved) && Mirrors(moved)
    && Ordered(heads, rest) && Waits(rest) && Parts(first, moved, rest)
  }

  /** The head of a waiting chain goes to the front of its new chain. */
  method MoveOne<K, V>(ghost i: nat, p: Entry<K, V>, tab2: array<Entry?<K, V>>,
      ghost first: map<Entry<K, V>, Link<Entry<K, V>>>,
      ghost was: map<Entry<K, V>, Link<Entry<K, V>>>, ghost waiting: map<Entry<K, V>, Link<Entry<K, V>>>,
      ghost queued: seq<Option<Entry<K, V>>>)
    returns (q: Entry?<K, V>, ghost moved: map<Entry<K, V>, Link<Entry<K, V>>>,
      ghost rest: map<Entry<K, V>, Link<Entry<K, V>>>, ghost heads: seq<Option<Entry<K, V>>>)
    requires Moving(tab2, first, was, waiting, queued) && i < |queued| && queued[i] == Some(p)
    modifies tab2, first.Keys`next, first.Keys`prev
    ensures Moving(tab2, first, moved, rest, heads) && rest.Keys < waiting.Keys && heads == queued[i := Pointer(q)]
  {
    q := p.next;
    Popped(queued, waiting, i);
    heads := queued[i := Pointer(q)];
    rest := waiting - {p};
    assert was.Keys <= first.Keys && p in first.Keys;
    moved := PushFront(tab2, p, was);
  }

  lemma Overwritten<T>(s: seq<T>, i: nat, x: T, y: T)
    requires i < |s|
    ensures s[i := x][i := y] == s[i := y]
  {
  }

  /** The inner loop of the rehash. */
  method MoveChain<K, V>(ghost i: nat, head: Entry?<K, V>, tab2: array<Entry?<K, V>>,
      ghost first: map<Entry<K, V>, Link<Entry<K, V>>>,
      ghost was: map<Entry<K, V>, Link<Entry<K, V>>>, ghost waiting: map<Entry<K, V>, Link<Entry<K, V>>>,
      ghost queued: seq<Option<Entry<K, V>>>)
    returns (ghost moved: map<Entry<K, V>, Link<Entry<K, V>>>,
      ghost rest: map<Entry<K, V>, Link<Entry<K, V>>>, ghost heads: seq<Option<Entry<K, V>>>)
    requires Moving(tab2, first, was, waiting, queued) && i < |queued| && queued[i] == Pointer(head)
    modifies tab2, first.Keys`next, first.Keys`prev
    ensures Moving(tab2, first, moved, rest, heads) && heads == queued[i := None]
  {
    moved, rest, heads := was, waiting, queued;
    var p := head;
    while p != null
      invariant Moving(tab2, first, moved, rest, heads) && |heads| == |queued| && heads == queued[i := Pointer(p)]
      decreases rest.Keys
    {
      ghost var x := Pointer(p);
      p, moved, rest, heads := MoveOne(i, p, tab2, first, moved, rest, heads);
      Overwritten(queued, i, x, Pointer(p));
    }
  }

  /** Both loops: all members of one table go to an empty one. */
  method MoveAll<K, V>(tab: array<Entry?<K, V>>, tab2: array<Entry?<K, V>>,
      ghost first: map<Entry<K, V>, Link<Entry<K, V>>>)
    returns (ghost moved: map<Entry<K, V>, Link<Entry<K, V>>>)
    requires tab.Length > 0 && tab2.Length > 0 && tab != tab2 && (forall b :: 0 <= b < tab2.Length ==> tab2[b] == null)
    requires Linked(Pointers(tab[..]), first) && Mirrors(first)
    modifies tab2, first.Keys`next, first.Keys`prev
    ensures Linked(Pointers(tab2[..]), moved) && Mirrors(moved)
    ensures moved.Keys == first.Keys && forall e :: e in moved ==> moved[e].at == first[e].at
  {
    moved := map[];
    ghost var rest, heads := first, Pointers(tab[..]);
    ghost var queued := heads;
    var i := 0;
    while i < tab.Length
      invariant i <= tab.Length == |heads| && Moving(tab2, first, moved, rest, heads)
      invariant forall b :: 0 <= b < |heads| ==> heads[b] == if b < i then None else queued[b]
    {
      moved, rest, heads := MoveChain(i, tab[i], tab2, first, moved, rest, heads);
      i := i + 1;
    }
    if rest.Keys != {} {
      ghost var e :| e in rest.Keys;
      MemberHasHead(heads, rest, e);
    }
  }

  /** A list of all elements of a set, each once. */
  ghost predicate Lists<T>(visited: seq<T>, seen: set<T>) {
    && |seen| == |visited| && (forall f :: f in visited ==> f in seen) && (forall f :: f in seen ==> f in visited)
    && forall i, j :: 0 <= i < j < |visited| ==> visited[i] != visited[j]
  }

  lemma ListsOneMore<T>(visited: seq<T>, seen: set<T>, f: T)
    requires Lists(visited, seen) && f !in seen
    ensures Lists(visited + [f], seen + {f})
  {
  }

  class Table<K(==, !new), V> {
    var nelem: nat
    var tab: array<Entry?<K, V>>
    const hash: K -> nat
    /** The table and the links of its entries as values. */
    ghost var heads: seq<Option<Entry<K, V>>>
    ghost var links: map<Entry<K, V>, Link<Entry<K, V>>>
    ghost var items: map<Entry<K, V>, Item<K, V>>
    /** The map the table stands for. */
    ghost var model: map<K, V>

    ghost predicate Valid()
      reads this, tab, links.Keys, items.Keys
    {
      && |heads| == tab.Length > 0 && heads == Pointers(tab[..]) && Linked(heads, links)
      && Mirrors(links) && Stored(items) && Keyed(hash, links, items, model)
      && nelem == |links.Keys| == |model|
    }

    /** `zc_hashtable_new` */
    constructor (size: nat, h: K -> nat)
      requires size > 0
      ensures Valid() && model == map[] && links == map[] && items == map[] && hash == h && fresh(tab)
    {
      nelem := 0;
      tab := new Entry?<K, V>[size](i => null);
      hash := h;
      heads := seq(size, i => None);
      links := map[];
      items := map[];
      model := map[];
    }

    /** `zc_hashtable_get_entry`, and the search of the other operations. */
    method Find(k: K) returns (p: Entry?<K, V>)
      requires Valid()
      ensures p == null <==> k !in model
      ensures p != null ==> p in links && p.key == k && model[k] == p.value
    {
      var i := hash(k) % tab.Length;
      p := tab[i];
      SearchStart(i, k);
      while p != null
        invariant Searched(i, k, p)
        decreases if p == null then 0 else links[p].pos + 1
      {
        if p.key == k {
          Present(p);
          return;
        }
        SearchStep(i, k, p);
        p := p.next;
      }
      Absent(i, k);
    }

    /** The key is not among the members of the chain in front of p. */
    ghost predicate Searched(i: nat, k: K, p: Entry?<K, V>)
      reads this, tab, links.Keys
    {
      && tab.Length > 0 && (p != null ==> p in links && links[p].at % tab.Length == i)
      && forall e :: e in links && links[e].at % tab.Length == i && (p == null || links[e].pos > links[p].pos) ==>
          e.key != k
    }

    lemma SearchStart(i: nat, k: K)
      requires Valid() && i < tab.Length
      ensures Searched(i, k, tab[i])
    {
      assert tab[i] != null ==> heads[i] == Some(tab[i]);
      forall e | e in links && links[e].at % tab.Length == i ensures tab[i] != null
          && links[e].pos <= links[tab[i]].pos {
        MemberHasHead(heads, links, e);
      }
    }

    lemma SearchStep(i: nat, k: K, p: Entry<K, V>)
      requires Valid() && Searched(i, k, p) && p.key != k
      ensures Searched(i, k, p.next) && (p.next != null ==> links[p.next].pos < links[p].pos)
    {
      assert NextOf(links, p) == Pointer(p.next);
      assert p.next != null ==> Below(tab.Length, links, p.next, p);
      forall e | e in links && links[e].at % tab.Length == i
          && (p.next == null || links[e].pos > links[p.next].pos) ensures e.key != k {
        assert Below(tab.Length, links, e, p) ==> Reaches(links, e, p);
        assert Level(tab.Length, links, e, p) ==> e == p;
      }
    }

    lemma Present(e: Entry<K, V>)
      requires Valid() && e in links
      ensures e.key in model && model[e.key] == e.value
    {
      assert items[e].key == e.key;
    }

    lemma Somewhere(k: K)
      requires Valid() && k in model
      ensures exists e :: e in links && links[e].at == hash(k) && e.key == k
    {
      assert HasKey(items, k);
    }

    lemma Absent(i: nat, k: K)
      requires Valid() && i == hash(k) % tab.Length && Searched(i, k, null)
      ensures k !in model
    {
      if k in model {
        Somewhere(k);
      }
    }

    /** `zc_hashtable_get` */
    method Get(k: K) returns (r: Option<V>)
      requires Valid()
      ensures r == if k in model then Some(model[k]) else None
    {
      var p := Find(k);
      r := if p == null then None else Some(p.value);
    }

    /** `zc_hashtable_rehash`: twice as many chains for the same map. */
    method Rehash()
      requires Valid()
      modifies this`tab, this`heads, this`links, links.Keys`next, links.Keys`prev
      ensures Valid() && tab.Length == 2 * old(tab.Length) && fresh(tab) && links.Keys == old(links.Keys)
    {
      var tab2 := new Entry?<K, V>[2 * tab.Length](i => null);
      ghost var moved := MoveAll(tab, tab2, links);
      Rekeyed(links, moved);
      Adopt(tab2, moved);
    }

    method Adopt(tab2: array<Entry?<K, V>>, ghost moved: map<Entry<K, V>, Link<Entry<K, V>>>)
      requires tab2.Length > 0 && Linked(Pointers(tab2[..]), moved) && Mirrors(moved) && Stored(items)
        && Keyed(hash, moved, items, model)
      requires nelem == |moved.Keys| == |model|
      modifies this`tab, this`heads, this`links
      ensures Valid() && tab == tab2 && links == moved
    {
      heads := Pointers(tab2[..]);
      tab, links := tab2, moved;
      assert Pointers(tab[..]) == heads;
    }

    lemma Rekeyed(was: map<Entry<K, V>, Link<Entry<K, V>>>, now: map<Entry<K, V>, Link<Entry<K, V>>>)
      requires Keyed(hash, was, items, model) && now.Keys == was.Keys && forall e :: e in was ==> now[e].at == was[e].at
      ensures Keyed(hash, now, items, model)
    {
      assert forall e :: e in now ==> now[e].at == was[e].at;
    }

    /** The table now stands for another map. */
    method Represent(n: nat, ghost links2: map<Entry<K, V>, Link<Entry<K, V>>>,
        ghost items2: map<Entry<K, V>, Item<K, V>>,
        ghost model2: map<K, V>)
      requires tab.Length > 0 && Sound(Pointers(tab[..]), hash, links2, items2, model2, n) && Mirrors(links2)
        && Stored(items2)
      modifies this`nelem, this`heads, this`links, this`items, this`model
      ensures Valid() && model == model2
    {
      nelem := n;
      heads, links, items, model := Pointers(tab[..]), links2, items2, model2;
      assert Pointers(tab[..]) == heads;
    }

    /** `zc_hashtable_put`: a table with more than 1.3 entries a chain doubles before it takes a new key. */
    method Put(k: K, v: V)
      requires Valid()
      modifies this, tab, links.Keys
      ensures Valid() && model == old(model)[k := v]
      ensures tab.Length ==
        if k !in old(model) && 10 * |old(model)| > 13 * old(tab.Length) then 2 * old(tab.Length) else old(tab.Length)
      ensures 10 * |old(model)| <= 13 * old(tab.Length) + 10 ==> 10 * |model| <= 13 * tab.Length + 10
    {
      var p := Find(k);
      if p != null {
        Change(p, k, v);
      } else {
        if 10 * nelem > 13 * tab.Length {
          Rehash();
        }
        Add(k, v);
      }
    }

    /** A key that is there gets another value. */
    method Change(p: Entry<K, V>, k: K, v: V)
      requires Valid() && p in links && p.key == k && k in model
      modifies this`nelem, this`heads, this`links, this`items, this`model, p`key, p`value
      ensures Valid() && model == old(model)[k := v]
    {
      KeyedChange(hash, links, items, model, p, k, v);
      OneMore(model, k, v);
      p.key := k;
      p.value := v;
      Represent(nelem, links, items[p := Item(k, v)], model[k := v]);
    }

    /** A new key gets an entry. */
    method Add(k: K, v: V)
      requires Valid() && k !in model
      modifies this`heads, this`links, this`items, this`model, this`nelem, tab, links.Keys`prev
      ensures Valid() && model == old(model)[k := v]
    {
      var p := new Entry(hash(k), k, v);
      ghost var links2 := Insert(tab, p, hash, links, items, model, nelem);
      Represent(nelem + 1, links2, items[p := Item(k, v)], model[k := v]);
    }

    /** `zc_hashtable_remove` */
    method Remove(k: K)
      requires Valid()
      modifies this, tab, links.Keys
      ensures Valid() && model == old(model) - {k}
    {
      var p := Find(k);
      if p == null {
        assert model - {k} == model;
        return;
      }
      RemoveEntry(p);
    }

    method RemoveEntry(p: Entry<K, V>)
      requires Valid() && p in links
      modifies this`heads, this`links, this`items, this`model, this`nelem, tab, links.Keys`prev, links.Keys`next
      ensures Valid() && model == old(model) - {p.key}
    {
      ghost var links2 := Delete(tab, p, hash, links, items, model, nelem);
      Represent(nelem - 1, links2, items - {p}, model - {p.key});
    }

    /** `zc_hashtable_clean` */
    method Clean()
      requires Valid()
      modifies this, tab
      ensures Valid() && model == map[] && tab.Length == old(tab.Length)
    {
      var i := 0;
      while i < tab.Length
        invariant i <= tab.Length && forall b :: 0 <= b < i ==> tab[b] == null
        modifies tab
      {
        tab[i] := null;
        i := i + 1;
      }
      NoLinks(Pointers(tab[..]));
      Represent(0, map[], map[], map[]);
    }

    // ---------- iteration ----------

    /** e and the entries before it. */
    ghost predicate Before(f: Entry<K, V>, e: Entry<K, V>)
      requires tab.Length > 0
      reads this, tab
    {
      UpTo(tab.Length, links, f, e)
    }

    /** The first entry of the chains from j on; those before j have been passed. */
    method FirstFrom(j: nat) returns (r: Entry?<K, V>)
      requires Valid() && j <= tab.Length
      ensures r == null ==> forall f :: f in links ==> links[f].at % tab.Length < j
      ensures r != null ==> r in links && links[r].at % tab.Length >= j
      ensures r != null ==> forall f :: f in links ==> (Before(f, r) <==> links[f].at % tab.Length < j || f == r)
    {
      var i := j;
      while i < tab.Length
        invariant j <= i <= tab.Length
        invariant forall f :: f in links && links[f].at % tab.Length >= j ==> links[f].at % tab.Length >= i
      {
        if tab[i] != null {
          assert heads[i] == Some(tab[i]);
          forall f | f in links ensures tab[i] in links && links[tab[i]].at % tab.Length == i
              && (Before(f, tab[i]) <==> links[f].at % tab.Length < i || f == tab[i]) {
            HeadPasses(heads, links, i, f);
          }
          return tab[i];
        }
        forall f | f in links ensures links[f].at % tab.Length != i {
          MemberHasHead(heads, links, f);
        }
        i := i + 1;
      }
      return null;
    }

    /** `zc_hashtable_begin` */
    method Begin() returns (r: Entry?<K, V>)
      requires Valid()
      ensures r == null ==> links.Keys == {}
      ensures r != null ==> r in links && forall f :: f in links ==> (Before(f, r) <==> f == r)
    {
      r := FirstFrom(0);
    }

    /** `zc_hashtable_next`: just one entry more has been passed. */
    method Next(e: Entry<K, V>) returns (r: Entry?<K, V>)
      requires Valid() && e in links
      ensures r == null ==> forall f :: f in links ==> Before(f, e)
      ensures r != null ==> r in links && !Before(r, e) && forall f :: f in links ==>
        (Before(f, r) <==> Before(f, e) || f == r)
    {
      assert Pointer(e.next) == links[e].next;
      if e.next != null {
        forall f | f in links ensures e.next in links && !Before(e.next, e) && (Before(f, e.next) <==>
            Before(f, e) || f == e.next) {
          NextPasses(tab.Length, links, e, f);
        }
        return e.next;
      }
      var i := e.hashKey % tab.Length;
      forall f | f in links ensures Before(f, e) <==> links[f].at % tab.Length <= i {
        LastPasses(tab.Length, links, e, f);
      }
      r := FirstFrom(i + 1);
    }

    /** `zc_hashtable_foreach`: every entry once. */
    method ForEach() returns (visited: seq<Entry<K, V>>)
      requires Valid()
      ensures forall e :: e in visited <==> e in links
      ensures forall i, j :: 0 <= i < j < |visited| ==> visited[i] != visited[j]
      ensures |visited| == nelem
    {
      visited := [];
      ghost var seen: set<Entry<K, V>> := {};
      var e := Begin();
      while e != null
        invariant e != null ==> e in links && e !in seen && forall f :: f in links ==>
          (Before(f, e) <==> f in seen || f == e)
        invariant if e == null then seen == links.Keys else seen <= links.Keys
        invariant Lists(visited, seen)
        decreases if e == null then 0 else 1 + |links.Keys| - |seen|
      {
        Subset(seen + {e}, links.Keys);
        var next := Next(e);
        var f: Entry<K, V> := e;
        ListsOneMore(visited, seen, f);
        visited := visited + [f];
        seen := seen + {f};
        e := next;
      }
    }

    lemma Subset(a: set<Entry<K, V>>, b: set<Entry<K, V>>)
      requires a <= b
      ensures |a| <= |b|
    {
      assert b == a + (b - a);
    }
  }
}
