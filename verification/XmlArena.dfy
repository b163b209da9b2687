/**
 `do_parse` as it is written: a loop that moves a cursor and links nodes by pointers.

 The nodes live in an arena in the order they are allocated; a pointer is an index into it, -1 is
 NULL.  The nodes of a tree are allocated in preorder, an element's attributes right after it, so
 the place of every node is determined by the tree.
 */
module XmlArena {
  import opened Chars
  import opened Wrappers
  import opened Strings
  import opened XmlScan
  import opened XmlTree
  import opened XmlParser

  datatype Kind = DocumentRec | ElementRec | TextRec | AttributeRec

  datatype Rec = Rec(kind: Kind, name: string, content: string, noEscape: bool,
                     parent: int, prev: int, next: int, children: int, attributes: int)

  type Arena = seq<Rec>

  const NULL := -1

  function NewRec(kind: Kind, name: string): Rec {
    Rec(kind, name, "", false, NULL, NULL, NULL, NULL, NULL)
  }

  function Size(n: Node): nat
    ensures Size(n) > 0
  {
    match n
    case Element(_, attributes, children) => 1 + |attributes| + SizeAll(children)
    case _ => 1
  }

  function SizeAll(ns: seq<Node>): nat {
    if ns == [] then 0 else Size(ns[0]) + SizeAll(ns[1..])
  }

  // ---------- what the arena holds ----------

  /** The `k`-th attribute in list order of the element at `id`; the last one allocated is the first. */
  ghost predicate AttributeAt(a: Arena, id: nat, attributes: seq<(string, string)>, k: nat)
    requires id + |attributes| < |a| && k < |attributes|
  {
    var r := a[id + |attributes| - k];
    && r.kind == AttributeRec && r.name == attributes[k].0 && r.content == attributes[k].1
    && r.parent == id
    && r.next == (if k == |attributes| - 1 then NULL else id + |attributes| - k - 1)
  }

  ghost predicate AttributesAt(a: Arena, id: nat, attributes: seq<(string, string)>) {
    && id + |attributes| < |a|
    && a[id].attributes == (if attributes == [] then NULL else id + |attributes|)
    && forall k | 0 <= k < |attributes| :: AttributeAt(a, id, attributes, k)
  }

  /** The element's own record and its attributes, whatever its children are. */
  ghost predicate HeadAt(a: Arena, id: nat, name: string, attributes: seq<(string, string)>) {
    && AttributesAt(a, id, attributes)
    && a[id].name == name
  }

  ghost predicate NodeAt(a: Arena, id: nat, n: Node)
    decreases n, 2
  {
    match n
    case Element(name, attributes, children) =>
      && HeadAt(a, id, name, attributes)
      && a[id].kind == ElementRec
      && ChildrenAt(a, id, id + 1 + |attributes|, children, NULL)
    case Text(content, noEscape, cdata) =>
      && id < |a| && a[id].kind == TextRec && a[id].content == content && a[id].noEscape == noEscape && !cdata
    case _ => false
  }

  /** The children of `id` are at `at` and following, and `end` comes after the last of them. */
  ghost predicate ChildrenAt(a: Arena, id: nat, at: nat, ns: seq<Node>, end: int)
    decreases ns, 1
  {
    && id < |a|
    && a[id].children == (if ns == [] then end else at)
    && ListAt(a, id, at, NULL, ns, end)
  }

  ghost predicate ListAt(a: Arena, parent: nat, at: nat, prev: int, ns: seq<Node>, end: int)
    decreases ns, 0
  {
    ns == [] ||
    (&& NodeAt(a, at, ns[0])
     && at < |a| && a[at].parent == parent && a[at].prev == prev
     && a[at].next == (if |ns| == 1 then end else at + Size(ns[0]))
     && ListAt(a, parent, at + Size(ns[0]), at, ns[1..], end))
  }

  /** The last node of a list that starts at `at`, or `prev` when the list is empty. */
  function Last(at: nat, prev: int, ns: seq<Node>): int
    decreases ns
  {
    if ns == [] then prev else Last(at + Size(ns[0]), at, ns[1..])
  }

  function First(id: nat, o: Open): nat {
    id + 1 + |o.attributes|
  }

  /** The first place behind the closed children of an open element at `id`. */
  function Behind(id: nat, o: Open): nat {
    First(id, o) + SizeAll(o.children)
  }

  /** The open elements from the innermost, at `id`, outwards; `end` follows its closed children. */
  ghost predicate OpenAt(a: Arena, id: nat, open: seq<Open>, end: int)
    decreases |open|
  {
    && open != []
    && HeadAt(a, id, open[0].name, open[0].attributes)
    && ChildrenAt(a, id, First(id, open[0]), open[0].children, end)
    && Behind(id, open[0]) <= |a|
    && a[id].next == NULL
    && if |open| == 1 then id == 0 && a[0].kind == DocumentRec && a[0].parent == NULL && a[0].prev == NULL
       else
         && a[id].kind == ElementRec
         && 0 <= a[id].parent < id
         && id == Behind(a[id].parent, open[1])
         && a[id].prev == Last(First(a[id].parent, open[1]), NULL, open[1].children)
         && OpenAt(a, a[id].parent, open[1..], id)
  }

  // ---------- parts of the arena that a change does not reach ----------

  ghost predicate Agree(a: Arena, b: Arena, lo: int, hi: int) {
    hi <= |a| && hi <= |b| && forall i | lo <= i < hi && 0 <= i :: b[i] == a[i]
  }

  lemma {:induction false} NodeFits(a: Arena, id: nat, n: Node)
    requires NodeAt(a, id, n)
    ensures id + Size(n) <= |a|
    decreases n, 1
  {
    match n
    case Element(_, attributes, children) => ListFits(a, id, id + 1 + |attributes|, NULL, children, NULL);
    case _ =>
  }

  lemma {:induction false} ListFits(a: Arena, parent: nat, at: nat, prev: int, ns: seq<Node>, end: int)
    requires ListAt(a, parent, at, prev, ns, end) && at <= |a|
    ensures at + SizeAll(ns) <= |a|
    decreases ns, 0
  {
    if ns != [] {
      NodeFits(a, at, ns[0]);
      ListFits(a, parent, at + Size(ns[0]), at, ns[1..], end);
    }
  }

  lemma {:induction false} NodeKept(a: Arena, b: Arena, id: nat, n: Node)
    requires NodeAt(a, id, n) && Agree(a, b, id, id + Size(n))
    ensures NodeAt(b, id, n)
    decreases n, 1
  {
    match n
    case Element(name, attributes, children) =>
      AttributesKept(a, b, id, attributes);
      ListKept(a, b, id, id + 1 + |attributes|, NULL, children, NULL);
    case _ =>
  }

  lemma AttributesKept(a: Arena, b: Arena, id: nat, attributes: seq<(string, string)>)
    requires AttributesAt(a, id, attributes) && Agree(a, b, id + 1, id + 1 + |attributes|)
    requires b[id].attributes == a[id].attributes
    ensures AttributesAt(b, id, attributes)
  {
    forall k | 0 <= k < |attributes| ensures AttributeAt(b, id, attributes, k) {
      assert AttributeAt(a, id, attributes, k);
    }
  }

  lemma {:induction false} ListKept(a: Arena, b: Arena, parent: nat, at: nat, prev: int, ns: seq<Node>, end: int)
    requires ListAt(a, parent, at, prev, ns, end) && Agree(a, b, at, at + SizeAll(ns))
    ensures ListAt(b, parent, at, prev, ns, end)
    decreases ns, 0
  {
    if ns != [] {
      NodeKept(a, b, at, ns[0]);
      ListKept(a, b, parent, at + Size(ns[0]), at, ns[1..], end);
    }
  }

  /** The same node, but for the pointers that place it among its siblings. */
  ghost predicate SameButPlace(x: Rec, y: Rec) {
    && x.kind == y.kind && x.name == y.name && x.content == y.content && x.noEscape == y.noEscape
    && x.attributes == y.attributes && x.children == y.children
  }

  lemma ElementKeptNext(a: Arena, b: Arena, id: nat, name: string, attributes: seq<(string, string)>,
      children: seq<Node>)
    requires HeadAt(a, id, name, attributes) && a[id].kind == ElementRec
    requires ChildrenAt(a, id, id + 1 + |attributes|, children, NULL)
    requires id < |b| && SameButPlace(a[id], b[id]) && Agree(a, b, id + 1, id + 1 + |attributes| + SizeAll(children))
    ensures HeadAt(b, id, name, attributes) && b[id].kind == ElementRec
    ensures ChildrenAt(b, id, id + 1 + |attributes|, children, NULL)
  {
    AttributesKept(a, b, id, attributes);
    ListKept(a, b, id, id + 1 + |attributes|, NULL, children, NULL);
  }

  /** Changing only the `next` pointer of a node does not touch what it holds. */
  lemma NodeKeptNext(a: Arena, b: Arena, id: nat, n: Node)
    requires NodeAt(a, id, n) && id < |b|
    requires id < |a| && SameButPlace(a[id], b[id]) && Agree(a, b, id + 1, id + Size(n))
    ensures NodeAt(b, id, n)
  {
    if n.Element? {
      ElementKeptNext(a, b, id, n.name, n.attributes, n.children);
    }
  }

  lemma {:induction false} OpenKept(a: Arena, b: Arena, id: nat, open: seq<Open>, end: int)
    requires OpenAt(a, id, open, end) && Agree(a, b, 0, Behind(id, open[0]))
    ensures OpenAt(b, id, open, end)
    decreases |open|
  {
    AttributesKept(a, b, id, open[0].attributes);
    ListKept(a, b, id, First(id, open[0]), NULL, open[0].children, end);
    if |open| > 1 {
      OpenKept(a, b, a[id].parent, open[1..], id);
    }
  }

  // ---------- appending to a list ----------

  lemma {:induction false} LastIn(at: nat, prev: int, ns: seq<Node>)
    ensures ns == [] ==> Last(at, prev, ns) == prev
    ensures ns != [] ==> at <= Last(at, prev, ns) < at + SizeAll(ns)
    decreases ns
  {
    if ns != [] {
      LastIn(at + Size(ns[0]), at, ns[1..]);
    }
  }

  lemma {:induction false} LastAppend(at: nat, prev: int, ns: seq<Node>, n: Node)
    ensures Last(at, prev, ns + [n]) == at + SizeAll(ns)
    ensures SizeAll(ns + [n]) == SizeAll(ns) + Size(n)
    decreases ns
  {
    if ns == [] {
      assert ns + [n] == [n];
      assert [n][1..] == [];
      assert SizeAll([n]) == Size(n) + SizeAll([]);
    } else {
      assert (ns + [n])[1..] == ns[1..] + [n];
      LastAppend(at + Size(ns[0]), at, ns[1..], n);
    }
  }

  /** A node at the end of the list becomes its last element. */
  lemma {:induction false} ListAppend(a: Arena, parent: nat, at: nat, prev: int, ns: seq<Node>, n: Node, end: int)
    requires var e := at + SizeAll(ns);
             && ListAt(a, parent, at, prev, ns, e)
             && NodeAt(a, e, n) && e < |a|
             && a[e].parent == parent && a[e].prev == Last(at, prev, ns) && a[e].next == end
    ensures ListAt(a, parent, at, prev, ns + [n], end)
    decreases ns
  {
    if ns == [] {
      assert ns + [n] == [n];
      assert [n][1..] == [];
    } else {
      assert (ns + [n])[0] == ns[0] && (ns + [n])[1..] == ns[1..] + [n];
      if |ns| == 1 {
        assert SizeAll(ns) == Size(ns[0]) + SizeAll(ns[1..]);
      }
      ListAppend(a, parent, at + Size(ns[0]), at, ns[1..], n, end);
    }
  }

  /** Setting the `next` pointer of the last element. */
  lemma {:induction false} ListExtend(a: Arena, b: Arena, parent: nat, at: nat, prev: int, ns: seq<Node>,
      old_: int, end: int)
    requires ListAt(a, parent, at, prev, ns, old_) && ns != [] && at + SizeAll(ns) <= |a|
    requires |b| == |a|
    requires var l := Last(at, prev, ns);
             0 <= l < |a| && b[l] == a[l].(next := end) && forall i | at <= i < at + SizeAll(ns) && i != l ::
                 b[i] == a[i]
    ensures ListAt(b, parent, at, prev, ns, end)
    decreases ns
  {
    LastIn(at + Size(ns[0]), at, ns[1..]);
    if |ns| == 1 {
      NodeKeptNext(a, b, at, ns[0]);
    } else {
      NodeKept(a, b, at, ns[0]);
      assert forall i | at + Size(ns[0]) <= i < at + Size(ns[0]) + SizeAll(ns[1..]) && i != Last(at, prev, ns) ::
          b[i] == a[i];
      ListExtend(a, b, parent, at + Size(ns[0]), at, ns[1..], old_, end);
    }
  }

  // ---------- the steps of the loop, on the arena ----------

  /** A new node, linked behind `previous` or as the first child of `ret`. */
  function AddRec(a: Arena, ret: nat, previous: int, r: Rec): Arena
    requires ret < |a| && NULL <= previous < |a|
  {
    var b := a + [r.(parent := ret, prev := previous)];
    if previous != NULL then b[previous := b[previous].(next := |a|)]
    else b[ret := b[ret].(children := |a|)]
  }

  /** The pointers `ret`, `current` and `previous` are where the scanner's state says. */
  ghost predicate Linked(a: Arena, z: State, ret: int, current: int, previous: int) {
    && z.open != [] && 0 <= ret < |a|
    && previous == Last(First(ret, z.open[0]), NULL, z.open[0].children)
    && NULL <= previous < |a|
    && match z.tag
       case None => OpenAt(a, ret, z.open, NULL) && |a| == Behind(ret, z.open[0])
       case Some(t) =>
           OpenAt(a, ret, z.open, current) && TagAt(a, t, ret, current, previous)
           && current == Behind(ret, z.open[0])
  }

  /** The element whose tag is being read is the last node of the arena but for its attributes. */
  ghost predicate TagAt(a: Arena, t: Open, ret: int, current: int, previous: int) {
    && 0 <= current && t.children == []
    && HeadAt(a, current, t.name, t.attributes)
    && |a| == current + 1 + |t.attributes|
    && a[current].kind == ElementRec && a[current].parent == ret && a[current].prev == previous
    && a[current].next == NULL && a[current].children == NULL
  }

  /** Linking a new last child below `ret`. */
  lemma AddedRec(a: Arena, ret: nat, open: seq<Open>, previous: int, r: Rec)
    requires OpenAt(a, ret, open, NULL) && |a| == Behind(ret, open[0])
    requires previous == Last(First(ret, open[0]), NULL, open[0].children)
    ensures NULL <= previous < |a|
    ensures OpenAt(AddRec(a, ret, previous, r), ret, open, |a|)
    ensures AddRec(a, ret, previous, r)[|a|] == r.(parent := ret, prev := previous)
    ensures |AddRec(a, ret, previous, r)| == |a| + 1
  {
    var o := open[0];
    var at := First(ret, o);
    LastIn(at, NULL, o.children);
    var b := AddRec(a, ret, previous, r);
    AttributesKept(a, b, ret, o.attributes);
    if o.children != [] {
      ListExtend(a, b, ret, at, NULL, o.children, NULL, |a|);
    }
    if |open| > 1 {
      OpenKept(a, b, a[ret].parent, open[1..], ret);
    }
  }

  /** A finished node at the end of the arena joins the children of `ret`. */
  lemma Adopted(a: Arena, ret: nat, open: seq<Open>, previous: int, e: nat, n: Node)
    requires OpenAt(a, ret, open, e) && e == Behind(ret, open[0]) && e < |a|
    requires previous == Last(First(ret, open[0]), NULL, open[0].children)
    requires NodeAt(a, e, n) && a[e].parent == ret && a[e].prev == previous && a[e].next == NULL && |a| >= e + Size(n)
    ensures OpenAt(a, ret, Adopt(open, n), NULL)
    ensures Behind(ret, Adopt(open, n)[0]) == e + Size(n)
    ensures Last(First(ret, open[0]), NULL, Adopt(open, n)[0].children) == e
  {
    var o := open[0];
    ListAppend(a, ret, First(ret, o), NULL, o.children, n, NULL);
    LastAppend(First(ret, o), NULL, o.children, n);
    assert Adopt(open, n)[1..] == open[1..];
  }

  lemma AddedText(a: Arena, z: State, ret: nat, current: int, previous: int, r: Rec, n: Node)
    requires Linked(a, z, ret, current, previous) && z.tag == None
    requires n.Text? && !n.cdata && r.kind == TextRec && r.content == n.content && r.noEscape == n.noEscape
      && r.next == NULL
    ensures Linked(AddRec(a, ret, previous, r), z.(open := Adopt(z.open, n)), ret, |a|, |a|)
  {
    AddedRec(a, ret, z.open, previous, r);
    Adopted(AddRec(a, ret, previous, r), ret, z.open, previous, |a|, n);
  }

  lemma AddedElement(a: Arena, z: State, ret: nat, current: int, previous: int, name: string)
    requires Linked(a, z, ret, current, previous) && z.tag == None
    ensures Linked(AddRec(a, ret, previous, NewRec(ElementRec, name)), z.(tag := Some(Open(name, [], []))), ret,
      |a|, previous)
  {
    AddedRec(a, ret, z.open, previous, NewRec(ElementRec, name));
  }

  /** The tag has ended with a bracket: its element becomes `ret`. */
  lemma Pushed(a: Arena, z: State, ret: nat, current: int, previous: int)
    requires Linked(a, z, ret, current, previous) && z.tag.Some?
    ensures Linked(a, z.(open := [z.tag.value] + z.open, tag := None), current, NULL, NULL)
  {
    var open := [z.tag.value] + z.open;
    assert open[1..] == z.open;
    assert OpenAt(a, a[current].parent, open[1..], current);
  }

  /** The tag has ended with a slash: its element is complete. */
  lemma SelfClosed(a: Arena, z: State, ret: nat, current: int, previous: int)
    requires Linked(a, z, ret, current, previous) && z.tag.Some?
    ensures Linked(a, z.(open := Adopt(z.open, Closed(z.tag.value)), tag := None), ret, current, current)
  {
    Adopted(a, ret, z.open, previous, current, Closed(z.tag.value));
  }

  /** A closing tag: `ret` is complete and its parent takes its place. */
  lemma Popped(a: Arena, z: State, ret: nat, current: int, previous: int)
    requires Linked(a, z, ret, current, previous) && z.tag == None && |z.open| > 1
    ensures 0 <= a[ret].parent < ret
    ensures Linked(a, z.(open := Adopt(z.open[1..], Closed(z.open[0]))), a[ret].parent, current, ret)
  {
    var o := z.open[0];
    assert NodeAt(a, ret, Closed(o));
    assert Size(Closed(o)) == Behind(ret, o) - ret;
    Adopted(a, a[ret].parent, z.open[1..], a[ret].prev, ret, Closed(o));
  }

  /** A new attribute goes to the front of the list. */
  function AddAttr(a: Arena, current: nat, name: string): Arena
    requires current < |a|
  {
    var b := a + [NewRec(AttributeRec, name).(next := a[current].attributes, parent := current)];
    b[current := b[current].(attributes := |a|)]
  }

  lemma AddedAttr(a: Arena, z: State, ret: nat, current: int, previous: int, name: string)
    requires Linked(a, z, ret, current, previous) && z.tag.Some?
    ensures var t := z.tag.value;
            Linked(AddAttr(a, current, name), z.(tag := Some(t.(attributes := [(name, "")] + t.attributes))), ret,
                current, previous)
  {
    var t := z.tag.value;
    var b := AddAttr(a, current, name);
    var more := [(name, "")] + t.attributes;
    forall k | 0 <= k < |more| ensures AttributeAt(b, current, more, k) {
      if k > 0 {
        assert AttributeAt(a, current, t.attributes, k - 1);
      }
    }
    OpenKept(a, b, ret, z.open, current);
  }

  lemma SetAttr(a: Arena, z: State, ret: nat, current: int, previous: int, value: string)
    requires Linked(a, z, ret, current, previous) && z.tag.Some? && z.tag.value.attributes != []
    ensures var t := z.tag.value;
            Linked(a[|a| - 1 := a[|a| - 1].(content := value)],
                   z.(tag := Some(t.(attributes := t.attributes[0 := (t.attributes[0].0, value)]))), ret, current,
                       previous)
  {
    var b := a[|a| - 1 := a[|a| - 1].(content := value)];
    var t := z.tag.value;
    var set_ := t.attributes[0 := (t.attributes[0].0, value)];
    forall k | 0 <= k < |set_| ensures AttributeAt(b, current, set_, k) {
      assert AttributeAt(a, current, t.attributes, k);
    }
    OpenKept(a, b, ret, z.open, current);
  }

  // ---------- the parser ----------

  /** The variables of `do_parse`; `z` is the scanner's state they stand for. */
  class Parser {
    const doc: string
    var p: nat
    var phase: Phase
    var nodes: Arena
    var ret: int
    var current: int
    var previous: int
    ghost var z: State

    ghost predicate Valid()
      reads this
    {
      && Fits(doc, z) && z.p == p && z.phase == phase
      && Linked(nodes, z, ret, current, previous)
      && (phase.InsideTag? || phase.AttrValue? <==> z.tag.Some?)
    }

    constructor (document: string)
      ensures Valid() && z == Begin() && doc == document
    {
      doc := document;
      p := 0;
      phase := Init;
      nodes := [NewRec(DocumentRec, "root")];
      ret := 0;
      current := NULL;
      previous := NULL;
      z := Begin();
    }

    /** The state's turn of the loop has been taken. */
    ghost predicate Took(t: Turn, stop: Option<Outcome>)
      reads this
    {
      match t
      case Stop(outcome) => stop == Some(outcome)
      case Go(next) => stop == None && Valid() && z == next
    }

    method OpenState() returns (stop: Option<Outcome>)
      requires Valid() && phase == OpenTag && p < |doc|
      modifies this
      ensures Took(OpenTurn(doc, old(z)), stop)
    {
      stop := None;
      if doc[p] == '?' {
        p, phase := p + 1, XmlDecl;
        z := z.(p := p, phase := phase);
      } else if doc[p] == '!' {
        stop := BangState();
      } else if doc[p] == '/' {
        p, phase := p + 1, CloseTag;
        z := z.(p := p, phase := phase);
      } else {
        p := SkipBlanks(doc, p);
        var c := ScanName(doc, p);
        NewElement(doc[p..c]);
        p := SkipBlanks(doc, c);
        phase := InsideTag;
        z := z.(p := p, phase := phase);
      }
    }

    /** The cursor moves and the state changes; the nodes stay. */
    method MoveTo(p2: nat, phase2: Phase)
      requires Linked(nodes, z, ret, current, previous) && Fits(doc, z.(p := p2, phase := phase2))
      requires phase2.InsideTag? || phase2.AttrValue? <==> z.tag.Some?
      modifies this`p, this`phase, this`z
      ensures Valid() && z == old(z).(p := p2, phase := phase2)
    {
      p, phase := p2, phase2;
      z := z.(p := p, phase := phase);
    }

    method NewElement(name: string)
      requires Linked(nodes, z, ret, current, previous) && z.tag == None
      modifies this`nodes, this`current, this`z
      ensures z == old(z).(tag := Some(Open(name, [], [])))
      ensures Linked(nodes, z, ret, current, previous)
    {
      AddedElement(nodes, z, ret, current, previous, name);
      current, nodes := |nodes|, AddRec(nodes, ret, previous, NewRec(ElementRec, name));
      z := z.(tag := Some(Open(name, [], [])));
    }

    method NewAttribute(name: string)
      requires Linked(nodes, z, ret, current, previous) && z.tag.Some?
      modifies this`nodes, this`z
      ensures z == old(z).(tag := Some(old(z).tag.value.(attributes := [(name, "")] + old(z).tag.value.attributes)))
      ensures Linked(nodes, z, ret, current, previous)
    {
      AddedAttr(nodes, z, ret, current, previous, name);
      nodes := AddAttr(nodes, current, name);
      z := z.(tag := Some(z.tag.value.(attributes := [(name, "")] + z.tag.value.attributes)));
    }

    /** `previous = ret; ret = previous->parent` */
    method LeaveElement()
      requires Linked(nodes, z, ret, current, previous) && z.tag == None && |z.open| > 1
      modifies this`ret, this`previous, this`z
      ensures z == old(z).(open := Adopt(old(z).open[1..], Closed(old(z).open[0])))
      ensures Linked(nodes, z, ret, current, previous)
    {
      Popped(nodes, z, ret, current, previous);
      previous := ret;
      ret := nodes[previous].parent;
      z := z.(open := Adopt(z.open[1..], Closed(z.open[0])));
    }

    method BangState() returns (stop: Option<Outcome>)
      requires Valid() && phase == OpenTag && p < |doc|
      modifies this
      ensures Took(BangTurn(doc, old(z)), stop)
    {
      stop := None;
      if Stands(doc, p, "!--") {
        p, phase := p + 3, InComment;
        z := z.(p := p, phase := phase);
      } else if Stands(doc, p, "![CDATA[") {
        p, phase := p + 8, CData;
        z := z.(p := p, phase := phase);
      } else if Stands(doc, p, "!DOCTYPE") {
        p, phase := p + 8, Doctype;
        z := z.(p := p, phase := phase);
      } else {
        stop := Some(Rejected);
      }
    }
  
    method CloseState() returns (stop: Option<Outcome>)
      requires Valid() && phase == CloseTag && p < |doc|
      modifies this
      ensures Took(CloseTurn(doc, old(z)), stop)
    {
      stop := None;
      p := SkipBlanks(doc, p);
      var c := ScanName(doc, p);
      if doc[p..c] <= nodes[ret].name {
        var end := ScanFor(doc, c, '>');
        if end.None? {
          stop := Some(Overrun);
        } else if nodes[ret].parent == NULL {
          stop := Some(Astray);
        } else {
          LeaveElement();
          p := end.value + 1;
          phase := InText;
          z := z.(p := p, phase := phase);
        }
      } else {
        stop := Some(Rejected);
      }
    }

    method InsideTagState() returns (stop: Option<Outcome>)
      requires Valid() && phase == InsideTag && p < |doc|
      modifies this
      ensures Took(InsideTagTurn(doc, old(z)), stop)
    {
      stop := None;
      if doc[p] == '>' {
        EnterElement();
      } else if doc[p] == '/' && At(doc, p + 1) == '>' {
        EndElement();
      } else {
        stop := AttributeName();
      }
    }

    /** The tag has ended, children may follow. */
    method EnterElement()
      requires Valid() && phase == InsideTag && p < |doc|
      modifies this
      ensures Valid() && z == State(old(p) + 1, InText, [old(z).tag.value] + old(z).open, None)
    {
      Pushed(nodes, z, ret, current, previous);
      ret := current;
      current, previous := NULL, NULL;
      z := z.(open := [z.tag.value] + z.open, tag := None);
      MoveTo(p + 1, InText);
    }

    /** The tag has closed itself. */
    method EndElement()
      requires Valid() && phase == InsideTag && p + 1 < |doc|
      modifies this
      ensures Valid() && z == State(old(p) + 2, InText, Adopt(old(z).open, Closed(old(z).tag.value)), None)
    {
      SelfClosed(nodes, z, ret, current, previous);
      previous := current;
      z := z.(open := Adopt(z.open, Closed(z.tag.value)), tag := None);
      MoveTo(p + 2, InText);
    }

    method AttributeName() returns (stop: Option<Outcome>)
      requires Valid() && phase == InsideTag && p < |doc|
      modifies this
      ensures Took(AttributeTurn(doc, old(z)), stop)
    {
      var from := SkipBlanks(doc, p);
      var c := ScanName(doc, from);
      NewAttribute(doc[from..c]);
      var next := SkipBlanks(doc, c);
      if At(doc, next) == '=' {
        next := SkipBlanks(doc, next + 1);
        MoveTo(next, AttrValue(c));
      } else if next == p {
        return Some(Hang);
      } else {
        MoveTo(next, InsideTag);
      }
      return None;
    }

    method AttrValueState() returns (stop: Option<Outcome>)
      requires Valid() && phase.AttrValue? && p < |doc|
      modifies this
      ensures Took(AttrValueTurn(doc, old(z)), stop)
    {
      stop := None;
      var c := phase.nameEnd;
      if !(doc[p] == '"' || doc[p] == '\'' || doc[p] == '`') {
        p := SkipBlanks(doc, c + 1);
        phase := InsideTag;
        z := z.(p := p, phase := phase);
      } else {
        stop := QuotedValue(doc[p]);
      }
    }

    method QuotedValue(endchar: char) returns (stop: Option<Outcome>)
      requires Valid() && phase.AttrValue? && p < |doc| && doc[p] == endchar
      requires endchar == '"' || endchar == '\'' || endchar == '`'
      modifies this
      ensures Took(AttrValueTurn(doc, old(z)), stop)
    {
      ghost var turn := AttrValueTurn(doc, z);
      var end := ScanFor(doc, p + 1, endchar);
      if end.None? {
        return Some(Overrun);
      }
      var value := UnescapedBetween(p + 1, end.value);
      StoreValue(value);
      var next := SkipBlanks(doc, end.value + 1);
      assert turn == Go(z.(p := next, phase := InsideTag));
      MoveTo(next, InsideTag);
      stop := None;
    }

    method UnescapedBetween(i: nat, j: nat) returns (content: string)
      requires i <= j <= |doc| && Ends(At(doc, j))
      ensures content == Unescape(doc, i, j)
    {
      var buf := MakeUnescapedString(doc, i, j);
      content := buf.data[..buf.len];
    }

    /** `attr->content = value` for the attribute read last. */
    method StoreValue(value: string)
      requires Valid() && z.tag.Some? && z.tag.value.attributes != []
      modifies this`nodes, this`z
      ensures Valid()
      ensures var t := old(z).tag.value;
              z == old(z).(tag := Some(t.(attributes := t.attributes[0 := (t.attributes[0].0, value)])))
    {
      SetAttr(nodes, z, ret, current, previous, value);
      ghost var t := z.tag.value;
      var attr := nodes[current].attributes;
      nodes := nodes[attr := nodes[attr].(content := value)];
      z := z.(tag := Some(t.(attributes := t.attributes[0 := (t.attributes[0].0, value)])));
    }

    /** A text or CDATA node behind `previous`. */
    method AppendText(content: string, noEscape: bool)
      requires Valid() && z.tag == None
      modifies this`nodes, this`current, this`previous
      ensures Linked(nodes, z.(open := Adopt(z.open, Text(content, noEscape, false))), ret, current, previous)
    {
      var r := NewRec(TextRec, "").(content := content, noEscape := noEscape);
      AddedText(nodes, z, ret, current, previous, r, Text(content, noEscape, false));
      current, nodes := |nodes|, AddRec(nodes, ret, previous, r);
      previous := current;
    }

    method TextState() returns (stop: Option<Outcome>)
      requires Valid() && phase == InText && p < |doc|
      modifies this
      ensures Took(TextTurn(doc, old(z)), stop)
    {
      stop := None;
      var found := ScanFor(doc, p, '<');
      var c := if found.Some? then found.value else |doc|;
      phase := Init;
      if c > p {
        z := z.(phase := Init);
        var content := UnescapedBetween(p, c);
        AppendText(content, false);
        p := c;
        z := State(p, Init, Adopt(z.open, Text(content, false, false)), z.tag);
      } else {
        z := z.(phase := Init);
      }
    }

    method CDataState() returns (stop: Option<Outcome>)
      requires Valid() && phase == CData && p < |doc|
      modifies this
      ensures Took(CDataTurn(doc, old(z)), stop)
    {
      stop := None;
      var c := ScanForStr(doc, p, "]]>");
      if c.None? {
        stop := Some(Overrun);
      } else {
        phase := InText;
        z := z.(phase := InText);
        if c.value > p {
          var content := doc[p..c.value];
          AppendText(content, true);
          p := c.value + 3;
          z := State(p, InText, Adopt(z.open, Text(content, true, false)), z.tag);
        }
      }
    }

    /** The states that only move the cursor. */
    method SkipState() returns (stop: Option<Outcome>)
      requires Valid() && p < |doc| && phase in {Init, XmlDecl, InComment, Doctype}
      modifies this
      ensures Took(Step(doc, old(z)), stop)
    {
      stop := None;
      match phase {
        case Init =>
          phase := if doc[p] == '<' then OpenTag else Init;
          p := p + 1;
        case XmlDecl =>
          var q := ScanForStr(doc, p, "?>");
          if q.None? {
            return Some(Overrun);
          }
          p, phase := q.value + 2, Init;
        case InComment =>
          if Stands(doc, p, "-->") {
            p, phase := p + 3, InText;
          } else {
            p := p + 1;
          }
        case Doctype =>
          var q := ScanForStr(doc, p, "]>");
          if q.None? {
            return Some(Overrun);
          }
          p, phase := q.value + 2, InText;
      }
      z := z.(p := p, phase := phase);
    }

    method TakeTurn() returns (stop: Option<Outcome>)
      requires Valid() && p < |doc|
      modifies this
      ensures Took(Step(doc, old(z)), stop)
    {
      match phase
      case OpenTag => stop := OpenState();
      case CloseTag => stop := CloseState();
      case InsideTag => stop := InsideTagState();
      case AttrValue(_) => stop := AttrValueState();
      case InText => stop := TextState();
      case CData => stop := CDataState();
      case _ => stop := SkipState();
    }
  }

  /** The pointer structure that stands for an open element: what `do_parse` returns. */
  ghost predicate Returned(a: Arena, ret: int, o: Open) {
    && 0 <= ret
    && HeadAt(a, ret, o.name, o.attributes)
    && ChildrenAt(a, ret, First(ret, o), o.children, NULL)
  }

  /**
   `do_parse`.  It fails exactly when the scanner does not recognise a tree, and otherwise the
   attribute and child lists of the node it returns are that tree, with every sibling and parent
   pointer in place.
   */
  method DoParse(document: string) returns (failed: Option<Outcome>, nodes: Arena, ret: int)
    ensures match Parse(document)
            case Parsed(o) => failed == None && Returned(nodes, ret, o)
            case other => failed == Some(other)
  {
    var s := new Parser(document);
    while s.p < |document|
      invariant fresh(s) && s.doc == document && s.Valid()
      invariant ParseFrom(document, s.z) == Parse(document)
      decreases Left(document, s.z), Rank(s.phase)
    {
      if Step(document, s.z).Go? {
        StepProgress(document, s.z);
      }
      failed := s.TakeTurn();
      if failed.Some? {
        return failed, s.nodes, NULL;
      }
    }
    if s.z.tag.Some? {
      SelfClosed(s.nodes, s.z, s.ret, s.current, s.previous);
    }
    failed, nodes, ret := None, s.nodes, s.ret;
  }
}
