/**
 The linked child lists of the result tree.  `xml_add_child` walks to the end of the list, so a
 child list only ever grows at its end: the position of a child, and with it the path that names
 it in the model of the activities, never changes.
 */
module Nodes {
  datatype NodeType = EmptyNode | ElementNode | TextNode | CommentNode | InstructionNode

  class Node {
    var kind: NodeType
    var parent: Node?
    var prev: Node?
    var next: Node?
    var children: Node?

    /** `xml_new_node`, in zeroed memory. */
    constructor (k: NodeType)
      ensures kind == k && parent == null && prev == null && next == null && children == null
    {
      kind, parent, prev, next, children := k, null, null, null, null;
    }

    /** The child list of this node is `kids`, linked in both directions. */
    ghost predicate Lists(kids: seq<Node>)
      reads this, kids
    {
      && children == First(kids)
      && (forall i, j :: 0 <= i < j < |kids| ==> kids[i] != kids[j])
      && (forall i :: 0 <= i < |kids| ==> Linked(kids, i))
    }

    ghost predicate Linked(kids: seq<Node>, i: nat)
      requires i < |kids|
      reads kids
    {
      && kids[i].parent == this
      && kids[i].prev == (if i == 0 then null else kids[i - 1])
      && kids[i].next == (if i + 1 == |kids| then null else kids[i + 1])
    }

    /** The last entry of the list: the walk along `next`. */
    method LastChild(ghost kids: seq<Node>) returns (last: Node)
      requires Lists(kids) && kids != []
      ensures last == kids[|kids| - 1]
    {
      last := children;
      ghost var i := 0;
      assert Linked(kids, 0);
      while last.next != null
        invariant i < |kids| && last == kids[i] && Linked(kids, i)
        decreases |kids| - i
      {
        last := last.next;
        i := i + 1;
        assert Linked(kids, i);
      }
    }

    /** `xml_add_child`: the list grows by the child, and nothing but the link of the last entry changes in it. */
    method AddChild(child: Node, ghost kids: seq<Node>)
      requires Lists(kids) && child !in kids && child != this && this !in kids
      requires child.prev == null && child.next == null
      modifies this`children, child`parent, child`prev, kids`next
      ensures Lists(kids + [child])
      ensures forall i :: 0 <= i < |kids| - 1 ==> kids[i].next == old(kids[i].next)
    {
      ghost var grown := kids + [child];
      assert kids != [] ==> Linked(kids, |kids| - 1);
      if children != null {
        var last := LastChild(kids);
        child.prev := last;
        last.next := child;
      } else {
        children := child;
      }
      child.parent := this;
      forall i | 0 <= i < |grown| ensures Linked(grown, i) {
        if i < |kids| {
          assert grown[i] == kids[i] && old(Linked(kids, i));
        }
      }
    }

    /** `xml_append_child`: the way a placeholder or an element gets its place in the tree. */
    method AppendChild(k: NodeType, ghost kids: seq<Node>) returns (child: Node)
      requires Lists(kids) && this !in kids
      modifies this`children, kids`next
      ensures fresh(child) && child.kind == k && child.children == null
      ensures Lists(kids + [child])
    {
      child := new Node(k);
      AddChild(child, kids);
    }
  }

  ghost function First(kids: seq<Node>): Node? {
    if kids == [] then null else kids[0]
  }

  /** The links determine the child list. */
  lemma {:induction false} ListIsUnique(node: Node, kids: seq<Node>, others: seq<Node>, n: nat)
    requires node.Lists(kids) && node.Lists(others) && n <= |kids|
    ensures n <= |others| && kids[..n] == others[..n]
    decreases n
  {
    if n > 0 {
      ListIsUnique(node, kids, others, n - 1);
      if n > 1 {
        assert node.Linked(kids, n - 2) && node.Linked(others, n - 2);
        assert kids[..n - 1][n - 2] == others[..n - 1][n - 2];
      }
      assert kids[..n] == kids[..n - 1] + [kids[n - 1]];
      assert others[..n] == others[..n - 1] + [others[n - 1]];
    }
  }

  lemma ListIsDetermined(node: Node, kids: seq<Node>, others: seq<Node>)
    requires node.Lists(kids) && node.Lists(others)
    ensures kids == others
  {
    ListIsUnique(node, kids, others, |kids|);
    ListIsUnique(node, others, kids, |others|);
  }
}
