/** Match patterns as chains of steps, what they accept, and their keys in the template trie. */
module TemplatePatterns {
  import opened Wrappers

  /** A node of the document with the way up to the root. */
  datatype Node = Node(id: nat, element: bool, name: Option<string>, parent: Option<Node>)

  /** The node types on the way from a compiled pattern down its first children. */
  datatype Step = Select(name: string) | Root | Context | Self | All | Other(id: nat)

  /** The key of everything that is not an element. */
  const SLASH: string := "/"

  /** `select_match`; `holds` stands for the types that evaluate expressions. */
  predicate SelectMatch(root: Node, holds: (nat, Node) -> bool, node: Option<Node>, chain: seq<Step>)
    decreases |chain|
  {
    if |chain| == 0 then true
    else if node.None? then false
    else
      match chain[0]
      case Root => root == node.value
      case Select(n) => node.value.name == Some(n) && SelectMatch(root, holds, node.value.parent, chain[1..])
      case Context => true
      case Self => SelectMatch(root, holds, node, chain[1..])
      case All => SelectMatch(root, holds, node.value.parent, chain[1..])
      case Other(id) => holds(id, node.value)
  }

  /** Registration looks at the first step only. */
  predicate IsDirect(chain: seq<Step>) {
    |chain| == 0 || chain[0].Select? || chain[0].Root?
  }

  /** The way of a pattern through the trie: its names and the root, other steps left out. */
  function Key(chain: seq<Step>): seq<string> {
    if |chain| == 0 then []
    else
      match chain[0]
      case Select(n) => [n] + Key(chain[1..])
      case Root => [SLASH] + Key(chain[1..])
      case _ => Key(chain[1..])
  }

  /** The way of a node through the trie. */
  function NodeKey(node: Node): seq<string>
    decreases node
  {
    [if node.element && node.name.Some? then node.name.value
        else SLASH] + (if node.parent.Some? then NodeKey(node.parent.value) else [])
  }

  /** The context or the root comes last and only there, and no step has the name of the root. */
  predicate IsEnded(chain: seq<Step>) {
    |chain| > 0 &&
    if chain[0].Root? || chain[0].Context? then |chain| == 1
    else (chain[0].Select? ==> chain[0].name != SLASH) && IsEnded(chain[1..])
  }

  /** No step of the chain tests or skips a node without leaving a trace in the key. */
  predicate LeavesTraces(chain: seq<Step>) {
    |chain| == 0 || (!chain[0].All? && !chain[0].Other? && LeavesTraces(chain[1..]))
  }

  /** The direct chains that the trie and `select_match` treat alike. */
  predicate IsPure(chain: seq<Step>) {
    |chain| > 0 && chain[0].Select? && PureTail(chain)
  }

  predicate PureTail(chain: seq<Step>) {
    IsEnded(chain) && LeavesTraces(chain)
  }

  /** An element below the root, or the root. */
  predicate InTree(root: Node, node: Node)
    decreases node
  {
    if node.element then
      node.name.Some? && node.name.value != SLASH && node.parent.Some? && InTree(root, node.parent.value)
    else
      node == root && node.parent.None?
  }

  /** The same, or a nameless node below one of these. */
  predicate InDocument(root: Node, node: Node) {
    InTree(root, node) || (!node.element && node.name.None? && node != root && node.parent.Some?
        && InTree(root, node.parent.value))
  }

  // ---------- what a chain accepts ----------

  /** The node so many steps up. */
  function Ancestor(node: Option<Node>, k: nat): Option<Node>
    decreases k
  {
    if k == 0 || node.None? then node else Ancestor(node.value.parent, k - 1)
  }

  /** The nodes the first i steps climb: one each for a name and for a star. */
  function Climbed(chain: seq<Step>, i: nat): nat
    requires i <= |chain|
  {
    if i == 0 then 0 else Climbed(chain, i - 1) + if chain[i - 1].Select? || chain[i - 1].All? then 1 else 0
  }

  /** How many steps of the chain come before one that decides by itself. */
  function Walk(chain: seq<Step>): (n: nat)
    ensures n <= |chain|
    ensures forall i :: 0 <= i < n ==> chain[i].Select? || chain[i].All? || chain[i].Self?
    ensures n < |chain| ==> chain[n].Root? || chain[n].Context? || chain[n].Other?
  {
    if |chain| == 0 || chain[0].Root? || chain[0].Context? || chain[0].Other? then 0 else 1 + Walk(chain[1..])
  }

  /** Step i finds the node it stands for: there is one, and it has the name if the step has. */
  ghost predicate StepFits(node: Option<Node>, chain: seq<Step>, i: nat)
    requires i <= |chain|
  {
    var a := Ancestor(node, Climbed(chain, i));
    i < |chain| ==> a.Some? && (chain[i].Select? ==> a.value.name == Some(chain[i].name))
  }

  /** The step that decides: the root itself, anything, or what its test says. */
  ghost predicate Decides(root: Node, holds: (nat, Node) -> bool, node: Option<Node>, chain: seq<Step>, i: nat)
    requires i <= |chain|
  {
    var a := Ancestor(node, Climbed(chain, i));
    i < |chain| ==>
      (a.Some? && (chain[i].Root? ==> a.value == root) && (chain[i].Other? ==> holds(chain[i].id, a.value)))
  }

  ghost predicate WalkFits(node: Option<Node>, chain: seq<Step>, n: nat)
    requires n <= |chain|
  {
    forall i: nat | i < n :: StepFits(node, chain, i)
  }

  lemma {:induction false} ClimbedTail(chain: seq<Step>, i: nat)
    requires 0 < i <= |chain|
    ensures Climbed(chain, i) == Climbed(chain, 1) + Climbed(chain[1..], i - 1)
    decreases i
  {
    if i > 1 {
      ClimbedTail(chain, i - 1);
      assert chain[1..][i - 2] == chain[i - 1];
    }
  }

  lemma {:induction false} AncestorPlus(node: Option<Node>, a: nat, b: nat)
    ensures Ancestor(node, a + b) == Ancestor(Ancestor(node, a), b)
    decreases a
  {
    if a > 0 && node.Some? {
      AncestorPlus(node.value.parent, a - 1, b);
    }
  }

  lemma ClimbTail(node: Option<Node>, chain: seq<Step>, i: nat)
    requires 0 < i <= |chain|
    ensures Ancestor(node, Climbed(chain, i))
      == Ancestor(Ancestor(node, Climbed(chain, 1)), Climbed(chain[1..], i - 1))
  {
    ClimbedTail(chain, i);
    AncestorPlus(node, Climbed(chain, 1), Climbed(chain[1..], i - 1));
  }

  lemma WalkTail(node: Option<Node>, chain: seq<Step>)
    requires |chain| > 0 && Walk(chain) > 0
    ensures WalkFits(node, chain, Walk(chain)) <==>
      (StepFits(node, chain, 0) && WalkFits(Ancestor(node, Climbed(chain, 1)), chain[1..], Walk(chain[1..])))
  {
    var up, n := Ancestor(node, Climbed(chain, 1)), Walk(chain);
    forall i: nat | 0 < i < n ensures StepFits(node, chain, i) <==> StepFits(up, chain[1..], i - 1) {
      ClimbTail(node, chain, i);
    }
    if WalkFits(up, chain[1..], n - 1) && StepFits(node, chain, 0) {
      forall i: nat | i < n ensures StepFits(node, chain, i) {
        if i > 0 {
          assert StepFits(up, chain[1..], i - 1);
        }
      }
    }
    if WalkFits(node, chain, n) {
      forall i: nat | i < n - 1 ensures StepFits(up, chain[1..], i) {
        assert StepFits(node, chain, i + 1);
      }
    }
  }

  lemma DecidesTail(root: Node, holds: (nat, Node) -> bool, node: Option<Node>, chain: seq<Step>)
    requires |chain| > 0 && Walk(chain) > 0
    ensures Decides(root, holds, node, chain, Walk(chain))
      <==> Decides(root, holds, Ancestor(node, Climbed(chain, 1)), chain[1..], Walk(chain[1..]))
  {
    ClimbTail(node, chain, Walk(chain));
  }

  /**
   A chain accepts a node exactly if each of its steps, up to the first that decides, finds a node one higher for
   every name and every star before it, with the name it asks for, and the step that decides accepts.
   */
  lemma {:induction false} MatchIff(root: Node, holds: (nat, Node) -> bool, node: Option<Node>, chain: seq<Step>)
    ensures SelectMatch(root, holds, node, chain)
      <==> WalkFits(node, chain, Walk(chain)) && Decides(root, holds, node, chain, Walk(chain))
    decreases |chain|
  {
    if Walk(chain) > 0 {
      WalkTail(node, chain);
      DecidesTail(root, holds, node, chain);
      var up := Ancestor(node, Climbed(chain, 1));
      MatchIff(root, holds, up, chain[1..]);
      assert Climbed(chain, 0) == 0 && Ancestor(node, 0) == node;
      if node.Some? {
        assert Ancestor(node, 1) == Ancestor(node.value.parent, 0) == node.value.parent;
      }
    }
  }

  lemma PrefixCons<T>(x: T, a: seq<T>, y: T, b: seq<T>)
    ensures [x] + a <= [y] + b <==> x == y && a <= b
  {
    if [x] + a <= [y] + b {
      assert ([x] + a)[1..] == a && ([y] + b)[1..] == b;
      assert ([x] + a)[0] == x && ([y] + b)[0] == y;
      assert forall i :: 0 <= i < |a| ==> a[i] == ([x] + a)[i + 1] == ([y] + b)[i + 1] == b[i];
    }
    if x == y && a <= b {
      assert ([y] + b)[..|a| + 1] == [x] + a;
    }
  }

  lemma {:induction false} RootIsNoElement(root: Node, node: Node)
    requires InTree(root, node)
    ensures !root.element
    decreases node
  {
    if node.element {
      RootIsNoElement(root, node.parent.value);
    }
  }

  lemma {:induction false} TailAccepts(root: Node, holds: (nat, Node) -> bool, node: Node, chain: seq<Step>)
    requires PureTail(chain) && InTree(root, node)
    ensures SelectMatch(root, holds, Some(node), chain) <==> Key(chain) <= NodeKey(node)
    decreases |chain|
  {
    match chain[0] {
      case Select(n) =>
        var up := if node.parent.Some? then NodeKey(node.parent.value) else [];
        assert NodeKey(node)[1..] == up;
        assert Key(chain)[1..] == Key(chain[1..]);
        if node.element {
          TailAccepts(root, holds, node.parent.value, chain[1..]);
          PrefixCons(n, Key(chain[1..]), node.name.value, up);
        } else {
          assert IsEnded(chain[1..]);
          assert Key(chain)[0] != NodeKey(node)[0];
        }
      case Root =>
        RootIsNoElement(root, node);
        assert Key(chain) == [SLASH];
        assert NodeKey(node)[0] == SLASH <==> !node.element;
      case Context =>
        assert Key(chain) == [];
      case Self =>
        TailAccepts(root, holds, node, chain[1..]);
    }
  }

  /** A pure pattern accepts a node exactly when its key is the beginning of the node's. */
  lemma AcceptsIffPrefix(root: Node, holds: (nat, Node) -> bool, node: Node, chain: seq<Step>)
    requires IsPure(chain) && InDocument(root, node)
    ensures SelectMatch(root, holds, Some(node), chain) <==> Key(chain) <= NodeKey(node)
  {
    if InTree(root, node) {
      TailAccepts(root, holds, node, chain);
    } else {
      assert Key(chain)[0] == chain[0].name && NodeKey(node)[0] == SLASH;
    }
  }

  // ---------- the chains that are treated alike ----------

  /** In every document the key decides what the chain accepts. */
  ghost predicate KeyDecides(chain: seq<Step>) {
    forall root: Node, holds: (nat, Node) -> bool, node: Node ::
      InDocument(root, node) ==> (SelectMatch(root, holds, Some(node), chain) <==> Key(chain) <= NodeKey(node))
  }

  const Top := Node(0, false, None, None)

  /** Elements of these names, the first the innermost, below the root. */
  function Tower(names: seq<string>): Node {
    if |names| == 0 then Top else Node(|names|, true, Some(names[0]), Some(Tower(names[1..])))
  }

  lemma {:induction false} TowerStands(names: seq<string>)
    requires forall i :: 0 <= i < |names| ==> names[i] != SLASH
    ensures InTree(Top, Tower(names)) && NodeKey(Tower(names)) == names + [SLASH]
    decreases |names|
  {
    if |names| > 0 {
      TowerStands(names[1..]);
      assert [names[0]] + (names[1..] + [SLASH]) == names + [SLASH];
    }
  }

  /** The names of a chain. */
  function Names(chain: seq<Step>): (r: seq<string>)
    ensures |r| <= |chain|
  {
    if |chain| == 0 then []
    else if chain[0].Select? then [chain[0].name] + Names(chain[1..])
    else Names(chain[1..])
  }

  /** The nodes a chain climbs. */
  function Climbs(chain: seq<Step>): nat {
    if |chain| == 0 then 0 else (if chain[0].Select? || chain[0].All? then 1 else 0) + Climbs(chain[1..])
  }

  lemma {:induction false} NamesAreKey(chain: seq<Step>)
    requires IsEnded(chain)
    ensures Key(chain) <= Names(chain) + [SLASH]
    ensures forall i :: 0 <= i < |Names(chain)| ==> Names(chain)[i] != SLASH
    ensures LeavesTraces(chain) || Climbs(chain) > |Names(chain)| || !NoTests(chain)
    ensures Climbs(chain) >= |Names(chain)|
    decreases |chain|
  {
    if chain[0].Root? || chain[0].Context? {
      assert chain == [chain[0]] && Key(chain[1..]) == [];
    } else {
      NamesAreKey(chain[1..]);
      if chain[0].Select? {
        assert Names(chain) + [SLASH] == [chain[0].name] + (Names(chain[1..]) + [SLASH]);
        PrefixCons(chain[0].name, Key(chain[1..]), chain[0].name, Names(chain[1..]) + [SLASH]);
      }
    }
  }

  predicate NoTests(chain: seq<Step>) {
    |chain| == 0 || (!chain[0].Other? && NoTests(chain[1..]))
  }

  /** Where no test holds, a chain accepts only nodes at least as deep as it climbs. */
  lemma {:induction false} AcceptedIsDeep(root: Node, node: Option<Node>, chain: seq<Step>)
    requires IsEnded(chain) && SelectMatch(root, (id, n) => false, node, chain)
    ensures node.Some? && |NodeKey(node.value)| > Climbs(chain) && NoTests(chain)
    decreases |chain|
  {
    match chain[0]
    case Select(_) => AcceptedIsDeep(root, node.value.parent, chain[1..]);
    case All => AcceptedIsDeep(root, node.value.parent, chain[1..]);
    case Self => AcceptedIsDeep(root, node, chain[1..]);
    case _ =>
  }

  /** The chain does not accept the elements of its own names, although the trie leads them to it. */
  lemma OwnNamesRejected(chain: seq<Step>)
    requires IsEnded(chain) && !LeavesTraces(chain)
    ensures InDocument(Top, Tower(Names(chain))) && Key(chain) <= NodeKey(Tower(Names(chain)))
    ensures !SelectMatch(Top, (id, n) => false, Some(Tower(Names(chain))), chain)
  {
    NamesAreKey(chain);
    TowerStands(Names(chain));
    if SelectMatch(Top, (id, n) => false, Some(Tower(Names(chain))), chain) {
      AcceptedIsDeep(Top, Some(Tower(Names(chain))), chain);
    }
  }

  /** A nameless node below the root has the key of the root, but is not accepted for it. */
  lemma RootAlone(holds: (nat, Node) -> bool)
    ensures var node := Node(1, false, None, Some(Top));
      InDocument(Top, node) && Key([Root]) <= NodeKey(node) && !SelectMatch(Top, holds, Some(node), [Root])
  {
    var node := Node(1, false, None, Some(Top));
    assert Key([Root]) == [SLASH] && NodeKey(node) == [SLASH] + NodeKey(Top);
  }

  /** The trie and `select_match` treat a direct chain alike if and only if it is pure. */
  lemma KeyDecidesIffPure(chain: seq<Step>)
    requires IsDirect(chain) && IsEnded(chain)
    ensures KeyDecides(chain) <==> chain[0].Select? && LeavesTraces(chain)
  {
    if IsPure(chain) {
      forall root: Node, holds: (nat, Node) -> bool, node: Node | InDocument(root, node)
        ensures SelectMatch(root, holds, Some(node), chain) <==> Key(chain) <= NodeKey(node)
      {
        AcceptsIffPrefix(root, holds, node, chain);
      }
    } else if chain[0].Root? {
      assert chain == [Root];
      RootAlone((id, n) => false);
    } else {
      OwnNamesRejected(chain);
    }
  }

  // ---------- weights ----------

  predicate NoSelf(chain: seq<Step>) {
    |chain| == 0 || (!chain[0].Self? && NoSelf(chain[1..]))
  }

  /** What the weight counts besides the key: steps to the node itself, and the context at the end. */
  function Untraced(chain: seq<Step>): nat {
    if |chain| == 0 then 0 else (if chain[0].Self? || chain[0].Context? then 1 else 0) + Untraced(chain[1..])
  }

  lemma {:induction false} WeightSplits(chain: seq<Step>)
    requires PureTail(chain)
    ensures |chain| == |Key(chain)| + Untraced(chain)
    ensures NoSelf(chain) ==> Untraced(chain) <= 1
    decreases |chain|
  {
    if |chain| == 1 {
      assert chain[1..] == [];
    } else {
      WeightSplits(chain[1..]);
    }
  }

  lemma KeyKind(chain: seq<Step>)
    requires PureTail(chain) && NoSelf(chain)
    ensures Key(chain) == [] <==> chain == [Context]
    ensures Key(chain) == [SLASH] <==> chain == [Root]
    ensures |chain| == 1 ==> chain == [Context] || chain == [Root]
  {
    if chain[0].Select? {
      assert Key(chain)[0] == chain[0].name;
    } else {
      assert chain == [chain[0]] && Key(chain[1..]) == [];
    }
  }

  lemma {:induction false} KeyInjective(c1: seq<Step>, c2: seq<Step>)
    requires PureTail(c1) && PureTail(c2) && NoSelf(c1) && NoSelf(c2) && Key(c1) == Key(c2)
    ensures c1 == c2
    decreases |c1|
  {
    if c1[0].Select? {
      assert Key(c1)[0] == c1[0].name;
      assert c2[0].Select?;
      assert Key(c1)[1..] == Key(c1[1..]) && Key(c2)[1..] == Key(c2[1..]);
      KeyInjective(c1[1..], c2[1..]);
      assert c1 == [c1[0]] + c1[1..] && c2 == [c2[0]] + c2[1..];
    } else {
      KeyKind(c1);
      KeyKind(c2);
    }
  }

  /** The test on the first step lets other chains in: a wildcard step in the middle leaves no trace in the key. */
  lemma FirstStepIsNotEnough(holds: (nat, Node) -> bool) returns (root: Node, node: Node, chain: seq<Step>)
    ensures IsDirect(chain) && InDocument(root, node) && Key(chain) <= NodeKey(node)
    ensures !SelectMatch(root, holds, Some(node), chain)
  {
    root := Node(0, false, None, None);
    var a := Node(1, true, Some("a"), Some(root));
    var b := Node(2, true, Some("b"), Some(a));
    node := b;
    chain := [Select("b"), All, Select("a"), Context];
    assert chain[1..] == [All, Select("a"), Context] && chain[1..][1..] == [Select("a"), Context];
    assert chain[1..][1..][1..] == [Context];
    assert Key(chain) == ["b"] + (["a"] + Key([Context]));
    assert NodeKey(b) == ["b"] + (["a"] + NodeKey(root));
    assert Key(chain) <= NodeKey(b);
    assert !SelectMatch(root, holds, Some(root), [Select("a"), Context]);
    assert !SelectMatch(root, holds, Some(a), chain[1..]);
    assert !SelectMatch(root, holds, Some(b), chain);
  }
}
