/**
 What each instruction means, written down from the instruction alone: one equation for each, whose
 right-hand side names only meanings of other bodies and the answers of the oracle. Together they
 determine the meaning of every body that has one, and so the result tree of every transformation.
 */
module Laws {
  import opened Wrappers
  import opened Activities
  import opened Bodies
  import opened Instructions
  import opened Meaning

  ghost function Meant(o: Oracle, f: Frame): Outcome {
    Result(Xslt(o), f)
  }

  /** The context behind its first instruction. */
  function Rest(f: Frame): Frame
    requires f.code != []
  {
    f.(code := f.code[1..])
  }

  // ---------- shapes of meaning ----------

  /** Nodes of its own, then the rest. */
  ghost function Gives(o: Oracle, trees: seq<Tree>, f: Frame): Outcome
    requires f.code != []
  {
    Before(trees, Meant(o, Rest(f)))
  }

  /** A body in the place of its instruction: the same node, parameters and variables. */
  ghost function Inline(o: Oracle, f: Frame, body: seq<Instr>): Outcome
    requires f.code != []
  {
    match Meant(o, f.(code := body, shared := true))
    case None => None
    case Some((trees, vars)) => Before(trees, Meant(o, Rest(f).(locals := vars)))
  }

  /** The same body below a new node. */
  ghost function Beneath(o: Oracle, payload: Payload, f: Frame, body: seq<Instr>): Outcome
    requires f.code != []
  {
    match Meant(o, f.(code := body, shared := true))
    case None => None
    case Some((trees, vars)) => Before([Tree(payload, trees)], Meant(o, Rest(f).(locals := vars)))
  }

  /** A body evaluated for its nodes: no parameters, the variables of the instruction. */
  ghost function Aside(o: Oracle, f: Frame, body: seq<Instr>): Outcome {
    Meant(o, Frame(body, f.node, [], f.locals, true))
  }

  /** A subtree of the result: one that is there at once, or a node that a context of its own fills. */
  datatype Item = Ready(tree: Tree) | Filled(payload: Payload, inner: Frame)

  ghost predicate HasTree(o: Oracle, i: Item) {
    i.Ready? || Meant(o, i.inner).Some?
  }

  ghost function TreeOf(o: Oracle, i: Item): Tree
    requires HasTree(o, i)
  {
    match i
    case Ready(tree) => tree
    case Filled(payload, inner) => Tree(payload, Meant(o, inner).value.0)
  }

  ghost function Trees(o: Oracle, items: seq<Item>): seq<Tree>
    requires forall i :: 0 <= i < |items| ==> HasTree(o, items[i])
  {
    seq(|items|, i requires 0 <= i < |items| => TreeOf(o, items[i]))
  }

  /** All the subtrees, in their order, then the rest; the contexts that fill them leave no variables. */
  ghost function Items(o: Oracle, items: seq<Item>, rest: Outcome): Outcome {
    if forall i :: 0 <= i < |items| ==> HasTree(o, items[i]) then Before(Trees(o, items), rest) else None
  }

  lemma BeforeTwice(a: seq<Tree>, b: seq<Tree>, rest: Outcome)
    ensures Before(a, Before(b, rest)) == Before(a + b, rest)
  {
    if rest.Some? {
      assert a + (b + rest.value.0) == a + b + rest.value.0;
    }
  }

  lemma ItemsOfNone(o: Oracle, items: seq<Item>, rest: Outcome)
    requires items == []
    ensures Items(o, items, rest) == rest
  {
    assert Trees(o, items) == [];
    BeforeNothing(rest);
  }

  lemma ItemsOfCons(o: Oracle, items: seq<Item>, rest: Outcome)
    requires items != []
    ensures Items(o, items, rest) ==
      if HasTree(o, items[0]) then Before([TreeOf(o, items[0])], Items(o, items[1..], rest)) else None
  {
    var tail := items[1..];
    if forall i :: 0 <= i < |items| ==> HasTree(o, items[i]) {
      assert forall i :: 0 <= i < |tail| ==> HasTree(o, tail[i]) by {
        assert forall i :: 0 <= i < |tail| ==> tail[i] == items[i + 1];
      }
      assert Trees(o, items) == [TreeOf(o, items[0])] + Trees(o, tail);
      BeforeTwice([TreeOf(o, items[0])], Trees(o, tail), rest);
    } else if HasTree(o, items[0]) {
      var i :| 0 <= i < |items| && !HasTree(o, items[i]);
      assert tail[i - 1] == items[i];
    }
  }

  // ---------- variables ----------

  /** `i` is the first place of the name. */
  ghost predicate IsFirst(vars: Bindings, name: string, i: nat) {
    i < |vars| && vars[i].0 == name && forall j :: 0 <= j < i ==> vars[j].0 != name
  }

  ghost predicate Unbound(vars: Bindings, name: string) {
    forall j :: 0 <= j < |vars| ==> vars[j].0 != name
  }

  /** The list with the first variable of that name changed, if there is one. */
  ghost function Changed(vars: Bindings, name: string, value: Value): Bindings {
    if i: nat :| IsFirst(vars, name, i) then vars[i := (name, value)] else vars
  }

  /** And with a new one in front, if there is none. */
  ghost function Bound(vars: Bindings, name: string, value: Value): Bindings {
    if Unbound(vars, name) then [(name, value)] + vars else Changed(vars, name, value)
  }

  function Backwards<T>(s: seq<T>): (r: seq<T>)
    ensures |r| == |s| && forall i :: 0 <= i < |s| ==> r[i] == s[|s| - 1 - i]
  {
    seq(|s|, i requires 0 <= i < |s| => s[|s| - 1 - i])
  }

  /** The values of the attributes expanded, the list turned around. */
  function Expanded(o: Oracle, attributes: seq<(string, string)>, f: Frame): seq<(string, string)> {
    seq(|attributes|, i requires 0 <= i < |attributes| =>
      var a := attributes[|attributes| - 1 - i];
      (a.0, o.fill(a.1, f.locals, f.node)))
  }

  lemma {:induction false} LookupIs(vars: Bindings, name: string)
    ensures Unbound(vars, name) ==> Lookup(vars, name) == None
    ensures forall i: nat :: IsFirst(vars, name, i) ==> Lookup(vars, name) == Some(vars[i].1)
    ensures !Unbound(vars, name) ==> exists i: nat :: IsFirst(vars, name, i)
    decreases |vars|
  {
    if vars != [] && vars[0].0 != name {
      var tail := vars[1..];
      LookupIs(tail, name);
      assert forall i: nat :: IsFirst(vars, name, i) ==> i > 0 && IsFirst(tail, name, i - 1);
      if !Unbound(vars, name) {
        assert !Unbound(tail, name);
        var i: nat :| IsFirst(tail, name, i);
        assert IsFirst(vars, name, i + 1);
      }
    } else if vars != [] {
      assert IsFirst(vars, name, 0);
    }
  }

  lemma FirstBehind(vars: Bindings, name: string, i: nat)
    requires vars != [] && vars[0].0 != name
    ensures IsFirst(vars[1..], name, i) <==> IsFirst(vars, name, i + 1)
  {
    if IsFirst(vars[1..], name, i) {
      assert forall j :: 0 < j < i + 1 ==> vars[j] == vars[1..][j - 1];
    }
    if IsFirst(vars, name, i + 1) {
      assert forall j :: 0 <= j < i ==> vars[1..][j] == vars[j + 1];
    }
  }

  lemma ChangedAt(vars: Bindings, name: string, value: Value, i: nat)
    requires IsFirst(vars, name, i)
    ensures Changed(vars, name, value) == vars[i := (name, value)]
  {
  }

  /** A change behind the first variable. */
  lemma ChangedBehind(vars: Bindings, name: string, value: Value)
    requires vars != [] && vars[0].0 != name
    ensures Changed(vars, name, value) == [vars[0]] + Changed(vars[1..], name, value)
  {
    var tail := vars[1..];
    if i: nat :| IsFirst(tail, name, i) {
      FirstBehind(vars, name, i);
      ChangedAt(tail, name, value, i);
      ChangedAt(vars, name, value, i + 1);
      assert vars[i + 1 := (name, value)] == [vars[0]] + tail[i := (name, value)];
    } else {
      forall i: nat ensures !IsFirst(vars, name, i) {
        if i > 0 {
          FirstBehind(vars, name, i - 1);
        }
      }
      assert vars == [vars[0]] + tail;
    }
  }

  lemma {:induction false} OverwriteIs(vars: Bindings, name: string, value: Value)
    ensures Overwrite(vars, name, value) == Changed(vars, name, value)
    decreases |vars|
  {
    if vars != [] && vars[0].0 != name {
      OverwriteIs(vars[1..], name, value);
      ChangedBehind(vars, name, value);
    } else if vars != [] {
      ChangedAt(vars, name, value, 0);
      assert vars[0 := (name, value)] == [(name, value)] + vars[1..];
    }
  }

  lemma AssignIs(vars: Bindings, name: string, value: Value)
    ensures Assign(vars, name, value) == Bound(vars, name, value)
  {
    LookupIs(vars, name);
    OverwriteIs(vars, name, value);
  }

  lemma {:induction false} CopyIs(vars: Bindings)
    ensures CopyVariables(vars) == Backwards(vars)
    decreases |vars|
  {
    if vars != [] {
      CopyIs(vars[1..]);
      assert Backwards(vars) == Backwards(vars[1..]) + [vars[0]];
    }
  }

  lemma {:induction false} FillIs(o: Oracle, attributes: seq<(string, string)>, f: Frame)
    ensures Fill(o, attributes, f.locals, f.node) == Expanded(o, attributes, f)
    decreases |attributes|
  {
    if attributes != [] {
      FillIs(o, attributes[1..], f);
      assert Expanded(o, attributes, f) == Expanded(o, attributes[1..], f)
        + [(attributes[0].0, o.fill(attributes[0].1, f.locals, f.node))];
    }
  }

  /** The equation of `Meaning` for this instruction set. */
  lemma Unfold(o: Oracle, f: Frame)
    requires f.code != []
    ensures Meant(o, f) == Following(Xslt(o), Act(o, f))
  {
    ResultUnfolds(Xslt(o), f);
  }

  /** A body with nothing in it gives nothing and leaves the variables. */
  lemma NothingMeans(o: Oracle, f: Frame)
    requires f.code == []
    ensures Meant(o, f) == Some(([], f.locals))
  {
    ResultUnfolds(Xslt(o), f);
  }

  // ---------- the instructions ----------

  lemma PlainTextMeans(o: Oracle, f: Frame, text: string, raw: bool)
    requires f.code != [] && f.code[0] == PlainText(text, raw)
    ensures Meant(o, f) == Gives(o, [Tree(Text(text, raw), [])], f)
  {
    Unfold(o, f);
  }

  /** A literal element: its attributes expanded, its body over a copy of the variables. */
  lemma LiteralMeans(o: Oracle, f: Frame, name: string, attributes: seq<(string, string)>, body: seq<Instr>)
    requires f.code != [] && f.code[0] == Literal(name, attributes, body)
    ensures Meant(o, f) == Items(o, [Filled(Element(name, Expanded(o, attributes, f)),
        f.(code := body, locals := Backwards(f.locals), shared := false))], Meant(o, Rest(f)))
  {
    Unfold(o, f);
    FillIs(o, attributes, f);
    CopyIs(f.locals);
    var inner := f.(code := body, locals := Backwards(f.locals), shared := false);
    OneItem(o, Filled(Element(name, Expanded(o, attributes, f)), inner), Meant(o, Rest(f)));
    if body == [] {
      NothingMeans(o, inner);
    }
  }

  lemma OneItem(o: Oracle, item: Item, rest: Outcome)
    ensures Items(o, [item], rest) == if HasTree(o, item) then Before([TreeOf(o, item)], rest) else None
  {
    ItemsOfCons(o, [item], rest);
    ItemsOfNone(o, [item][1..], rest);
  }

  lemma IncludeMeans(o: Oracle, f: Frame, body: seq<Instr>)
    requires f.code != [] && f.code[0] == Include(body)
    ensures Meant(o, f) == Meant(o, f.(code := body + f.code[1..]))
  {
    Unfold(o, f);
  }

  /** One text for each part. */
  function Texts(parts: seq<string>, raw: bool): (r: seq<Tree>)
    ensures |r| == |parts| && forall i :: 0 <= i < |r| ==> r[i] == Tree(Text(parts[i], raw), [])
  {
    seq(|parts|, i requires 0 <= i < |parts| => Tree(Text(parts[i], raw), []))
  }

  /** `xsl:text`: its parts in their order. */
  lemma {:induction false} XslTextMeans(o: Oracle, f: Frame, parts: seq<string>, raw: bool)
    requires f.code != [] && f.code[0] == XslText(parts, raw)
    ensures Meant(o, f) == Gives(o, Texts(parts, raw), f)
    decreases |parts|
  {
    Unfold(o, f);
    if parts == [] {
      assert Texts(parts, raw) == [];
      BeforeNothing(Meant(o, Rest(f)));
    } else {
      var next := f.(code := [XslText(parts[1..], raw)] + f.code[1..]);
      XslTextMeans(o, next, parts[1..], raw);
      assert Rest(next) == Rest(f);
      assert Texts(parts, raw) == [Tree(Text(parts[0], raw), [])] + Texts(parts[1..], raw);
      BeforeTwice([Tree(Text(parts[0], raw), [])], Texts(parts[1..], raw), Meant(o, Rest(f)));
    }
  }

  lemma ValueOfMeans(o: Oracle, f: Frame, select: Expr, raw: bool)
    requires f.code != [] && f.code[0] == ValueOf(select, raw)
    ensures Meant(o, f) ==
      match o.text(select, f.locals, f.node)
      case Some(s) => Gives(o, [Tree(Text(s, raw), [])], f)
      case None => Meant(o, Rest(f))
  {
    Unfold(o, f);
  }

  lemma XslElementMeans(o: Oracle, f: Frame, name: string, namespace: Option<string>, fork: Option<string>,
      body: seq<Instr>)
    requires f.code != [] && f.code[0] == XslElement(name, namespace, fork, body)
    ensures Meant(o, f) == Items(o, [Filled(Element(o.fill(name, f.locals, f.node),
          if namespace.Some? then [("xmlns", o.fill(namespace.value, f.locals, f.node))] else []),
        f.(code := body, locals := Backwards(f.locals), shared := false))], Meant(o, Rest(f)))
  {
    Unfold(o, f);
    CopyIs(f.locals);
    OneItem(o, Filled(Element(o.fill(name, f.locals, f.node),
          if namespace.Some? then [("xmlns", o.fill(namespace.value, f.locals, f.node))] else []),
        f.(code := body, locals := Backwards(f.locals), shared := false)), Meant(o, Rest(f)));
  }

  /** `xsl:if` runs its body exactly when the test holds. */
  lemma IfMeans(o: Oracle, f: Frame, test: Expr, body: seq<Instr>)
    requires f.code != [] && f.code[0] == If(test, body)
    ensures Meant(o, f) == if o.test(test, f.locals, f.node) then Inline(o, f, body) else Meant(o, Rest(f))
  {
    Unfold(o, f);
  }

  /** No `when` before place `i` holds. */
  ghost predicate NoneHolds(o: Oracle, f: Frame, clauses: seq<Clause>, i: nat)
    requires i <= |clauses|
  {
    forall j :: 0 <= j < i && clauses[j].When? ==> !o.test(clauses[j].test, f.locals, f.node)
  }

  ghost predicate LastOtherwise(clauses: seq<Clause>, i: nat) {
    i < |clauses| && clauses[i].Otherwise? && forall j :: i < j < |clauses| ==> clauses[j].When?
  }

  lemma {:induction false} ChosenWhen(o: Oracle, f: Frame, clauses: seq<Clause>, i: nat, otherwise: seq<Instr>)
    requires i < |clauses| && clauses[i].When? && o.test(clauses[i].test, f.locals, f.node)
    requires NoneHolds(o, f, clauses, i)
    ensures Chosen(o, clauses, f.locals, f.node, otherwise) == clauses[i].body
    decreases i
  {
    if i > 0 {
      assert NoneHolds(o, f, clauses[1..], i - 1);
      ChosenWhen(o, f, clauses[1..], i - 1, if clauses[0].Otherwise? then clauses[0].body else otherwise);
    }
  }

  lemma {:induction false} ChosenOtherwise(o: Oracle, f: Frame, clauses: seq<Clause>, otherwise: seq<Instr>)
    requires NoneHolds(o, f, clauses, |clauses|)
    ensures forall i: nat :: LastOtherwise(clauses, i) ==>
      Chosen(o, clauses, f.locals, f.node, otherwise) == clauses[i].body
    ensures (forall i :: 0 <= i < |clauses| ==> clauses[i].When?) ==>
      Chosen(o, clauses, f.locals, f.node, otherwise) == otherwise
    decreases |clauses|
  {
    if clauses != [] {
      var tail := clauses[1..];
      assert NoneHolds(o, f, tail, |tail|);
      ChosenOtherwise(o, f, tail, if clauses[0].Otherwise? then clauses[0].body else otherwise);
      forall i: nat | LastOtherwise(clauses, i)
        ensures Chosen(o, clauses, f.locals, f.node, otherwise) == clauses[i].body
      {
        if i > 0 {
          assert LastOtherwise(tail, i - 1);
        }
      }
    }
  }

  /** `xsl:choose` runs the first `when` that holds. */
  lemma ChooseWhenMeans(o: Oracle, f: Frame, clauses: seq<Clause>, i: nat)
    requires f.code != [] && f.code[0] == Choose(clauses)
    requires i < |clauses| && clauses[i].When? && o.test(clauses[i].test, f.locals, f.node)
    requires NoneHolds(o, f, clauses, i)
    ensures Meant(o, f) == Inline(o, f, clauses[i].body)
  {
    Unfold(o, f);
    ChosenWhen(o, f, clauses, i, []);
  }

  /** Where none holds, it runs the last `otherwise`. */
  lemma ChooseOtherwiseMeans(o: Oracle, f: Frame, clauses: seq<Clause>, i: nat)
    requires f.code != [] && f.code[0] == Choose(clauses)
    requires NoneHolds(o, f, clauses, |clauses|) && LastOtherwise(clauses, i)
    ensures Meant(o, f) == Inline(o, f, clauses[i].body)
  {
    Unfold(o, f);
    ChosenOtherwise(o, f, clauses, []);
  }

  /** And without one, nothing. */
  lemma ChooseNothingMeans(o: Oracle, f: Frame, clauses: seq<Clause>)
    requires f.code != [] && f.code[0] == Choose(clauses) && NoneHolds(o, f, clauses, |clauses|)
    requires forall i :: 0 <= i < |clauses| ==> clauses[i].When?
    ensures Meant(o, f) == Meant(o, Rest(f))
  {
    Unfold(o, f);
    ChosenOtherwise(o, f, clauses, []);
    NothingMeans(o, f.(code := [], shared := true));
    BeforeNothing(Meant(o, Rest(f)));
    assert Rest(f).(locals := f.locals) == Rest(f);
  }

  // ---------- loops ----------

  /** The placeholders of `xsl:for-each`: one for each node, filled by the body with that node as context. */
  function BodyForEach(f: Frame, nodes: seq<DocNode>, body: seq<Instr>): seq<Item> {
    seq(|nodes|, i requires 0 <= i < |nodes| =>
      Filled(Placeholder, f.(code := body, node := nodes[i], locals := Backwards(f.locals), shared := false)))
  }

  lemma {:induction false} EachNodeMeans(o: Oracle, f: Frame, nodes: seq<DocNode>, fork: Option<string>,
      body: seq<Instr>)
    requires f.code != [] && f.code[0] == EachNode(nodes, fork, body)
    ensures Meant(o, f) == Items(o, BodyForEach(f, nodes, body), Meant(o, Rest(f)))
    decreases |nodes|
  {
    Unfold(o, f);
    var items := BodyForEach(f, nodes, body);
    if nodes == [] {
      ItemsOfNone(o, items, Meant(o, Rest(f)));
    } else {
      var next := f.(code := [EachNode(nodes[1..], fork, body)] + f.code[1..]);
      EachNodeMeans(o, next, nodes[1..], fork, body);
      assert Rest(next) == Rest(f);
      assert BodyForEach(next, nodes[1..], body) == items[1..];
      ItemsOfCons(o, items, Meant(o, Rest(f)));
      CopyIs(f.locals);
    }
  }

  /** `xsl:for-each`: a placeholder for each node of the selection, in its order. */
  lemma ForEachMeans(o: Oracle, f: Frame, select: Expr, fork: Option<string>, body: seq<Instr>)
    requires f.code != [] && f.code[0] == ForEach(select, fork, body)
    ensures Meant(o, f) ==
      Items(o, BodyForEach(f, o.selectNodes(select, f.locals, f.node), body), Meant(o, Rest(f)))
  {
    Unfold(o, f);
    var nodes := o.selectNodes(select, f.locals, f.node);
    var next := f.(code := [EachNode(nodes, fork, body)] + f.code[1..]);
    EachNodeMeans(o, next, nodes, fork, body);
    assert Rest(next) == Rest(f);
    assert BodyForEach(next, nodes, body) == BodyForEach(f, nodes, body);
  }

  // ---------- calls ----------

  /**
   The parameters of a call, newest first, and the variables when they have been evaluated; each is the
   value of its expression or the nodes of its body.
   */
  ghost function Given(o: Oracle, f: Frame, args: seq<Argument>, before: Bindings): Option<(Bindings, Bindings)>
    decreases |args|
  {
    if args == [] then Some((before, f.locals))
    else
      match args[0].value
      case Select(e) => Given(o, f, args[1..], [(args[0].name, o.eval(e, f.locals, f.node))] + before)
      case Body(body) =>
        match Aside(o, f, body)
        case None => None
        case Some((trees, vars)) =>
          Given(o, f.(locals := vars), args[1..], [(args[0].name, Fragment(trees))] + before)
  }

  /** The placeholders of `xsl:apply-templates`: one for each node, with no variables and these parameters. */
  function NodeForEach(nodes: seq<DocNode>, mode: Option<string>, params: Bindings): seq<Item> {
    seq(|nodes|, i requires 0 <= i < |nodes| =>
      Filled(Placeholder, Frame([ProcessNode(mode)], nodes[i], params, [], false)))
  }

  /** They follow the parameters; a call without any hands on its own. */
  ghost function NodesGiven(o: Oracle, f: Frame, nodes: seq<DocNode>, mode: Option<string>,
      call: Option<(Bindings, Bindings)>): Outcome
    requires f.code != []
  {
    match call
    case None => None
    case Some((given, vars)) =>
      Items(o, NodeForEach(nodes, mode, if given == [] then f.params else given), Meant(o, Rest(f).(locals := vars)))
  }

  /** One placeholder follows the parameters: a body on the same node, with them alone and no variables. */
  ghost function BodyGiven(o: Oracle, f: Frame, body: seq<Instr>, call: Option<(Bindings, Bindings)>): Outcome
    requires f.code != []
  {
    match call
    case None => None
    case Some((given, vars)) =>
      Items(o, [Filled(Placeholder, Frame(body, f.node, given, [], false))], Meant(o, Rest(f).(locals := vars)))
  }

  lemma {:induction false} EachTemplateMeans(o: Oracle, f: Frame, nodes: seq<DocNode>, mode: Option<string>,
      fork: Option<string>, params: Bindings)
    requires f.code != [] && f.code[0] == EachTemplate(nodes, mode, fork, params)
    ensures Meant(o, f) == Items(o, NodeForEach(nodes, mode, params), Meant(o, Rest(f)))
    decreases |nodes|
  {
    Unfold(o, f);
    var items := NodeForEach(nodes, mode, params);
    if nodes == [] {
      ItemsOfNone(o, items, Meant(o, Rest(f)));
    } else {
      var next := f.(code := [EachTemplate(nodes[1..], mode, fork, params)] + f.code[1..]);
      EachTemplateMeans(o, next, nodes[1..], mode, fork, params);
      assert Rest(next) == Rest(f);
      assert NodeForEach(nodes[1..], mode, params) == items[1..];
      ItemsOfCons(o, items, Meant(o, Rest(f)));
    }
  }

  /** Once the parameters are there. */
  lemma NodesAtLast(o: Oracle, f: Frame, nodes: seq<DocNode>, mode: Option<string>, fork: Option<string>,
      ready: Bindings)
    requires f.code != [] && f.code[0] == ArgumentsThenNodes(nodes, mode, fork, [], ready)
    ensures Meant(o, f) == NodesGiven(o, f, nodes, mode, Some((ready, f.locals)))
  {
    Unfold(o, f);
    var params := if ready == [] then f.params else ready;
    var next := f.(code := [EachTemplate(nodes, mode, fork, params)] + f.code[1..]);
    EachTemplateMeans(o, next, nodes, mode, fork, params);
    assert Rest(next) == Rest(f) == Rest(f).(locals := f.locals);
  }

  /** A body given as a parameter: the rest of them, with its nodes and the variables it leaves. */
  lemma NodesBodyStep(o: Oracle, f: Frame, nodes: seq<DocNode>, mode: Option<string>, fork: Option<string>,
      args: seq<Argument>, before: Bindings, trees: seq<Tree>, vars: Bindings, next: Frame)
    requires f.code != [] && f.code[0] == ArgumentsThenNodes(nodes, mode, fork, args, before)
    requires args != [] && args[0].value.Body? && Aside(o, f, args[0].value.body) == Some((trees, vars))
    requires next == f.(locals := vars,
      code := [ArgumentsThenNodes(nodes, mode, fork, args[1..], [(args[0].name, Fragment(trees))] + before)]
        + f.code[1..])
    ensures Meant(o, f) == Meant(o, next)
  {
    Unfold(o, f);
    BeforeNothing(Meant(o, next));
  }

  /** The nodes one by one, once the parameters are there. */
  lemma {:induction false} ArgumentsThenNodesMean(o: Oracle, f: Frame, nodes: seq<DocNode>, mode: Option<string>,
      fork: Option<string>, args: seq<Argument>, before: Bindings)
    requires f.code != [] && f.code[0] == ArgumentsThenNodes(nodes, mode, fork, args, before)
    ensures Meant(o, f) == NodesGiven(o, f, nodes, mode, Given(o, f, args, before))
    decreases |args|
  {
    if args == [] {
      NodesAtLast(o, f, nodes, mode, fork, before);
    } else {
      var name := args[0].name;
      match args[0].value {
        case Select(e) =>
          Unfold(o, f);
          var more := [(name, o.eval(e, f.locals, f.node))] + before;
          var next := f.(code := [ArgumentsThenNodes(nodes, mode, fork, args[1..], more)] + f.code[1..]);
          ArgumentsThenNodesMean(o, next, nodes, mode, fork, args[1..], more);
          GivenFrame(o, f, next, args[1..], more);
          assert Rest(next) == Rest(f);
        case Body(body) =>
          if Aside(o, f, body).Some? {
            var (trees, vars) := Aside(o, f, body).value;
            var more := [(name, Fragment(trees))] + before;
            var next := f.(locals := vars,
                code := [ArgumentsThenNodes(nodes, mode, fork, args[1..], more)] + f.code[1..]);
            NodesBodyStep(o, f, nodes, mode, fork, args, before, trees, vars, next);
            ArgumentsThenNodesMean(o, next, nodes, mode, fork, args[1..], more);
            GivenFrame(o, f.(locals := vars), next, args[1..], more);
            assert Rest(next) == Rest(f).(locals := vars);
          } else {
            Unfold(o, f);
          }
      }
    }
  }

  /** The code behind a call has no part in its parameters. */
  lemma {:induction false} GivenFrame(o: Oracle, f: Frame, g: Frame, args: seq<Argument>, before: Bindings)
    requires f.node == g.node && f.locals == g.locals
    ensures Given(o, f, args, before) == Given(o, g, args, before)
    decreases |args|
  {
    if args != [] {
      match args[0].value
      case Select(e) => GivenFrame(o, f, g, args[1..], [(args[0].name, o.eval(e, f.locals, f.node))] + before);
      case Body(body) =>
        if Aside(o, f, body).Some? {
          var (trees, vars) := Aside(o, f, body).value;
          GivenFrame(o, f.(locals := vars), g.(locals := vars), args[1..],
              [(args[0].name, Fragment(trees))] + before);
        }
    }
  }

  /** `xsl:apply-templates`: a placeholder for each node selected, without `select` for each child. */
  lemma ApplyTemplatesMeans(o: Oracle, f: Frame, selection: Option<Expr>, mode: Option<string>, fork: Option<string>,
      args: seq<Argument>)
    requires f.code != [] && f.code[0] == ApplyTemplates(selection, mode, fork, args)
    ensures
      var nodes := if selection.Some? then o.selectNodes(selection.value, f.locals, f.node) else o.children(f.node);
      Meant(o, f) == NodesGiven(o, f, nodes, mode, Given(o, f, args, []))
  {
    Unfold(o, f);
    var nodes := if selection.Some? then o.selectNodes(selection.value, f.locals, f.node) else o.children(f.node);
    var next := f.(code := [ArgumentsThenNodes(nodes, mode, fork, args, [])] + f.code[1..]);
    ArgumentsThenNodesMean(o, next, nodes, mode, fork, args, []);
    GivenFrame(o, f, next, args, []);
    assert Rest(next) == Rest(f);
  }

  lemma {:induction false} ArgumentsThenCallMean(o: Oracle, f: Frame, body: seq<Instr>, fork: Option<string>,
      args: seq<Argument>, before: Bindings)
    requires f.code != [] && f.code[0] == ArgumentsThenCall(body, fork, args, before)
    ensures Meant(o, f) == BodyGiven(o, f, body, Given(o, f, args, before))
    decreases |args|
  {
    Unfold(o, f);
    if args == [] {
      assert Rest(f) == Rest(f).(locals := f.locals);
      OneItem(o, Filled(Placeholder, Frame(body, f.node, before, [], false)), Meant(o, Rest(f)));
    } else {
      var name := args[0].name;
      match args[0].value {
        case Select(e) =>
          var more := [(name, o.eval(e, f.locals, f.node))] + before;
          var next := f.(code := [ArgumentsThenCall(body, fork, args[1..], more)] + f.code[1..]);
          ArgumentsThenCallMean(o, next, body, fork, args[1..], more);
          GivenFrame(o, f, next, args[1..], more);
          assert Rest(next) == Rest(f);
        case Body(value) =>
          var inner := Aside(o, f, value);
          if inner.Some? {
            var (trees, vars) := inner.value;
            var more := [(name, Fragment(trees))] + before;
            var next := f.(locals := vars, code := [ArgumentsThenCall(body, fork, args[1..], more)] + f.code[1..]);
            BeforeNothing(Meant(o, next));
            ArgumentsThenCallMean(o, next, body, fork, args[1..], more);
            GivenFrame(o, f.(locals := vars), next, args[1..], more);
            assert Rest(next) == Rest(f).(locals := vars);
          }
      }
    }
  }

  /**
   `xsl:call-template`: one placeholder, filled by the template of that name on the same node, with the
   parameters of the call alone and no variables; nothing where there is no such template.
   */
  lemma CallTemplateMeans(o: Oracle, f: Frame, template: string, fork: Option<string>, args: seq<Argument>)
    requires f.code != [] && f.code[0] == CallTemplate(template, fork, args)
    ensures Meant(o, f) ==
      match o.namedTemplate(template)
      case None => Meant(o, Rest(f))
      case Some(body) => BodyGiven(o, f, body, Given(o, f, args, []))
  {
    Unfold(o, f);
    match o.namedTemplate(template)
    case None =>
    case Some(body) =>
      var next := f.(code := [ArgumentsThenCall(body, fork, args, [])] + f.code[1..]);
      ArgumentsThenCallMean(o, next, body, fork, args, []);
      GivenFrame(o, f, next, args, []);
      assert Rest(next) == Rest(f);
  }

  // ---------- processing a node ----------

  /** What the default processing makes of a child: its text, or a placeholder in the same mode. */
  function Default(o: Oracle, f: Frame, mode: Option<string>, child: DocNode): Item {
    if o.kind(child) == TextNode then Ready(Tree(Text(o.content(child), false), []))
    else
      Filled(Placeholder,
        f.(code := [ProcessNode(mode)], node := child, locals := Backwards(f.locals), shared := false))
  }

  function Defaults(o: Oracle, f: Frame, mode: Option<string>, nodes: seq<DocNode>): seq<Item> {
    seq(|nodes|, i requires 0 <= i < |nodes| => Default(o, f, mode, nodes[i]))
  }

  lemma {:induction false} EachChildMeans(o: Oracle, f: Frame, nodes: seq<DocNode>, mode: Option<string>)
    requires f.code != [] && f.code[0] == EachChild(nodes, mode)
    ensures Meant(o, f) == Items(o, Defaults(o, f, mode, nodes), Meant(o, Rest(f)))
    decreases |nodes|
  {
    Unfold(o, f);
    var items := Defaults(o, f, mode, nodes);
    if nodes == [] {
      ItemsOfNone(o, items, Meant(o, Rest(f)));
    } else {
      var next := f.(code := [EachChild(nodes[1..], mode)] + f.code[1..]);
      EachChildMeans(o, next, nodes[1..], mode);
      assert Rest(next) == Rest(f);
      assert Defaults(o, next, mode, nodes[1..]) == items[1..];
      ItemsOfCons(o, items, Meant(o, Rest(f)));
      CopyIs(f.locals);
    }
  }

  /** A node with a template: the body of that template, on the same parameters, with variables of its own. */
  lemma TemplateMeans(o: Oracle, f: Frame, mode: Option<string>, body: seq<Instr>)
    requires f.code == [ProcessNode(mode)] && o.findTemplate(f.node, mode) == Some(body)
    ensures Meant(o, f) == Meant(o, f.(code := body, locals := []))
  {
    Unfold(o, f);
    assert body + Rest(f).code == body;
  }

  /** A node without one: a text gives its content, any other node its children one by one. */
  lemma DefaultMeans(o: Oracle, f: Frame, mode: Option<string>)
    requires f.code == [ProcessNode(mode)] && o.findTemplate(f.node, mode) == None
    ensures Meant(o, f) ==
      if o.kind(f.node) == TextNode then Some(([Tree(Text(o.content(f.node), false), [])], f.locals))
      else Items(o, Defaults(o, f, mode, o.children(f.node)), Some(([], f.locals)))
  {
    Unfold(o, f);
    NothingMeans(o, Rest(f));
    if o.kind(f.node) == TextNode {
      var t := [Tree(Text(o.content(f.node), false), [])];
      assert t + [] == t;
    } else {
      var next := f.(code := [EachChild(o.children(f.node), mode)] + f.code[1..]);
      EachChildMeans(o, next, o.children(f.node), mode);
      assert Rest(next) == Rest(f);
      assert Defaults(o, next, mode, o.children(f.node)) == Defaults(o, f, mode, o.children(f.node));
    }
  }

  // ---------- variables and parameters ----------

  /** `xsl:variable select`: the value, in a list in which the name is declared already. */
  lemma VariableSelectMeans(o: Oracle, f: Frame, name: string, e: Expr)
    requires f.code != [] && f.code[0] == Variable(name, Select(e))
    ensures Meant(o, f) ==
      (var declared := if Unbound(f.locals, name) then [(name, Null)] + f.locals else f.locals;
       Meant(o, Rest(f).(locals := Bound(f.locals, name, o.eval(e, declared, f.node)))))
  {
    Unfold(o, f);
    LookupIs(f.locals, name);
    var declared := if Unbound(f.locals, name) then [(name, Null)] + f.locals else f.locals;
    AssignIs(f.locals, name, o.eval(e, declared, f.node));
  }

  /** `xsl:variable` with a body: the nodes of the body, which sees the name as an empty fragment. */
  lemma VariableBodyMeans(o: Oracle, f: Frame, name: string, body: seq<Instr>)
    requires f.code != [] && f.code[0] == Variable(name, Body(body))
    ensures Meant(o, f) ==
      match Aside(o, f.(locals := Bound(f.locals, name, Fragment([]))), body)
      case None => None
      case Some((trees, vars)) => Meant(o, Rest(f).(locals := Changed(vars, name, Fragment(trees))))
  {
    Unfold(o, f);
    AssignIs(f.locals, name, Fragment([]));
    var inner := Aside(o, f.(locals := Bound(f.locals, name, Fragment([]))), body);
    if inner.Some? {
      var (trees, vars) := inner.value;
      OverwriteIs(vars, name, Fragment(trees));
      BeforeNothing(Meant(o, Rest(f).(locals := Changed(vars, name, Fragment(trees)))));
    }
  }

  /** `xsl:param` with a value passed: a new variable in front, of the first parameter of that name. */
  lemma ParamPassedMeans(o: Oracle, f: Frame, name: string, default: Option<Definition>, i: nat)
    requires f.code != [] && f.code[0] == Param(name, default) && IsFirst(f.params, name, i)
    ensures Meant(o, f) == Meant(o, Rest(f).(locals := [(name, f.params[i].1)] + f.locals))
  {
    Unfold(o, f);
    LookupIs(f.params, name);
  }

  /** Without one it is a variable with the default, or nothing. */
  lemma ParamDefaultMeans(o: Oracle, f: Frame, name: string, default: Option<Definition>)
    requires f.code != [] && f.code[0] == Param(name, default) && Unbound(f.params, name)
    ensures Meant(o, f) ==
      if default.Some? then Meant(o, f.(code := [Variable(name, default.value)] + f.code[1..])) else Meant(o, Rest(f))
  {
    LookupIs(f.params, name);
    ActOfParam(o, f, name, default);
    ResultUnfolds(Xslt(o), f);
    if default.Some? {
      var next := f.(code := [Variable(name, default.value)] + f.code[1..]);
      assert Rest(next) == Rest(f);
      ActOfVariable(o, next, name, default.value);
      ResultUnfolds(Xslt(o), next);
    }
  }

  lemma ActOfVariable(o: Oracle, f: Frame, name: string, value: Definition)
    requires f.code != [] && f.code[0] == Variable(name, value)
    ensures Xslt(o).act(f) == Define(o, Rest(f), name, value)
  {
  }

  lemma ActOfParam(o: Oracle, f: Frame, name: string, default: Option<Definition>)
    requires f.code != [] && f.code[0] == Param(name, default) && Lookup(f.params, name) == None
    ensures Xslt(o).act(f) == if default.Some? then Define(o, Rest(f), name, default.value) else Become(Rest(f))
  {
  }

  // ---------- copies ----------

  /** `xsl:copy`: an element without its attributes or a text, its body below; of any other node the body alone. */
  lemma CopyMeans(o: Oracle, f: Frame, body: seq<Instr>)
    requires f.code != [] && f.code[0] == Copy(body)
    ensures Meant(o, f) ==
      match o.kind(f.node)
      case OtherNode => Inline(o, f, body)
      case TextNode => Beneath(o, Text(o.content(f.node), false), f, body)
      case ElementNode => Beneath(o, Element(o.nodeName(f.node), []), f, body)
  {
    Unfold(o, f);
    if body == [] {
      NothingMeans(o, f.(code := body, shared := true));
      assert Rest(f).(locals := f.locals) == Rest(f);
      BeforeNothing(Meant(o, Rest(f)));
    }
  }

  /** `t` shows the document from `source` on: every node as its copy in the context of `f`, all the way down. */
  ghost predicate Shows(o: Oracle, f: Frame, source: DocNode, t: Tree)
    decreases t
  {
    && t.payload == o.copied(source, f.locals, f.node)
    && |t.children| == |o.children(source)|
    && forall i :: 0 <= i < |t.children| ==> Shows(o, f, o.children(source)[i], t.children[i])
  }

  ghost predicate ShowAll(o: Oracle, f: Frame, nodes: seq<DocNode>, trees: seq<Tree>) {
    |nodes| == |trees| && forall i :: 0 <= i < |trees| ==> Shows(o, f, nodes[i], trees[i])
  }

  function CopyNodes(nodes: seq<DocNode>): seq<Instr> {
    seq(|nodes|, i requires 0 <= i < |nodes| => CopyNode(nodes[i]))
  }

  lemma {:induction false} CopyNodesMean(o: Oracle, f: Frame, nodes: seq<DocNode>, tail: seq<Instr>, trees: seq<Tree>)
    requires f.code == CopyNodes(nodes) + tail && ShowAll(o, f, nodes, trees)
    ensures Meant(o, f) == Before(trees, Meant(o, f.(code := tail)))
    decreases trees
  {
    if nodes == [] {
      assert f.code == tail;
      BeforeNothing(Meant(o, f));
    } else {
      var below := o.children(nodes[0]);
      var inner := f.(code := CopyNodes(below), shared := true);
      assert inner.code == CopyNodes(below) + [];
      assert Shows(o, f, nodes[0], trees[0]);
      SameContext(o, f, inner, below, trees[0].children);
      CopyNodesMean(o, inner, below, [], trees[0].children);
      NothingMeans(o, inner.(code := []));
      assert trees[0].children + [] == trees[0].children;
      assert Rest(f).code == CopyNodes(nodes[1..]) + tail;
      CopyNodeStep(o, f, nodes[0], trees[0].children);
      SameContext(o, f, Rest(f), nodes[1..], trees[1..]);
      CopyNodesMean(o, Rest(f), nodes[1..], tail, trees[1..]);
      BeforeTwice([trees[0]], trees[1..], Meant(o, f.(code := tail)));
      assert trees == [trees[0]] + trees[1..];
    }
  }

  lemma CopyNodeStep(o: Oracle, f: Frame, source: DocNode, below: seq<Tree>)
    requires f.code != [] && f.code[0] == CopyNode(source)
    requires Meant(o, f.(code := CopyNodes(o.children(source)), shared := true)) == Some((below, f.locals))
    ensures Meant(o, f) == Gives(o, [Tree(o.copied(source, f.locals, f.node), below)], f)
  {
    Unfold(o, f);
    assert Rest(f).(locals := f.locals) == Rest(f);
  }

  lemma CopyTreeStep(o: Oracle, f: Frame, t: Tree, below: seq<Tree>)
    requires f.code != [] && f.code[0] == CopyTree(t)
    requires Meant(o, f.(code := CopyTrees(t.children), shared := true)) == Some((below, f.locals))
    ensures Meant(o, f) == Gives(o, [Tree(Copied(o, t.payload, f.locals, f.node), below)], f)
  {
    Unfold(o, f);
    assert Act(o, f).Below? && Act(o, f).inner.code == CopyTrees(t.children);
    assert Rest(f).(locals := f.locals) == Rest(f);
  }

  /** Copies depend on the node and the variables of the context. */
  lemma SameContext(o: Oracle, f: Frame, g: Frame, nodes: seq<DocNode>, trees: seq<Tree>)
    requires f.node == g.node && f.locals == g.locals && ShowAll(o, f, nodes, trees)
    ensures ShowAll(o, g, nodes, trees)
  {
    forall i | 0 <= i < |trees| ensures Shows(o, g, nodes[i], trees[i]) {
      SameShow(o, f, g, nodes[i], trees[i]);
    }
  }

  lemma {:induction false} SameShow(o: Oracle, f: Frame, g: Frame, source: DocNode, t: Tree)
    requires f.node == g.node && f.locals == g.locals && Shows(o, f, source, t)
    ensures Shows(o, g, source, t)
    decreases t
  {
    forall i | 0 <= i < |t.children| ensures Shows(o, g, o.children(source)[i], t.children[i]) {
      SameShow(o, f, g, o.children(source)[i], t.children[i]);
    }
  }

  /** `xsl:copy-of` of nodes: each with everything below it. */
  lemma CopyOfNodesMeans(o: Oracle, f: Frame, select: Expr, nodes: seq<DocNode>, trees: seq<Tree>)
    requires f.code != [] && f.code[0] == CopyOf(select) && o.eval(select, f.locals, f.node) == Nodes(nodes)
    requires ShowAll(o, f, nodes, trees)
    ensures Meant(o, f) == Gives(o, trees, f)
  {
    Unfold(o, f);
    var next := f.(code := CopyNodes(nodes) + f.code[1..]);
    SameContext(o, f, next, nodes, trees);
    CopyNodesMean(o, next, nodes, f.code[1..], trees);
    assert next.(code := f.code[1..]) == Rest(f);
  }

  /** A node of a fragment copied again: attributes are expanded again, of the contents only text stays. */
  function CopyAgain(o: Oracle, f: Frame, payload: Payload): Payload {
    match payload
    case Placeholder => Placeholder
    case Element(name, attributes) => Element(name, Expanded(o, attributes, f))
    case Text(text, raw) => Text(text, raw)
    case Comment(_) => Comment("")
    case Instruction(target, _) => Instruction(target, "")
  }

  function Again(o: Oracle, f: Frame, t: Tree): Tree
    decreases t
  {
    Tree(CopyAgain(o, f, t.payload),
         seq(|t.children|, i requires 0 <= i < |t.children| => Again(o, f, t.children[i])))
  }

  function AllAgain(o: Oracle, f: Frame, trees: seq<Tree>): seq<Tree> {
    seq(|trees|, i requires 0 <= i < |trees| => Again(o, f, trees[i]))
  }

  function CopyTrees(trees: seq<Tree>): seq<Instr> {
    seq(|trees|, i requires 0 <= i < |trees| => CopyTree(trees[i]))
  }

  lemma {:induction false} SameAgain(o: Oracle, f: Frame, g: Frame, trees: seq<Tree>)
    requires f.node == g.node && f.locals == g.locals
    ensures AllAgain(o, f, trees) == AllAgain(o, g, trees)
    decreases trees
  {
    forall i | 0 <= i < |trees| ensures Again(o, f, trees[i]) == Again(o, g, trees[i]) {
      SameAgain(o, f, g, trees[i].children);
      var t := trees[i];
      assert Again(o, f, t).children == AllAgain(o, f, t.children);
      assert Again(o, g, t).children == AllAgain(o, g, t.children);
    }
  }

  /** The first tree, once its children and the other trees are known. */
  lemma CopyTreesJoin(o: Oracle, f: Frame, trees: seq<Tree>, tail: seq<Instr>)
    requires trees != [] && f.code == CopyTrees(trees) + tail
    requires Meant(o, f.(code := CopyTrees(trees[0].children), shared := true))
      == Some((AllAgain(o, f, trees[0].children), f.locals))
    requires Meant(o, Rest(f)) == Before(AllAgain(o, f, trees[1..]), Meant(o, f.(code := tail)))
    ensures Meant(o, f) == Before(AllAgain(o, f, trees), Meant(o, f.(code := tail)))
  {
    CopyTreeStep(o, f, trees[0], AllAgain(o, f, trees[0].children));
    CopiedIs(o, f, trees[0]);
    BeforeTwice([Again(o, f, trees[0])], AllAgain(o, f, trees[1..]), Meant(o, f.(code := tail)));
    assert AllAgain(o, f, trees) == [Again(o, f, trees[0])] + AllAgain(o, f, trees[1..]);
  }

  lemma {:induction false} CopyTreesMean(o: Oracle, f: Frame, trees: seq<Tree>, tail: seq<Instr>)
    requires f.code == CopyTrees(trees) + tail
    ensures Meant(o, f) == Before(AllAgain(o, f, trees), Meant(o, f.(code := tail)))
    decreases trees
  {
    if trees == [] {
      assert f.code == tail && AllAgain(o, f, trees) == [];
      BeforeNothing(Meant(o, f));
    } else {
      var below := trees[0].children;
      var inner := f.(code := CopyTrees(below), shared := true);
      assert inner.code == CopyTrees(below) + [];
      CopyTreesMean(o, inner, below, []);
      NothingMeans(o, inner.(code := []));
      SameAgain(o, f, inner, below);
      assert AllAgain(o, f, below) + [] == AllAgain(o, f, below);
      assert Rest(f).code == CopyTrees(trees[1..]) + tail;
      CopyTreesMean(o, Rest(f), trees[1..], tail);
      SameAgain(o, f, Rest(f), trees[1..]);
      CopyTreesJoin(o, f, trees, tail);
    }
  }

  lemma CopiedIs(o: Oracle, f: Frame, t: Tree)
    ensures Tree(Copied(o, t.payload, f.locals, f.node), AllAgain(o, f, t.children)) == Again(o, f, t)
  {
    if t.payload.Element? {
      FillIs(o, t.payload.attributes, f);
    }
  }

  lemma AgainOfPlaceholder(o: Oracle, f: Frame, trees: seq<Tree>)
    ensures AllAgain(o, f, [Tree(Placeholder, trees)]) == [Tree(Placeholder, AllAgain(o, f, trees))]
  {
    var t := Tree(Placeholder, trees);
    assert Again(o, f, t).children == AllAgain(o, f, t.children);
  }

  /** `xsl:copy-of` of anything else: a text, nothing, or a placeholder with the whole fragment. */
  lemma CopyOfMeans(o: Oracle, f: Frame, select: Expr)
    requires f.code != [] && f.code[0] == CopyOf(select) && !o.eval(select, f.locals, f.node).Nodes?
    ensures Meant(o, f) ==
      match o.eval(select, f.locals, f.node)
      case Null => Meant(o, Rest(f))
      case Scalar(s) => Gives(o, [Tree(Text(s, false), [])], f)
      case Fragment(trees) => Gives(o, [Tree(Placeholder, AllAgain(o, f, trees))], f)
  {
    Unfold(o, f);
    match o.eval(select, f.locals, f.node)
    case Fragment(trees) =>
      var t := Tree(Placeholder, trees);
      var next := f.(code := [CopyTree(t)] + f.code[1..]);
      assert [CopyTree(t)] == CopyTrees([t]);
      CopyTreesMean(o, next, [t], f.code[1..]);
      SameAgain(o, f, next, [t]);
      AgainOfPlaceholder(o, f, trees);
      assert next.(code := f.code[1..]) == Rest(f);
    case _ =>
  }

  // ---------- the others ----------

  lemma NumberMeans(o: Oracle, f: Frame)
    requires f.code != [] && f.code[0] == XslNumber
    ensures Meant(o, f) == Gives(o, [Tree(Text("1.", false), [])], f)
  {
    Unfold(o, f);
  }

  lemma PutMeans(o: Oracle, f: Frame, payload: Payload)
    requires f.code != [] && f.code[0] == Put(payload)
    ensures Meant(o, f) == Gives(o, [Tree(payload, [])], f)
  {
    Unfold(o, f);
  }

  /** `xsl:comment` and `xsl:processing-instruction`: one node with the printed nodes of the body. */
  lemma CommentMeans(o: Oracle, f: Frame, body: seq<Instr>)
    requires f.code != [] && f.code[0] == XslComment(body)
    ensures Meant(o, f) ==
      match Aside(o, f, body)
      case None => None
      case Some((trees, vars)) => Before([Tree(Comment(o.render(trees)), [])], Meant(o, Rest(f).(locals := vars)))
  {
    Unfold(o, f);
    if Aside(o, f, body).Some? {
      var (trees, vars) := Aside(o, f, body).value;
      Appended(o, Rest(f).(locals := vars), Comment(o.render(trees)));
    }
  }

  lemma ProcessingInstructionMeans(o: Oracle, f: Frame, name: string, body: seq<Instr>)
    requires f.code != [] && f.code[0] == ProcessingInstruction(name, body)
    ensures Meant(o, f) ==
      match Aside(o, f, body)
      case None => None
      case Some((trees, vars)) =>
        Before([Tree(Instruction(name, o.render(trees)), [])], Meant(o, Rest(f).(locals := vars)))
  {
    Unfold(o, f);
    if Aside(o, f, body).Some? {
      var (trees, vars) := Aside(o, f, body).value;
      Appended(o, Rest(f).(locals := vars), Instruction(name, o.render(trees)));
    }
  }

  lemma Appended(o: Oracle, g: Frame, payload: Payload)
    ensures Before([], Meant(o, g.(code := [Put(payload)] + g.code))) == Before([Tree(payload, [])], Meant(o, g))
  {
    var next := g.(code := [Put(payload)] + g.code);
    PutMeans(o, next, payload);
    assert Rest(next) == g;
    BeforeNothing(Meant(o, next));
  }

  /** `xsl:message`: its body is evaluated, and leaves nothing but its variables. */
  lemma MessageMeans(o: Oracle, f: Frame, body: seq<Instr>)
    requires f.code != [] && f.code[0] == Message(body)
    ensures Meant(o, f) ==
      match Aside(o, f, body)
      case None => None
      case Some((_, vars)) => Meant(o, Rest(f).(locals := vars))
  {
    Unfold(o, f);
    if Aside(o, f, body).Some? {
      BeforeNothing(Meant(o, Rest(f).(locals := Aside(o, f, body).value.1)));
    }
  }

  lemma UnsupportedMeans(o: Oracle, f: Frame, name: string)
    requires f.code != [] && f.code[0] == Unsupported(name)
    ensures Meant(o, f) == Meant(o, Rest(f))
  {
    Unfold(o, f);
  }

  // ---------- where tasks can arise ----------

  /** The attribute of a call that may become a task, and the name under which it can be listed. */
  ghost function Asks(o: Oracle, f: Frame): Option<(Option<string>, string)>
    requires f.code != []
  {
    match f.code[0]
    case XslElement(_, _, fork, _) => Some((fork, "xsl:element"))
    case ArgumentsThenCall(_, fork, args, _) => if args == [] then Some((fork, "xsl:call-template")) else None
    case EachNode(nodes, fork, _) => if Several(o, nodes) then Some((fork, "xsl:for-each")) else None
    case EachTemplate(nodes, _, fork, _) => if Several(o, nodes) then Some((fork, "xsl:apply-templates")) else None
    case _ => None
  }

  /** More is to come than this node: it is no text, and an element follows. */
  ghost predicate Several(o: Oracle, nodes: seq<DocNode>) {
    nodes != [] && o.kind(nodes[0]) != TextNode && exists i :: 0 < i < |nodes| && o.kind(nodes[i]) == ElementNode
  }

  /** Four instructions offer their calls to the other threads, the loops only where an element is still to come. */
  lemma TasksArise(o: Oracle, f: Frame)
    requires f.code != []
    ensures var a := Xslt(o).act(f);
      match Asks(o, f)
      case Some((fork, name)) => a.Call? && a.site == Task(fork, name in o.parallel)
      case None => a.Call? ==> a.site == InPlace
  {
    match f.code[0]
    case Variable(name, value) =>
      assert !Define(o, Rest(f), name, value).Call?;
    case Param(name, default) =>
      assert default.Some? ==> !Define(o, Rest(f), name, default.value).Call?;
    case _ =>
  }
}
