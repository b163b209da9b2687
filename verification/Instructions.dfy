/**
 The XSLT instruction interpreter as a machine for `Activities`: one call of `Step` is what
 `apply_xslt_template`, `process_one_node` or one `instruction_*` function does up to the next
 node it appends or the next body it starts.

 XPath, attribute value templates and template lookup are an oracle: pure functions of the
 source document and the local variables.  Selections come back sorted when the instruction
 has `xsl:sort` children.

 The oracle supposes that nothing changes the source document.  One form does: `xsl:apply-templates`
 with a sort but without `select` sorts the child list of the document itself, relinking it in
 place.  It has no place in this instruction set: without `select` the children come as they stand.
 */
module Instructions {
  import opened Wrappers
  import opened Activities
  import opened ForkJoin
  import opened Bodies

  datatype Oracle = Oracle(
    test: (Expr, Bindings, DocNode) -> bool,
    text: (Expr, Bindings, DocNode) -> Option<string>,
    selectNodes: (Expr, Bindings, DocNode) -> seq<DocNode>,
    eval: (Expr, Bindings, DocNode) -> Value,
    fill: (string, Bindings, DocNode) -> string,
    kind: DocNode -> NodeKind,
    content: DocNode -> string,
    nodeName: DocNode -> string,
    children: DocNode -> seq<DocNode>,
    copied: (DocNode, Bindings, DocNode) -> Payload,
    findTemplate: (DocNode, Option<string>) -> Option<seq<Instr>>,
    namedTemplate: string -> Option<seq<Instr>>,
    render: seq<Tree> -> string,
    parallel: set<string>)

  // ---------- variables ----------

  function Lookup(vars: Bindings, name: string): Option<Value> {
    if vars == [] then None
    else if vars[0].0 == name then Some(vars[0].1)
    else Lookup(vars[1..], name)
  }

  /** `do_local_var`: overwrite the first variable of that name, or put a new one in front. */
  function Assign(vars: Bindings, name: string, value: Value): Bindings {
    if Lookup(vars, name).None? then [(name, value)] + vars else Overwrite(vars, name, value)
  }

  function Overwrite(vars: Bindings, name: string, value: Value): Bindings {
    if vars == [] then []
    else if vars[0].0 == name then [(name, value)] + vars[1..]
    else [vars[0]] + Overwrite(vars[1..], name, value)
  }

  /** `copy_variables` builds the copy back to front. */
  function CopyVariables(vars: Bindings): Bindings {
    if vars == [] then [] else CopyVariables(vars[1..]) + [vars[0]]
  }

  // ---------- small helpers ----------

  function Fill(o: Oracle, attributes: seq<(string, string)>, vars: Bindings, node: DocNode): seq<(string, string)> {
    if attributes == [] then []
    else Fill(o, attributes[1..], vars, node) + [(attributes[0].0, o.fill(attributes[0].1, vars, node))]
  }

  /** The body `xsl:choose` runs: the first `when` that holds, else the last `otherwise`. */
  function Chosen(o: Oracle, clauses: seq<Clause>, vars: Bindings, node: DocNode, otherwise: seq<Instr>): seq<Instr> {
    if clauses == [] then otherwise
    else
      match clauses[0]
      case Otherwise(body) => Chosen(o, clauses[1..], vars, node, body)
      case When(test, body) =>
        if o.test(test, vars, node) then body else Chosen(o, clauses[1..], vars, node, otherwise)
  }

  /** `is_node_parallel` for the first node of a selection. */
  function IsParallel(o: Oracle, nodes: seq<DocNode>): bool
    requires nodes != []
  {
    o.kind(nodes[0]) != TextNode && exists i | 0 < i < |nodes| :: o.kind(nodes[i]) == ElementNode
  }

  function LoopSite(o: Oracle, nodes: seq<DocNode>, fork: Option<string>, instruction: string): Site
    requires nodes != []
  {
    if IsParallel(o, nodes) then Task(fork, instruction in o.parallel) else InPlace
  }

  /** `copy_node_to_result`: attribute values are expanded again, and only text keeps its content. */
  function Copied(o: Oracle, payload: Payload, vars: Bindings, node: DocNode): Payload {
    match payload
    case Element(name, attributes) => Element(name, Fill(o, attributes, vars, node))
    case Comment(_) => Comment("")
    case Instruction(target, _) => Instruction(target, "")
    case _ => payload
  }

  function Inner(f: Frame, code: seq<Instr>): Frame {
    f.(code := code, shared := true)
  }

  /** A body run in `SINGLE` mode on a node of its own, over the caller's variables. */
  function Detached(f: Frame, code: seq<Instr>): Frame {
    Frame(code, f.node, [], f.locals, true)
  }

  function Define(o: Oracle, f: Frame, name: string, value: Definition): Action {
    var declared := f.(locals := if Lookup(f.locals, name).None? then Assign(f.locals, name, Null) else f.locals);
    match value
    case Select(e) => Become(f.(locals := Assign(f.locals, name, o.eval(e, declared.locals, f.node))))
    case Body(body) =>
      var g := f.(locals := Assign(f.locals, name, Fragment([])));
      Detach(g, Detached(g, body), Bind(name))
  }

  /** `rest` is the frame once the first instruction is done. */
  function Act(o: Oracle, f: Frame): Action
    requires f.code != []
  {
    var rest := f.(code := f.code[1..]);
    match f.code[0]
    case PlainText(s, raw) => Leaf(Text(s, raw), rest)
    case Literal(name, attributes, body) =>
      var e := Element(name, Fill(o, attributes, f.locals, f.node));
      if body == [] then Leaf(e, rest)
      else Call(e, rest, f.(code := body, locals := CopyVariables(f.locals), shared := false), InPlace)
    case Include(body) => Become(f.(code := body + f.code[1..]))
    case XslText(parts, raw) =>
      if parts == [] then Become(rest)
      else Leaf(Text(parts[0], raw), f.(code := [XslText(parts[1..], raw)] + f.code[1..]))
    case ValueOf(select, raw) =>
      (match o.text(select, f.locals, f.node)
       case None => Become(rest)
       case Some(s) => Leaf(Text(s, raw), rest))
    case XslElement(nameTemplate, namespace, fork, body) =>
      var attributes := match namespace
        case None => []
        case Some(ns) => [("xmlns", o.fill(ns, f.locals, f.node))];
      Call(Element(o.fill(nameTemplate, f.locals, f.node), attributes), rest,
           f.(code := body, locals := CopyVariables(f.locals), shared := false),
           Task(fork, "xsl:element" in o.parallel))
    case If(test, body) =>
      if o.test(test, f.locals, f.node) then Nest(rest, Inner(f, body)) else Become(rest)
    case Choose(clauses) =>
      Nest(rest, Inner(f, Chosen(o, clauses, f.locals, f.node, [])))
    case ForEach(select, fork, body) =>
      Become(f.(code := [EachNode(o.selectNodes(select, f.locals, f.node), fork, body)] + f.code[1..]))
    case ApplyTemplates(selection, mode, fork, args) =>
      var nodes := match selection
        case None => o.children(f.node)
        case Some(e) => o.selectNodes(e, f.locals, f.node);
      Become(f.(code := [ArgumentsThenNodes(nodes, mode, fork, args, [])] + f.code[1..]))
    case ArgumentsThenNodes(nodes, mode, fork, args, ready) =>
      if args == [] then
        Become(f.(code := [EachTemplate(nodes, mode, fork, if ready == [] then f.params else ready)] + f.code[1..]))
      else NextArgument(o, f, args[0])
    case CallTemplate(template, fork, args) =>
      (match o.namedTemplate(template)
       case None => Become(rest)
       case Some(body) => Become(f.(code := [ArgumentsThenCall(body, fork, args, [])] + f.code[1..])))
    case ArgumentsThenCall(body, fork, args, ready) =>
      if args == [] then
        Call(Placeholder, rest, f.(code := body, params := ready, locals := [], shared := false),
             Task(fork, "xsl:call-template" in o.parallel))
      else NextArgument(o, f, args[0])
    case Variable(name, value) => Define(o, rest, name, value)
    case Param(name, default) =>
      (match Lookup(f.params, name)
       case Some(v) => Become(rest.(locals := [(name, v)] + f.locals))
       case None => if default.Some? then Define(o, rest, name, default.value) else Become(rest))
    case Copy(body) =>
      if o.kind(f.node) == OtherNode then
        if body == [] then Become(rest) else Nest(rest, Inner(f, body))
      else
        var p := if o.kind(f.node) == TextNode then Text(o.content(f.node), false) else Element(o.nodeName(f.node), []);
        if body == [] then Leaf(p, rest) else Below(p, rest, Inner(f, body))
    case CopyOf(select) =>
      (match o.eval(select, f.locals, f.node)
       case Null => Become(rest)
       case Scalar(s) => Leaf(Text(s, false), rest)
       case Nodes(nodes) => Become(f.(code := seq(|nodes|,
           i requires 0 <= i < |nodes| => CopyNode(nodes[i])) + f.code[1..]))
       case Fragment(trees) => Become(f.(code := [CopyTree(Tree(Placeholder, trees))] + f.code[1..])))
    case XslNumber => Leaf(Text("1.", false), rest)
    case XslComment(body) => Detach(rest, Detached(f, body), AsComment)
    case ProcessingInstruction(name, body) => Detach(rest, Detached(f, body), AsInstruction(name))
    case Message(body) => Detach(rest, Detached(f, body), Discard)
    case Unsupported(_) => Become(rest)
    case _ => ActLoop(o, f)
  }

  /** The engine's own loops, and nodes it appends. */
  function ActLoop(o: Oracle, f: Frame): Action
    requires f.code != []
  {
    var rest := f.(code := f.code[1..]);
    match f.code[0]
    case EachNode(nodes, fork, body) =>
      if nodes == [] then Become(rest)
      else
        Call(Placeholder, f.(code := [EachNode(nodes[1..], fork, body)] + f.code[1..]),
             f.(code := body, node := nodes[0], locals := CopyVariables(f.locals), shared := false),
             LoopSite(o, nodes, fork, "xsl:for-each"))
    case EachTemplate(nodes, mode, fork, params) =>
      if nodes == [] then Become(rest)
      else
        Call(Placeholder, f.(code := [EachTemplate(nodes[1..], mode, fork, params)] + f.code[1..]),
             Frame([ProcessNode(mode)], nodes[0], params, [], false),
             LoopSite(o, nodes, fork, "xsl:apply-templates"))
    case EachChild(nodes, mode) =>
      if nodes == [] then Become(rest)
      else
        var next := f.(code := [EachChild(nodes[1..], mode)] + f.code[1..]);
        if o.kind(nodes[0]) == TextNode then Leaf(Text(o.content(nodes[0]), false), next)
        else Call(Placeholder, next,
                  f.(code := [ProcessNode(mode)], node := nodes[0], locals := CopyVariables(f.locals), shared := false),
                  InPlace)
    case ProcessNode(mode) =>
      (match o.findTemplate(f.node, mode)
       case Some(body) => Become(rest.(code := body + rest.code, locals := []))
       case None =>
         if o.kind(f.node) == TextNode then Leaf(Text(o.content(f.node), false), rest)
         else Become(f.(code := [EachChild(o.children(f.node), mode)] + f.code[1..])))
    case CopyNode(source) =>
      var nodes := o.children(source);
      Below(o.copied(source, f.locals, f.node), rest,
            Inner(f, seq(|nodes|, i requires 0 <= i < |nodes| => CopyNode(nodes[i]))))
    case CopyTree(tree) =>
      Below(Copied(o, tree.payload, f.locals, f.node), rest,
            Inner(f, seq(|tree.children|, i requires 0 <= i < |tree.children| => CopyTree(tree.children[i]))))
    case Put(payload) => Leaf(payload, rest)
    case _ => Become(rest)
  }

  /** The call whose first missing parameter gets the value `v`. */
  function Receive(i: Instr, name: string, v: Value): Instr {
    match i
    case ArgumentsThenNodes(nodes, mode, fork, args, ready) =>
      if args == [] then i else ArgumentsThenNodes(nodes, mode, fork, args[1..], [(name, v)] + ready)
    case ArgumentsThenCall(body, fork, args, ready) =>
      if args == [] then i else ArgumentsThenCall(body, fork, args[1..], [(name, v)] + ready)
    case _ => i
  }

  /** One `xsl:with-param` of a call. */
  function NextArgument(o: Oracle, f: Frame, arg: Argument): Action
    requires f.code != []
  {
    match arg.value
    case Select(e) =>
      Become(f.(code := [Receive(f.code[0], arg.name, o.eval(e, f.locals, f.node))] + f.code[1..]))
    case Body(body) => Detach(f, Detached(f, body), Pass(arg.name))
  }

  /** What a body that ran on a node of its own leaves behind in its caller. */
  function Settle(o: Oracle, wrap: Wrap, trees: seq<Tree>, f: Frame): Frame {
    match wrap
    case Bind(name) => f.(locals := Overwrite(f.locals, name, Fragment(trees)))
    case Pass(name) => if f.code == [] then f else f.(code := [Receive(f.code[0], name, Fragment(trees))] + f.code[1..])
    case AsComment => f.(code := [Put(Comment(o.render(trees)))] + f.code)
    case AsInstruction(target) => f.(code := [Put(Instruction(target, o.render(trees)))] + f.code)
    case _ => f
  }

  function Xslt(o: Oracle): Actor {
    Actor(
      (f: Frame) => if f.code == [] then Become(f) else Act(o, f),
      (wrap: Wrap, trees: seq<Tree>, f: Frame) => Settle(o, wrap, trees, f))
  }

  ghost predicate ShapedAction(e: Action, shared: bool) {
    && e.frame.shared == shared
    && (e.Call? ==> !e.inner.shared)
    && (e.Detach? ==> !e.wrap.Splice? && !e.wrap.Under?)
  }

  lemma ActLoopShape(o: Oracle, f: Frame)
    requires f.code != []
    ensures ShapedAction(ActLoop(o, f), f.shared)
  {
  }

  lemma ActShape(o: Oracle, f: Frame)
    requires f.code != []
    ensures ShapedAction(Act(o, f), f.shared)
  {
    ActLoopShape(o, f);
  }

  lemma SettleShape(o: Oracle, wrap: Wrap, trees: seq<Tree>, f: Frame)
    ensures Settle(o, wrap, trees, f).shared == f.shared
  {
  }

  lemma XsltShape(o: Oracle, f: Frame)
    ensures ShapedAction(Xslt(o).act(f), f.shared)
  {
    if f.code != [] {
      ActShape(o, f);
    }
  }

  lemma {:induction false} InstructionsAreShaped(o: Oracle)
    ensures Xslt(o).Shaped()
  {
    var x := Xslt(o);
    forall f: Frame ensures ShapedAction(x.act(f), f.shared) {
      XsltShape(o, f);
    }
    forall w: Wrap, trees: seq<Tree>, f: Frame ensures x.settle(w, trees, f).shared == f.shared {
      SettleShape(o, w, trees, f);
    }
  }
}
