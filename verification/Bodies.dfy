/**
 Stylesheet bodies, the contexts that run them, and what one step of a context can ask for.
 */
module Bodies {
  import opened Wrappers
  import opened Activities

  type Expr = string
  type DocNode = nat

  datatype NodeKind = ElementNode | TextNode | OtherNode

  datatype Tree = Tree(payload: Payload, children: seq<Tree>)

  datatype Value = Null | Scalar(text: string) | Nodes(nodes: seq<DocNode>) | Fragment(trees: seq<Tree>)

  /** A list of variables, newest first, as the engine keeps it. */
  type Bindings = seq<(string, Value)>

  /** The value of a variable or parameter: a `select` expression or the element's body. */
  datatype Definition = Select(expr: Expr) | Body(body: seq<Instr>)

  datatype Clause = When(test: Expr, body: seq<Instr>) | Otherwise(body: seq<Instr>)

  datatype Argument = Argument(name: string, value: Definition)

  datatype Instr =
    | PlainText(text: string, raw: bool)
    | Literal(name: string, attributes: seq<(string, string)>, body: seq<Instr>)
    | Include(body: seq<Instr>)
    | XslText(parts: seq<string>, raw: bool)
    | ValueOf(select: Expr, raw: bool)
    | XslElement(nameTemplate: string, namespace: Option<string>, fork: Option<string>, body: seq<Instr>)
    | If(test: Expr, body: seq<Instr>)
    | Choose(clauses: seq<Clause>)
    | ForEach(select: Expr, fork: Option<string>, body: seq<Instr>)
    // sorts belong to the selection; without a selection there are none
    | ApplyTemplates(selection: Option<Expr>, mode: Option<string>, fork: Option<string>, args: seq<Argument>)
    | CallTemplate(template: string, fork: Option<string>, args: seq<Argument>)
    | Variable(name: string, value: Definition)
    | Param(name: string, default: Option<Definition>)
    | Copy(body: seq<Instr>)
    | CopyOf(select: Expr)
    | XslNumber
    | XslComment(body: seq<Instr>)
    | ProcessingInstruction(name: string, body: seq<Instr>)
    | Message(body: seq<Instr>)
    | Unsupported(name: string)
    // the loops of the engine, and nodes it is about to append
    | EachNode(nodes: seq<DocNode>, fork: Option<string>, body: seq<Instr>)
    | ArgumentsThenNodes(nodes: seq<DocNode>, mode: Option<string>, fork: Option<string>, args: seq<Argument>,
        ready: Bindings)
    | ArgumentsThenCall(body: seq<Instr>, fork: Option<string>, args: seq<Argument>, ready: Bindings)
    | EachTemplate(nodes: seq<DocNode>, mode: Option<string>, fork: Option<string>, params: Bindings)
    | EachChild(nodes: seq<DocNode>, mode: Option<string>)
    | ProcessNode(mode: Option<string>)
    | CopyNode(source: DocNode)
    | CopyTree(tree: Tree)
    | Put(payload: Payload)

  /** What happens to the nodes collected by a body that runs on a detached result node. */
  datatype Wrap =
    | Splice                      // they belong to the enclosing body's nodes
    | Under(payload: Payload)     // they become the children of a new node
    | Bind(name: string)          // they become the value of a variable
    | Pass(name: string)          // they become the value of the next parameter of the call
    | AsComment
    | AsInstruction(target: string)
    | Discard

  /** Where a body's nodes go: into the shared result tree, or onto a detached node. */
  datatype Sink = Node(path: Path) | Collect(wrap: Wrap, trees: seq<Tree>)

  /** A `template_context`; `shared` says that its variables are the enclosing frame's own list. */
  datatype Frame = Frame(code: seq<Instr>, node: DocNode, params: Bindings, locals: Bindings, shared: bool)

  datatype Slot = Slot(frame: Frame, sink: Sink)

  /** The call stack of one activity, innermost context first. */
  type Activity = seq<Slot>

  // ---------- what a frame wants to do next ----------

  datatype Action =
    | Become(frame: Frame)                                  // nothing but its own state changes
    | Nest(frame: Frame, inner: Frame)                      // run a body on the same result node
    | Detach(frame: Frame, inner: Frame, wrap: Wrap)        // run a body on a node of its own
    | Leaf(payload: Payload, frame: Frame)                  // append a node
    | Below(payload: Payload, frame: Frame, inner: Frame)   // append a node and go on below it
    | Call(payload: Payload, frame: Frame, inner: Frame, site: Site)  // append a node, a new context fills it

  /**
   The instruction set: what a context with code left does next, and what a body that ran on a
   node of its own leaves behind in its caller.
   */
  datatype Actor = Actor(act: Frame -> Action, settle: (Wrap, seq<Tree>, Frame) -> Frame)
  {
    ghost predicate Shaped() {
      && (forall f: Frame :: act(f).frame.shared == f.shared)
      && (forall f: Frame :: act(f).Call? ==> !act(f).inner.shared)
      && (forall f: Frame :: act(f).Detach? ==> !act(f).wrap.Splice? && !act(f).wrap.Under?)
      && (forall w: Wrap, trees: seq<Tree>, f: Frame :: settle(w, trees, f).shared == f.shared)
    }
  }

  // ---------- a context that has run out of instructions ----------

  function Gather(s: Slot, trees: seq<Tree>): Slot {
    if s.sink.Collect? then s.(sink := s.sink.(trees := s.sink.trees + trees)) else s
  }

  function Deliver(x: Actor, wrap: Wrap, trees: seq<Tree>, s: Slot): Slot {
    match wrap
    case Splice => Gather(s, trees)
    case Under(payload) => Gather(s, [Tree(payload, trees)])
    case _ => s.(frame := x.settle(wrap, trees, s.frame))
  }

  /** Variables a body declared in its caller's list stay declared. */
  function Back(inner: Frame, vars: Bindings, outer: Frame): Frame {
    if inner.shared then outer.(locals := vars) else outer
  }

  function Leave(x: Actor, top: Slot, outer: Slot): Slot {
    var s := outer.(frame := Back(top.frame, top.frame.locals, outer.frame));
    match top.sink
    case Node(_) => s
    case Collect(wrap, trees) => Deliver(x, wrap, trees, s)
  }

  // ---------- the machine ----------

  /** Nothing below a detached node forks: the whole body runs on its own frames. */
  function Collected(action: Action, top: Sink, outer: Activity): Activity {
    match action
    case Become(f) => [Slot(f, top)] + outer
    case Nest(f, inner) => [Slot(inner, Collect(Splice, []))] + [Slot(f, top)] + outer
    case Detach(f, inner, wrap) => [Slot(inner, Collect(wrap, []))] + [Slot(f, top)] + outer
    case Leaf(payload, f) => [Gather(Slot(f, top), [Tree(payload, [])])] + outer
    case Below(payload, f, inner) => [Slot(inner, Collect(Under(payload), []))] + [Slot(f, top)] + outer
    case Call(payload, f, inner, _) => [Slot(inner, Collect(Under(payload), []))] + [Slot(f, top)] + outer
  }

  function Grown(action: Action, at: Path, outer: Activity): Effect<Activity> {
    var rest := [Slot(action.frame, Node(at))] + outer;
    match action
    case Become(_) => Local(rest)
    case Nest(_, inner) => Local([Slot(inner, Node(at))] + rest)
    case Detach(_, inner, wrap) => Local([Slot(inner, Collect(wrap, []))] + rest)
    case Leaf(payload, _) => Grow(at, payload, (_: Path) => rest, None, InPlace)
    case Below(payload, _, inner) => Grow(at, payload, (p: Path) => [Slot(inner, Node(p))] + rest, None, InPlace)
    case Call(payload, _, inner, site) => Grow(at, payload, (_: Path) => rest,
        Some((p: Path) => [Slot(inner, Node(p))]), site)
  }

  function Step(x: Actor, a: Activity): Effect<Activity> {
    if a == [] then Stop
    else if a[0].frame.code == [] then
      if |a| == 1 then Stop else Local([Leave(x, a[0], a[1])] + a[2..])
    else
      match a[0].sink
      case Collect(_, _) => Local(Collected(x.act(a[0].frame), a[0].sink, a[1..]))
      case Node(at) => Grown(x.act(a[0].frame), at, a[1..])
  }

  function Sinks(a: Activity): set<Path> {
    set s | s in a && s.sink.Node? :: s.sink.path
  }

  function Runner(x: Actor): Machine<Activity> {
    Machine(a => Step(x, a), Sinks)
  }

  // ---------- the interpreter keeps to its own nodes ----------

  ghost function Own(sink: Sink): set<Path> {
    if sink.Node? then {sink.path} else {}
  }

  lemma SinksOfCons(s: Slot, a: Activity)
    ensures Sinks([s] + a) == Own(s.sink) + Sinks(a)
  {
    assert ([s] + a)[0] == s;
    forall p: Path ensures p in Sinks([s] + a) <==> p in Own(s.sink) + Sinks(a) {
    }
  }

  lemma SinksOfTwo(inner: Slot, s: Slot, a: Activity)
    ensures Sinks([inner] + [s] + a) == Own(inner.sink) + Own(s.sink) + Sinks(a)
    ensures Sinks([inner] + ([s] + a)) == Own(inner.sink) + Own(s.sink) + Sinks(a)
  {
    SinksOfCons(s, a);
    SinksOfCons(inner, [s] + a);
    assert [inner] + [s] + a == [inner] + ([s] + a);
  }

  lemma SinksOfParts(a: Activity)
    requires a != []
    ensures Sinks(a) == Own(a[0].sink) + Sinks(a[1..])
  {
    SinksOfCons(a[0], a[1..]);
    assert a == [a[0]] + a[1..];
  }

  lemma CollectedSinks(action: Action, top: Sink, outer: Activity)
    requires top.Collect?
    ensures Sinks(Collected(action, top, outer)) <= Sinks(outer)
  {
    match action
    case Become(f) => SinksOfCons(Slot(f, top), outer);
    case Nest(f, inner) => SinksOfTwo(Slot(inner, Collect(Splice, [])), Slot(f, top), outer);
    case Detach(f, inner, wrap) => SinksOfTwo(Slot(inner, Collect(wrap, [])), Slot(f, top), outer);
    case Leaf(payload, f) => SinksOfCons(Gather(Slot(f, top), [Tree(payload, [])]), outer);
    case Below(payload, f, inner) => SinksOfTwo(Slot(inner, Collect(Under(payload), [])), Slot(f, top), outer);
    case Call(payload, f, inner, _) => SinksOfTwo(Slot(inner, Collect(Under(payload), [])), Slot(f, top), outer);
  }

  /** The clause of `Disciplined` for one activity whose sinks are `own`. */
  ghost predicate Keeps(e: Effect<Activity>, own: set<Path>) {
    match e
    case Stop => true
    case Local(b) => Sinks(b) <= own
    case Grow(at, _, next, child, _) =>
      && at in own
      && (forall p: Path :: Sinks(next(p)) <= own + (if child.None? then {p} else {}))
      && (child.Some? ==> forall p: Path :: Sinks(child.value(p)) <= {p})
  }

  lemma GrownKeeps(action: Action, at: Path, outer: Activity)
    ensures Keeps(Grown(action, at, outer), {at} + Sinks(outer))
  {
    var s := Slot(action.frame, Node(at));
    SinksOfCons(s, outer);
    match action
    case Nest(_, inner) => SinksOfTwo(Slot(inner, Node(at)), s, outer);
    case Detach(_, inner, wrap) => SinksOfTwo(Slot(inner, Collect(wrap, [])), s, outer);
    case Below(payload, _, inner) =>
      var next := Grown(action, at, outer).next;
      forall p: Path ensures Sinks(next(p)) <= {at} + Sinks(outer) + {p} {
        SinksOfTwo(Slot(inner, Node(p)), s, outer);
      }
    case Call(payload, _, inner, site) =>
      var child := Grown(action, at, outer).child.value;
      forall p: Path ensures Sinks(child(p)) <= {p} {
        SinksOfCons(Slot(inner, Node(p)), []);
        assert child(p) == [Slot(inner, Node(p))] + [];
      }
    case _ =>
  }

  lemma StepKeeps(x: Actor, a: Activity)
    ensures Keeps(Step(x, a), Sinks(a))
  {
    if a != [] {
      SinksOfParts(a);
      if a[0].frame.code == [] {
        if |a| > 1 {
          SinksOfParts(a[1..]);
          SinksOfCons(Leave(x, a[0], a[1]), a[2..]);
        }
      } else {
        match a[0].sink
        case Collect(_, _) => CollectedSinks(x.act(a[0].frame), a[0].sink, a[1..]);
        case Node(at) => GrownKeeps(x.act(a[0].frame), at, a[1..]);
      }
    }
  }

  /** The interpreter appends only to nodes that are its own, whatever the instructions are. */
  lemma RunnerIsDisciplined(x: Actor)
    ensures Runner(x).Disciplined()
  {
    forall a: Activity ensures Keeps(Step(x, a), Sinks(a)) {
      StepKeeps(x, a);
    }
  }
}
