/**
 What a transformation means: a plain recursion over template bodies that returns the nodes they
 produce.  There are no tasks, no paths and no call stacks here; a body that never ends has no
 meaning, however much `fuel` it gets.  The theorems say that this is what the engine builds,
 sequentially or with any number of threads.
 */
module Meaning {
  import opened Wrappers
  import opened Activities
  import opened Confluence
  import opened ForkJoin
  import opened Bodies

  /** The nodes a body appends to its result node, and its variables when it is done. */
  type Outcome = Option<(seq<Tree>, Bindings)>

  function Before(trees: seq<Tree>, rest: Outcome): Outcome {
    match rest
    case None => None
    case Some((more, vars)) => Some((trees + more, vars))
  }

  function Eval(x: Actor, fuel: nat, f: Frame): Outcome {
    if fuel == 0 then None
    else if f.code == [] then Some(([], f.locals))
    else
      match x.act(f)
      case Become(g) => Eval(x, fuel - 1, g)
      case Leaf(payload, g) => Before([Tree(payload, [])], Eval(x, fuel - 1, g))
      case Nest(g, inner) =>
        (match Eval(x, fuel - 1, inner)
         case None => None
         case Some((trees, vars)) => Before(trees, Eval(x, fuel - 1, Back(inner, vars, g))))
      case Detach(g, inner, wrap) =>
        (match Eval(x, fuel - 1, inner)
         case None => None
         case Some((trees, vars)) => Eval(x, fuel - 1, x.settle(wrap, trees, Back(inner, vars, g))))
      case Below(payload, g, inner) =>
        (match Eval(x, fuel - 1, inner)
         case None => None
         case Some((trees, vars)) => Before([Tree(payload, trees)], Eval(x, fuel - 1, Back(inner, vars, g))))
      case Call(payload, g, inner, _) =>
        (match Eval(x, fuel - 1, inner)
         case None => None
         case Some((trees, _)) => Before([Tree(payload, trees)], Eval(x, fuel - 1, g)))
  }

  /** More fuel changes nothing once there is a meaning. */
  lemma {:induction false} MoreFuel(x: Actor, fuel: nat, more: nat, f: Frame)
    requires Eval(x, fuel, f).Some? && fuel <= more
    ensures Eval(x, more, f) == Eval(x, fuel, f)
    decreases fuel
  {
    if f.code != [] {
      var e := x.act(f);
      if e.Become? || e.Leaf? {
        MoreFuel(x, fuel - 1, more - 1, e.frame);
      } else {
        MoreFuel(x, fuel - 1, more - 1, e.inner);
        var (trees, vars) := Eval(x, fuel - 1, e.inner).value;
        MoreFuel(x, fuel - 1, more - 1, Onward(x, e, trees, vars));
      }
    }
  }

  /** Where a context goes on once the body it started has come to `trees` and `vars`. */
  function Onward(x: Actor, e: Action, trees: seq<Tree>, vars: Bindings): Frame
    requires !e.Become? && !e.Leaf?
  {
    if e.Call? then e.frame
    else if e.Detach? then x.settle(e.wrap, trees, Back(e.inner, vars, e.frame))
    else Back(e.inner, vars, e.frame)
  }

  // ---------- the meaning without the fuel ----------

  /** What a body means: its nodes and variables, or nothing if it never ends. */
  ghost function Result(x: Actor, f: Frame): Outcome {
    if exists fuel: nat :: Eval(x, fuel, f).Some? then
      var fuel: nat :| Eval(x, fuel, f).Some?;
      Eval(x, fuel, f)
    else None
  }

  lemma ResultIs(x: Actor, f: Frame, fuel: nat)
    requires Eval(x, fuel, f).Some?
    ensures Result(x, f) == Eval(x, fuel, f)
  {
    var k: nat :| Eval(x, k, f).Some? && Result(x, f) == Eval(x, k, f);
    if k <= fuel {
      MoreFuel(x, k, fuel, f);
    } else {
      MoreFuel(x, fuel, k, f);
    }
  }

  /** The nodes an action leaves before the context goes on. */
  function Left(e: Action, trees: seq<Tree>): seq<Tree>
    requires !e.Become? && !e.Leaf?
  {
    match e
    case Nest(_, _) => trees
    case Detach(_, _, _) => []
    case Below(payload, _, _) => [Tree(payload, trees)]
    case Call(payload, _, _, _) => [Tree(payload, trees)]
  }

  /** What follows from an action. */
  ghost function Following(x: Actor, e: Action): Outcome {
    match e
    case Become(g) => Result(x, g)
    case Leaf(payload, g) => Before([Tree(payload, [])], Result(x, g))
    case _ =>
      match Result(x, e.inner)
      case None => None
      case Some((trees, vars)) => Before(Left(e, trees), Result(x, Onward(x, e, trees, vars)))
  }

  lemma UnfoldsForward(x: Actor, f: Frame)
    requires f.code != [] && Result(x, f).Some?
    ensures Result(x, f) == Following(x, x.act(f))
  {
    var fuel: nat :| Eval(x, fuel, f).Some? && Result(x, f) == Eval(x, fuel, f);
    var e := x.act(f);
    if e.Become? || e.Leaf? {
      ResultIs(x, e.frame, fuel - 1);
    } else {
      ResultIs(x, e.inner, fuel - 1);
      var (trees, vars) := Eval(x, fuel - 1, e.inner).value;
      ResultIs(x, Onward(x, e, trees, vars), fuel - 1);
      BeforeNothing(Result(x, Onward(x, e, trees, vars)));
    }
  }

  lemma UnfoldsBack(x: Actor, f: Frame) returns (fuel: nat)
    requires f.code != [] && Following(x, x.act(f)).Some?
    ensures Eval(x, fuel, f).Some?
  {
    var e := x.act(f);
    if e.Become? || e.Leaf? {
      var k: nat :| Eval(x, k, e.frame).Some?;
      fuel := k + 1;
    } else {
      var (trees, vars) := Result(x, e.inner).value;
      var k: nat :| Eval(x, k, e.inner).Some?;
      var l: nat :| Eval(x, l, Onward(x, e, trees, vars)).Some?;
      ResultIs(x, e.inner, k);
      var m := if k < l then l else k;
      MoreFuel(x, k, m, e.inner);
      MoreFuel(x, l, m, Onward(x, e, trees, vars));
      fuel := m + 1;
    }
  }

  /** The meaning of a body is what follows from its first action. */
  lemma ResultUnfolds(x: Actor, f: Frame)
    ensures Result(x, f) == if f.code == [] then Some(([], f.locals)) else Following(x, x.act(f))
  {
    if f.code == [] {
      ResultIs(x, f, 1);
    } else if Result(x, f).Some? {
      UnfoldsForward(x, f);
    } else if Following(x, x.act(f)).Some? {
      var fuel := UnfoldsBack(x, f);
      ResultIs(x, f, fuel);
    }
  }

  /** The transformation of a document: `XSLTProcess` starts with its root node. */
  function Whole(document: DocNode): Frame {
    Frame([ProcessNode(None)], document, [], [], false)
  }

  // ---------- reading the result tree back ----------

  ghost predicate Holds(store: Store, p: Path, t: Tree)
    decreases t
  {
    && p in store
    && store[p].payload == t.payload
    && store[p].count == |t.children|
    && forall i: nat | i < |t.children| :: Holds(store, p + [i], t.children[i])
  }

  /** Everything is as before, except that `at` has got the subtrees `trees` as further children. */
  ghost predicate Grew(old_: Store, new_: Store, at: Path, trees: seq<Tree>) {
    && at in old_ && at in new_
    && (forall q: Path :: q in old_ && q != at ==> q in new_ && new_[q] == old_[q])
    && new_[at] == old_[at].(count := old_[at].count + |trees|)
    && forall i: nat | i < |trees| :: Holds(new_, at + [old_[at].count + i], trees[i])
  }

  lemma {:induction false} HoldsStill(s: Store, t: Store, at: Path, p: Path, tree: Tree)
    requires forall q: Path :: q in s && q != at ==> q in t && t[q] == s[q]
    requires Holds(s, p, tree) && |at| < |p|
    ensures Holds(t, p, tree)
    decreases tree
  {
    forall i: nat | i < |tree.children| ensures Holds(t, p + [i], tree.children[i]) {
      HoldsStill(s, t, at, p + [i], tree.children[i]);
    }
  }

  lemma GrewTrans(a: Store, b: Store, c: Store, at: Path, ts: seq<Tree>, us: seq<Tree>)
    requires Grew(a, b, at, ts) && Grew(b, c, at, us)
    ensures Grew(a, c, at, ts + us)
  {
    var n := a[at].count;
    forall i: nat | i < |ts + us| ensures Holds(c, at + [n + i], (ts + us)[i]) {
      if i < |ts| {
        HoldsStill(b, c, at, at + [n + i], ts[i]);
      } else {
        assert n + i == b[at].count + (i - |ts|);
      }
    }
  }

  /** A new child, then the subtrees below it, is one more subtree. */
  lemma GrewBelow(a: Store, b: Store, c: Store, at: Path, payload: Payload, owner: Path, ts: seq<Tree>)
    requires WellFormed(a) && at in a && b == Append(a, at, payload, owner)
    requires Grew(b, c, NewPath(a, at), ts)
    ensures Grew(a, c, at, [Tree(payload, ts)])
  {
    var n: Path := NewPath(a, at);
    NewIsFresh(a, at);
    assert b[n] == Cell(payload, 0, owner);
    forall i: nat | i < |ts| ensures Holds(c, n + [i], ts[i]) {
      assert Holds(c, n + [b[n].count + i], ts[i]);
    }
    assert Holds(c, n, Tree(payload, ts));
    assert n == at + [a[at].count + 0];
    assert c[at] == b[at];
  }

  lemma GrewLeaf(a: Store, at: Path, payload: Payload, owner: Path)
    requires WellFormed(a) && at in a
    ensures Grew(a, Append(a, at, payload, owner), at, [Tree(payload, [])])
  {
    var b := Append(a, at, payload, owner);
    NewIsFresh(a, at);
    assert Holds(b, NewPath(a, at), Tree(payload, []));
    assert at + [a[at].count + 0] == NewPath(a, at);
  }

  // ---------- single steps ----------

  /**
   `m` is the machine that runs the instructions `x`.  The proofs below unfold a step of `m` only
   where they name it.
   */
  ghost predicate Runs(m: Machine<Activity>, x: Actor) {
    && (forall a: Activity {:trigger Bodies.Step(x, a)} :: m.step(a) == Bodies.Step(x, a))
    && (forall a: Activity {:trigger Sinks(a)} :: m.sinks(a) == Sinks(a))
    && m.Disciplined()
  }

  function Top(f: Frame, sink: Sink, outer: Activity): Activity {
    [Slot(f, sink)] + outer
  }

  function With(c: Config<Activity>, h: Path, a: Activity): Config<Activity> {
    Config(c.store, c.acts[h := a])
  }

  lemma WithSame(c: Config<Activity>, h: Path)
    requires h in c.acts
    ensures With(c, h, c.acts[h]) == c
  {
    assert c.acts[h := c.acts[h]] == c.acts;
  }

  lemma WithWith(c: Config<Activity>, h: Path, a: Activity, b: Activity)
    ensures With(With(c, h, a), h, b) == With(c, h, b)
  {
    assert c.acts[h := a][h := b] == c.acts[h := b];
  }

  function StepOf(m: Machine<Activity>, c: Config<Activity>, h: Path): Config<Activity>
    requires h in c.acts
  {
    Activities.Step(m, c, h)
  }

  lemma CollectStep(m: Machine<Activity>, x: Actor, c: Config<Activity>, h: Path, f: Frame, top: Sink, outer: Activity)
    requires Runs(m, x)
    requires h in c.acts && c.acts[h] == Top(f, top, outer) && f.code != [] && top.Collect?
    ensures StepOf(m, c, h) == With(c, h, Collected(x.act(f), top, outer))
  {
    var e := Bodies.Step(x, c.acts[h]);
    assert c.acts[h][0] == Slot(f, top) && c.acts[h][1..] == outer;
  }

  lemma LeaveStep(m: Machine<Activity>, x: Actor, c: Config<Activity>, h: Path, g: Frame, top: Sink, under: Slot,
      outer: Activity)
    requires Runs(m, x)
    requires h in c.acts && c.acts[h] == Top(g, top, [under] + outer) && g.code == []
    ensures StepOf(m, c, h) == With(c, h, [Leave(x, Slot(g, top), under)] + outer)
  {
    var a := c.acts[h];
    var e := Bodies.Step(x, a);
    assert a[0] == Slot(g, top) && a[1] == under && a[2..] == outer;
  }

  lemma ExecCons(m: Machine<Activity>, c: Config<Activity>, h: Path, s: seq<Path>)
    requires h in c.acts
    ensures Exec(m, c, [h] + s) == Exec(m, StepOf(m, c, h), s)
  {
    assert ([h] + s)[0] == h && ([h] + s)[1..] == s;
  }

  // ---------- bodies on detached nodes ----------

  /** What `f` still has to do after its first action, and the nodes that action produced. */
  ghost predicate Unfolds(x: Actor, fuel: nat, f: Frame, got: seq<Tree>, f2: Frame) {
    && fuel > 0
    && f2.shared == f.shared
    && Eval(x, fuel, f) == Before(got, Eval(x, fuel - 1, f2))
  }

  lemma BeforeNothing(r: Outcome)
    ensures Before([], r) == r
  {
    if r.Some? {
      assert [] + r.value.0 == r.value.0;
    }
  }

  lemma {:induction false} CollectAction(m: Machine<Activity>, x: Actor, c: Config<Activity>, h: Path, f: Frame,
      top: Sink, outer: Activity, fuel: nat)
    returns (s: seq<Path>, got: seq<Tree>, f2: Frame)
    requires Runs(m, x)
    requires h in c.acts && c.acts[h] == Top(f, top, outer) && top.Collect?
    requires x.Shaped() && f.code != [] && Eval(x, fuel, f).Some?
    ensures Unfolds(x, fuel, f, got, f2)
    ensures Exec(m, c, s) == Some(With(c, h, Top(f2, top.(trees := top.trees + got), outer)))
    decreases fuel, 1
  {
    var action := x.act(f);
    var c1 := StepOf(m, c, h);
    CollectStep(m, x, c, h, f, top, outer);
    f2, got, s := action.frame, [], [];
    assert top.trees + [] == top.trees;
    BeforeNothing(Eval(x, fuel - 1, f2));
    if !action.Become? && !action.Leaf? {
      var wrap := match action
        case Nest(_, _) => Splice
        case Detach(_, _, w) => w
        case Below(p, _, _) => Under(p)
        case Call(p, _, _, _) => Under(p)
        case _ => Discard;
      var (trees, vars) := Eval(x, fuel - 1, action.inner).value;
      s := CollectInner(m, x, c1, h, action.inner, wrap, Slot(f2, top), outer, fuel - 1);
      var after := Deliver(x, wrap, trees, Slot(Back(action.inner, vars, f2), top));
      f2 := after.frame;
      got := after.sink.trees[|top.trees|..];
      assert after.sink == top.(trees := top.trees + got);
      assert got == if wrap.Splice? then trees else if wrap.Under? then [Tree(wrap.payload, trees)] else [];
      WithWith(c, h, c1.acts[h], Top(f2, after.sink, outer));
      if action.Detach? {
        BeforeNothing(Eval(x, fuel - 1, f2));
      }
    } else if action.Leaf? {
      got := [Tree(action.payload, [])];
    }
    ExecCons(m, c, h, s);
    s := [h] + s;
  }

  /** A body on a detached node collects its nodes, and touches nothing else. */
  lemma {:induction false} CollectRun(m: Machine<Activity>, x: Actor, c: Config<Activity>, h: Path, f: Frame,
      wrap: Wrap, acc: seq<Tree>, outer: Activity, fuel: nat)
    returns (s: seq<Path>, g: Frame)
    requires Runs(m, x)
    requires h in c.acts && c.acts[h] == Top(f, Collect(wrap, acc), outer)
    requires x.Shaped() && Eval(x, fuel, f).Some?
    ensures g.code == [] && g.shared == f.shared && g.locals == Eval(x, fuel, f).value.1
    ensures Exec(m, c, s) == Some(With(c, h, Top(g, Collect(wrap, acc + Eval(x, fuel, f).value.0), outer)))
    decreases fuel, 2
  {
    var trees := Eval(x, fuel, f).value.0;
    if f.code == [] {
      s, g := [], f;
      assert acc + trees == acc;
      WithSame(c, h);
    } else {
      var s1, got, f2 := CollectAction(m, x, c, h, f, Collect(wrap, acc), outer, fuel);
      var c2 := With(c, h, Top(f2, Collect(wrap, acc + got), outer));
      var s2;
      s2, g := CollectRun(m, x, c2, h, f2, wrap, acc + got, outer, fuel - 1);
      ExecAppend(m, c, s1, s2, c2);
      s := s1 + s2;
      assert acc + got + Eval(x, fuel - 1, f2).value.0 == acc + trees;
      WithWith(c, h, c2.acts[h], Top(g, Collect(wrap, acc + trees), outer));
    }
  }

  /** ... and hands them over to the context below when it returns. */
  lemma {:induction false} CollectInner(m: Machine<Activity>, x: Actor, c: Config<Activity>, h: Path, inner: Frame,
      wrap: Wrap, under: Slot, outer: Activity, fuel: nat)
    returns (s: seq<Path>)
    requires Runs(m, x)
    requires h in c.acts && x.Shaped() && Eval(x, fuel, inner).Some?
    requires c.acts[h] == [Slot(inner, Collect(wrap, []))] + [under] + outer
      || c.acts[h] == [Slot(inner, Collect(wrap, []))] + ([under] + outer)
    ensures var (trees, vars) := Eval(x, fuel, inner).value;
            Exec(m, c, s) ==
            Some(With(c, h, [Deliver(x, wrap, trees, under.(frame := Back(inner, vars, under.frame)))] + outer))
    decreases fuel, 3
  {
    assert c.acts[h] == Top(inner, Collect(wrap, []), [under] + outer);
    var trees := Eval(x, fuel, inner).value.0;
    var s1, g := CollectRun(m, x, c, h, inner, wrap, [], [under] + outer, fuel);
    assert [] + trees == trees;
    var d := With(c, h, Top(g, Collect(wrap, trees), [under] + outer));
    LeaveStep(m, x, d, h, g, Collect(wrap, trees), under, outer);
    WithWith(c, h, d.acts[h], StepOf(m, d, h).acts[h]);
    ExecAppend(m, c, s1, [h], d);
    ExecCons(m, d, h, []);
    assert [h] + [] == [h];
    s := s1 + [h];
  }

  // ---------- bodies on nodes of the result tree ----------

  /** The configurations a transformation can be in. */
  ghost predicate Reached(m: Machine<Activity>, c: Config<Activity>) {
    exists first: Activity, s: seq<Path> :: m.sinks(first) <= {[]} && Exec(m, Origin(first), s) == Some(c)
  }

  lemma {:induction false} ExecInv(m: Machine<Activity>, c: Config<Activity>, s: seq<Path>, d: Config<Activity>)
    requires Inv(m, c) && Exec(m, c, s) == Some(d)
    ensures Inv(m, d)
    decreases |s|
  {
    if s != [] {
      StepInv(m, c, s[0]);
      ExecInv(m, Activities.Step(m, c, s[0]), s[1..], d);
    }
  }

  lemma ReachedInv(m: Machine<Activity>, x: Actor, c: Config<Activity>)
    requires Runs(m, x)
    requires Reached(m, c)
    ensures Inv(m, c)
  {
    var first: Activity, s: seq<Path> :| m.sinks(first) <= {[]} && Exec(m, Origin(first), s) == Some(c);
    OriginInv(m, first);
    ExecInv(m, Origin(first), s, c);
  }

  lemma ReachedOn(m: Machine<Activity>, c: Config<Activity>, s: seq<Path>, d: Config<Activity>)
    requires Reached(m, c) && Exec(m, c, s) == Some(d)
    ensures Reached(m, d)
  {
    var first: Activity, r: seq<Path> :| m.sinks(first) <= {[]} && Exec(m, Origin(first), r) == Some(c);
    ExecAppend(m, Origin(first), r, s, c);
    assert Exec(m, Origin(first), r + s) == Some(d);
  }

  /** From `c` to `d`, activity `h` has become `a` and its node `at` has got `trees`. */
  ghost predicate Advances(m: Machine<Activity>, c: Config<Activity>, s: seq<Path>, d: Config<Activity>, h: Path,
      a: Activity, at: Path, trees: seq<Tree>)
  {
    && Exec(m, c, s) == Some(d)
    && h in c.acts
    && d.acts == c.acts[h := a]
    && Grew(c.store, d.store, at, trees)
  }

  lemma AdvancesTrans(m: Machine<Activity>, c: Config<Activity>, s: seq<Path>, d: Config<Activity>, t: seq<Path>,
      e: Config<Activity>,
                      h: Path, a: Activity, b: Activity, at: Path, ts: seq<Tree>, us: seq<Tree>)
    requires Advances(m, c, s, d, h, a, at, ts) && Advances(m, d, t, e, h, b, at, us)
    ensures Advances(m, c, s + t, e, h, b, at, ts + us)
  {
    ExecAppend(m, c, s, t, d);
    GrewTrans(c.store, d.store, e.store, at, ts, us);
    assert c.acts[h := a][h := b] == c.acts[h := b];
  }

  lemma SinkInStore(m: Machine<Activity>, x: Actor, c: Config<Activity>, h: Path, f: Frame, at: Path, outer: Activity)
    requires Runs(m, x)
    requires Reached(m, c) && h in c.acts && c.acts[h] == Top(f, Node(at), outer)
    ensures at in c.store
  {
    ReachedInv(m, x, c);
    assert Owned(m, c.store, h, c.acts[h]);
    assert c.acts[h][0] in c.acts[h];
    assert at in Sinks(c.acts[h]);
  }

  /** The configuration after one step of an activity that writes to the node `at`. */
  ghost predicate Stepped(action: Action, c: Config<Activity>, d: Config<Activity>, h: Path, at: Path,
      outer: Activity)
  {
    var rest := [Slot(action.frame, Node(at))] + outer;
    var n := NewPath(c.store, at);
    match action
    case Become(_) => d == With(c, h, rest)
    case Nest(_, inner) => d == With(c, h, [Slot(inner, Node(at))] + rest)
    case Detach(_, inner, wrap) => d == With(c, h, [Slot(inner, Collect(wrap, []))] + rest)
    case Leaf(payload, _) => d == Config(Append(c.store, at, payload, h), c.acts[h := rest])
    case Below(payload, _, inner) =>
      d == Config(Append(c.store, at, payload, h), c.acts[h := [Slot(inner, Node(n))] + rest])
    case Call(payload, _, inner, _) =>
      d == Config(Append(c.store, at, payload, n), c.acts[h := rest][n := [Slot(inner, Node(n))]])
  }

  lemma NodeStep(m: Machine<Activity>, x: Actor, c: Config<Activity>, h: Path, f: Frame, at: Path, outer: Activity)
    requires Runs(m, x)
    requires Reached(m, c) && h in c.acts && c.acts[h] == Top(f, Node(at), outer) && f.code != []
    ensures Reached(m, StepOf(m, c, h))
    ensures WellFormed(c.store) && at in c.store && NewPath(c.store, at) !in c.acts
    ensures Stepped(x.act(f), c, StepOf(m, c, h), h, at, outer)
  {
    ReachedInv(m, x, c);
    SinkInStore(m, x, c, h, f, at, outer);
    NewIsFresh(c.store, at);
    ExecCons(m, c, h, []);
    ReachedOn(m, c, [h] + [], StepOf(m, c, h));
    var e := Bodies.Step(x, c.acts[h]);
    assert c.acts[h][0] == Slot(f, Node(at)) && c.acts[h][1..] == outer;
  }

  lemma StepThenNode(m: Machine<Activity>, c: Config<Activity>, s: seq<Path>, d: Config<Activity>, h: Path,
      f2: Frame, at: Path, outer: Activity, got: seq<Tree>)
    returns (t: seq<Path>)
    requires h in c.acts
    requires Exec(m, Activities.Step(m, c, h), s) == Some(d)
    requires Grew(c.store, d.store, at, got)
    requires d.acts.Keys == c.acts.Keys && d.acts[h] == Top(f2, Node(at), outer)
    requires forall k | k in c.acts && k != h :: d.acts[k] == c.acts[k]
    ensures t != [] && Advances(m, c, t, d, h, Top(f2, Node(at), outer), at, got)
  {
    t := [h] + s;
    assert t[0] == h && t[1..] == s;
    assert d.acts == c.acts[h := Top(f2, Node(at), outer)];
  }

  lemma StepThenBelow(m: Machine<Activity>, c: Config<Activity>, s: seq<Path>, d: Config<Activity>, h: Path,
      f2: Frame, at: Path, outer: Activity,
                      payload: Payload, owner: Path, trees: seq<Tree>)
    returns (t: seq<Path>)
    requires h in c.acts && WellFormed(c.store) && at in c.store
    requires Activities.Step(m, c, h).store == Append(c.store, at, payload, owner)
    requires Exec(m, Activities.Step(m, c, h), s) == Some(d)
    requires Grew(Activities.Step(m, c, h).store, d.store, NewPath(c.store, at), trees)
    requires d.acts.Keys == c.acts.Keys && d.acts[h] == Top(f2, Node(at), outer)
    requires forall k | k in c.acts && k != h :: d.acts[k] == c.acts[k]
    ensures t != [] && Advances(m, c, t, d, h, Top(f2, Node(at), outer), at, [Tree(payload, trees)])
  {
    GrewBelow(c.store, Activities.Step(m, c, h).store, d.store, at, payload, owner, trees);
    t := StepThenNode(m, c, s, d, h, f2, at, outer, [Tree(payload, trees)]);
  }

  /** A step that changes only the context, or appends a leaf. */
  lemma NodePlain(m: Machine<Activity>, x: Actor, c: Config<Activity>, h: Path, f: Frame, at: Path, outer: Activity)
    returns (s: seq<Path>, d: Config<Activity>)
    requires Runs(m, x)
    requires Reached(m, c) && h in c.acts && c.acts[h] == Top(f, Node(at), outer)
    requires f.code != [] && (x.act(f).Become? || x.act(f).Leaf?)
    ensures Advances(m, c, s, d, h, Top(x.act(f).frame, Node(at), outer), at,
                     if x.act(f).Leaf? then [Tree(x.act(f).payload, [])] else [])
  {
    NodeStep(m, x, c, h, f, at, outer);
    d := StepOf(m, c, h);
    if x.act(f).Leaf? {
      GrewLeaf(c.store, at, x.act(f).payload, h);
    }
    s := StepThenNode(m, c, [], d, h, x.act(f).frame, at, outer, if x.act(f).Leaf? then
        [Tree(x.act(f).payload, [])] else []);
  }

  /** A body run on the same node. */
  lemma {:induction false} NodeNest(m: Machine<Activity>, x: Actor, c: Config<Activity>, h: Path, f: Frame,
      at: Path, outer: Activity,
                                 fuel: nat, trees: seq<Tree>, vars: Bindings)
    returns (s: seq<Path>, d: Config<Activity>)
    requires Runs(m, x) && x.Shaped()
    requires Reached(m, c) && h in c.acts && c.acts[h] == Top(f, Node(at), outer)
    requires f.code != [] && x.act(f).Nest? && Eval(x, fuel, x.act(f).inner) == Some((trees, vars))
    ensures s != []
    ensures Advances(m, c, s, d, h, Top(Back(x.act(f).inner, vars, x.act(f).frame), Node(at), outer), at, trees)
    decreases fuel, 5
  {
    NodeStep(m, x, c, h, f, at, outer);
    var action := x.act(f);
    var c1 := StepOf(m, c, h);
    var under := Slot(action.frame, Node(at));
    s, d := NodeInner(m, x, c1, h, action.inner, at, under, outer, fuel, trees, vars);
    s := StepThenNode(m, c, s, d, h, Back(action.inner, vars, action.frame), at, outer, trees);
  }

  lemma SettleDelivers(x: Actor, wrap: Wrap, trees: seq<Tree>, f: Frame, at: Path)
    requires !wrap.Splice? && !wrap.Under?
    ensures Deliver(x, wrap, trees, Slot(f, Node(at))) == Slot(x.settle(wrap, trees, f), Node(at))
  {
  }

  /** A body run on a detached node. */
  lemma {:induction false} NodeDetach(m: Machine<Activity>, x: Actor, c: Config<Activity>, h: Path, f: Frame,
      at: Path, outer: Activity,
                                 fuel: nat, trees: seq<Tree>, vars: Bindings)
    returns (s: seq<Path>, d: Config<Activity>)
    requires Runs(m, x) && x.Shaped()
    requires Reached(m, c) && h in c.acts && c.acts[h] == Top(f, Node(at), outer)
    requires f.code != [] && x.act(f).Detach? && Eval(x, fuel, x.act(f).inner) == Some((trees, vars))
    ensures s != []
    ensures Advances(m, c, s, d, h, Top(x.settle(x.act(f).wrap, trees, Back(x.act(f).inner, vars, x.act(f).frame)),
      Node(at), outer), at, [])
    decreases fuel, 5
  {
    NodeStep(m, x, c, h, f, at, outer);
    var action := x.act(f);
    var c1 := StepOf(m, c, h);
    var under := Slot(action.frame, Node(at));
    s := CollectInner(m, x, c1, h, action.inner, action.wrap, under, outer, fuel);
    var f2 := x.settle(action.wrap, trees, Back(action.inner, vars, action.frame));
    d := With(c1, h, Top(f2, Node(at), outer));
    SettleDelivers(x, action.wrap, trees, Back(action.inner, vars, action.frame), at);
    assert c1.acts[h := d.acts[h]].Keys == c.acts.Keys;
    s := StepThenNode(m, c, s, d, h, f2, at, outer, []);
  }

  /** A node appended and filled by the same activity. */
  lemma {:induction false} NodeBelow(m: Machine<Activity>, x: Actor, c: Config<Activity>, h: Path, f: Frame,
      at: Path, outer: Activity,
                                 fuel: nat, trees: seq<Tree>, vars: Bindings)
    returns (s: seq<Path>, d: Config<Activity>)
    requires Runs(m, x) && x.Shaped()
    requires Reached(m, c) && h in c.acts && c.acts[h] == Top(f, Node(at), outer)
    requires f.code != [] && x.act(f).Below? && Eval(x, fuel, x.act(f).inner) == Some((trees, vars))
    ensures s != []
    ensures Advances(m, c, s, d, h, Top(Back(x.act(f).inner, vars, x.act(f).frame), Node(at), outer), at,
      [Tree(x.act(f).payload, trees)])
    decreases fuel, 5
  {
    NodeStep(m, x, c, h, f, at, outer);
    var action := x.act(f);
    var c1 := StepOf(m, c, h);
    var under := Slot(action.frame, Node(at));
    s, d := NodeInner(m, x, c1, h, action.inner, NewPath(c.store, at), under, outer, fuel, trees, vars);
    s := StepThenBelow(m, c, s, d, h, Back(action.inner, vars, action.frame), at, outer, action.payload, h, trees);
  }

  /** A node appended for a context of its own. */
  lemma {:induction false} NodeCall(m: Machine<Activity>, x: Actor, c: Config<Activity>, h: Path, f: Frame,
      at: Path, outer: Activity,
                                 fuel: nat, trees: seq<Tree>, vars: Bindings)
    returns (s: seq<Path>, d: Config<Activity>)
    requires Runs(m, x) && x.Shaped()
    requires Reached(m, c) && h in c.acts && c.acts[h] == Top(f, Node(at), outer)
    requires f.code != [] && x.act(f).Call? && Eval(x, fuel, x.act(f).inner) == Some((trees, vars))
    ensures s != []
    ensures Advances(m, c, s, d, h, Top(x.act(f).frame, Node(at), outer), at, [Tree(x.act(f).payload, trees)])
    decreases fuel, 5
  {
    NodeStep(m, x, c, h, f, at, outer);
    var action := x.act(f);
    var c1 := StepOf(m, c, h);
    var under := Slot(action.frame, Node(at));
    var n := NewPath(c.store, at);
    s, d := ChildRun(m, x, c1, n, action.inner, fuel, trees, vars);
    s := StepThenBelow(m, c, s, d, h, action.frame, at, outer, action.payload, n, trees);
  }

  /** The nodes the first action of `f` produces, and what is left to do after it. */
  lemma FirstAction(x: Actor, fuel: nat, f: Frame) returns (got: seq<Tree>, f2: Frame, trees: seq<Tree>, vars: Bindings)
    requires x.Shaped() && f.code != [] && Eval(x, fuel, f).Some?
    ensures Unfolds(x, fuel, f, got, f2)
    ensures var e := x.act(f);
            if e.Become? || e.Leaf? then f2 == e.frame && got == if e.Leaf? then [Tree(e.payload, [])] else []
            else
              && Eval(x, fuel - 1, e.inner) == Some((trees, vars))
              && got == (if e.Nest? then trees else if e.Detach? then [] else [Tree(e.payload, trees)])
              && f2 == if e.Call? then e.frame
                       else if e.Detach? then x.settle(e.wrap, trees, Back(e.inner, vars, e.frame))
                       else Back(e.inner, vars, e.frame)
  {
    var e := x.act(f);
    got, f2, trees, vars := [], e.frame, [], [];
    if !e.Become? && !e.Leaf? {
      trees, vars := Eval(x, fuel - 1, e.inner).value.0, Eval(x, fuel - 1, e.inner).value.1;
    }
    match e
    case Become(_) => BeforeNothing(Eval(x, fuel - 1, f2));
    case Leaf(payload, _) => got := [Tree(payload, [])];
    case Nest(_, inner) => got, f2 := trees, Back(inner, vars, f2);
    case Detach(_, inner, wrap) =>
      f2 := x.settle(wrap, trees, Back(inner, vars, f2));
      BeforeNothing(Eval(x, fuel - 1, f2));
    case Below(payload, _, inner) => got, f2 := [Tree(payload, trees)], Back(inner, vars, f2);
    case Call(payload, _, _, _) => got := [Tree(payload, trees)];
  }

  /** The first action of a body: afterwards only `f2` is left to do, and `got` has been appended. */
  lemma {:induction false} NodeAction(m: Machine<Activity>, x: Actor, c: Config<Activity>, h: Path, f: Frame,
      at: Path, outer: Activity, fuel: nat)
    returns (s: seq<Path>, got: seq<Tree>, f2: Frame, d: Config<Activity>)
    requires Runs(m, x) && x.Shaped()
    requires Reached(m, c) && h in c.acts && c.acts[h] == Top(f, Node(at), outer)
    requires f.code != [] && Eval(x, fuel, f).Some?
    ensures Unfolds(x, fuel, f, got, f2)
    ensures Advances(m, c, s, d, h, Top(f2, Node(at), outer), at, got)
    decreases fuel, 2
  {
    var trees, vars;
    got, f2, trees, vars := FirstAction(x, fuel, f);
    match x.act(f)
    case Nest(_, _) => s, d := NodeNest(m, x, c, h, f, at, outer, fuel - 1, trees, vars);
    case Detach(_, _, _) => s, d := NodeDetach(m, x, c, h, f, at, outer, fuel - 1, trees, vars);
    case Below(_, _, _) => s, d := NodeOwn(m, x, c, h, f, at, outer, fuel - 1, trees, vars);
    case Call(_, _, _, _) => s, d := NodeOwn(m, x, c, h, f, at, outer, fuel - 1, trees, vars);
    case _ => s, d := NodePlain(m, x, c, h, f, at, outer);
  }

  /** An action with a node of its own above what it runs. */
  lemma {:induction false} NodeOwn(m: Machine<Activity>, x: Actor, c: Config<Activity>, h: Path, f: Frame,
      at: Path, outer: Activity, fuel: nat, trees: seq<Tree>, vars: Bindings)
    returns (s: seq<Path>, d: Config<Activity>)
    requires Runs(m, x) && x.Shaped()
    requires Reached(m, c) && h in c.acts && c.acts[h] == Top(f, Node(at), outer)
    requires f.code != [] && (x.act(f).Below? || x.act(f).Call?)
    requires Eval(x, fuel, x.act(f).inner) == Some((trees, vars))
    ensures var e := x.act(f);
      Advances(m, c, s, d, h, Top(if e.Call? then e.frame else Back(e.inner, vars, e.frame), Node(at), outer), at,
               [Tree(e.payload, trees)])
    decreases fuel, 6
  {
    if x.act(f).Call? {
      s, d := NodeCall(m, x, c, h, f, at, outer, fuel, trees, vars);
    } else {
      s, d := NodeBelow(m, x, c, h, f, at, outer, fuel, trees, vars);
    }
  }

  /** A body appends its nodes to its result node. */
  lemma {:induction false} NodeRun(m: Machine<Activity>, x: Actor, c: Config<Activity>, h: Path, f: Frame,
      at: Path, outer: Activity,
                                   fuel: nat, trees: seq<Tree>, vars: Bindings)
    returns (s: seq<Path>, g: Frame, d: Config<Activity>)
    requires Runs(m, x) && x.Shaped()
    requires Reached(m, c) && h in c.acts && c.acts[h] == Top(f, Node(at), outer)
    requires Eval(x, fuel, f) == Some((trees, vars))
    ensures g.code == [] && g.shared == f.shared && g.locals == vars
    ensures Advances(m, c, s, d, h, Top(g, Node(at), outer), at, trees)
    decreases fuel, 3
  {
    if f.code == [] {
      s, g, d := [], f, c;
      SinkInStore(m, x, c, h, f, at, outer);
      assert c.acts[h := c.acts[h]] == c.acts;
    } else {
      var s1, got, f2, d1 := NodeAction(m, x, c, h, f, at, outer, fuel);
      var rest := Eval(x, fuel - 1, f2).value.0;
      assert trees == got + rest && vars == Eval(x, fuel - 1, f2).value.1;
      ReachedOn(m, c, s1, d1);
      var s2;
      s2, g, d := NodeRun(m, x, d1, h, f2, at, outer, fuel - 1, rest, vars);
      AdvancesTrans(m, c, s1, d1, s2, d, h, Top(f2, Node(at), outer), Top(g, Node(at), outer), at, got, rest);
      s := s1 + s2;
    }
  }

  /** A body run in place on the node `at`, and the return to the context below. */
  lemma {:induction false} NodeInner(m: Machine<Activity>, x: Actor, c: Config<Activity>, h: Path, inner: Frame,
      at: Path, under: Slot, outer: Activity,
                                     fuel: nat, trees: seq<Tree>, vars: Bindings)
    returns (s: seq<Path>, d: Config<Activity>)
    requires Runs(m, x) && x.Shaped()
    requires Reached(m, c) && h in c.acts && Eval(x, fuel, inner) == Some((trees, vars))
    requires c.acts[h] == [Slot(inner, Node(at))] + ([under] + outer)
    ensures Advances(m, c, s, d, h, [under.(frame := Back(inner, vars, under.frame))] + outer, at, trees)
    decreases fuel, 4
  {
    var s1, g, d1 := NodeRun(m, x, c, h, inner, at, [under] + outer, fuel, trees, vars);
    LeaveStep(m, x, d1, h, g, Node(at), under, outer);
    d := StepOf(m, d1, h);
    ExecCons(m, d1, h, []);
    assert [h] + [] == [h];
    var b := [under.(frame := Back(inner, vars, under.frame))] + outer;
    assert Advances(m, d1, [h], d, h, b, at, []);
    AdvancesTrans(m, c, s1, d1, [h], d, h, Top(g, Node(at), [under] + outer), b, at, trees, []);
    assert trees + [] == trees;
    s := s1 + [h];
  }

  /** A context of its own fills its node `n` and ends. */
  lemma {:induction false} ChildRun(m: Machine<Activity>, x: Actor, c: Config<Activity>, n: Path, inner: Frame,
                                    fuel: nat, trees: seq<Tree>, vars: Bindings)
    returns (s: seq<Path>, d: Config<Activity>)
    requires Runs(m, x) && x.Shaped()
    requires Reached(m, c) && n in c.acts && c.acts[n] == [Slot(inner, Node(n))]
    requires Eval(x, fuel, inner) == Some((trees, vars))
    ensures Exec(m, c, s) == Some(d)
    ensures d.acts == c.acts - {n}
    ensures Grew(c.store, d.store, n, trees)
    decreases fuel, 4
  {
    assert c.acts[n] == Top(inner, Node(n), []);
    var s1, g, d1 := NodeRun(m, x, c, n, inner, n, [], fuel, trees, vars);
    assert d1.acts[n] == [Slot(g, Node(n))];
    var e := Bodies.Step(x, d1.acts[n]);
    d := StepOf(m, d1, n);
    assert d == Config(d1.store, d1.acts - {n});
    ExecCons(m, d1, n, []);
    assert [n] + [] == [n];
    ExecAppend(m, c, s1, [n], d1);
    s := s1 + [n];
  }

  // ---------- the theorem ----------

  /** Some schedule completes the transformation and leaves exactly the nodes of its meaning. */
  lemma MeaningIsBuilt(x: Actor, document: DocNode, fuel: nat) returns (schedule: seq<Path>, store: Store)
    requires x.Shaped() && Eval(x, fuel, Whole(document)).Some?
    ensures Completes(Runner(x), Origin([Slot(Whole(document), Node([]))]), schedule, store)
    ensures Holds(store, [], Tree(Placeholder, Eval(x, fuel, Whole(document)).value.0))
  {
    var first := [Slot(Whole(document), Node([]))];
    var c := Origin(first);
    var m := Runner(x);
    RunnerIsDisciplined(x);
    SinksOfCons(first[0], []);
    assert first == first + [];
    assert Exec(m, c, []) == Some(c);
    var trees := Eval(x, fuel, Whole(document)).value.0;
    var d;
    schedule, d := ChildRun(m, x, c, [], Whole(document), fuel, trees, Eval(x, fuel, Whole(document)).value.1);
    store := d.store;
    assert d.acts == map[];
    forall i: nat | i < |trees| ensures Holds(store, [] + [i], trees[i]) {
      assert Holds(store, [] + [c.store[[]].count + i], trees[i]);
    }
  }

  // ---------- bodies without a meaning do not end ----------

  /** When the first action of `f` has been made but what it started has no meaning, or the rest has none. */
  lemma NoMeaning(x: Actor, fuel: nat, f: Frame)
    requires x.Shaped() && fuel > 0 && f.code != [] && Eval(x, fuel, f).None?
    ensures var e := x.act(f);
            if e.Become? || e.Leaf? then Eval(x, fuel - 1, e.frame).None?
            else
              match Eval(x, fuel - 1, e.inner)
              case None => true
              case Some((trees, vars)) =>
                Eval(x, fuel - 1, if e.Call? then e.frame
                                  else if e.Detach? then x.settle(e.wrap, trees, Back(e.inner, vars, e.frame))
                                  else Back(e.inner, vars, e.frame)).None?
  {
  }

  /**
     The first action of `f` has been made; a body it started has run to its end if it has one,
     and is otherwise on top of its stack.
   */
  ghost predicate MadeFirst(x: Actor, c: Config<Activity>, d: Config<Activity>, h: Path, f: Frame, sink: Sink,
      outer: Activity, fuel: nat)
  {
    var e := x.act(f);
    if e.Become? || e.Leaf? then OnTop(d, h, e.frame, outer)
    else
      match Eval(x, fuel, e.inner)
      case None =>
        var k := if e.Call? && sink.Node? then NewPath(c.store, sink.path) else h;
        k in d.acts && d.acts[k] != [] && d.acts[k][0].frame == e.inner
      case Some((trees, vars)) =>
        OnTop(d, h, if e.Call? then e.frame
                    else if e.Detach? then x.settle(e.wrap, trees, Back(e.inner, vars, e.frame))
                    else Back(e.inner, vars, e.frame), outer)
  }

  lemma AfterFirstDetached(m: Machine<Activity>, x: Actor, c: Config<Activity>, h: Path, f: Frame, sink: Sink,
      outer: Activity, fuel: nat)
    returns (t: seq<Path>, d: Config<Activity>)
    requires Runs(m, x) && x.Shaped() && sink.Collect?
    requires h in c.acts && c.acts[h] == Top(f, sink, outer) && f.code != []
    ensures t != [] && Exec(m, c, t) == Some(d)
    ensures MadeFirst(x, c, d, h, f, sink, outer, fuel)
  {
    var e := x.act(f);
    var c1 := StepOf(m, c, h);
    ExecCons(m, c, h, []);
    CollectStep(m, x, c, h, f, sink, outer);
    t, d := [h] + [], c1;
    if !e.Become? && !e.Leaf? && Eval(x, fuel, e.inner).Some? {
      var wrap := match e
        case Nest(_, _) => Splice
        case Detach(_, _, w) => w
        case Below(p, _, _) => Under(p)
        case Call(p, _, _, _) => Under(p)
        case _ => Discard;
      var s := CollectInner(m, x, c1, h, e.inner, wrap, Slot(e.frame, sink), outer, fuel);
      d := Exec(m, c1, s).value;
      ExecCons(m, c, h, s);
      t := [h] + s;
    }
  }

  lemma AfterFirstOnNode(m: Machine<Activity>, x: Actor, c: Config<Activity>, h: Path, f: Frame, sink: Sink,
      outer: Activity, fuel: nat)
    returns (t: seq<Path>, d: Config<Activity>)
    requires Runs(m, x) && x.Shaped() && Reached(m, c) && sink.Node?
    requires h in c.acts && c.acts[h] == Top(f, sink, outer) && f.code != []
    ensures t != [] && Exec(m, c, t) == Some(d)
    ensures MadeFirst(x, c, d, h, f, sink, outer, fuel)
  {
    var e := x.act(f);
    if e.Become? || e.Leaf? || Eval(x, fuel, e.inner).None? {
      NodeStep(m, x, c, h, f, sink.path, outer);
      d := StepOf(m, c, h);
      ExecCons(m, c, h, []);
      t := [h] + [];
    } else {
      var (trees, vars) := Eval(x, fuel, e.inner).value;
      match e {
        case Nest(_, _) => t, d := NodeNest(m, x, c, h, f, sink.path, outer, fuel, trees, vars);
        case Detach(_, _, _) => t, d := NodeDetach(m, x, c, h, f, sink.path, outer, fuel, trees, vars);
        case Below(_, _, _) => t, d := NodeBelow(m, x, c, h, f, sink.path, outer, fuel, trees, vars);
        case Call(_, _, _, _) => t, d := NodeCall(m, x, c, h, f, sink.path, outer, fuel, trees, vars);
      }
    }
  }

  ghost predicate OnTop(d: Config<Activity>, h: Path, f: Frame, outer: Activity) {
    h in d.acts && d.acts[h] != [] && d.acts[h][0].frame == f && d.acts[h][1..] == outer
  }

  /** Whichever body has no meaning now, it is on top of some stack. */
  lemma StillBusy(x: Actor, c: Config<Activity>, d: Config<Activity>, h: Path, f: Frame, sink: Sink,
      outer: Activity, fuel: nat)
    returns (k: Path, g: Frame)
    requires x.Shaped() && f.code != [] && Eval(x, fuel + 1, f).None? && MadeFirst(x, c, d, h, f, sink, outer, fuel)
    ensures k in d.acts && d.acts[k] != [] && d.acts[k][0].frame == g && Eval(x, fuel, g).None?
  {
    NoMeaning(x, fuel + 1, f);
    var e := x.act(f);
    if !e.Become? && !e.Leaf? && Eval(x, fuel, e.inner).None? {
      k, g := if e.Call? && sink.Node? then NewPath(c.store, sink.path) else h, e.inner;
    } else {
      k, g := h, d.acts[h][0].frame;
    }
  }

  /** A body without a meaning after `fuel` steps of the recursion keeps the engine busy for as many. */
  lemma {:induction false} NeverEnds(m: Machine<Activity>, x: Actor, c: Config<Activity>, h: Path, f: Frame, fuel: nat)
    returns (s: seq<Path>)
    requires Runs(m, x) && x.Shaped() && Reached(m, c)
    requires h in c.acts && c.acts[h] != [] && c.acts[h][0].frame == f && Eval(x, fuel, f).None?
    ensures |s| >= fuel && Exec(m, c, s).Some?
    decreases fuel
  {
    if fuel == 0 {
      s := [];
    } else {
      var sink, outer := c.acts[h][0].sink, c.acts[h][1..];
      assert c.acts[h] == Top(f, sink, outer);
      var t, d;
      if sink.Collect? {
        t, d := AfterFirstDetached(m, x, c, h, f, sink, outer, fuel - 1);
      } else {
        t, d := AfterFirstOnNode(m, x, c, h, f, sink, outer, fuel - 1);
      }
      ReachedOn(m, c, t, d);
      var k, g := StillBusy(x, c, d, h, f, sink, outer, fuel - 1);
      var u := NeverEnds(m, x, d, k, g, fuel - 1);
      ExecAppend(m, c, t, u, d);
      s := t + u;
    }
  }

  /** If the engine completes the transformation, its meaning is defined. */
  lemma CompleteMeansDefined(x: Actor, document: DocNode, schedule: seq<Path>, store: Store)
    requires x.Shaped()
    requires Completes(Runner(x), Origin([Slot(Whole(document), Node([]))]), schedule, store)
    ensures Eval(x, |schedule| + 1, Whole(document)).Some?
  {
    var m := Runner(x);
    var first := [Slot(Whole(document), Node([]))];
    var c := Origin(first);
    RunnerIsDisciplined(x);
    SinksOfCons(first[0], []);
    assert first == first + [];
    OriginInv(m, first);
    assert Exec(m, c, []) == Some(c);
    if Eval(x, |schedule| + 1, Whole(document)).None? {
      var t := NeverEnds(m, x, c, [], Whole(document), |schedule| + 1);
      var rest := Confluent(m, c, schedule, store, t, Exec(m, c, t).value);
    }
  }
}
