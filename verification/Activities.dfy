/**
 The result tree and the activities that write it.

 A node of the result tree is named by its path from the root: appending a child to a node
 that has c children creates the node `path + [c]`.  Child lists only ever grow at their end,
 so a path is a name that never changes, exactly like the node pointer the engine passes around.

 An activity is one run of a template body together with everything it runs in place over the
 same local variables.  The engine may run a new activity in place or hand it to the thread pool;
 here every activity is a unit of its own and any order of steps is allowed.  What one activity
 does next is a parameter of this module: a machine that never looks at the result tree.
 */
module Activities {
  import opened Wrappers

  type Path = seq<nat>

  /** What a node of the result tree carries besides its children. */
  datatype Payload =
    | Placeholder
    | Element(name: string, attributes: seq<(string, string)>)
    | Text(text: string, raw: bool)
    | Comment(text: string)
    | Instruction(target: string, text: string)

  /** `owner` is the activity that may append to the node. */
  datatype Cell = Cell(payload: Payload, count: nat, owner: Path)

  type Store = map<Path, Cell>

  /** Where a new activity comes from: a plain call, or a call of `template_task_run`. */
  datatype Site = InPlace | Task(fork: Option<string>, listed: bool)

  datatype Effect<!A(!new)> =
    | Stop
    | Local(after: A)
    | Grow(at: Path, payload: Payload, next: Path -> A, child: Option<Path -> A>, site: Site)

  datatype Machine<!A(!new)> = Machine(step: A -> Effect<A>, sinks: A -> set<Path>)
  {
    /**
     The only nodes an activity appends to are its sinks, and it gains new ones only by
     creating them.  A new activity starts with nothing but the node created for it.
     */
    ghost predicate Disciplined() {
      forall a: A ::
        match step(a)
        case Stop => true
        case Local(b) => sinks(b) <= sinks(a)
        case Grow(at, _, next, child, _) =>
          && at in sinks(a)
          && (forall p: Path :: sinks(next(p)) <= sinks(a) + (if child.None? then {p} else {}))
          && (child.Some? ==> forall p: Path :: sinks(child.value(p)) <= {p})
    }
  }

  datatype Config<!A(!new)> = Config(store: Store, acts: map<Path, A>)

  // ---------- well-formed configurations ----------

  ghost predicate WellFormed(store: Store) {
    forall p: Path, i: nat :: p + [i] in store <==> p in store && i < store[p].count
  }

  ghost predicate Owned<A(!new)>(m: Machine<A>, store: Store, home: Path, a: A) {
    forall p: Path :: p in m.sinks(a) ==> p in store && store[p].owner == home
  }

  ghost predicate Inv<A(!new)>(m: Machine<A>, c: Config<A>) {
    && m.Disciplined()
    && WellFormed(c.store)
    && c.acts.Keys <= c.store.Keys
    && forall h: Path :: h in c.acts ==> Owned(m, c.store, h, c.acts[h])
  }

  /** No node of the result tree has two writers. */
  lemma OneWriter<A(!new)>(m: Machine<A>, c: Config<A>, h: Path, k: Path)
    requires Inv(m, c) && h in c.acts && k in c.acts && h != k
    ensures m.sinks(c.acts[h]) !! m.sinks(c.acts[k])
  {
    assert Owned(m, c.store, h, c.acts[h]) && Owned(m, c.store, k, c.acts[k]);
  }

  // ---------- one step of one activity ----------

  function NewPath(store: Store, at: Path): Path {
    if at in store then at + [store[at].count] else at
  }

  /** The node `at` gets a new last child, `NewPath(store, at)`. */
  function Append(store: Store, at: Path, payload: Payload, owner: Path): Store {
    if at in store then
      store[at := store[at].(count := store[at].count + 1)][NewPath(store, at) := Cell(payload, 0, owner)]
    else store
  }

  function Step<A(!new)>(m: Machine<A>, c: Config<A>, h: Path): Config<A>
    requires h in c.acts
  {
    match m.step(c.acts[h])
    case Stop => Config(c.store, c.acts - {h})
    case Local(a) => Config(c.store, c.acts[h := a])
    case Grow(at, payload, next, child, _) =>
      var n := NewPath(c.store, at);
      if child.None? then
        Config(Append(c.store, at, payload, h), c.acts[h := next(n)])
      else
        Config(Append(c.store, at, payload, n), c.acts[h := next(n)][n := child.value(n)])
  }

  lemma NewIsFresh(store: Store, at: Path)
    requires WellFormed(store) && at in store
    ensures NewPath(store, at) !in store
  {
  }

  lemma AppendWellFormed(store: Store, at: Path, payload: Payload, owner: Path)
    requires WellFormed(store) && at in store
    ensures WellFormed(Append(store, at, payload, owner))
  {
    var n := NewPath(store, at);
    var after := Append(store, at, payload, owner);
    NewIsFresh(store, at);
    forall p: Path, i: nat
      ensures p + [i] in after <==> p in after && i < after[p].count
    {
      if p + [i] == n {
        assert p == n[..|n|-1] == at && i == n[|n|-1];
      }
    }
  }

  lemma StepInv<A(!new)>(m: Machine<A>, c: Config<A>, h: Path)
    requires Inv(m, c) && h in c.acts
    ensures Inv(m, Step(m, c, h))
  {
    var a := c.acts[h];
    var d := Step(m, c, h);
    assert Owned(m, c.store, h, a);
    match m.step(a)
    case Stop =>
    case Local(b) =>
      assert Owned(m, d.store, h, b);
    case Grow(at, payload, next, child, _) =>
      var n := NewPath(c.store, at);
      NewIsFresh(c.store, at);
      AppendWellFormed(c.store, at, payload, if child.None? then h else n);
      forall k: Path | k in d.acts ensures Owned(m, d.store, k, d.acts[k]) {
        if k == h {
          assert m.sinks(next(n)) <= m.sinks(a) + (if child.None? then {n} else {});
        } else if k in c.acts {
          assert Owned(m, c.store, k, c.acts[k]);
        }
      }
  }
}
