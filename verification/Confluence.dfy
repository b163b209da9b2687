/**
 Any two complete interleavings of the activities build the same result tree.

 Steps of two different activities commute exactly, since they write to different nodes and
 neither reads the tree.  From that diamond follows confluence: if one complete schedule exists,
 every schedule can be completed, no schedule is longer, and all complete ones end alike.
 */
module Confluence {
  import opened Wrappers
  import opened Activities

  lemma GrowTargets<A(!new)>(m: Machine<A>, c: Config<A>, h: Path)
    requires Inv(m, c) && h in c.acts && m.step(c.acts[h]).Grow?
    ensures m.step(c.acts[h]).at in m.sinks(c.acts[h])
    ensures m.step(c.acts[h]).at in c.store
    ensures NewPath(c.store, m.step(c.acts[h]).at) !in c.store
  {
    assert Owned(m, c.store, h, c.acts[h]);
    NewIsFresh(c.store, m.step(c.acts[h]).at);
  }

  /** Two appends at different nodes commute, and neither changes the path the other creates. */
  lemma AppendsCommute(store: Store, p: Path, q: Path, x: Payload, y: Payload, o: Path, r: Path)
    requires WellFormed(store) && p in store && q in store && p != q
    ensures NewPath(Append(store, p, x, o), q) == NewPath(store, q) != NewPath(store, p)
    ensures Append(Append(store, p, x, o), q, y, r) == Append(Append(store, q, y, r), p, x, o)
  {
    NewIsFresh(store, p);
    NewIsFresh(store, q);
    var np, nq := NewPath(store, p), NewPath(store, q);
    assert np[..|p|] == p && nq[..|q|] == q;
  }

  lemma StepKeeps<A(!new)>(m: Machine<A>, c: Config<A>, h: Path, k: Path)
    requires Inv(m, c) && h in c.acts && k in c.acts && h != k
    ensures k in Step(m, c, h).acts && Step(m, c, h).acts[k] == c.acts[k]
  {
    if m.step(c.acts[h]).Grow? {
      GrowTargets(m, c, h);
    }
  }

  /** The step of `h` at a configuration where `h` has the same activity and the same target. */
  lemma StepAfter<A(!new)>(m: Machine<A>, c: Config<A>, h: Path, k: Path)
    requires Inv(m, c) && h in c.acts && k in c.acts && h != k
    ensures k in Step(m, c, h).acts && Step(m, c, h).acts[k] == c.acts[k]
    ensures m.step(c.acts[k]).Grow? ==>
              NewPath(Step(m, c, h).store, m.step(c.acts[k]).at) == NewPath(c.store, m.step(c.acts[k]).at)
    ensures m.step(c.acts[h]).Grow? && m.step(c.acts[k]).Grow? ==>
              NewPath(c.store, m.step(c.acts[h]).at) != NewPath(c.store, m.step(c.acts[k]).at)
  {
    StepKeeps(m, c, h, k);
    OneWriter(m, c, h, k);
    if m.step(c.acts[k]).Grow? {
      GrowTargets(m, c, k);
      if m.step(c.acts[h]).Grow? {
        GrowTargets(m, c, h);
        AppendsCommute(c.store, m.step(c.acts[h]).at, m.step(c.acts[k]).at, Placeholder, Placeholder, [], []);
      }
    }
  }

  lemma StoresCommute<A(!new)>(m: Machine<A>, c: Config<A>, h: Path, k: Path)
    requires Inv(m, c) && h in c.acts && k in c.acts && h != k
    requires k in Step(m, c, h).acts && h in Step(m, c, k).acts
    ensures Step(m, Step(m, c, h), k).store == Step(m, Step(m, c, k), h).store
  {
    StepAfter(m, c, h, k);
    StepAfter(m, c, k, h);
    OneWriter(m, c, h, k);
    var e, f := m.step(c.acts[h]), m.step(c.acts[k]);
    if e.Grow? && f.Grow? {
      GrowTargets(m, c, h);
      GrowTargets(m, c, k);
      var o := if e.child.None? then h else NewPath(c.store, e.at);
      var r := if f.child.None? then k else NewPath(c.store, f.at);
      AppendsCommute(c.store, e.at, f.at, e.payload, f.payload, o, r);
    }
  }

  /** What the activities are after one step, as a change of the old map. */
  function ActsAfter<A(!new)>(m: Machine<A>, acts: map<Path, A>, h: Path, e: Effect<A>, n: Path): map<Path, A> {
    match e
    case Stop => acts - {h}
    case Local(a) => acts[h := a]
    case Grow(_, _, next, child, _) =>
      if child.None? then acts[h := next(n)] else acts[h := next(n)][n := child.value(n)]
  }

  function Created<A(!new)>(store: Store, e: Effect<A>): Path {
    if e.Grow? then NewPath(store, e.at) else []
  }

  lemma StepActs<A(!new)>(m: Machine<A>, c: Config<A>, h: Path)
    requires h in c.acts
    ensures Step(m, c, h).acts ==
            ActsAfter(m, c.acts, h, m.step(c.acts[h]), Created(c.store, m.step(c.acts[h])))
  {
  }

  lemma ActsCommute<A(!new)>(m: Machine<A>, acts: map<Path, A>, h: Path, k: Path, e: Effect<A>, f: Effect<A>,
      x: Path, y: Path)
    requires h in acts && k in acts && h != k
    requires e.Grow? ==> x !in acts
    requires f.Grow? ==> y !in acts
    requires e.Grow? && f.Grow? ==> x != y
    ensures ActsAfter(m, ActsAfter(m, acts, h, e, x), k, f, y) == ActsAfter(m, ActsAfter(m, acts, k, f, y), h, e, x)
  {
    var l := ActsAfter(m, ActsAfter(m, acts, h, e, x), k, f, y);
    var r := ActsAfter(m, ActsAfter(m, acts, k, f, y), h, e, x);
    assert l.Keys == r.Keys;
    assert forall p | p in l :: l[p] == r[p];
  }

  /** Steps of two different activities commute. */
  lemma Diamond<A(!new)>(m: Machine<A>, c: Config<A>, h: Path, k: Path)
    requires Inv(m, c) && h in c.acts && k in c.acts && h != k
    ensures k in Step(m, c, h).acts && h in Step(m, c, k).acts
    ensures Step(m, Step(m, c, h), k) == Step(m, Step(m, c, k), h)
  {
    StepAfter(m, c, h, k);
    StepAfter(m, c, k, h);
    StoresCommute(m, c, h, k);
    var e, f := m.step(c.acts[h]), m.step(c.acts[k]);
    var x, y := Created(c.store, e), Created(c.store, f);
    if e.Grow? { GrowTargets(m, c, h); }
    if f.Grow? { GrowTargets(m, c, k); }
    StepActs(m, c, h);
    StepActs(m, c, k);
    StepActs(m, Step(m, c, h), k);
    StepActs(m, Step(m, c, k), h);
    ActsCommute(m, c.acts, h, k, e, f, x, y);
  }

  // ---------- schedules ----------

  /** Running the activities in the order given; `None` when an activity scheduled is not there. */
  function Exec<A(!new)>(m: Machine<A>, c: Config<A>, schedule: seq<Path>): Option<Config<A>>
    decreases |schedule|
  {
    if schedule == [] then Some(c)
    else if schedule[0] !in c.acts then None
    else Exec(m, Step(m, c, schedule[0]), schedule[1..])
  }

  ghost predicate Completes<A(!new)>(m: Machine<A>, c: Config<A>, schedule: seq<Path>, store: Store) {
    Exec(m, c, schedule) == Some(Config(store, map[]))
  }

  /** A step that a complete schedule takes at some point can be taken first. */
  lemma {:induction false} MoveToFront<A(!new)>(m: Machine<A>, c: Config<A>, s: seq<Path>, store: Store, h: Path)
    returns (rest: seq<Path>)
    requires Inv(m, c) && Completes(m, c, s, store) && h in c.acts
    ensures |s| == |rest| + 1
    ensures Completes(m, Step(m, c, h), rest, store)
    decreases |s|
  {
    assert s != [];
    var k := s[0];
    if k == h {
      rest := s[1..];
    } else {
      StepKeeps(m, c, k, h);
      StepInv(m, c, k);
      var tail := MoveToFront(m, Step(m, c, k), s[1..], store, h);
      Diamond(m, c, h, k);
      rest := [k] + tail;
      assert rest[0] == k && rest[1..] == tail;
    }
  }

  /** If one complete schedule exists, every schedule extends to one, of the same length and result. */
  lemma {:induction false} Confluent<A(!new)>(m: Machine<A>, c: Config<A>, s: seq<Path>, store: Store,
                                              t: seq<Path>, d: Config<A>)
    returns (rest: seq<Path>)
    requires Inv(m, c) && Completes(m, c, s, store) && Exec(m, c, t) == Some(d)
    ensures Inv(m, d)
    ensures |t| + |rest| == |s|
    ensures Completes(m, d, rest, store)
    decreases |t|
  {
    if t == [] {
      rest := s;
    } else {
      var s' := MoveToFront(m, c, s, store, t[0]);
      StepInv(m, c, t[0]);
      rest := Confluent(m, Step(m, c, t[0]), s', store, t[1..], d);
    }
  }

  lemma {:induction false} ExecAppend<A(!new)>(m: Machine<A>, c: Config<A>, s: seq<Path>, t: seq<Path>, d: Config<A>)
    requires Exec(m, c, s) == Some(d)
    ensures Exec(m, c, s + t) == Exec(m, d, t)
    decreases |s|
  {
    if s == [] {
      assert s + t == t;
    } else {
      assert (s + t)[0] == s[0] && (s + t)[1..] == s[1..] + t;
      ExecAppend(m, Step(m, c, s[0]), s[1..], t, d);
    }
  }
}
