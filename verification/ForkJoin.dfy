/**
 Fork, pool and join: `template_task_run`, `template_task_run_and_wait`, the worker loop, the
 task queue and the counting latch, as the interleaving of the threads' steps.

 Every step below happens under one lock or touches one activity only: dequeue, one step of the
 activity on top of the worker's call stack, increase, enqueue, decrease, test of the latch.
 Which call forks is decided exactly as `template_task_run` does it.
 */
module ForkJoin {
  import opened Wrappers
  import opened Activities
  import opened Confluence

  datatype Mode = Default | Deny | Single

  /** The mode the called context ends up with, and whether it becomes a task of its own. */
  function Decide(pool: bool, mode: Mode, site: Site): (r: (Mode, bool))
    ensures r.1 ==> pool && mode != Single && r.0 == Default && site.Task? && site.fork != Some("no")
    ensures !pool || mode == Single ==> r == (mode, false)
  {
    match site
    case InPlace => (mode, false)
    case Task(fork, listed) =>
      if !pool || mode == Single then (mode, false)
      else if mode == Deny then
        if fork != Some("yes") then (Deny, false) else (Default, true)
      else
        match fork
        case None => (Default, listed)
        case Some(f) =>
          if f == "no" then (Default, false)
          else if f == "deny" then (Deny, false)
          else (Default, true)
  }

  /** The activities one thread has called in place, innermost first, each with its task mode. */
  type Stack = seq<(Path, Mode)>

  datatype Worker =
    | Idle
    | Running(stack: Stack)
    | Raising(stack: Stack, task: Stack)     // about to increase the latch
    | Submitting(stack: Stack, task: Stack)  // counted, about to enqueue
    | Finished                               // the task has returned, about to decrease

  /** The thread inside `shared_variable_wait`. */
  datatype Waiter = Testing | Sleeping | Returned

  datatype State<!A(!new)> = State(cfg: Config<A>, queue: seq<Stack>, workers: seq<Worker>, latch: int, waiter: Waiter)

  datatype Label = Work(worker: nat) | Test | Wake

  /** After one activity step: the call stack of the thread that made it, and the task it must submit. */
  function Called<A(!new)>(m: Machine<A>, pool: bool, c: Config<A>, stack: Stack): (Stack, Option<Stack>)
    requires stack != [] && stack[0].0 in c.acts
  {
    match m.step(c.acts[stack[0].0])
    case Stop => (stack[1..], None)
    case Local(_) => (stack, None)
    case Grow(at, _, _, child, site) =>
      if child.None? then (stack, None)
      else
        var (mode, fork) := Decide(pool, stack[0].1, site);
        var call := [(NewPath(c.store, at), mode)];
        if fork then (stack, Some(call)) else (call + stack, None)
  }

  function NextWork<A(!new)>(m: Machine<A>, s: State<A>, w: nat): Option<State<A>>
    requires w < |s.workers|
  {
    match s.workers[w]
    case Idle =>
      if s.queue == [] then None
      else Some(s.(queue := s.queue[1..], workers := s.workers[w := Running(s.queue[0])]))
    case Running(stack) =>
      if stack == [] || stack[0].0 !in s.cfg.acts then None
      else
        var (left, task) := Called(m, true, s.cfg, stack);
        var next := if task.Some? then Raising(left, task.value) else if left == [] then Finished else Running(left);
        Some(s.(cfg := Step(m, s.cfg, stack[0].0), workers := s.workers[w := next]))
    case Raising(stack, task) =>
      Some(s.(latch := s.latch + 1, workers := s.workers[w := Submitting(stack, task)]))
    case Submitting(stack, task) =>
      Some(s.(queue := s.queue + [task], workers := s.workers[w := Running(stack)]))
    case Finished =>
      var value := s.latch - 1;
      Some(s.(latch := value, workers := s.workers[w := Idle],
              waiter := if value == 0 && s.waiter == Sleeping then Testing else s.waiter))
  }

  function Next<A(!new)>(m: Machine<A>, s: State<A>, move: Label): Option<State<A>> {
    match move
    case Work(w) => if w < |s.workers| then NextWork(m, s, w) else None
    case Test => if s.waiter == Testing then Some(s.(waiter := if s.latch == 0 then Returned else Sleeping)) else None
    case Wake => if s.waiter == Sleeping then Some(s.(waiter := Testing)) else None
  }

  function Run<A(!new)>(m: Machine<A>, s: State<A>, run: seq<Label>): Option<State<A>>
    decreases |run|
  {
    if run == [] then Some(s)
    else
      match Next(m, s, run[0])
      case None => None
      case Some(t) => Run(m, t, run[1..])
  }

  /** A result tree of one empty node, and one activity to fill it. */
  function Origin<A(!new)>(first: A): Config<A> {
    Config(map[[] := Cell(Placeholder, 0, [])], map[[] := first])
  }

  function IdleThreads(n: nat): seq<Worker> {
    if n == 0 then [] else [Idle] + IdleThreads(n - 1)
  }

  /** The root task is counted and queued before the wait begins. */
  function Start<A(!new)>(first: A, threads: nat): State<A> {
    State(Origin(first), [[([], Default)]], IdleThreads(threads), 1, Testing)
  }

  // ---------- the invariant of every run ----------

  /** How often activity `p` is on a call stack. */
  ghost function On(stack: Stack, p: Path): nat {
    if stack == [] then 0 else (if stack[0].0 == p then 1 else 0) + On(stack[1..], p)
  }

  ghost function Held(w: Worker, p: Path): nat {
    match w
    case Idle => 0
    case Running(stack) => On(stack, p)
    case Raising(stack, task) => On(stack, p) + On(task, p)
    case Submitting(stack, task) => On(stack, p) + On(task, p)
    case Finished => 0
  }

  ghost function HeldByAll(ws: seq<Worker>, p: Path): nat {
    if ws == [] then 0 else Held(ws[0], p) + HeldByAll(ws[1..], p)
  }

  ghost function Queued(queue: seq<Stack>, p: Path): nat {
    if queue == [] then 0 else On(queue[0], p) + Queued(queue[1..], p)
  }

  /** Tasks a worker accounts for: the one it runs, and one already counted but not yet queued. */
  ghost function Tasks(w: Worker): nat {
    match w
    case Idle => 0
    case Submitting(_, _) => 2
    case _ => 1
  }

  ghost function WorkersTasks(ws: seq<Worker>): nat {
    if ws == [] then 0 else Tasks(ws[0]) + WorkersTasks(ws[1..])
  }

  ghost predicate Busy(w: Worker) {
    match w
    case Running(stack) => stack != []
    case Raising(stack, task) => stack != [] && task != []
    case Submitting(stack, task) => stack != [] && task != []
    case _ => true
  }

  ghost predicate Good<A(!new)>(m: Machine<A>, s: State<A>) {
    && Inv(m, s.cfg)
    && (forall w | 0 <= w < |s.workers| :: Busy(s.workers[w]))
    && (forall i | 0 <= i < |s.queue| :: s.queue[i] != [])
    // every unfinished activity is on exactly one call stack, running or queued
    && (forall p: Path :: HeldByAll(s.workers, p) + Queued(s.queue, p) == if p in s.cfg.acts then 1 else 0)
    // the latch counts the queued and running tasks, and those on their way into the queue
    && s.latch == WorkersTasks(s.workers) + |s.queue|
    // no wake-up is lost, and nobody returns early
    && (s.waiter == Sleeping ==> s.latch != 0)
    && (s.waiter == Returned ==> s.latch == 0)
  }

  lemma {:induction false} UpdateHeld(ws: seq<Worker>, w: nat, x: Worker, p: Path)
    requires w < |ws|
    ensures HeldByAll(ws[w := x], p) + Held(ws[w], p) == HeldByAll(ws, p) + Held(x, p)
    decreases |ws|
  {
    if w == 0 {
      assert ws[w := x][1..] == ws[1..];
    } else {
      assert ws[w := x][1..] == ws[1..][w - 1 := x];
      UpdateHeld(ws[1..], w - 1, x, p);
    }
  }

  lemma {:induction false} UpdateTasks(ws: seq<Worker>, w: nat, x: Worker)
    requires w < |ws|
    ensures WorkersTasks(ws[w := x]) + Tasks(ws[w]) == WorkersTasks(ws) + Tasks(x)
    decreases |ws|
  {
    if w == 0 {
      assert ws[w := x][1..] == ws[1..];
    } else {
      assert ws[w := x][1..] == ws[1..][w - 1 := x];
      UpdateTasks(ws[1..], w - 1, x);
    }
  }

  lemma {:induction false} HeldIn(ws: seq<Worker>, w: nat, p: Path)
    requires w < |ws|
    ensures Held(ws[w], p) <= HeldByAll(ws, p)
    ensures Tasks(ws[w]) <= WorkersTasks(ws)
    decreases |ws|
  {
    if w > 0 {
      HeldIn(ws[1..], w - 1, p);
    }
  }

  lemma {:induction false} QueueAppend(queue: seq<Stack>, task: Stack, p: Path)
    ensures Queued(queue + [task], p) == Queued(queue, p) + On(task, p)
    decreases |queue|
  {
    if queue == [] {
      assert queue + [task] == [task];
      assert [task][1..] == [];
    } else {
      assert (queue + [task])[1..] == queue[1..] + [task];
      QueueAppend(queue[1..], task, p);
    }
  }

  // ---------- one activity step, seen from the thread that makes it ----------

  /** A step moves exactly the activities it starts and ends between the stacks. */
  lemma CalledHolds<A(!new)>(m: Machine<A>, pool: bool, c: Config<A>, stack: Stack, p: Path)
    requires Inv(m, c) && stack != [] && stack[0].0 in c.acts
    ensures var (left, task) := Called(m, pool, c, stack);
            On(left, p) + (if task.Some? then On(task.value, p) else 0) + (if p in c.acts then 1 else 0)
            == On(stack, p) + (if p in Step(m, c, stack[0].0).acts then 1 else 0)
    ensures var (left, task) := Called(m, pool, c, stack);
            task.Some? ==> pool && left == stack && task.value != []
  {
    var e := m.step(c.acts[stack[0].0]);
    if e.Grow? {
      GrowTargets(m, c, stack[0].0);
      var call := [(NewPath(c.store, e.at), Decide(pool, stack[0].1, e.site).0)];
      assert (call + stack)[1..] == stack && call[1..] == [];
      assert On(call, p) == if call[0].0 == p then 1 else 0;
    }
  }

  lemma TopIsLive<A(!new)>(m: Machine<A>, s: State<A>, w: nat)
    requires Good(m, s) && w < |s.workers| && s.workers[w].Running?
    ensures s.workers[w].stack != [] && s.workers[w].stack[0].0 in s.cfg.acts
  {
    assert Busy(s.workers[w]);
    HeldIn(s.workers, w, s.workers[w].stack[0].0);
  }

  lemma RunningGood<A(!new)>(m: Machine<A>, s: State<A>, w: nat)
    requires Good(m, s) && w < |s.workers| && s.workers[w].Running? && NextWork(m, s, w).Some?
    ensures Good(m, NextWork(m, s, w).value)
  {
    var stack := s.workers[w].stack;
    var t := NextWork(m, s, w).value;
    StepInv(m, s.cfg, stack[0].0);
    UpdateTasks(s.workers, w, t.workers[w]);
    assert t.workers == s.workers[w := t.workers[w]];
    forall p: Path
      ensures HeldByAll(t.workers, p) + Queued(t.queue, p) == if p in t.cfg.acts then 1 else 0
    {
      CalledHolds(m, true, s.cfg, stack, p);
      UpdateHeld(s.workers, w, t.workers[w], p);
    }
    CalledHolds(m, true, s.cfg, stack, []);
  }

  /** Every step of every thread keeps the invariant. */
  lemma NextGood<A(!new)>(m: Machine<A>, s: State<A>, move: Label)
    requires Good(m, s) && Next(m, s, move).Some?
    ensures Good(m, Next(m, s, move).value)
  {
    if move.Work? {
      var w := move.worker;
      var t := Next(m, s, move).value;
      if s.workers[w].Running? {
        RunningGood(m, s, w);
      } else {
        UpdateTasks(s.workers, w, t.workers[w]);
        assert t.workers == s.workers[w := t.workers[w]];
        assert Busy(s.workers[w]);
        HeldIn(s.workers, w, []);
        forall p: Path
          ensures HeldByAll(t.workers, p) + Queued(t.queue, p) == if p in t.cfg.acts then 1 else 0
        {
          UpdateHeld(s.workers, w, t.workers[w], p);
          if s.workers[w].Submitting? {
            QueueAppend(s.queue, s.workers[w].task, p);
          }
        }
      }
    }
  }

  lemma OriginInv<A(!new)>(m: Machine<A>, first: A)
    requires m.Disciplined() && m.sinks(first) <= {[]}
    ensures Inv(m, Origin(first))
  {
    assert Owned(m, Origin(first).store, [], first);
  }

  lemma StartGood<A(!new)>(m: Machine<A>, first: A, threads: nat)
    requires m.Disciplined() && m.sinks(first) <= {[]}
    ensures Good(m, Start(first, threads))
  {
    OriginInv(m, first);
    var s := Start(first, threads);
    IdleTasks(threads);
    forall p: Path
      ensures HeldByAll(s.workers, p) + Queued(s.queue, p) == if p in s.cfg.acts then 1 else 0
    {
      IdleHold(threads, p);
      assert s.queue[1..] == [] && s.queue[0][1..] == [];
      assert On(s.queue[0], p) == if p == [] then 1 else 0;
      assert Queued(s.queue, p) == On(s.queue[0], p);
    }
  }

  lemma {:induction false} IdleTasks(n: nat)
    ensures WorkersTasks(IdleThreads(n)) == 0
    ensures |IdleThreads(n)| == n
    ensures forall w | 0 <= w < n :: IdleThreads(n)[w] == Idle
  {
    if n > 0 {
      IdleTasks(n - 1);
      assert IdleThreads(n)[1..] == IdleThreads(n - 1);
    }
  }

  lemma {:induction false} IdleHold(n: nat, p: Path)
    ensures HeldByAll(IdleThreads(n), p) == 0
  {
    if n > 0 {
      IdleHold(n - 1, p);
      assert IdleThreads(n)[1..] == IdleThreads(n - 1);
    }
  }

  // ---------- whole runs ----------

  /** The activity steps that the threads make during a run, in the order they happen. */
  function Moves<A(!new)>(m: Machine<A>, s: State<A>, run: seq<Label>): seq<Path>
    decreases |run|
  {
    if run == [] || Next(m, s, run[0]).None? then []
    else
      (if run[0].Work? && s.workers[run[0].worker].Running? then [s.workers[run[0].worker].stack[0].0] else [])
      + Moves(m, Next(m, s, run[0]).value, run[1..])
  }

  /** Every run of the threads is a schedule of the activities, and keeps the invariant. */
  lemma {:induction false} RunIsSchedule<A(!new)>(m: Machine<A>, s: State<A>, run: seq<Label>, t: State<A>)
    requires Good(m, s) && Run(m, s, run) == Some(t)
    ensures Good(m, t)
    ensures Exec(m, s.cfg, Moves(m, s, run)) == Some(t.cfg)
    decreases |run|
  {
    if run != [] {
      NextGood(m, s, run[0]);
      var u := Next(m, s, run[0]).value;
      RunIsSchedule(m, u, run[1..], t);
      var rest := Moves(m, u, run[1..]);
      if run[0].Work? && s.workers[run[0].worker].Running? {
        var h := s.workers[run[0].worker].stack[0].0;
        assert ([h] + rest)[0] == h && ([h] + rest)[1..] == rest;
      } else {
        assert [] + rest == rest;
      }
    }
  }

  /** A latch at zero means that no task is left anywhere, so the tree is complete. */
  lemma ZeroMeansDone<A(!new)>(m: Machine<A>, s: State<A>)
    requires Good(m, s) && s.latch == 0
    ensures s.queue == [] && s.cfg.acts == map[]
    ensures forall w | 0 <= w < |s.workers| :: s.workers[w] == Idle
    ensures s.waiter != Sleeping
  {
    forall w | 0 <= w < |s.workers| ensures s.workers[w] == Idle {
      HeldIn(s.workers, w, []);
    }
    forall p: Path ensures p !in s.cfg.acts {
      NothingHeld(s.workers, p);
    }
  }

  lemma {:induction false} NothingHeld(ws: seq<Worker>, p: Path)
    requires forall w | 0 <= w < |ws| :: ws[w] == Idle
    ensures HeldByAll(ws, p) == 0
    decreases |ws|
  {
    if ws != [] {
      NothingHeld(ws[1..], p);
    }
  }

  /** Once zero, the latch is never touched again: releasing it cannot race with a later use. */
  lemma {:induction false} NeverRaisedAgain<A(!new)>(m: Machine<A>, s: State<A>, run: seq<Label>, t: State<A>)
    requires Good(m, s) && s.latch == 0 && Run(m, s, run) == Some(t)
    ensures t.latch == 0 && t.cfg == s.cfg && t.queue == s.queue && t.workers == s.workers
    ensures forall i | 0 <= i < |run| :: !run[i].Work?
    decreases |run|
  {
    if run != [] {
      ZeroMeansDone(m, s);
      NextGood(m, s, run[0]);
      NeverRaisedAgain(m, Next(m, s, run[0]).value, run[1..], t);
    }
  }

  /** While tasks remain, some thread can go on: the join cannot deadlock. */
  lemma SomeThreadCanGoOn<A(!new)>(m: Machine<A>, s: State<A>) returns (w: nat)
    requires Good(m, s) && s.latch != 0 && s.workers != []
    ensures Next(m, s, Work(w)).Some?
  {
    if w' :| 0 <= w' < |s.workers| && s.workers[w'] != Idle {
      w := w';
      if s.workers[w].Running? {
        TopIsLive(m, s, w);
      }
    } else {
      w := 0;
      NoTasks(s.workers);
    }
  }

  lemma {:induction false} NoTasks(ws: seq<Worker>)
    requires forall w | 0 <= w < |ws| :: ws[w] == Idle
    ensures WorkersTasks(ws) == 0
    decreases |ws|
  {
    if ws != [] {
      NoTasks(ws[1..]);
    }
  }

  // ---------- the sequential run ----------

  /** The same program without a thread pool: `n` steps of the one thread. */
  function Serial<A(!new)>(m: Machine<A>, c: Config<A>, stack: Stack, n: nat): Option<(Config<A>, Stack)>
    decreases n
  {
    if n == 0 then Some((c, stack))
    else if stack == [] || stack[0].0 !in c.acts then None
    else Serial(m, Step(m, c, stack[0].0), Called(m, false, c, stack).0, n - 1)
  }

  /** The sequential run of the whole transformation is over after `n` steps and leaves `store`. */
  ghost predicate SerialResult<A(!new)>(m: Machine<A>, first: A, n: nat, store: Store) {
    var r := Serial(m, Origin(first), [([], Default)], n);
    r.Some? && r.value.0.store == store && r.value.1 == []
  }

  ghost predicate StackHoldsAll<A(!new)>(c: Config<A>, stack: Stack) {
    forall p: Path :: On(stack, p) == if p in c.acts then 1 else 0
  }

  lemma SerialStep<A(!new)>(m: Machine<A>, c: Config<A>, stack: Stack)
    requires Inv(m, c) && StackHoldsAll(c, stack) && stack != []
    ensures stack[0].0 in c.acts
    ensures Inv(m, Step(m, c, stack[0].0))
    ensures StackHoldsAll(Step(m, c, stack[0].0), Called(m, false, c, stack).0)
  {
    assert On(stack, stack[0].0) != 0;
    StepInv(m, c, stack[0].0);
    forall p: Path
      ensures On(Called(m, false, c, stack).0, p) == if p in Step(m, c, stack[0].0).acts then 1 else 0
    {
      CalledHolds(m, false, c, stack, p);
    }
  }

  lemma {:induction false} SerialIsSchedule<A(!new)>(m: Machine<A>, c: Config<A>, stack: Stack, n: nat,
      d: Config<A>, left: Stack)
    returns (schedule: seq<Path>)
    requires Inv(m, c) && StackHoldsAll(c, stack)
    requires Serial(m, c, stack, n) == Some((d, left))
    ensures |schedule| == n && Exec(m, c, schedule) == Some(d)
    ensures StackHoldsAll(d, left) && Inv(m, d)
    decreases n
  {
    if n == 0 {
      schedule := [];
    } else {
      SerialStep(m, c, stack);
      var rest := SerialIsSchedule(m, Step(m, c, stack[0].0), Called(m, false, c, stack).0, n - 1, d, left);
      schedule := [stack[0].0] + rest;
      assert schedule[1..] == rest;
    }
  }

  /** If some complete schedule exists, the sequential run completes, in as many steps, with the same tree. */
  lemma {:induction false} ScheduleIsSerial<A(!new)>(m: Machine<A>, c: Config<A>, stack: Stack, s: seq<Path>,
      store: Store)
    requires Inv(m, c) && StackHoldsAll(c, stack) && Completes(m, c, s, store)
    ensures Serial(m, c, stack, |s|) == Some((Config(store, map[]), []))
    decreases |s|
  {
    if stack == [] {
      assert c.acts == map[] by {
        forall p: Path ensures p !in c.acts { assert On(stack, p) == 0; }
      }
      assert s == [];
    } else {
      SerialStep(m, c, stack);
      var rest := MoveToFront(m, c, s, store, stack[0].0);
      ScheduleIsSerial(m, Step(m, c, stack[0].0), Called(m, false, c, stack).0, rest, store);
    }
  }

  lemma SerialCompletes<A(!new)>(m: Machine<A>, first: A, n: nat, store: Store) returns (schedule: seq<Path>)
    requires m.Disciplined() && m.sinks(first) <= {[]} && SerialResult(m, first, n, store)
    ensures |schedule| == n && Completes(m, Origin(first), schedule, store)
  {
    OriginInv(m, first);
    OneOnStack(first);
    var (d, left) := Serial(m, Origin(first), [([], Default)], n).value;
    schedule := SerialIsSchedule(m, Origin(first), [([], Default)], n, d, left);
    assert d.acts == map[] by {
      forall p: Path ensures p !in d.acts { assert On(left, p) == 0; }
    }
  }

  lemma OneOnStack<A(!new)>(first: A)
    ensures StackHoldsAll(Origin(first), [([], Default)])
  {
    var stack: Stack := [([], Default)];
    assert stack[1..] == [];
    forall p: Path ensures On(stack, p) == if p in Origin(first).acts then 1 else 0 {
      assert On(stack[1..], p) == 0;
    }
  }

  // ---------- the theorems ----------

  /**
     Schedule independence.  Whatever the threads do and whatever forks, when the join returns
     the result tree is the one of the sequential run, node for node, and the threads together
     have made exactly its steps.
   */
  lemma ParallelIsSerial<A(!new)>(m: Machine<A>, first: A, threads: nat, run: seq<Label>, t: State<A>, n: nat,
      store: Store)
    requires m.Disciplined() && m.sinks(first) <= {[]}
    requires SerialResult(m, first, n, store)
    requires Run(m, Start(first, threads), run) == Some(t)
    ensures t.waiter == Returned ==> t.cfg == Config(store, map[]) && |Moves(m, Start(first, threads), run)| == n
    ensures |Moves(m, Start(first, threads), run)| <= n
  {
    StartGood(m, first, threads);
    var s := Start(first, threads);
    RunIsSchedule(m, s, run, t);
    var schedule := SerialCompletes(m, first, n, store);
    var rest := Confluent(m, s.cfg, schedule, store, Moves(m, s, run), t.cfg);
    if t.waiter == Returned {
      ZeroMeansDone(m, t);
      assert rest == [];
    }
  }

  /** Conversely, if some run of the threads returns, the sequential run terminates with the same tree. */
  lemma ReturnedIsSerial<A(!new)>(m: Machine<A>, first: A, threads: nat, run: seq<Label>, t: State<A>)
    requires m.Disciplined() && m.sinks(first) <= {[]}
    requires Run(m, Start(first, threads), run) == Some(t) && t.waiter == Returned
    ensures SerialResult(m, first, |Moves(m, Start(first, threads), run)|, t.cfg.store)
  {
    StartGood(m, first, threads);
    var s := Start(first, threads);
    RunIsSchedule(m, s, run, t);
    ZeroMeansDone(m, t);
    OneOnStack(first);
    ScheduleIsSerial(m, s.cfg, [([], Default)], Moves(m, s, run), t.cfg.store);
  }

  /** Protocol steps still owed for tasks that exist already. */
  ghost function Debt(w: Worker): nat {
    match w
    case Idle => 0
    case Running(_) => 1
    case Raising(_, _) => 5
    case Submitting(_, _) => 4
    case Finished => 1
  }

  ghost function WorkersDebt(ws: seq<Worker>): nat {
    if ws == [] then 0 else Debt(ws[0]) + WorkersDebt(ws[1..])
  }

  lemma {:induction false} UpdateDebt(ws: seq<Worker>, w: nat, x: Worker)
    requires w < |ws|
    ensures WorkersDebt(ws[w := x]) + Debt(ws[w]) == WorkersDebt(ws) + Debt(x)
    decreases |ws|
  {
    if w == 0 {
      assert ws[w := x][1..] == ws[1..];
    } else {
      assert ws[w := x][1..] == ws[1..][w - 1 := x];
      UpdateDebt(ws[1..], w - 1, x);
    }
  }

  function WorkSteps(run: seq<Label>): nat {
    if run == [] then 0 else (if run[0].Work? then 1 else 0) + WorkSteps(run[1..])
  }

  lemma {:induction false} WorkIsPaidFor<A(!new)>(m: Machine<A>, s: State<A>, run: seq<Label>, t: State<A>)
    requires Run(m, s, run) == Some(t)
    ensures WorkSteps(run) <= 5 * |Moves(m, s, run)| + WorkersDebt(s.workers) + 2 * |s.queue|
    decreases |run|
  {
    if run != [] {
      var u := Next(m, s, run[0]).value;
      WorkIsPaidFor(m, u, run[1..], t);
      if run[0].Work? {
        var w := run[0].worker;
        UpdateDebt(s.workers, w, u.workers[w]);
        assert u.workers == s.workers[w := u.workers[w]];
      }
    }
  }

  lemma {:induction false} IdleDebt(n: nat)
    ensures WorkersDebt(IdleThreads(n)) == 0
  {
    if n > 0 {
      IdleDebt(n - 1);
      assert IdleThreads(n)[1..] == IdleThreads(n - 1);
    }
  }

  /** If the sequential run takes n steps, no run of the threads makes more than 5n + 2. */
  lemma RunsAreBounded<A(!new)>(m: Machine<A>, first: A, threads: nat, run: seq<Label>, t: State<A>, n: nat,
      store: Store)
    requires m.Disciplined() && m.sinks(first) <= {[]}
    requires SerialResult(m, first, n, store)
    requires Run(m, Start(first, threads), run) == Some(t)
    ensures WorkSteps(run) <= 5 * n + 2
  {
    ParallelIsSerial(m, first, threads, run, t, n, store);
    WorkIsPaidFor(m, Start(first, threads), run, t);
    IdleDebt(threads);
  }

  /** Every state of every run: the latch counts the tasks, the waiter is not asleep at zero. */
  lemma JoinIsSafe<A(!new)>(m: Machine<A>, first: A, threads: nat, run: seq<Label>, t: State<A>)
    requires m.Disciplined() && m.sinks(first) <= {[]}
    requires Run(m, Start(first, threads), run) == Some(t)
    ensures t.latch == WorkersTasks(t.workers) + |t.queue|
    ensures t.latch == 0 ==> t.queue == [] && t.cfg.acts == map[] && t.waiter != Sleeping
    ensures t.waiter == Returned ==> t.latch == 0
    ensures t.latch != 0 && threads > 0 ==> exists w: nat :: Next(m, t, Work(w)).Some?
    ensures forall h, k | h in t.cfg.acts && k in t.cfg.acts && h != k ::
      m.sinks(t.cfg.acts[h]) !! m.sinks(t.cfg.acts[k])
  {
    StartGood(m, first, threads);
    RunIsSchedule(m, Start(first, threads), run, t);
    if t.latch == 0 {
      ZeroMeansDone(m, t);
    } else if threads > 0 {
      ThreadsStay(m, Start(first, threads), run, t);
      IdleTasks(threads);
      var w := SomeThreadCanGoOn(m, t);
    }
    forall h, k | h in t.cfg.acts && k in t.cfg.acts && h != k
      ensures m.sinks(t.cfg.acts[h]) !! m.sinks(t.cfg.acts[k])
    {
      OneWriter(m, t.cfg, h, k);
    }
  }

  lemma {:induction false} ThreadsStay<A(!new)>(m: Machine<A>, s: State<A>, run: seq<Label>, t: State<A>)
    requires Run(m, s, run) == Some(t)
    ensures |t.workers| == |s.workers|
    decreases |run|
  {
    if run != [] {
      ThreadsStay(m, Next(m, s, run[0]).value, run[1..], t);
    }
  }

  /** No worker can step and the waiter has nothing to test. */
  ghost predicate AtRest<A(!new)>(m: Machine<A>, t: State<A>) {
    (forall w: nat :: Next(m, t, Work(w)).None?) && Next(m, t, Test).None?
  }

  /**
   No run makes more than `bound` steps of workers; until the latch is zero some worker can make
   one; from then on the waiter has returned or can see it; and once nobody can go on, it has returned.
   */
  ghost predicate Ends<A(!new)>(m: Machine<A>, first: A, bound: nat) {
    forall threads: nat, run: seq<Label>, t: State<A> ::
      Run(m, Start(first, threads), run) == Some(t) ==> WorkSteps(run) <= bound && (threads > 0 ==> GoesOn(m, t))
  }

  ghost predicate GoesOn<A(!new)>(m: Machine<A>, t: State<A>) {
    && (t.latch != 0 ==> exists w: nat :: Next(m, t, Work(w)).Some?)
    && (t.latch == 0 ==> t.waiter == Returned || Next(m, t, Test) == Some(t.(waiter := Returned)))
    && (AtRest(m, t) ==> t.waiter == Returned && t.cfg.acts == map[])
  }

  lemma EveryRunEnds<A(!new)>(m: Machine<A>, first: A, n: nat, store: Store)
    requires m.Disciplined() && m.sinks(first) <= {[]}
    requires SerialResult(m, first, n, store)
    ensures Ends(m, first, 5 * n + 2)
  {
    forall threads: nat, run: seq<Label>, t: State<A> | Run(m, Start(first, threads), run) == Some(t)
      ensures WorkSteps(run) <= 5 * n + 2 && (threads > 0 ==> GoesOn(m, t))
    {
      RunsAreBounded(m, first, threads, run, t, n, store);
      JoinIsSafe(m, first, threads, run, t);
    }
  }

  /** A transformation that some schedule completes is over soon, whatever the threads do. */
  lemma CompletedMeansEnds<A(!new)>(m: Machine<A>, first: A, schedule: seq<Path>, store: Store)
    requires m.Disciplined() && m.sinks(first) <= {[]}
    requires Completes(m, Origin(first), schedule, store)
    ensures Ends(m, first, 5 * |schedule| + 2)
  {
    OriginInv(m, first);
    OneOnStack(first);
    ScheduleIsSerial(m, Origin(first), [([], Default)], schedule, store);
    EveryRunEnds(m, first, |schedule|, store);
  }
}
