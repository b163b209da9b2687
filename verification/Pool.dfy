/**
 The task queue with its dummy head, and the life of the thread pool: workers, close, stop tasks
 and join, as the interleaving of the steps the threads make under the queue's lock.
 */
module Pool {
  import opened Wrappers

  // ---------- the queue ----------

  class Entry<T> {
    var value: Option<T>
    var next: Entry?<T>

    constructor (v: Option<T>)
      ensures value == v && next == null
    {
      value := v;
      next := null;
    }
  }

  datatype Delivery<T> = Nothing | Waits | Value(value: T)

  class Queue<T> {
    var head: Entry<T>
    var tail: Entry<T>
    var closed: bool
    /** The dummy and the entries behind it. */
    ghost var entries: seq<Entry<T>>
    ghost var contents: seq<T>

    ghost predicate Valid()
      reads this, entries
    {
      && |entries| == |contents| + 1 && head == entries[0] && tail == entries[|entries| - 1] && tail.next == null
      && (forall i, j :: 0 <= i < j < |entries| ==> entries[i] != entries[j])
      && (forall i :: 0 <= i < |contents| ==> entries[i].next == entries[i + 1])
      && (forall i :: 0 <= i < |contents| ==> entries[i + 1].value == Some(contents[i]))
    }

    /** `unbounded_queue_create` */
    constructor ()
      ensures Valid() && contents == [] && !closed && fresh(entries)
    {
      var dummy := new Entry<T>(None);
      head, tail, closed := dummy, dummy, false;
      entries, contents := [dummy], [];
    }

    /** `unbounded_queue_close` */
    method Close()
      requires Valid()
      modifies this`closed
      ensures Valid() && closed
    {
      closed := true;
    }

    /** `unbounded_queue_enqueue`: closing does not matter here. */
    method Enqueue(value: T)
      requires Valid()
      modifies this, entries
      ensures Valid() && contents == old(contents) + [value] && closed == old(closed)
      ensures fresh(entries[|entries| - 1]) && entries[..|entries| - 1] == old(entries)
    {
      var entry := new Entry<T>(Some(value));
      tail.next := entry;
      tail := entry;
      entries := entries + [entry];
      contents := contents + [value];
    }

    /** The part of `unbounded_queue_dequeue` behind the wait: the first entry becomes the dummy. */
    method Take() returns (result: T)
      requires Valid() && contents != []
      modifies this
      ensures Valid() && [result] + contents == old(contents) && closed == old(closed)
      ensures entries == old(entries)[1..]
    {
      assert entries[0].next == entries[0 + 1] && entries[0 + 1].value == Some(contents[0]);
      result := head.next.value.value;
      head := head.next;
      entries := entries[1..];
      contents := contents[1..];
    }

    /**
     `unbounded_queue_dequeue` up to the point where it waits: nothing from a closed queue, the first
     value of an open one, and a wait exactly when it is open and empty.
     */
    method Dequeue() returns (d: Delivery<T>)
      requires Valid()
      modifies this
      ensures Valid() && closed == old(closed)
      ensures old(closed) ==> d == Nothing && contents == old(contents)
      ensures !old(closed) && old(contents) == [] ==> d == Waits && contents == []
      ensures !old(closed) && old(contents) != [] ==> d.Value? && [d.value] + contents == old(contents)
    {
      if closed {
        return Nothing;
      }
      EmptyIsNoContents();
      if IsEmpty() {
        return Waits;
      }
      var result := Take();
      return Value(result);
    }

    /** The loop condition of the wait. */
    predicate IsEmpty()
      reads this, head
    {
      head.next == null
    }

    lemma EmptyIsNoContents()
      requires Valid()
      ensures IsEmpty() <==> contents == []
    {
      if contents != [] {
        assert entries[0].next == entries[1];
      }
    }
  }

  // ---------- the pool ----------

  datatype Item = Task(id: nat) | Stop

  datatype Worker =
    | Ready            // about to enter the queue
    | Waiting          // inside the wait loop, behind the test for a closed queue
    | Running(id: nat)
    | Exited

  /** The thread that owns the pool: working, then closing with k stop tasks sent, then joining. */
  datatype Owner = Working | Closing(sent: nat) | Joined

  datatype State = State(queue: seq<Item>, closed: bool, workers: seq<Worker>, owner: Owner, sent: seq<Item>,
      taken: seq<Item>)

  datatype Label =
    | Work(w: nat)     // the worker makes its next step
    | Submit(id: nat)  // somebody starts a task
    | Free             // the owner makes its next step in threadpool_free

  function Start(n: nat): State {
    State([], false, seq(n, i => Ready), Working, [], [])
  }

  function Enqueue(s: State, x: Item): State {
    s.(queue := s.queue + [x], sent := s.sent + [x])
  }

  /** A worker inside the queue takes the first entry; a stop task ends its loop. */
  function Dequeue(s: State, w: nat): State
    requires w < |s.workers| && s.queue != []
  {
    var x := s.queue[0];
    s.(queue := s.queue[1..], taken := s.taken + [x], workers := s.workers[w := if x.Stop? then Exited
        else Running(x.id)])
  }

  function NextWork(s: State, w: nat): Option<State>
    requires w < |s.workers|
  {
    match s.workers[w]
    case Ready =>
      if s.closed then Some(s.(workers := s.workers[w := Exited]))
      else if s.queue != [] then Some(Dequeue(s, w))
      else Some(s.(workers := s.workers[w := Waiting]))
    case Waiting => if s.queue != [] then Some(Dequeue(s, w)) else None
    case Running(_) => Some(s.(workers := s.workers[w := Ready]))
    case Exited => None
  }

  function AllExited(ws: seq<Worker>): bool {
    forall i :: 0 <= i < |ws| ==> ws[i].Exited?
  }

  function Next(s: State, move: Label): Option<State> {
    match move
    case Work(w) => if w < |s.workers| then NextWork(s, w) else None
    case Submit(id) => if s.owner.Joined? then None else Some(Enqueue(s, Task(id)))
    case Free =>
      match s.owner
      case Working => Some(s.(closed := true, owner := Closing(0)))
      case Closing(k) =>
        if k < |s.workers| then Some(Enqueue(s, Stop).(owner := Closing(k + 1)))
        else if AllExited(s.workers) then Some(s.(owner := Joined))
        else None
      case Joined => None
  }

  function Run(s: State, run: seq<Label>): Option<State>
    decreases |run|
  {
    if run == [] then Some(s)
    else
      match Next(s, run[0])
      case None => None
      case Some(t) => Run(t, run[1..])
  }

  // ---------- delivery ----------

  /** Every entry taken is the next one sent: nothing is invented, lost or taken twice. */
  ghost predicate Fifo(s: State) {
    s.sent == s.taken + s.queue
  }

  // ---------- shutdown ----------

  function Inside(ws: seq<Worker>): nat {
    if |ws| == 0 then 0 else (if ws[0].Waiting? then 1 else 0) + Inside(ws[1..])
  }

  /** How many steps a worker can still make once the queue is closed. */
  function Left(w: Worker): nat {
    match w
    case Ready => 1
    case Waiting => 3
    case Running(_) => 2
    case Exited => 0
  }

  function LeftAll(ws: seq<Worker>): nat {
    if |ws| == 0 then 0 else Left(ws[0]) + LeftAll(ws[1..])
  }

  lemma {:induction false} UpdateInside(ws: seq<Worker>, w: nat, x: Worker)
    requires w < |ws|
    ensures Inside(ws[w := x]) + (if ws[w].Waiting? then 1 else 0) == Inside(ws) + (if x.Waiting? then 1 else 0)
    ensures LeftAll(ws[w := x]) + Left(ws[w]) == LeftAll(ws) + Left(x)
    decreases w
  {
    if w > 0 {
      assert ws[w := x][1..] == ws[1..][w - 1 := x];
      UpdateInside(ws[1..], w - 1, x);
    } else {
      assert ws[w := x][1..] == ws[1..];
    }
  }

  lemma {:induction false} InsideBound(ws: seq<Worker>)
    ensures Inside(ws) <= |ws| && LeftAll(ws) <= 3 * |ws|
  {
    if |ws| > 0 {
      InsideBound(ws[1..]);
    }
  }

  lemma {:induction false} InsideSome(ws: seq<Worker>, w: nat)
    requires w < |ws| && ws[w].Waiting?
    ensures Inside(ws) > 0
    decreases w
  {
    if w > 0 {
      InsideSome(ws[1..], w - 1);
    }
  }

  /** Once the queue is closed, the entries queued and the stop tasks to come cover the workers inside. */
  ghost predicate Good(s: State) {
    && Fifo(s)
    && (s.closed <==> !s.owner.Working?)
    && (s.owner.Closing? ==>
        s.owner.sent <= |s.workers| && Inside(s.workers) <= |s.queue| + (|s.workers| - s.owner.sent))
    && (s.owner.Joined? ==> AllExited(s.workers))
  }

  lemma StartGood(n: nat)
    ensures Good(Start(n))
  {
  }

  lemma NextGood(s: State, move: Label)
    requires Good(s) && Next(s, move).Some?
    ensures Good(Next(s, move).value) && |Next(s, move).value.workers| == |s.workers|
  {
    var t := Next(s, move).value;
    match move {
      case Work(w) =>
        UpdateInside(s.workers, w, t.workers[w]);
        if |t.queue| < |s.queue| {
          assert s.taken + s.queue == t.taken + t.queue;
        }
      case Submit(id) =>
        assert s.taken + (s.queue + [Task(id)]) == s.taken + s.queue + [Task(id)];
      case Free =>
        InsideBound(s.workers);
        assert s.taken + (s.queue + [Stop]) == s.taken + s.queue + [Stop];
    }
  }

  /** FIFO delivery and the shutdown invariant in every reachable state. */
  lemma {:induction false} RunGood(s: State, run: seq<Label>, t: State)
    requires Good(s) && Run(s, run) == Some(t)
    ensures Good(t) && |t.workers| == |s.workers|
    decreases |run|
  {
    if run != [] {
      NextGood(s, run[0]);
      RunGood(Next(s, run[0]).value, run[1..], t);
    }
  }

  /** What the workers have taken is a beginning of what was sent, in every run. */
  lemma DeliveredInOrder(n: nat, run: seq<Label>, t: State)
    requires Run(Start(n), run) == Some(t)
    ensures t.taken <= t.sent && t.sent[|t.taken|..] == t.queue
  {
    StartGood(n);
    RunGood(Start(n), run, t);
  }

  /** After the last stop task is sent, no worker that has not exited is stuck. */
  lemma NobodyBlocks(n: nat, run: seq<Label>, t: State, w: nat)
    requires Run(Start(n), run) == Some(t) && t.owner == Closing(n) && w < |t.workers| && !t.workers[w].Exited?
    ensures Next(t, Work(w)).Some?
  {
    StartGood(n);
    RunGood(Start(n), run, t);
    if t.workers[w].Waiting? {
      InsideSome(t.workers, w);
    }
  }

  function WorkSteps(run: seq<Label>): nat {
    if |run| == 0 then 0 else (if run[0].Work? then 1 else 0) + WorkSteps(run[1..])
  }

  /** Once the queue is closed, every worker makes at most three more steps, whatever is still submitted. */
  lemma {:induction false} ClosedStepsAreBounded(s: State, run: seq<Label>, t: State)
    requires s.closed && Run(s, run) == Some(t)
    ensures t.closed && WorkSteps(run) + LeftAll(t.workers) <= LeftAll(s.workers)
    decreases |run|
  {
    if run != [] {
      var u := Next(s, run[0]).value;
      if run[0].Work? {
        UpdateInside(s.workers, run[0].w, u.workers[run[0].w]);
      }
      ClosedStepsAreBounded(u, run[1..], t);
    }
  }

  /** So the owner can join: when no worker can step any more, all have left their loops. */
  lemma ShutdownEnds(n: nat, run: seq<Label>, s: State, more: seq<Label>, t: State)
    requires Run(Start(n), run) == Some(s) && s.owner == Closing(n) && Run(s, more) == Some(t)
    ensures WorkSteps(more) <= 3 * n
    ensures t.owner == Closing(n) && (forall w: nat :: w < n ==> Next(t, Work(w)).None?) ==>
      Next(t, Free).Some? && AllExited(t.workers)
  {
    StartGood(n);
    RunGood(Start(n), run, s);
    RunGood(s, more, t);
    InsideBound(s.workers);
    ClosedStepsAreBounded(s, more, t);
    if t.owner == Closing(n) && forall w: nat :: w < n ==> Next(t, Work(w)).None? {
      forall w | 0 <= w < n ensures t.workers[w].Exited? {
        assert Next(t, Work(w)).None?;
        if t.workers[w].Waiting? {
          InsideSome(t.workers, w);
        }
      }
    }
  }
}
