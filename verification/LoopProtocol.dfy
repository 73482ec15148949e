/**
 * The io side of the loop (src/core.cpp) as a step relation over posting threads, one executor,
 * the eventfd, the epoll batch and fd numbers that the kernel reuses.
 */
module LoopProtocol {
  import opened EventTables
  import opened FdLives

  /** One entry of an epoll_wait batch; `inc` is the incarnation it was collected for. */
  datatype Ready = Wake | FdEvent(fd: Fd, inc: Incarnation)

  datatype ExeState = Stopped | Running | Stopping

  /** Where the io thread is; Exited also means that there is none. */
  datatype Pc = Exited | Head | Waiting | InBatch | Draining | Drained | RunningTasks

  /** A callback run for an event. */
  datatype Firing = Firing(event: Ready, owner: Incarnation)

  /** The eventfd counter saturates here. */
  const EVENTFD_MAX: nat := 0xffff_ffff_ffff_fffe
  const EPOLL_MAX_WAIT_LEN: nat := 256

  datatype State = State(
    exe: ExeState,
    pc: Pc,
    batch: seq<Ready>,             // events of the current epoll_wait still to be served
    queue: seq<Task>, next: nat,   // io_exe_queue_ and the position of the loop over it
    buffer: seq<Task>,             // io_buffer_queue_
    fds: Fds,
    crashed: bool,                 // an index was out of range
    kicks: nat,                    // threads between a push (or stop) and their eventfd write
    counter: nat,                  // the eventfd counter
    edge: bool,                    // the eventfd is on the ready list
    chans: Lives,                  // the stage every channel has posted
    posted: seq<Task>,
    ran: seq<Task>,
    fired: seq<Firing>,
    closes: seq<Incarnation>,
    destroyed: bool
  )

  const INIT := State(Stopped, Exited, [], [], 0, [], NO_FDS, false, 0, 0, false, map[], [], [], [], [], false)

  datatype Action =
    | Open(fd: Fd, inc: Incarnation)   // socket(), accept4(), timerfd_create()
    | Push(task: Task)
    | Kick
    | CheckState
    | Collect(events: seq<Ready>)
    | Interrupted
    | Lapse                            // the ready list entry of a drained eventfd is dropped
    | TakeWake
    | ReadCounter
    | ReadEmpty
    | Swap
    | RunTask(fault: Fault)
    | ClearQueue
    | Dispatch
    | EndBatch
    | Stop
    | Join
    | Start
    | Destroy

  /** What epoll_wait may report: watched fds and the eventfd when it is ready, each once. */
  predicate Collectable(s: State, events: seq<Ready>) {
    && 0 < |events| <= EPOLL_MAX_WAIT_LEN
    && Distinct(events)
    && (Wake in events ==> s.edge && s.counter > 0)
    && forall e :: e in events && e.FdEvent? ==>
         e.fd in s.fds.table.watched && e.fd in s.fds.open && s.fds.open[e.fd] == e.inc
  }

  predicate Enabled(s: State, a: Action) {
    && !s.destroyed && !s.crashed
    && match a
       case Open(fd, inc) => fd !in s.fds.open && inc !in s.fds.lives && inc !in s.chans
       case Push(t) => Legal(t, s.chans, s.fds.fdOf)
       case Kick => s.kicks > 0
       case CheckState => s.pc == Head
       case Collect(events) => s.pc == Waiting && Collectable(s, events)
       case Interrupted => s.pc == Waiting
       case Lapse => s.edge && s.counter == 0
       case TakeWake => s.pc == InBatch && s.batch != [] && s.batch[0] == Wake
       case ReadCounter => s.pc == Draining && s.counter > 0
       case ReadEmpty => s.pc == Draining && s.counter == 0
       case Swap => s.pc == Drained
       case RunTask(_) => s.pc == RunningTasks && s.next < |s.queue|
       case ClearQueue => s.pc == RunningTasks && s.next >= |s.queue|
       case Dispatch => s.pc == InBatch && s.batch != [] && s.batch[0].FdEvent?
       case EndBatch => s.pc == InBatch && s.batch == []
       case Stop => true
       case Join => s.exe == Stopping && s.pc == Exited
       case Start => s.exe == Stopped && s.pc == Exited
       case Destroy => s.exe == Stopped && s.pc == Exited
  }

  function RunOne(s: State, fault: Fault): State
    requires s.next < |s.queue|
  {
    var t := s.queue[s.next];
    if !InRange(s.fds, t) then s.(crashed := true)
    else
      s.(next := s.next + 1, ran := s.ran + [t], fds := Execute(s.fds, t, fault),
         closes := if Closing(s.fds, t) then s.closes + [s.fds.open[t.fd]] else s.closes)
  }

  function DispatchOne(s: State): State
    requires s.batch != [] && s.batch[0].FdEvent?
  {
    var e := s.batch[0];
    if e.fd >= |s.fds.table.events| then s.(crashed := true)
    else
      var cb := s.fds.table.events[e.fd].cb;
      s.(batch := s.batch[1..], fired := if cb.Some? then s.fired + [Firing(e, cb.value)] else s.fired)
  }

  function Pushed(s: State, t: Task): State {
    s.(buffer := s.buffer + [t], posted := s.posted + [t], chans := Advance(t, s.chans), kicks := s.kicks + 1)
  }

  function Next(s: State, a: Action): State
    requires Enabled(s, a)
  {
    match a
    case Open(fd, inc) => s.(fds := OpenFd(s.fds, fd, inc), chans := s.chans[inc := Opened])
    case Push(t) => Pushed(s, t)
    case Kick =>
      if s.counter < EVENTFD_MAX then s.(kicks := s.kicks - 1, counter := s.counter + 1, edge := true)
      else s.(kicks := s.kicks - 1)
    case CheckState => s.(pc := if s.exe == Running then Waiting else Exited)
    case Collect(events) => s.(pc := InBatch, batch := events, edge := s.edge && Wake !in events)
    case Interrupted => s.(pc := Head)
    case Lapse => s.(edge := false)
    case TakeWake => s.(pc := Draining, batch := s.batch[1..])
    case ReadCounter => s.(counter := 0)
    case ReadEmpty => s.(pc := Drained)
    case Swap => s.(pc := RunningTasks, queue := s.buffer, buffer := s.queue, next := 0)
    case RunTask(fault) => RunOne(s, fault)
    case ClearQueue => s.(pc := InBatch, queue := [], next := 0)
    case Dispatch => DispatchOne(s)
    case EndBatch => s.(pc := Head)
    case Stop =>
      // Without a thread to join there is nothing to wake.
      if s.exe == Stopped then s else s.(exe := Stopping, kicks := s.kicks + 1)
    case Join => s.(exe := Stopped)
    case Start => s.(exe := Running, pc := Head)
    case Destroy => s.(destroyed := true, closes := s.closes + RegisteredFrom(s.fds, 0))
  }

  predicate Run(s: State, acts: seq<Action>, t: State)
    decreases |acts|
  {
    if acts == [] then s == t
    else Enabled(s, acts[0]) && Run(Next(s, acts[0]), acts[1..], t)
  }

  // ---------------------------------------------------------------- invariant

  /** Tasks accepted and not yet run, oldest first. */
  function Pending(s: State): seq<Task>
    requires s.next <= |s.queue|
  {
    s.queue[s.next..] + s.buffer
  }

  /** The executing queue is in use only between the swap and the clear, and nothing is lost or repeated. */
  ghost predicate Fifo(s: State) {
    && s.next <= |s.queue|
    && (s.pc != RunningTasks ==> s.queue == [])
    && s.ran + Pending(s) == s.posted
  }

  /** The wake event has been collected and the swap it leads to is still to come. */
  ghost predicate BeforeSwap(s: State) {
    Wake in s.batch || s.pc == Draining || s.pc == Drained
  }

  /** A task in the buffer queue always has a wake-up on its way. */
  ghost predicate WakeComing(s: State) {
    && (s.counter > 0 ==> s.edge || Wake in s.batch || s.pc == Draining)
    && (s.buffer != [] ==> s.kicks > 0 || (s.counter > 0 && s.edge) || BeforeSwap(s))
  }

  /** The queued tasks of every channel continue its life, and end at the stage it has posted. */
  ghost predicate TasksFollowLives(s: State) {
    && s.next <= |s.queue|
    && WellFormed(Pending(s), s.fds.lives, s.fds.fdOf)
    && Replay(Pending(s), s.fds.lives) == s.chans
    && s.fds.lives.Keys == s.chans.Keys
  }

  /** No task left in this batch can give an fd of the batch to another incarnation. */
  ghost predicate BatchSafe(s: State) {
    && Distinct(s.batch)
    && (s.pc == Exited || s.pc == Head || s.pc == Waiting ==> s.batch == [])
    && (s.pc == Draining || s.pc == Drained || s.pc == RunningTasks ==> Wake !in s.batch)
    && (forall e :: e in s.batch && e.FdEvent? ==> EventSafe(s, e))
  }

  ghost predicate EventSafe(s: State, e: Ready)
    requires e.FdEvent?
  {
    && CallbackIs(s.fds, e.fd, e.inc)
    && (BeforeSwap(s) ==> e.fd in s.fds.open && s.fds.open[e.fd] == e.inc)
    && (s.pc == RunningTasks ==> TasksKeep(s.queue, s.next, e.fd, e.inc))
  }

  /** From position `from` on, tasks for `fd` belong to `inc`. */
  ghost predicate TasksKeep(queue: seq<Task>, from: nat, fd: Fd, inc: Incarnation) {
    forall k :: from <= k < |queue| && !queue[k].User? && queue[k].fd == fd ==> queue[k].inc == inc
  }

  ghost predicate FiringsMatch(s: State) {
    forall f :: f in s.fired ==> f.event.FdEvent? && f.event.inc == f.owner
  }

  /** Closed so far: those whose unregister task ran, and after ~Loop also all that are registered. */
  ghost predicate ClosesFollowLives(s: State) {
    && Distinct(s.closes)
    && forall i :: i in s.closes <==>
         i in s.fds.lives && (s.fds.lives[i] == Closed || (s.destroyed && s.fds.lives[i] == Registered))
  }

  ghost predicate Inv(s: State) {
    && !s.crashed
    && Fifo(s)
    && WakeComing(s)
    && TasksFollowLives(s)
    && Consistent(s.fds)
    && BatchSafe(s)
    && FiringsMatch(s)
    && ClosesFollowLives(s)
  }

  // ---------------------------------------------------------------- every step keeps the invariant

  lemma OpenKeepsInv(s: State, a: Action)
    requires Inv(s) && Enabled(s, a) && a.Open?
    ensures Inv(Next(s, a))
  {
    var t := Next(s, a);
    WellFormedOpen(Pending(s), s.fds.lives, s.fds.fdOf, a.inc, a.fd);
    OpenKeepsConsistent(s.fds, a.fd, a.inc);
    forall e | e in t.batch && e.FdEvent?
      ensures EventSafe(t, e)
    {
      assert EventSafe(s, e);
    }
  }

  lemma PushKeepsInv(s: State, a: Action)
    requires Inv(s) && Enabled(s, a) && a.Push?
    ensures Inv(Next(s, a))
  {
    var t := Next(s, a);
    assert Pending(t) == Pending(s) + [a.task];
    assert t.ran + Pending(t) == (s.ran + Pending(s)) + [a.task];
    WellFormedAppend(Pending(s), a.task, s.fds.lives, s.fds.fdOf);
    SameBatch(s, t);
  }

  /** A step that leaves the fds alone and does not enter the task loop keeps the batch safe. */
  lemma SameBatch(s: State, t: State)
    requires BatchSafe(s) && t.fds == s.fds && t.batch == s.batch
    requires BeforeSwap(t) ==> BeforeSwap(s)
    requires t.pc == RunningTasks ==> s.pc == RunningTasks && t.queue == s.queue && t.next == s.next
    requires t.pc == Exited || t.pc == Head || t.pc == Waiting ==> t.batch == []
    requires t.pc == Draining || t.pc == Drained || t.pc == RunningTasks ==> Wake !in t.batch
    ensures BatchSafe(t)
  {
    forall e | e in t.batch && e.FdEvent?
      ensures EventSafe(t, e)
    {
      assert EventSafe(s, e);
    }
  }

  /** Collected events are for the open incarnations, whose callbacks are the only ones on their fds. */
  lemma CollectKeepsInv(s: State, a: Action)
    requires Inv(s) && Enabled(s, a) && a.Collect?
    ensures Inv(Next(s, a))
  {
    var t := Next(s, a);
    forall e | e in t.batch && e.FdEvent?
      ensures EventSafe(t, e)
    {
      assert EventFollowsLives(s.fds, e.fd);
    }
  }

  lemma TakeWakeKeepsInv(s: State)
    requires Inv(s) && Enabled(s, TakeWake)
    ensures Inv(Next(s, TakeWake))
  {
    var t := Next(s, TakeWake);
    forall e | e in t.batch && e.FdEvent?
      ensures EventSafe(t, e)
    {
      assert EventSafe(s, e);
    }
  }

  /** At the swap every queued task belongs to the incarnation open on its fd, which is the one the batch saw. */
  lemma SwapKeepsBatch(s: State)
    requires Inv(s) && Enabled(s, Swap)
    ensures BatchSafe(Next(s, Swap))
  {
    var t := Next(s, Swap);
    forall e | e in t.batch && e.FdEvent?
      ensures EventSafe(t, e)
    {
      assert EventSafe(s, e);
      forall k | t.next <= k < |t.queue| && !t.queue[k].User? && t.queue[k].fd == e.fd
        ensures t.queue[k].inc == e.inc
      {
        assert Pending(s) == s.buffer;
        QueuedTasksAreAlive(Pending(s), s.fds.lives, s.fds.fdOf, k);
      }
    }
  }

  lemma SwapKeepsInv(s: State)
    requires Inv(s) && Enabled(s, Swap)
    ensures Inv(Next(s, Swap))
  {
    SwapKeepsBatch(s);
    assert Pending(Next(s, Swap)) == s.buffer == Pending(s);
  }

  lemma DispatchKeepsInv(s: State)
    requires Inv(s) && Enabled(s, Dispatch)
    ensures Inv(Next(s, Dispatch))
  {
    var t := Next(s, Dispatch);
    assert EventSafe(s, s.batch[0]);
    forall e | e in t.batch && e.FdEvent?
      ensures EventSafe(t, e)
    {
      assert EventSafe(s, e);
    }
  }

  lemma RunTaskIsLegal(s: State)
    requires Inv(s) && s.next < |s.queue|
    ensures Pending(s) != [] && Pending(s)[0] == s.queue[s.next]
    ensures Pending(s)[1..] == s.queue[s.next + 1..] + s.buffer
    ensures Legal(s.queue[s.next], s.fds.lives, s.fds.fdOf)
  {
  }

  lemma RunTaskKeepsQueue(s: State, fault: Fault)
    requires Fifo(s) && TasksFollowLives(s) && s.pc == RunningTasks
    requires s.next < |s.queue| && InRange(s.fds, s.queue[s.next])
    ensures Fifo(RunOne(s, fault)) && TasksFollowLives(RunOne(s, fault))
  {
    var t := RunOne(s, fault);
    assert Pending(s)[0] == s.queue[s.next];
    assert Pending(t) == Pending(s)[1..];
    assert s.ran + Pending(s) == (s.ran + [s.queue[s.next]]) + Pending(t);
  }

  lemma RunTaskKeepsBatch(s: State, fault: Fault)
    requires BatchSafe(s) && s.pc == RunningTasks && s.next < |s.queue| && InRange(s.fds, s.queue[s.next])
    ensures BatchSafe(RunOne(s, fault))
  {
    var t := RunOne(s, fault);
    forall e | e in t.batch && e.FdEvent?
      ensures EventSafe(t, e)
    {
      assert EventSafe(s, e);
      ExecuteKeepsCallback(s.fds, s.queue[s.next], fault, e.fd, e.inc);
    }
  }

  /** Exactly an unregister task closes an incarnation, its own. */
  lemma ExecuteCloses(d: Fds, t: Task, fault: Fault, i: Incarnation)
    requires Consistent(d) && Legal(t, d.lives, d.fdOf) && InRange(d, t)
    ensures Closing(d, t) <==> t.Unregister?
    ensures Closing(d, t) ==> d.open[t.fd] == t.inc && d.lives[t.inc] != Closed
    ensures var e := Execute(d, t, fault);
            (i in e.lives && e.lives[i] == Closed) <==>
            (i in d.lives && d.lives[i] == Closed) || (t.Unregister? && i == t.inc)
  {
    if !t.User? {
      LegalTaskIsInRange(d, t);
    }
  }

  lemma RunTaskKeepsCloses(s: State, fault: Fault)
    requires ClosesFollowLives(s) && Consistent(s.fds) && !s.destroyed && s.next < |s.queue|
    requires Legal(s.queue[s.next], s.fds.lives, s.fds.fdOf) && InRange(s.fds, s.queue[s.next])
    ensures ClosesFollowLives(RunOne(s, fault))
  {
    var task := s.queue[s.next];
    var t := RunOne(s, fault);
    forall i
      ensures i in t.closes <==> i in t.fds.lives && t.fds.lives[i] == Closed
    {
      ExecuteCloses(s.fds, task, fault, i);
    }
    ExecuteCloses(s.fds, task, fault, 0);
    if task.Unregister? {
      DistinctAppend(s.closes, [task.inc]);
    }
  }

  lemma RunTaskKeepsInv(s: State, fault: Fault)
    requires s.next < |s.queue| && s.pc == RunningTasks && !s.destroyed
    requires Inv(s)
    ensures Inv(RunOne(s, fault))
  {
    RunTaskIsLegal(s);
    ExecuteKeepsConsistent(s.fds, s.queue[s.next], fault);
    var t := RunOne(s, fault);
    assert Fifo(t) && TasksFollowLives(t) by {
      RunTaskKeepsQueue(s, fault);
    }
    assert BatchSafe(t) by {
      RunTaskKeepsBatch(s, fault);
    }
    assert ClosesFollowLives(t) by {
      RunTaskKeepsCloses(s, fault);
    }
  }

  lemma DestroyKeepsInv(s: State)
    requires Inv(s) && Enabled(s, Destroy)
    ensures Inv(Next(s, Destroy))
  {
    var t := Next(s, Destroy);
    RegisteredFromIsExact(s.fds, 0);
    DistinctAppend(s.closes, RegisteredFrom(s.fds, 0));
    assert BatchSafe(t);
  }

  lemma EventfdStepKeepsInv(s: State, a: Action)
    requires Inv(s) && Enabled(s, a) && (a.Kick? || a.Lapse? || a.ReadCounter? || a.ReadEmpty?)
    ensures Inv(Next(s, a))
  {
    SameBatch(s, Next(s, a));
  }

  lemma ControlStepKeepsInv(s: State, a: Action)
    requires Inv(s) && Enabled(s, a)
    requires a.CheckState? || a.Interrupted? || a.EndBatch? || a.Stop? || a.Join? || a.Start?
    ensures Inv(Next(s, a))
  {
    var t := Next(s, a);
    assert Pending(t) == Pending(s);
    assert BatchSafe(t) by {
      SameBatch(s, t);
    }
  }

  lemma ClearQueueKeepsInv(s: State)
    requires Inv(s) && Enabled(s, ClearQueue)
    ensures Inv(Next(s, ClearQueue))
  {
    var t := Next(s, ClearQueue);
    assert Pending(t) == Pending(s);
    assert BatchSafe(t) by {
      SameBatch(s, t);
    }
  }

  lemma NextKeepsInv(s: State, a: Action)
    requires Inv(s) && Enabled(s, a)
    ensures Inv(Next(s, a))
  {
    match a
    case Open(_, _) => OpenKeepsInv(s, a);
    case Push(_) => PushKeepsInv(s, a);
    case Collect(_) => CollectKeepsInv(s, a);
    case TakeWake => TakeWakeKeepsInv(s);
    case Swap => SwapKeepsInv(s);
    case RunTask(fault) => RunTaskKeepsInv(s, fault);
    case Dispatch => DispatchKeepsInv(s);
    case Destroy => DestroyKeepsInv(s);
    case Kick => EventfdStepKeepsInv(s, a);
    case Lapse => EventfdStepKeepsInv(s, a);
    case ReadCounter => EventfdStepKeepsInv(s, a);
    case ReadEmpty => EventfdStepKeepsInv(s, a);
    case ClearQueue => ClearQueueKeepsInv(s);
    case _ => ControlStepKeepsInv(s, a);
  }

  lemma {:induction false} RunKeepsInv(s: State, acts: seq<Action>, t: State)
    requires Inv(s) && Run(s, acts, t)
    ensures Inv(t)
    decreases |acts|
  {
    if acts != [] {
      NextKeepsInv(s, acts[0]);
      RunKeepsInv(Next(s, acts[0]), acts[1..], t);
    }
  }
}
