/**
 * The io half of class Loop in imperative form. Each method is one or more steps of the loop
 * protocol, which the ghost state `s` follows.
 */
module Loops {
  import opened Base
  import opened EventTables
  import opened FdLives
  import opened LoopProtocol
  import opened LoopTheorems

  /** The call that an entry of the batch leads to with this table. */
  function CallOf(t: Table, e: Ready): seq<Firing> {
    if e.FdEvent? && e.fd < |t.events| && t.events[e.fd].cb.Some? then [Firing(e, t.events[e.fd].cb.value)] else []
  }

  /** The calls of a batch: before the wake event with one table, after it with another. */
  function CallsOf(events: seq<Ready>, before: Table, after: Table): seq<Firing> {
    if events == [] then []
    else
      var rest, last := events[..|events| - 1], events[|events| - 1];
      CallsOf(rest, before, after) + CallOf(if Wake in rest then after else before, last)
  }

  lemma {:induction false} CallsWithoutWake(events: seq<Ready>, before: Table, after: Table, other: Table)
    requires Wake !in events
    ensures CallsOf(events, before, after) == CallsOf(events, before, other)
    decreases |events|
  {
    if events != [] {
      CallsWithoutWake(events[..|events| - 1], before, after, other);
    }
  }

  lemma NothingServed(events: seq<Ready>, t: Table, base: seq<Firing>)
    ensures events[0..] == events && events[..0] == [] && base == base + CallsOf([], t, t)
  {
  }

  /** One more event, that leaves the table at `later`, extends the calls of the batch. */
  lemma CallsExtend(events: seq<Ready>, i: nat, start: Table, now: Table, later: Table, base: seq<Firing>, calls: seq<Firing>)
    requires i < |events| && Distinct(events)
    requires calls == base + CallsOf(events[..i], start, now)
    requires (Wake !in events[..i] ==> now == start) && (events[i] != Wake ==> later == now)
    ensures calls + CallOf(later, events[i]) == base + CallsOf(events[..i + 1], start, later)
    ensures Wake in events[..i + 1] <==> Wake in events[..i] || events[i] == Wake
  {
    TakeOneMore(events, i);
    assert events[..i + 1][..i] == events[..i];
    if Wake !in events[..i] {
      CallsWithoutWake(events[..i], start, now, later);
    }
    var more := CallOf(if Wake in events[..i] then later else start, events[i]);
    assert events[i] == Wake ==> more == [] && CallOf(later, events[i]) == [];
    assert (base + CallsOf(events[..i], start, later)) + more == base + (CallsOf(events[..i], start, later) + more);
  }

  /** What running the next task changes, apart from the table. */
  lemma RunTaskLeads(s: State, fault: Fault)
    requires Inv(s) && s.pc == RunningTasks && s.next < |s.queue| && !s.destroyed
    ensures InRange(s.fds, s.queue[s.next]) && Leads(s, [Action.RunTask(fault)], RunOne(s, fault))
    ensures var t := RunOne(s, fault);
            && t.fds == Execute(s.fds, s.queue[s.next], fault) && t.ran == s.ran + [s.queue[s.next]] && t.next == s.next + 1
            && t == s.(fds := t.fds, ran := t.ran, next := t.next, closes := t.closes)
  {
    RunTaskIsLegal(s);
    ExecuteKeepsConsistent(s.fds, s.queue[s.next], fault);
    LeadsOne(s, Action.RunTask(fault));
  }

  lemma NothingPending(s: State)
    requires Inv(s) && s.queue == [] && s.buffer == []
    ensures s.ran == s.posted
  {
    assert s.ran + [] == s.posted;
  }

  class Loop {
    const table: EventTable
    var exeState: ExeState
    var ioExeQueue: seq<Task>
    var ioBufferQueue: seq<Task>
    var wakeCounter: nat            // the eventfd
    var executed: seq<Task>         // the tasks run
    var calls: seq<Firing>          // the callbacks called, with the event and the owner
    ghost var s: State

    /** Users handle it as one fact. */
    ghost predicate Valid()
      reads this, table, table.poller
    {
      Follows() == true
    }

    /** The fields are those of the protocol state. */
    ghost predicate Follows()
      reads this, table, table.poller
    {
      && s.fds.table == table.Abs()
      && s.exe == exeState
      && s.queue == ioExeQueue
      && s.buffer == ioBufferQueue
      && s.counter == wakeCounter
      && s.ran == executed
      && s.fired == calls
    }

    constructor ()
      ensures Valid() && s == INIT && fresh(table) && fresh(table.poller)
    {
      table := new EventTable();
      exeState, ioExeQueue, ioBufferQueue, wakeCounter := Stopped, [], [], 0;
      executed, calls := [], [];
      s := INIT;
    }

    /** The eventfd write; it fails only when the counter is saturated. */
    method WakeIoUp()
      requires Valid() && Enabled(s, Kick)
      modifies this`wakeCounter, this`s
      ensures Valid() && s == Next(old(s), Kick)
    {
      s := Next(s, Kick);
      if wakeCounter < EVENTFD_MAX {
        wakeCounter := wakeCounter + 1;
      }
    }

    /** Push under the queue mutex, then write the eventfd. */
    method PostIoTask(task: Task)
      requires Valid() && Enabled(s, Push(task))
      modifies this`ioBufferQueue, this`wakeCounter, this`s
      ensures Valid() && Run(old(s), [Push(task), Kick], s)
    {
      ioBufferQueue := ioBufferQueue + [task];
      ghost var u := Next(s, Push(task));
      s := u;
      WakeIoUp();
      assert Run(u, [Kick], s);
      assert [Push(task), Kick][1..] == [Kick];
    }

    /** The body of one queued task, on a table that the loop sees in `d`. */
    method Perform(task: Task, outcome: Fault, ghost d: Fds)
      requires table.Abs() == d.table && InRange(d, task)
      modifies table, table.poller
      ensures table.Abs() == Execute(d, task, outcome).table
    {
      match task
      case User(_) =>
      case Register(fd, _) => table.RegisterTask(fd);
      case Unregister(fd, _) => var closed := table.UnregisterTask(fd, outcome, false);
      case Enable(fd, inc, types, withCb) =>
        var ok := table.EnableTask(fd, types, if withCb then Some(inc) else None, outcome);
      case Disable(fd, _) => var ok := table.DisableTask(fd, outcome);
    }

    /** One queued task; epoll_ctl may fail. */
    method RunTask(task: Task) returns (ghost fault: Fault)
      requires Valid() && Inv(s) && s.pc == RunningTasks && s.next < |s.queue| && s.queue[s.next] == task && !s.destroyed
      modifies this`executed, this`s, table, table.poller
      ensures Valid() && s == RunOne(old(s), fault) && Leads(old(s), [Action.RunTask(fault)], s)
      ensures s.ran == old(s.ran) + [task] && s.next == old(s.next) + 1
      ensures s.pc == RunningTasks && s.batch == old(s.batch) && s.fired == old(s.fired)
      ensures s.queue == old(s.queue) && s.exe == old(s.exe)
    {
      var outcome: Fault := *;
      fault := outcome;
      RunTaskLeads(s, fault);
      Perform(task, outcome, s.fds);
      s := RunOne(s, fault);
      executed := executed + [task];
    }

    /** The task at position `i`, as the continuation of a run from `start`. */
    method RunAt(i: nat, ghost start: State, ghost trace: seq<Action>) returns (ghost longer: seq<Action>)
      requires Valid() && Leads(start, trace, s) && !s.destroyed
      requires s.pc == RunningTasks && s.next == i < |ioExeQueue|
      modifies this`executed, this`s, table, table.poller
      ensures Valid() && Leads(start, longer, s)
      ensures s.ran == old(s.ran) + [ioExeQueue[i]] && s.next == i + 1
      ensures s.pc == RunningTasks && s.batch == old(s.batch) && s.fired == old(s.fired) && s.exe == old(s.exe)
    {
      ghost var before := s;
      ghost var fault := RunTask(ioExeQueue[i]);
      LeadsThen(start, trace, before, [Action.RunTask(fault)], s);
      longer := trace + [Action.RunTask(fault)];
    }

    /** The loop over the swapped queue, and its clear. */
    method RunQueue() returns (ghost trace: seq<Action>)
      requires Valid() && Inv(s) && !s.destroyed && s.pc == RunningTasks && s.next == 0
      modifies this`ioExeQueue, this`executed, this`s, table, table.poller
      ensures Valid() && Leads(old(s), trace, s) && s.pc == InBatch && s.batch == old(s.batch)
      ensures ioExeQueue == [] && s.ran == old(s.ran) + old(ioExeQueue)
      ensures s.fired == old(s.fired) && s.exe == old(s.exe)
    {
      ghost var start := s;
      trace := RunSwapped();
      ghost var before := s;
      ClearExeQueue();
      LeadsThen(start, trace, before, [ClearQueue], s);
      trace := trace + [ClearQueue];
    }

    method RunSwapped() returns (ghost trace: seq<Action>)
      requires Valid() && Inv(s) && !s.destroyed && s.pc == RunningTasks && s.next == 0
      modifies this`executed, this`s, table, table.poller
      ensures Valid() && Leads(old(s), trace, s) && s.pc == RunningTasks && s.next == |ioExeQueue|
      ensures s.ran == old(s.ran) + ioExeQueue && s.batch == old(s.batch) && s.fired == old(s.fired) && s.exe == old(s.exe)
    {
      trace := [];
      ghost var start := s;
      for i := 0 to |ioExeQueue|
        invariant Valid() && Leads(start, trace, s)
        invariant s.pc == RunningTasks && s.next == i && s.batch == start.batch && s.exe == start.exe
        invariant s.ran == start.ran + ioExeQueue[..i] && s.fired == start.fired
      {
        TakeOneMore(ioExeQueue, i);
        trace := RunAt(i, start, trace);
      }
      assert ioExeQueue[..|ioExeQueue|] == ioExeQueue;
    }

    method ClearExeQueue()
      requires Valid() && Inv(s) && !s.destroyed && s.pc == RunningTasks && s.next == |ioExeQueue|
      modifies this`ioExeQueue, this`s
      ensures Valid() && Leads(old(s), [ClearQueue], s) && ioExeQueue == [] && s.pc == InBatch
      ensures s.batch == old(s.batch) && s.ran == old(s.ran) && s.fired == old(s.fired) && s.exe == old(s.exe)
    {
      LeadsOne(s, ClearQueue);
      s := Next(s, ClearQueue);
      ioExeQueue := [];
    }

    /** Reads the eventfd until it is empty. */
    method DrainEventfd() returns (ghost trace: seq<Action>)
      requires Valid() && Inv(s) && !s.destroyed && s.pc == Draining
      modifies this`wakeCounter, this`s
      ensures Valid() && Leads(old(s), trace, s)
      ensures s == old(s).(counter := 0, pc := Drained)
    {
      trace := [];
      ghost var start := s;
      while wakeCounter > 0
        invariant Valid() && Leads(start, trace, s) && s == start.(counter := wakeCounter)
      {
        LeadsStep(start, trace, s, ReadCounter);
        trace, s := trace + [ReadCounter], Next(s, ReadCounter);
        wakeCounter := 0;
      }
      LeadsStep(start, trace, s, ReadEmpty);
      trace, s := trace + [ReadEmpty], Next(s, ReadEmpty);
    }

    /** What the wake event makes the executor do; with no one posting meanwhile, everything posted has then run. */
    method ServeWake() returns (ghost trace: seq<Action>)
      requires Valid() && Inv(s) && !s.destroyed && s.pc == Draining
      modifies this, table, table.poller
      ensures Valid() && Leads(old(s), trace, s) && s.pc == InBatch && s.batch == old(s.batch)
      ensures ioExeQueue == [] && ioBufferQueue == [] && s.ran == s.posted
      ensures s.fired == old(s.fired) && s.exe == old(s.exe)
    {
      ghost var start := s;
      trace := DrainEventfd();
      ghost var drained := s;
      ghost var more := SwapAndRun();
      LeadsThen(start, trace, drained, more, s);
      trace := trace + more;
    }

    method SwapAndRun() returns (ghost trace: seq<Action>)
      requires Valid() && Inv(s) && !s.destroyed && s.pc == Drained
      modifies this`ioExeQueue, this`ioBufferQueue, this`executed, this`s, table, table.poller
      ensures Valid() && Leads(old(s), trace, s) && s.pc == InBatch && s.batch == old(s.batch)
      ensures ioExeQueue == [] && ioBufferQueue == [] && s.ran == s.posted
      ensures s.fired == old(s.fired) && s.exe == old(s.exe)
    {
      ghost var drained := s;
      SwapQueues();
      ghost var mid := s;
      trace := RunQueue();
      LeadsThen(drained, [Swap], mid, trace, s);
      trace := [Swap] + trace;
      NothingPending(s);
    }

    /** The swap under the queue mutex. */
    method SwapQueues()
      requires Valid() && Inv(s) && !s.destroyed && s.pc == Drained
      modifies this`ioExeQueue, this`ioBufferQueue, this`s
      ensures Valid() && Leads(old(s), [Swap], s) && s.pc == RunningTasks && s.next == 0 && s.buffer == []
      ensures s.batch == old(s.batch) && s.fired == old(s.fired) && s.exe == old(s.exe) && !s.destroyed
      ensures ioExeQueue == old(ioBufferQueue)
    {
      LeadsOne(s, Swap);
      s := Next(s, Swap);
      ioExeQueue, ioBufferQueue := ioBufferQueue, ioExeQueue;
    }

    /** The callback of an fd event, if there is one; the result names its owner. */
    method DispatchEvent(fd: Fd) returns (called: Option<Incarnation>)
      requires Valid() && Inv(s) && !s.destroyed && s.pc == InBatch
      requires s.batch != [] && s.batch[0].FdEvent? && s.batch[0].fd == fd
      modifies this`calls, this`s
      ensures Valid() && s == DispatchOne(old(s)) && Leads(old(s), [Dispatch], s)
      ensures s.batch == old(s.batch)[1..] && s.pc == InBatch && s.ran == old(s.ran) && s.exe == old(s.exe) && s.fds == old(s.fds)
      // Whoever has a callback in the table is called, once, and it is the channel of the event.
      ensures fd < |table.events| && called == table.events[fd].cb
      ensures called.Some? ==> called.value == old(s.batch[0]).inc
      ensures calls == if called.Some? then old(calls) + [Firing(old(s.batch[0]), called.value)] else old(calls)
      ensures calls == old(calls) + CallOf(s.fds.table, old(s.batch[0]))
    {
      assert EventSafe(s, s.batch[0]);
      called := table.events[fd].cb;
      assert calls + [] == calls;
      if called.Some? {
        calls := calls + [Firing(FdEvent(fd, called.value), called.value)];
      }
      LeadsOne(s, Dispatch);
      s := DispatchOne(s);
    }

    /** One entry of the batch, as the continuation of a run from `start`. */
    method ServeEvent(event: Ready, ghost start: State, ghost trace: seq<Action>) returns (ghost longer: seq<Action>)
      requires Valid() && Leads(start, trace, s) && !s.destroyed
      requires s.pc == InBatch && s.batch != [] && s.batch[0] == event
      modifies this, table, table.poller
      ensures Valid() && Leads(start, longer, s)
      ensures s.pc == InBatch && s.batch == old(s.batch)[1..] && s.exe == old(s.exe)
      ensures event == Wake || old(s.ran == s.posted) ==> s.ran == s.posted
      ensures event != Wake ==> s.fds == old(s.fds)
      ensures calls == old(calls) + CallOf(s.fds.table, event)
    {
      ghost var before := s;
      if event == Wake {
        LeadsOne(s, TakeWake);
        s := Next(s, TakeWake);
        ghost var mid := s;
        ghost var more := ServeWake();
        LeadsThen(before, [TakeWake], mid, more, s);
        LeadsThen(start, trace, before, [TakeWake] + more, s);
        longer := trace + ([TakeWake] + more);
        assert calls + [] == calls;
      } else {
        var called := DispatchEvent(event.fd);
        LeadsThen(start, trace, before, [Dispatch], s);
        longer := trace + [Dispatch];
      }
    }

    /** One turn of io_executor with the events epoll_wait returned. */
    method Turn(events: seq<Ready>) returns (ghost trace: seq<Action>)
      requires Valid() && Inv(s) && !s.destroyed && s.pc == Waiting && Collectable(s, events)
      modifies this, table, table.poller
      ensures Valid() && Leads(old(s), trace, s) && s.pc == Head && s.exe == old(s.exe)
      ensures Wake in events ==> s.ran == s.posted
      // Every event before the wake event is served with the table as it was, every later one with the new table.
      ensures calls == old(calls) + CallsOf(events, old(s).fds.table, s.fds.table)
      ensures Wake !in events ==> s.fds == old(s).fds
    {
      ghost var start, base := s, calls;
      BeginBatch(events);
      trace := ServeBatch(events, start, base, [Collect(events)]);
      trace := FinishBatch(events, start, base, trace);
    }

    /** The loop over the events. */
    method ServeBatch(events: seq<Ready>, ghost start: State, ghost base: seq<Firing>, ghost trace: seq<Action>)
      returns (ghost longer: seq<Action>)
      requires Valid() && Leads(start, trace, s) && !s.destroyed && (Serving(events, 0, start, base) == true)
      modifies this, table, table.poller
      ensures Valid() && Leads(start, longer, s) && !s.destroyed && (Serving(events, |events|, start, base) == true)
    {
      longer := trace;
      for i := 0 to |events|
        invariant Valid() && Leads(start, longer, s) && !s.destroyed && (Serving(events, i, start, base) == true)
      {
        longer := ServeNext(events, i, start, base, longer);
      }
    }

    /** The first `i` of `events` have been served since `start`, when `base` had been called. */
    ghost predicate Serving(events: seq<Ready>, i: nat, start: State, base: seq<Firing>)
      requires i <= |events|
      reads this
    {
      && s.pc == InBatch && s.batch == events[i..] && s.exe == start.exe && Distinct(events)
      && (Wake in events[..i] ==> s.ran == s.posted)
      && (Wake !in events[..i] ==> s.fds == start.fds)
      && calls == base + CallsOf(events[..i], start.fds.table, s.fds.table)
    }

    method ServeNext(events: seq<Ready>, i: nat, ghost start: State, ghost base: seq<Firing>, ghost trace: seq<Action>)
      returns (ghost longer: seq<Action>)
      requires i < |events| && !s.destroyed
      requires Valid() && Leads(start, trace, s) && (Serving(events, i, start, base) == true)
      modifies this, table, table.poller
      ensures Valid() && Leads(start, longer, s) && !s.destroyed && (Serving(events, i + 1, start, base) == true)
    {
      ghost var now, soFar := s.fds.table, calls;
      longer := ServeEvent(events[i], start, trace);
      CallsExtend(events, i, start.fds.table, now, s.fds.table, base, soFar);
    }

    ghost method BeginBatch(events: seq<Ready>)
      requires Valid() && Inv(s) && !s.destroyed && s.pc == Waiting && Collectable(s, events)
      modifies this`s
      ensures Valid() && Leads(old(s), [Collect(events)], s) && (Serving(events, 0, old(s), calls) == true)
    {
      LeadsOne(s, Collect(events));
      NothingServed(events, s.fds.table, calls);
      s := Next(s, Collect(events));
    }

    ghost method FinishBatch(events: seq<Ready>, start: State, base: seq<Firing>, trace: seq<Action>) returns (longer: seq<Action>)
      requires Valid() && Leads(start, trace, s) && !s.destroyed && (Serving(events, |events|, start, base) == true)
      modifies this`s
      ensures Valid() && Leads(start, longer, s) && s.pc == Head && s.exe == start.exe
      ensures Wake in events ==> s.ran == s.posted
      ensures calls == base + CallsOf(events, start.fds.table, s.fds.table) && (Wake !in events ==> s.fds == start.fds)
    {
      assert events[..|events|] == events;
      LeadsStep(start, trace, s, EndBatch);
      longer := trace + [EndBatch];
      s := Next(s, EndBatch);
    }

    /** stop() up to the join: the state change, and the wake-up that lets a thread see it. */
    method StopIo()
      requires Valid() && Enabled(s, Action.Stop)
      modifies this`exeState, this`wakeCounter, this`s
      ensures Valid() && Run(old(s), if old(exeState) == Stopped then [Action.Stop] else [Action.Stop, Kick], s)
      ensures exeState == if old(exeState) == Stopped then Stopped else Stopping
      ensures old(exeState) != Stopped ==> wakeCounter > 0
    {
      ghost var u := Next(s, Action.Stop);
      s := u;
      if exeState == Running {
        exeState := Stopping;
      }
      assert [Action.Stop][1..] == [];
      if exeState != Stopped {
        WakeIoUp();
        assert Run(u, [Kick], s);
        assert [Action.Stop, Kick][1..] == [Kick];
      }
    }
  }
}
