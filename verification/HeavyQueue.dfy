/**
 * The heavy queue of src/core.cpp: posting threads push under the mutex and notify, the heavy
 * thread waits on the condition variable, swaps and runs. `T` is what a task carries.
 */
module HeavyQueues {
  import opened Base

  datatype ExeState = Stopped | Running | Stopping

  /**
   * Where the heavy thread is. Checked: it has found nothing to do and still holds the mutex on
   * its way to sleep.
   */
  datatype Pc = Exited | Head | Locking | Checked | Waiting | RunningTasks

  datatype State<T> = State(
    exe: ExeState,
    pc: Pc,
    queue: seq<T>, next: nat,   // heavy_exe_queue_ and the position of the loop over it
    buffer: seq<T>,             // heavy_buffer_queue_
    notifies: nat,              // posts between the push and the notify
    stopNotify: bool,           // stop() between the state change and its notify
    posted: seq<T>,
    ran: seq<T>
  )

  function Init<T>(): State<T> { State(Stopped, Exited, [], 0, [], 0, false, [], []) }

  datatype Action<T> =
    | Push(task: T)
    | Notify
    | CheckState
    | Check          // evaluate the wait predicate under the mutex, swap when it holds
    | Sleep          // release the mutex and block
    | Spurious
    | RunTask
    | ClearQueue
    | Stop           // stop() changes the state without the mutex
    | NotifyStop
    | Join
    | Start

  predicate Enabled<T>(s: State<T>, a: Action<T>) {
    match a
    case Push(_) => s.pc != Checked
    case Notify => s.notifies > 0
    case CheckState => s.pc == Head
    case Check => s.pc == Locking
    case Sleep => s.pc == Checked
    case Spurious => s.pc == Waiting
    case RunTask => s.pc == RunningTasks && s.next < |s.queue|
    case ClearQueue => s.pc == RunningTasks && s.next >= |s.queue|
    case Stop => s.exe == Running
    case NotifyStop => s.stopNotify
    case Join => s.exe == Stopping && s.pc == Exited && !s.stopNotify
    case Start => s.exe == Stopped && s.pc == Exited
  }

  function WakeOne(pc: Pc): Pc { if pc == Waiting then Locking else pc }

  function Next<T>(s: State<T>, a: Action<T>): State<T>
    requires Enabled(s, a)
  {
    match a
    case Push(t) => s.(buffer := s.buffer + [t], posted := s.posted + [t], notifies := s.notifies + 1)
    case Notify => s.(notifies := s.notifies - 1, pc := WakeOne(s.pc))
    case CheckState => s.(pc := if s.exe == Running then Locking else Exited)
    case Check =>
      if s.buffer != [] || s.exe != Running then s.(pc := RunningTasks, queue := s.buffer, buffer := s.queue, next := 0)
      else s.(pc := Checked)
    case Sleep => s.(pc := Waiting)
    case Spurious => s.(pc := Locking)
    case RunTask => s.(ran := s.ran + [s.queue[s.next]], next := s.next + 1)
    case ClearQueue => s.(pc := Head, queue := [], next := 0)
    case Stop => s.(exe := Stopping, stopNotify := true)
    case NotifyStop => s.(stopNotify := false, pc := WakeOne(s.pc))
    case Join => s.(exe := Stopped)
    case Start => s.(exe := Running, pc := Head)
  }

  predicate Run<T(==)>(s: State<T>, acts: seq<Action<T>>, t: State<T>)
    decreases |acts|
  {
    if acts == [] then s == t
    else Enabled(s, acts[0]) && Run(Next(s, acts[0]), acts[1..], t)
  }

  function Pending<T>(s: State<T>): seq<T>
    requires s.next <= |s.queue|
  {
    s.queue[s.next..] + s.buffer
  }

  ghost predicate Inv<T>(s: State<T>) {
    && s.next <= |s.queue|
    && (s.pc != RunningTasks ==> s.queue == [])
    && s.ran + Pending(s) == s.posted
    && (s.pc == Checked ==> s.buffer == [])
    && (s.pc == Waiting && s.buffer != [] ==> s.notifies > 0)
    && (s.exe == Running ==> s.pc != Exited)
  }

  lemma NextKeepsInv<T>(s: State<T>, a: Action<T>)
    requires Inv(s) && Enabled(s, a)
    ensures Inv(Next(s, a))
  {
    var t := Next(s, a);
    match a
    case Push(x) => assert t.ran + Pending(t) == (s.ran + Pending(s)) + [x];
    case RunTask => assert s.ran + Pending(s) == t.ran + Pending(t);
    case _ => assert Pending(t) == Pending(s);
  }

  lemma {:induction false} RunKeepsInv<T>(s: State<T>, acts: seq<Action<T>>, t: State<T>)
    requires Inv(s) && Run(s, acts, t)
    ensures Inv(t)
    decreases |acts|
  {
    if acts != [] {
      NextKeepsInv(s, acts[0]);
      RunKeepsInv(Next(s, acts[0]), acts[1..], t);
    }
  }

  /** The tasks pushed in a run, in the order of the pushes. */
  function PushedIn<T>(acts: seq<Action<T>>): seq<T> {
    if acts == [] then [] else (if acts[0].Push? then [acts[0].task] else []) + PushedIn(acts[1..])
  }

  lemma {:induction false} PostedArePushed<T>(s: State<T>, acts: seq<Action<T>>, t: State<T>)
    requires Run(s, acts, t)
    ensures t.posted == s.posted + PushedIn(acts)
    decreases |acts|
  {
    if acts != [] {
      PostedArePushed(Next(s, acts[0]), acts[1..], t);
    }
  }

  /**
   * Heavy tasks run once each in the order posted, and a thread that sleeps while a task is
   * buffered has a notify on its way.
   */
  lemma HeavyTasksRunInOrder<T>(acts: seq<Action<T>>, t: State<T>)
    requires Run(Init(), acts, t)
    ensures t.next <= |t.queue| && t.ran + Pending(t) == PushedIn(acts)
    ensures t.pc == Waiting && t.buffer != [] ==> t.notifies > 0
  {
    RunKeepsInv(Init(), acts, t);
    PostedArePushed(Init(), acts, t);
  }

  // ---------------------------------------------------------------- progress

  lemma {:induction false} RunAppend<T>(s: State<T>, a: seq<Action<T>>, m: State<T>, b: seq<Action<T>>, t: State<T>)
    requires Run(s, a, m) && Run(m, b, t)
    ensures Run(s, a + b, t)
    decreases |a|
  {
    if a == [] {
      assert a + b == b;
    } else {
      assert (a + b)[1..] == a[1..] + b;
      RunAppend(Next(s, a[0]), a[1..], m, b, t);
    }
  }

  lemma RunStep<T>(s: State<T>, acts: seq<Action<T>>, t: State<T>, a: Action<T>)
    requires Run(s, acts, t) && Enabled(t, a)
    ensures Run(s, acts + [a], Next(t, a))
  {
    assert Run(Next(t, a), [a][1..], Next(t, a));
    RunAppend(s, acts, t, [a], Next(t, a));
  }

  ghost predicate NoPosts<T>(acts: seq<Action<T>>) {
    forall k :: 0 <= k < |acts| ==> !acts[k].Push?
  }

  /** How far a running thread is from having nothing left to run. */
  function Distance<T>(s: State<T>): nat
    requires s.next <= |s.queue|
  {
    var left := |s.queue| - s.next + if s.buffer == [] then 0 else |s.buffer| + 10;
    match s.pc
    case RunningTasks => left + 5
    case Head => left + 4
    case Checked => left + 4
    case Waiting => left + 3
    case Locking => left + 2
    case Exited => left
  }

  /** What a running thread does next, helped by an outstanding notify. */
  function Progress<T>(s: State<T>): Action<T> {
    match s.pc
    case RunningTasks => if s.next < |s.queue| then RunTask else ClearQueue
    case Head => CheckState
    case Checked => Sleep
    case Waiting => Notify
    case Locking => Check
    case Exited => Start
  }

  /** While the loop is running, every heavy task posted so far gets to run without any further post. */
  lemma {:induction false} PostedTasksCanRun<T>(s: State<T>) returns (acts: seq<Action<T>>, t: State<T>)
    requires Inv(s) && s.exe == Running
    ensures Run(s, acts, t) && Inv(t) && NoPosts(acts) && t.exe == Running
    ensures t.posted == s.posted && t.ran == s.posted
    decreases Distance(s)
  {
    if Pending(s) == [] {
      acts, t := [], s;
      assert s.ran + [] == s.ran;
    } else {
      var a := Progress(s);
      NextKeepsInv(s, a);
      var more;
      more, t := PostedTasksCanRun(Next(s, a));
      acts := [a] + more;
      assert acts[1..] == more;
    }
  }

  // ---------------------------------------------------------------- shutdown

  /** stop() is past its notify, and the thread sleeps with nobody left to wake it. */
  predicate Hangs<T(==)>(s: State<T>) {
    s.exe == Stopping && s.pc == Waiting && !s.stopNotify && s.notifies == 0 && s.buffer == []
  }

  /** The stopping loop hangs in some continuation without a restart, a new post or a spurious wake-up. */
  ghost predicate MayHang<T(!new)>(s: State<T>) {
    exists acts: seq<Action<T>>, t: State<T> ::
      Run(s, acts, t) && Hangs(t) && forall k :: 0 <= k < |acts| ==> !acts[k].Start? && !acts[k].Push? && !acts[k].Spurious?
  }

  /** Past the notify of stop() and not on its way to sleep. */
  ghost predicate WillExit<T>(s: State<T>) {
    s.exe == Stopping && !s.stopNotify && s.pc != Checked && s.pc != Waiting
  }

  lemma {:induction false} WillExitStays<T>(s: State<T>, acts: seq<Action<T>>, t: State<T>)
    requires WillExit(s) || s.exe == Stopped
    requires Run(s, acts, t) && forall k :: 0 <= k < |acts| ==> !acts[k].Start?
    ensures WillExit(t) || t.exe == Stopped
    decreases |acts|
  {
    if acts != [] {
      assert !acts[0].Start?;
      WillExitStays(Next(s, acts[0]), acts[1..], t);
    }
  }

  /** The outstanding notifies happen without effect on a thread that holds the mutex. */
  lemma {:induction false} NotifiesPass<T>(s: State<T>) returns (acts: seq<Action<T>>, t: State<T>)
    requires s.pc == Checked
    ensures Run(s, acts, t) && t == s.(notifies := 0) && forall k :: 0 <= k < |acts| ==> acts[k].Notify?
    decreases s.notifies
  {
    if s.notifies == 0 {
      acts, t := [], s;
    } else {
      var more, u := NotifiesPass(Next(s, Notify));
      acts, t := [Notify] + more, u;
      assert acts[1..] == more;
    }
  }

  /** stop() changes the state without the mutex: its notify is lost exactly when it falls between the check and the sleep. */
  lemma StopIsLostIff<T(!new)>(acts: seq<Action<T>>, s: State<T>)
    requires Run(Init(), acts, s) && s.exe == Stopping && s.stopNotify
    ensures MayHang(Next(s, NotifyStop)) <==> s.pc == Checked
  {
    RunKeepsInv(Init(), acts, s);
    var u := Next(s, NotifyStop);
    if s.pc == Checked {
      var a, v := NotifiesPass(u);
      var t := Next(v, Sleep);
      assert Run(t, [Action<T>.Sleep][1..], t);
      RunAppend(u, a, v, [Sleep], t);
      assert Run(u, a + [Sleep], t) && Hangs(t);
    } else {
      forall more: seq<Action<T>>, t: State<T> | Run(u, more, t) && forall k :: 0 <= k < |more| ==> !more[k].Start?
        ensures !Hangs(t)
      {
        WillExitStays(u, more, t);
      }
    }
  }

  /** A run in which stop() hangs: the thread checks, stop() changes the state and notifies, the thread sleeps. */
  lemma StopCanHang() returns (acts: seq<Action<int>>, t: State<int>)
    ensures Run(Init<int>(), acts, t) && Hangs(t)
  {
    var start := Init<int>();
    acts, t := [], start;
    RunStep(start, acts, t, Start);
    acts, t := acts + [Start], Next(t, Start);
    RunStep(start, acts, t, CheckState);
    acts, t := acts + [CheckState], Next(t, CheckState);
    RunStep(start, acts, t, Check);
    acts, t := acts + [Check], Next(t, Check);
    RunStep(start, acts, t, Stop);
    acts, t := acts + [Stop], Next(t, Stop);
    RunStep(start, acts, t, NotifyStop);
    acts, t := acts + [NotifyStop], Next(t, NotifyStop);
    RunStep(start, acts, t, Sleep);
    acts, t := acts + [Sleep], Next(t, Sleep);
  }

  // ---------------------------------------------------------------- imperative form

  class HeavyQueue<T> {
    var exeState: ExeState
    var heavyExeQueue: seq<T>
    var heavyBufferQueue: seq<T>
    var executed: seq<T>            // the tasks run
    ghost var s: State<T>

    ghost predicate Valid()
      reads this
    {
      s.exe == exeState && s.queue == heavyExeQueue && s.buffer == heavyBufferQueue && s.ran == executed
    }

    constructor ()
      ensures Valid() && s == Init()
    {
      exeState, heavyExeQueue, heavyBufferQueue, executed := Stopped, [], [], [];
      s := Init();
    }

    /** Push under the queue mutex, then notify. */
    method PostHeavyTask(task: T)
      requires Valid() && Enabled(s, Push(task))
      modifies this`heavyBufferQueue, this`s
      ensures Valid() && Run(old(s), [Push(task), Notify], s)
      ensures heavyBufferQueue == old(heavyBufferQueue) + [task]
    {
      heavyBufferQueue := heavyBufferQueue + [task];
      ghost var u := Next(s, Push(task));
      assert Run(s, [], s);
      RunStep(s, [], s, Push(task));
      RunStep(s, [] + [Push(task)], u, Notify);
      assert [] + [Push(task)] + [Notify] == [Push(task), Notify];
      s := Next(u, Notify);
    }

    /**
     * One evaluation of the wait predicate and what follows it. The thread goes to sleep when there
     * is nothing to do; otherwise, with no one posting meanwhile, everything posted has then run.
     */
    method Turn() returns (slept: bool, ghost trace: seq<Action<T>>)
      requires Valid() && Inv(s) && s.pc == Locking
      modifies this
      ensures Valid() && Run(old(s), trace, s) && s.posted == old(s.posted) && exeState == old(exeState)
      ensures slept <==> old(heavyBufferQueue == [] && exeState == Running)
      ensures slept ==> s == old(s).(pc := Waiting)
      ensures !slept ==> s.pc == Head && executed == s.posted && heavyExeQueue == [] == heavyBufferQueue
      ensures executed == old(executed) + if slept then [] else old(heavyBufferQueue)
    {
      slept := heavyBufferQueue == [] && exeState == Running;
      ghost var start := s;
      ghost var checked := Next(s, Check);
      trace := [];
      RunStep(start, trace, s, Check);
      trace := trace + [Check];
      if slept {
        RunStep(start, trace, checked, Sleep);
        trace, s := trace + [Sleep], Next(checked, Sleep);
      } else {
        heavyExeQueue, heavyBufferQueue := heavyBufferQueue, heavyExeQueue;
        s := checked;
        assert start.ran + Pending(start) == start.ran + heavyExeQueue;
        trace := RunTasks(start, trace);
      }
    }

    /** The loop over the swapped queue, and its clear. */
    method RunTasks(ghost start: State<T>, ghost before: seq<Action<T>>) returns (ghost trace: seq<Action<T>>)
      requires Valid() && Run(start, before, s) && s.pc == RunningTasks && s.next == 0
      modifies this`heavyExeQueue, this`executed, this`s
      ensures Valid() && Run(start, trace, s)
      ensures s == old(s).(pc := Head, queue := [], next := 0, ran := old(s.ran) + old(heavyExeQueue))
    {
      trace := before;
      ghost var first := s;
      for i := 0 to |heavyExeQueue|
        invariant Valid() && Run(start, trace, s) && heavyExeQueue == first.queue
        invariant s == first.(next := i, ran := first.ran + heavyExeQueue[..i])
      {
        TakeOneMore(heavyExeQueue, i);
        RunStep(start, trace, s, RunTask);
        executed := executed + [heavyExeQueue[i]];
        trace, s := trace + [RunTask], Next(s, RunTask);
      }
      assert heavyExeQueue[..|heavyExeQueue|] == heavyExeQueue;
      RunStep(start, trace, s, ClearQueue);
      trace, s := trace + [ClearQueue], Next(s, ClearQueue);
      heavyExeQueue := [];
    }
  }
}
