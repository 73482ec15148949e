/**
 * From the tasks that have run to the callbacks that are called: over every run of the loop the table
 * and the kernel serve what each channel has asked for, and a dispatched event calls back exactly the
 * channel that has a callback installed.
 */
module LoopCallbacks {
  import opened Base
  import opened EventTables
  import opened FdLives
  import opened LoopProtocol
  import LT = LoopTheorems

  /** The task a step runs, with what epoll does to it. */
  function DeedOf(s: State, a: Action): seq<Deed> {
    if a.RunTask? && s.next < |s.queue| then [Deed(s.queue[s.next], a.fault)] else []
  }

  /** The tasks run by the steps `acts` from `s`, oldest first. */
  function Deeds(s: State, acts: seq<Action>): seq<Deed>
    decreases |acts|
  {
    if acts == [] || !Enabled(s, acts[0]) then [] else DeedOf(s, acts[0]) + Deeds(Next(s, acts[0]), acts[1..])
  }

  lemma TasksOfAppend(ran: seq<Task>, a: seq<Deed>, b: seq<Deed>)
    ensures ran + TasksOf(a + b) == (ran + TasksOf(a)) + TasksOf(b)
    ensures ran + TasksOf([]) == ran
  {
  }

  /** The deeds of a run are the tasks that have run. */
  lemma {:induction false} DeedsAreTheTasksRun(s: State, acts: seq<Action>, t: State)
    requires Inv(s) && Run(s, acts, t)
    ensures t.ran == s.ran + TasksOf(Deeds(s, acts))
    decreases |acts|
  {
    if acts == [] {
      TasksOfAppend(s.ran, [], []);
    } else {
      var a, u := acts[0], Next(s, acts[0]);
      NextKeepsInv(s, a);
      DeedsAreTheTasksRun(u, acts[1..], t);
      StepRuns(s, a);
      TasksOfAppend(s.ran, DeedOf(s, a), Deeds(u, acts[1..]));
    }
  }

  lemma StepRuns(s: State, a: Action)
    requires Inv(s) && Enabled(s, a)
    ensures Next(s, a).ran == s.ran + TasksOf(DeedOf(s, a))
  {
    if a.RunTask? {
      NextTaskInRange(s);
      assert TasksOf(DeedOf(s, a)) == [s.queue[s.next]];
    } else {
      LT.OthersKeepRan(s, a);
      assert s.ran + TasksOf([]) == s.ran;
    }
  }

  lemma OpenServes(d: Fds, fd: Fd, inc: Incarnation, done: seq<Deed>)
    requires RequestsServed(d, done) && inc !in d.lives
    ensures RequestsServed(OpenFd(d, fd, inc), done)
  {
  }

  /** Only opening an fd and running a task touch the table and the lives. */
  lemma OthersKeepFds(s: State, a: Action)
    requires Enabled(s, a) && !a.RunTask? && !a.Open?
    ensures Next(s, a).fds == s.fds
  {
  }

  lemma RunTaskServes(s: State, fault: Fault, done: seq<Deed>)
    requires Inv(s) && RequestsServed(s.fds, done) && s.next < |s.queue| && InRange(s.fds, s.queue[s.next])
    ensures RequestsServed(RunOne(s, fault).fds, done + [Deed(s.queue[s.next], fault)])
  {
    RunTaskIsLegal(s);
    ExecuteServes(s.fds, s.queue[s.next], fault, done);
  }

  lemma OtherStepServes(s: State, a: Action, done: seq<Deed>)
    requires Inv(s) && RequestsServed(s.fds, done) && Enabled(s, a) && !a.RunTask?
    ensures RequestsServed(Next(s, a).fds, done)
  {
    if a.Open? {
      OpenServes(s.fds, a.fd, a.inc, done);
    } else {
      OthersKeepFds(s, a);
    }
  }

  lemma StepServes(s: State, a: Action, done: seq<Deed>)
    requires Inv(s) && RequestsServed(s.fds, done) && Enabled(s, a)
    ensures RequestsServed(Next(s, a).fds, done + DeedOf(s, a))
  {
    if a.RunTask? {
      NextTaskInRange(s);
      RunTaskServes(s, a.fault, done);
    } else {
      OtherStepServes(s, a, done);
      assert done + [] == done;
    }
  }

  lemma NextTaskInRange(s: State)
    requires Inv(s) && s.next < |s.queue|
    ensures InRange(s.fds, s.queue[s.next])
  {
    RunTaskIsLegal(s);
    ExecuteKeepsConsistent(s.fds, s.queue[s.next], NoFault);
  }

  lemma {:induction false} RunServes(s: State, acts: seq<Action>, t: State, done: seq<Deed>)
    requires Inv(s) && RequestsServed(s.fds, done) && Run(s, acts, t)
    ensures RequestsServed(t.fds, done + Deeds(s, acts))
    decreases |acts|
  {
    if acts == [] {
      assert done + [] == done;
    } else {
      var u, deed := Next(s, acts[0]), DeedOf(s, acts[0]);
      NextKeepsInv(s, acts[0]);
      StepServes(s, acts[0], done);
      RunServes(u, acts[1..], t, done + deed);
      assert (done + deed) + Deeds(u, acts[1..]) == done + (deed + Deeds(u, acts[1..]));
    }
  }

  /** A collected event goes by the number of the incarnation it was collected for. */
  ghost predicate BatchNamed(s: State) {
    forall e :: e in s.batch && e.FdEvent? ==> e.inc in s.fds.fdOf && s.fds.fdOf[e.inc] == e.fd
  }

  lemma InitIsSound()
    ensures Inv(INIT) && RequestsServed(INIT.fds, []) && BatchNamed(INIT)
  {
    LT.ReachableInv([], INIT);
  }

  /**
   * In every run, for every registered channel the kernel watches the types of its last request and the
   * table holds its callback, as the tasks that have run asked; nobody else is served.
   */
  lemma ChannelsAreServed(acts: seq<Action>, t: State)
    requires Run(INIT, acts, t)
    ensures RequestsServed(t.fds, Deeds(INIT, acts))
  {
    InitIsSound();
    RunServes(INIT, acts, t, []);
    assert [] + Deeds(INIT, acts) == Deeds(INIT, acts);
  }

  lemma CollectKeepsNames(s: State, events: seq<Ready>)
    requires OpenFollowsLives(s.fds) && Enabled(s, Collect(events))
    ensures BatchNamed(Next(s, Collect(events)))
  {
  }

  lemma BatchShrinks(s: State, a: Action)
    requires Enabled(s, a) && !a.Collect?
    ensures Next(s, a).batch == s.batch || (s.batch != [] && Next(s, a).batch == s.batch[1..])
  {
  }

  lemma FdsKeepNames(s: State, a: Action)
    requires Enabled(s, a) && (a.Open? ==> a.inc !in s.fds.fdOf)
    ensures forall i :: i in s.fds.fdOf ==> i in Next(s, a).fds.fdOf && Next(s, a).fds.fdOf[i] == s.fds.fdOf[i]
  {
    if !a.RunTask? && !a.Open? {
      OthersKeepFds(s, a);
    }
  }

  lemma StepKeepsNames(s: State, a: Action)
    requires Inv(s) && BatchNamed(s) && Enabled(s, a)
    ensures BatchNamed(Next(s, a))
  {
    if a.Collect? {
      CollectKeepsNames(s, a.events);
    } else {
      BatchShrinks(s, a);
      FdsKeepNames(s, a);
      NamesStay(s, Next(s, a));
    }
  }

  lemma NamesStay(s: State, t: State)
    requires BatchNamed(s) && (t.batch == s.batch || (s.batch != [] && t.batch == s.batch[1..]))
    requires forall i :: i in s.fds.fdOf ==> i in t.fds.fdOf && t.fds.fdOf[i] == s.fds.fdOf[i]
    ensures BatchNamed(t)
  {
    forall e | e in t.batch && e.FdEvent?
      ensures e.inc in t.fds.fdOf && t.fds.fdOf[e.inc] == e.fd
    {
      assert e in s.batch;
    }
  }

  lemma {:induction false} RunKeepsNames(s: State, acts: seq<Action>, t: State)
    requires Inv(s) && BatchNamed(s) && Run(s, acts, t)
    ensures BatchNamed(t)
    decreases |acts|
  {
    if acts != [] {
      NextKeepsInv(s, acts[0]);
      StepKeepsNames(s, acts[0]);
      RunKeepsNames(Next(s, acts[0]), acts[1..], t);
    }
  }

  /**
   * A dispatched event calls back exactly when its channel has a callback: its last enable task with one
   * has run, and neither a disable task nor its end since. It is one call, of that channel's callback.
   */
  lemma DispatchCallsBack(acts: seq<Action>, t: State)
    requires Run(INIT, acts, t) && Enabled(t, Dispatch)
    ensures Next(t, Dispatch).fired ==
            t.fired + if Asked(Deeds(INIT, acts), t.batch[0].inc).cb then [Firing(t.batch[0], t.batch[0].inc)] else []
  {
    NamedAndSound(acts, t);
    ChannelsAreServed(acts, t);
    CallbackIsAsked(t, Deeds(INIT, acts));
    DispatchFires(t, Asked(Deeds(INIT, acts), t.batch[0].inc).cb);
  }

  lemma DispatchFires(t: State, asked: bool)
    requires Enabled(t, Dispatch) && t.batch[0].fd < |t.fds.table.events|
    requires t.fds.table.events[t.batch[0].fd].cb == if asked then Some(t.batch[0].inc) else None
    ensures Next(t, Dispatch).fired == t.fired + if asked then [Firing(t.batch[0], t.batch[0].inc)] else []
  {
    assert t.fired + [] == t.fired;
  }

  lemma NamedAndSound(acts: seq<Action>, t: State)
    requires Run(INIT, acts, t)
    ensures Inv(t) && BatchNamed(t)
  {
    InitIsSound();
    RunKeepsInv(INIT, acts, t);
    RunKeepsNames(INIT, acts, t);
  }

  lemma CallbackIsAsked(t: State, done: seq<Deed>)
    requires Inv(t) && BatchNamed(t) && RequestsServed(t.fds, done) && t.batch != [] && t.batch[0].FdEvent?
    ensures var e := t.batch[0];
            && e.fd < |t.fds.table.events|
            && t.fds.table.events[e.fd].cb == if Asked(done, e.inc).cb then Some(e.inc) else None
  {
    var e := t.batch[0];
    assert EventSafe(t, e);
    assert EventFollowsLives(t.fds, e.fd);
    var cb := t.fds.table.events[e.fd].cb;
    if cb.Some? {
      assert t.fds.open[e.fd] == e.inc;
    } else if Asked(done, e.inc).cb {
      assert e.inc in t.fds.lives && t.fds.lives[e.inc] == Registered;
    }
  }
}
