/** What every run of the io loop guarantees. */
module LoopTheorems {
  import opened EventTables
  import opened FdLives
  import opened LoopProtocol

  lemma ReachableInv(acts: seq<Action>, t: State)
    requires Run(INIT, acts, t)
    ensures Inv(t)
  {
    RunKeepsInv(INIT, acts, t);
  }

  lemma {:induction false} RunAppend(s: State, a: seq<Action>, m: State, b: seq<Action>, t: State)
    requires Run(s, a, m) && Run(m, b, t)
    ensures Run(s, a + b, t)
    decreases |a|
  {
    if a == [] {
      assert a + b == b;
    } else {
      assert (a + b)[1..] == a[1..] + b;
      RunAppend(Next(s, a[0]), a[1..], m, b, t);
    }
  }

  lemma RunStep(s: State, acts: seq<Action>, t: State, a: Action)
    requires Run(s, acts, t) && Enabled(t, a)
    ensures Run(s, acts + [a], Next(t, a))
  {
    assert Run(Next(t, a), [a][1..], Next(t, a));
    RunAppend(s, acts, t, [a], Next(t, a));
  }

  // ---------------------------------------------------------------- fd reuse

  /**
   * However posts, closes and reuse of fd numbers interleave with a batch, no table index is out of
   * range and an event collected for one incarnation of an fd only ever runs that incarnation's callback.
   */
  lemma EventsReachTheirOwnChannel(acts: seq<Action>, t: State)
    requires Run(INIT, acts, t)
    ensures !t.crashed
    ensures forall f :: f in t.fired ==> f.event.FdEvent? && f.event.inc == f.owner
    ensures t.batch != [] && t.batch[0].FdEvent? ==>
              CallbackIs(t.fds, t.batch[0].fd, t.batch[0].inc)
    ensures t.pc == RunningTasks && t.next < |t.queue| ==> InRange(t.fds, t.queue[t.next])
  {
    ReachableInv(acts, t);
    if t.batch != [] && t.batch[0].FdEvent? {
      assert EventSafe(t, t.batch[0]);
    }
    if t.pc == RunningTasks && t.next < |t.queue| {
      RunTaskIsLegal(t);
      ExecuteKeepsConsistent(t.fds, t.queue[t.next], NoFault);
    }
  }

  ghost predicate RegisterRan(ran: seq<Task>, i: Incarnation) {
    exists k :: 0 <= k < |ran| && ran[k].Register? && ran[k].inc == i
  }

  ghost predicate LivesFollowRan(s: State) {
    forall i :: RegisterRan(s.ran, i) <==> i in s.fds.lives && s.fds.lives[i] != Opened
  }

  lemma RegisterRanAppend(ran: seq<Task>, task: Task, i: Incarnation)
    ensures RegisterRan(ran + [task], i) <==> RegisterRan(ran, i) || (task.Register? && task.inc == i)
  {
    assert (ran + [task])[|ran|] == task;
    if RegisterRan(ran, i) {
      var k :| 0 <= k < |ran| && ran[k].Register? && ran[k].inc == i;
      assert (ran + [task])[k] == ran[k];
    }
  }

  lemma RunTaskKeepsLivesFollowRan(s: State, fault: Fault)
    requires LivesFollowRan(s) && s.next < |s.queue|
    requires Legal(s.queue[s.next], s.fds.lives, s.fds.fdOf) && InRange(s.fds, s.queue[s.next])
    ensures LivesFollowRan(RunOne(s, fault))
  {
    var task := s.queue[s.next];
    var t := RunOne(s, fault);
    forall i
      ensures RegisterRan(t.ran, i) <==> i in t.fds.lives && t.fds.lives[i] != Opened
    {
      RegisterRanAppend(s.ran, task, i);
    }
  }

  lemma NextKeepsLivesFollowRan(s: State, a: Action)
    requires Inv(s) && LivesFollowRan(s) && Enabled(s, a)
    ensures LivesFollowRan(Next(s, a))
  {
    if a.RunTask? {
      RunTaskIsLegal(s);
      ExecuteKeepsConsistent(s.fds, s.queue[s.next], a.fault);
      RunTaskKeepsLivesFollowRan(s, a.fault);
    } else {
      OthersKeepRan(s, a);
      var t := Next(s, a);
      forall i
        ensures RegisterRan(t.ran, i) <==> i in t.fds.lives && t.fds.lives[i] != Opened
      {
        assert RegisterRan(t.ran, i) <==> RegisterRan(s.ran, i);
      }
    }
  }

  lemma OthersKeepRan(s: State, a: Action)
    requires Enabled(s, a) && !a.RunTask?
    ensures Next(s, a).ran == s.ran
    ensures Next(s, a).fds.lives == if a.Open? then s.fds.lives[a.inc := Opened] else s.fds.lives
  {
  }

  lemma {:induction false} RunKeepsLivesFollowRan(s: State, acts: seq<Action>, t: State)
    requires Inv(s) && LivesFollowRan(s) && Run(s, acts, t)
    ensures LivesFollowRan(t)
    decreases |acts|
  {
    if acts != [] {
      NextKeepsInv(s, acts[0]);
      NextKeepsLivesFollowRan(s, acts[0]);
      RunKeepsLivesFollowRan(Next(s, acts[0]), acts[1..], t);
    }
  }

  /**
   * No fd is ever closed twice, and once the loop is destroyed an fd has been closed exactly when
   * its register task ran: one still waiting in the queue stays open.
   */
  lemma ClosedExactlyOnce(acts: seq<Action>, t: State)
    requires Run(INIT, acts, t)
    ensures Distinct(t.closes)
    ensures t.destroyed ==> forall i :: i in t.closes <==> RegisterRan(t.ran, i)
    ensures !t.destroyed ==>
              forall i :: i in t.closes ==> RegisterRan(t.ran, i) && forall f :: f in t.fds.open ==> t.fds.open[f] != i
  {
    assert Inv(t) && LivesFollowRan(t) by {
      ReachableInv(acts, t);
      RunKeepsLivesFollowRan(INIT, acts, t);
    }
    ClosedAreRegistered(t);
  }

  lemma ClosedAreRegistered(t: State)
    requires ClosesFollowLives(t) && Consistent(t.fds) && LivesFollowRan(t)
    ensures t.destroyed ==> forall i :: i in t.closes <==> RegisterRan(t.ran, i)
    ensures !t.destroyed ==>
              forall i :: i in t.closes ==> RegisterRan(t.ran, i) && forall f :: f in t.fds.open ==> t.fds.open[f] != i
  {
  }

  /** A channel constructed while the loop is stopped: destruction leaves its fd open, since the register task never ran. */
  lemma DestructionCanLeak() returns (acts: seq<Action>, t: State)
    ensures Run(INIT, acts, t) && t.destroyed
    ensures 7 in t.fds.open && t.fds.open[7] == 0 && 0 !in t.closes && !RegisterRan(t.ran, 0)
  {
    acts, t := [], INIT;
    RunStep(INIT, acts, t, Open(7, 0));
    acts, t := acts + [Open(7, 0)], Next(t, Open(7, 0));
    RunStep(INIT, acts, t, Push(Register(7, 0)));
    acts, t := acts + [Push(Register(7, 0))], Next(t, Push(Register(7, 0)));
    RunStep(INIT, acts, t, Destroy);
    acts, t := acts + [Destroy], Next(t, Destroy);
    ClosedExactlyOnce(acts, t);
  }

  // ---------------------------------------------------------------- the queue

  /** The tasks pushed in a run, in the order of the pushes. */
  function PushedIn(acts: seq<Action>): seq<Task> {
    if acts == [] then []
    else (if acts[0].Push? then [acts[0].task] else []) + PushedIn(acts[1..])
  }

  lemma NextPosts(s: State, a: Action)
    requires Enabled(s, a)
    ensures Next(s, a).posted == s.posted + if a.Push? then [a.task] else []
  {
  }

  lemma {:induction false} PostedArePushed(s: State, acts: seq<Action>, t: State)
    requires Run(s, acts, t)
    ensures t.posted == s.posted + PushedIn(acts)
    decreases |acts|
  {
    if acts != [] {
      var u := Next(s, acts[0]);
      var first := if acts[0].Push? then [acts[0].task] else [];
      assert u.posted == s.posted + first by {
        NextPosts(s, acts[0]);
      }
      PostedArePushed(u, acts[1..], t);
      assert (s.posted + first) + PushedIn(acts[1..]) == s.posted + (first + PushedIn(acts[1..]));
    }
  }

  /** Across any number of stop and start cycles tasks run once each, in the order they were pushed. */
  lemma TasksRunOnceInOrder(acts: seq<Action>, t: State)
    requires Run(INIT, acts, t)
    ensures t.next <= |t.queue| && t.ran + Pending(t) == PushedIn(acts)
  {
    ReachableInv(acts, t);
    PostedArePushed(INIT, acts, t);
  }

  /**
   * While a task is in the buffer queue a thread is about to write the eventfd, or the eventfd is
   * ready with its edge pending, or the executor has taken the wake event and not yet swapped. So an
   * executor that waits with no write outstanding can always be woken.
   */
  lemma NoLostWakeup(acts: seq<Action>, t: State)
    requires Run(INIT, acts, t)
    ensures t.buffer != [] ==>
              t.kicks > 0 || (t.edge && t.counter > 0) || Wake in t.batch || t.pc == Draining || t.pc == Drained
    ensures t.buffer != [] && t.pc == Waiting && t.kicks == 0 && !t.destroyed ==> Enabled(t, Collect([Wake]))
  {
    ReachableInv(acts, t);
    if t.buffer != [] && t.pc == Waiting && t.kicks == 0 && !t.destroyed {
      assert Distinct([Wake]);
    }
  }

  // ---------------------------------------------------------------- progress

  /** `t` is reached from `s` without any new task, destruction or interrupted wait, and both satisfy the invariant. */
  ghost predicate Leads(s: State, acts: seq<Action>, t: State) {
    && (Run(s, acts, t) == true) && (Inv(s) == true) && (Inv(t) == true)
    && t.posted == s.posted && t.destroyed == s.destroyed
    && forall k :: 0 <= k < |acts| ==> !acts[k].Interrupted?
  }

  lemma LeadsOne(s: State, a: Action)
    requires Inv(s) && Enabled(s, a) && !a.Push? && !a.Destroy? && !a.Interrupted?
    ensures Leads(s, [a], Next(s, a))
  {
    NextKeepsInv(s, a);
    QuietStepKeepsPosts(s, a);
    RunStep(s, [], s, a);
    assert [] + [a] == [a];
  }

  lemma QuietStepKeepsPosts(s: State, a: Action)
    requires Enabled(s, a) && !a.Push? && !a.Destroy?
    ensures Next(s, a).posted == s.posted && Next(s, a).destroyed == s.destroyed
  {
  }

  lemma LeadsThen(s: State, a: seq<Action>, m: State, b: seq<Action>, t: State)
    requires Leads(s, a, m) && Leads(m, b, t)
    ensures Leads(s, a + b, t)
  {
    RunAppend(s, a, m, b, t);
  }

  lemma LeadsStep(s: State, acts: seq<Action>, t: State, a: Action)
    requires Leads(s, acts, t) && Enabled(t, a) && !a.Push? && !a.Destroy? && !a.Interrupted?
    ensures Leads(s, acts + [a], Next(t, a))
  {
    LeadsOne(t, a);
    LeadsThen(s, acts, t, [a], Next(t, a));
  }

  /** The outstanding eventfd writes happen. */
  lemma {:induction false} KicksLand(s: State) returns (acts: seq<Action>, t: State)
    requires Inv(s) && !s.destroyed
    ensures Leads(s, acts, t) && t.kicks == 0
    ensures t.pc == s.pc && t.exe == s.exe && t.batch == s.batch && t.buffer == s.buffer
    decreases s.kicks
  {
    if s.kicks == 0 {
      acts, t := [], s;
    } else {
      LeadsOne(s, Kick);
      var more, u := KicksLand(Next(s, Kick));
      LeadsThen(s, [Kick], Next(s, Kick), more, u);
      acts, t := [Kick] + more, u;
    }
  }

  /** The swapped tasks run to the end and the queue is cleared. */
  lemma {:induction false} QueueFinishes(s: State) returns (acts: seq<Action>, t: State)
    requires Inv(s) && !s.destroyed && s.pc == RunningTasks
    ensures Leads(s, acts, t) && t.pc == InBatch && t.queue == [] && t.buffer == s.buffer && t.batch == s.batch
    ensures t.kicks == s.kicks && t.exe == s.exe
    decreases |s.queue| - s.next
  {
    var a := if s.next < |s.queue| then RunTask(NoFault) else ClearQueue;
    LeadsOne(s, a);
    var u := Next(s, a);
    if a.ClearQueue? {
      acts, t := [a], u;
    } else {
      var more, v := QueueFinishes(u);
      LeadsThen(s, [a], u, more, v);
      acts, t := [a] + more, v;
    }
  }

  /** From the wake event on: drain, swap, run. */
  lemma WakeFinishes(s: State) returns (acts: seq<Action>, t: State)
    requires Inv(s) && !s.destroyed && (s.pc == Draining || s.pc == Drained)
    ensures Leads(s, acts, t) && t.pc == InBatch && t.buffer == [] && t.queue == [] && t.batch == s.batch
    ensures t.kicks == s.kicks && t.exe == s.exe
  {
    var a1, u1 := [], s;
    if u1.pc == Draining && u1.counter > 0 {
      LeadsOne(u1, ReadCounter);
      a1, u1 := [ReadCounter], Next(u1, ReadCounter);
    }
    if u1.pc == Draining {
      LeadsOne(u1, ReadEmpty);
      LeadsThen(s, a1, u1, [ReadEmpty], Next(u1, ReadEmpty));
      a1, u1 := a1 + [ReadEmpty], Next(u1, ReadEmpty);
    }
    LeadsOne(u1, Swap);
    var u2 := Next(u1, Swap);
    LeadsThen(s, a1, u1, [Swap], u2);
    var a3, u3 := QueueFinishes(u2);
    LeadsThen(s, a1 + [Swap], u2, a3, u3);
    acts, t := a1 + [Swap] + a3, u3;
  }

  /** The rest of a batch is served; if the wake event was in it the buffer queue is emptied. */
  lemma {:induction false} BatchFinishes(s: State) returns (acts: seq<Action>, t: State)
    requires Inv(s) && !s.destroyed && s.pc == InBatch
    ensures Leads(s, acts, t) && t.pc == Head && t.queue == [] && t.exe == s.exe && t.kicks == s.kicks
    ensures t.buffer == if Wake in s.batch then [] else s.buffer
    decreases |s.batch|
  {
    if s.batch == [] {
      LeadsOne(s, EndBatch);
      acts, t := [EndBatch], Next(s, EndBatch);
    } else if s.batch[0] == Wake {
      LeadsOne(s, TakeWake);
      var u1 := Next(s, TakeWake);
      var a2, u2 := WakeFinishes(u1);
      LeadsThen(s, [TakeWake], u1, a2, u2);
      var a3, u3 := BatchFinishes(u2);
      LeadsThen(s, [TakeWake] + a2, u2, a3, u3);
      acts, t := [TakeWake] + a2 + a3, u3;
    } else {
      LeadsOne(s, Dispatch);
      assert EventSafe(s, s.batch[0]);
      var u1 := Next(s, Dispatch);
      var a2, u2 := BatchFinishes(u1);
      LeadsThen(s, [Dispatch], u1, a2, u2);
      acts, t := [Dispatch] + a2, u2;
    }
  }

  /** Unless the executor waits, it gets back to the top of its loop or has exited. */
  lemma ExecutorComesBack(s: State) returns (acts: seq<Action>, t: State)
    requires Inv(s) && !s.destroyed && s.pc != Waiting
    ensures Leads(s, acts, t) && (t.pc == Head || t.pc == Exited) && t.exe == s.exe && t.kicks == s.kicks
  {
    if s.pc == Head || s.pc == Exited {
      acts, t := [], s;
    } else {
      var a1, u1 := [], s;
      if s.pc == RunningTasks {
        a1, u1 := QueueFinishes(s);
      } else if s.pc != InBatch {
        a1, u1 := WakeFinishes(s);
      }
      var a2, u2 := BatchFinishes(u1);
      LeadsThen(s, a1, u1, a2, u2);
      acts, t := a1 + a2, u2;
    }
  }

  /** A loop that was stopped or is stopping can be running again, at the top of the executor. */
  lemma ExecutorCanRun(s: State) returns (acts: seq<Action>, t: State)
    requires Inv(s) && !s.destroyed && (s.pc == Head || s.pc == Exited) && (s.exe == Running ==> s.pc == Head)
    ensures Leads(s, acts, t) && t.pc == Head && t.exe == Running && t.kicks == s.kicks
  {
    var a1, u1 := [], s;
    if u1.exe != Running && u1.pc == Head {
      LeadsOne(u1, CheckState);
      a1, u1 := [CheckState], Next(u1, CheckState);
    }
    if u1.exe == Stopping {
      LeadsOne(u1, Join);
      LeadsThen(s, a1, u1, [Join], Next(u1, Join));
      a1, u1 := a1 + [Join], Next(u1, Join);
    }
    if u1.exe == Stopped {
      LeadsOne(u1, Start);
      LeadsThen(s, a1, u1, [Start], Next(u1, Start));
      a1, u1 := a1 + [Start], Next(u1, Start);
    }
    acts, t := a1, u1;
  }

  /** A running executor has a thread. */
  ghost predicate RunningHasThread(s: State) {
    (s.exe == Running ==> s.pc != Exited) && (s.exe == Stopped ==> s.pc == Exited)
  }

  lemma {:induction false} RunKeepsThread(s: State, acts: seq<Action>, t: State)
    requires RunningHasThread(s) && Run(s, acts, t)
    ensures RunningHasThread(t)
    decreases |acts|
  {
    if acts != [] {
      RunKeepsThread(Next(s, acts[0]), acts[1..], t);
    }
  }

  /** A waiting executor that the eventfd can wake serves the wake event and returns to the top of its loop. */
  lemma WaitEnds(s: State) returns (acts: seq<Action>, t: State)
    requires Inv(s) && !s.destroyed && s.pc == Waiting && s.counter > 0 && s.edge
    ensures Leads(s, acts, t) && t.pc == Head && t.exe == s.exe && t.buffer == [] && t.queue == []
  {
    assert Distinct([Wake]);
    LeadsOne(s, Collect([Wake]));
    var u := Next(s, Collect([Wake]));
    var more, v := BatchFinishes(u);
    LeadsThen(s, [Collect([Wake])], u, more, v);
    acts, t := [Collect([Wake])] + more, v;
  }

  /** A waiting executor with something buffered is woken once the outstanding writes have happened. */
  lemma BufferWakes(s: State) returns (acts: seq<Action>, t: State)
    requires Inv(s) && !s.destroyed && s.pc == Waiting && s.buffer != []
    ensures Leads(s, acts, t) && t.pc == Head && t.buffer == [] && t.queue == []
  {
    var a1, u1 := KicksLand(s);
    var a2, u2 := WaitEnds(u1);
    LeadsThen(s, a1, u1, a2, u2);
    acts, t := a1 + a2, u2;
  }

  /** At the top of the loop one more iteration empties a non-empty buffer. */
  lemma BufferEmpties(s: State) returns (acts: seq<Action>, t: State)
    requires Inv(s) && !s.destroyed && s.pc == Head && s.exe == Running && s.buffer != []
    ensures Leads(s, acts, t) && t.pc == Head && t.buffer == [] && t.queue == []
  {
    LeadsOne(s, CheckState);
    var u1 := Next(s, CheckState);
    var a2, u2 := BufferWakes(u1);
    LeadsThen(s, [CheckState], u1, a2, u2);
    acts, t := [CheckState] + a2, u2;
  }

  /** An executor that is not waiting comes back, runs again if it was stopped, and empties the buffer. */
  lemma BusyFinishes(s: State) returns (acts: seq<Action>, t: State)
    requires Inv(s) && RunningHasThread(s) && !s.destroyed && s.pc != Waiting
    ensures Leads(s, acts, t) && t.buffer == [] && t.queue == [] && t.pc == Head
  {
    var a1, u1 := ExecutorComesBack(s);
    RunKeepsThread(s, a1, u1);
    var a2, u2 := ExecutorCanRun(u1);
    LeadsThen(s, a1, u1, a2, u2);
    acts, t := a1 + a2, u2;
    if u2.buffer != [] {
      var a3, u3 := BufferEmpties(u2);
      LeadsThen(s, acts, u2, a3, u3);
      acts, t := acts + a3, u3;
    }
  }

  /**
   * Nothing posted is ever stuck: from every reachable state before destruction there is a
   * continuation, with no further post and no interrupted wait, in which every task posted so far has run.
   */
  lemma EveryPostedTaskCanRun(acts: seq<Action>, s: State) returns (more: seq<Action>, t: State)
    requires Run(INIT, acts, s) && !s.destroyed
    ensures Run(s, more, t) && PushedIn(more) == [] && t.ran == PushedIn(acts)
    ensures (forall k :: 0 <= k < |more| ==> !more[k].Interrupted?) && t.pc != Exited && !t.destroyed
  {
    ReachableInv(acts, s);
    RunKeepsThread(INIT, acts, s);
    if s.pc != Waiting {
      more, t := BusyFinishes(s);
    } else if s.buffer != [] {
      more, t := BufferWakes(s);
    } else {
      more, t := [], s;
    }
    AllHaveRun(acts, s, more, t);
  }

  lemma AllHaveRun(acts: seq<Action>, s: State, more: seq<Action>, t: State)
    requires Run(INIT, acts, s) && Leads(s, more, t) && t.queue == [] && t.buffer == []
    ensures PushedIn(more) == [] && t.ran == PushedIn(acts)
  {
    PostedArePushed(INIT, acts, s);
    LeadsPushesNothing(s, more, t);
    assert t.ran + [] == t.ran;
  }

  // ---------------------------------------------------------------- stop

  /** An executor that waits although the loop is stopping has its wake-up on the way. */
  ghost predicate StopWakes(s: State) {
    s.exe == Stopping && s.pc == Waiting ==> s.kicks > 0 || (s.counter > 0 && s.edge)
  }

  lemma NextKeepsStopWakes(s: State, a: Action)
    requires WakeComing(s) && BatchSafe(s) && StopWakes(s) && Enabled(s, a)
    ensures StopWakes(Next(s, a))
  {
  }

  lemma {:induction false} RunKeepsStopWakes(s: State, acts: seq<Action>, t: State)
    requires Inv(s) && StopWakes(s) && Run(s, acts, t)
    ensures StopWakes(t)
    decreases |acts|
  {
    if acts != [] {
      NextKeepsInv(s, acts[0]);
      NextKeepsStopWakes(s, acts[0]);
      RunKeepsStopWakes(Next(s, acts[0]), acts[1..], t);
    }
  }

  /** Unlike the heavy thread's notify, the eventfd write of stop() is never lost. */
  lemma StopIsNeverLost(acts: seq<Action>, t: State)
    requires Run(INIT, acts, t) && t.exe == Stopping && t.pc == Waiting
    ensures t.kicks > 0 || (t.counter > 0 && t.edge)
    ensures t.kicks == 0 && !t.destroyed ==> Enabled(t, Collect([Wake]))
  {
    ReachableInv(acts, t);
    RunKeepsStopWakes(INIT, acts, t);
    StoppingCanWake(t);
  }

  lemma StoppingCanWake(t: State)
    requires Inv(t) && StopWakes(t) && t.exe == Stopping && t.pc == Waiting
    ensures t.kicks == 0 && !t.destroyed ==> Enabled(t, Collect([Wake]))
  {
    assert Distinct([Wake]);
  }

  /** A stopping loop's executor comes to the top of its loop or has exited. */
  lemma StoppingComesBack(s: State) returns (acts: seq<Action>, t: State)
    requires Inv(s) && StopWakes(s) && s.exe == Stopping && !s.destroyed
    ensures Leads(s, acts, t) && (t.pc == Head || t.pc == Exited) && t.exe == Stopping
  {
    if s.pc == Waiting {
      var a1, u1 := KicksLand(s);
      RunKeepsStopWakes(s, a1, u1);
      var a2, u2 := WaitEnds(u1);
      LeadsThen(s, a1, u1, a2, u2);
      acts, t := a1 + a2, u2;
    } else {
      acts, t := ExecutorComesBack(s);
    }
  }

  /** There the executor sees the state and exits. */
  lemma StoppingExits(s: State) returns (acts: seq<Action>, t: State)
    requires Inv(s) && StopWakes(s) && s.exe == Stopping && !s.destroyed
    ensures Leads(s, acts, t) && t.pc == Exited && t.exe == Stopping
  {
    acts, t := StoppingComesBack(s);
    if t.pc == Head {
      LeadsStep(s, acts, t, CheckState);
      acts, t := acts + [CheckState], Next(t, CheckState);
    }
  }

  lemma LeadsPushesNothing(s: State, acts: seq<Action>, t: State)
    requires Leads(s, acts, t)
    ensures PushedIn(acts) == []
  {
    PostedArePushed(s, acts, t);
    assert |PushedIn(acts)| == 0;
  }

  /** So the io thread of a stopping loop can always exit and be joined, without a post and without an interrupted wait. */
  lemma StopCanFinish(acts: seq<Action>, s: State) returns (more: seq<Action>, t: State)
    requires Run(INIT, acts, s) && s.exe == Stopping && !s.destroyed
    ensures Run(s, more, t) && PushedIn(more) == [] && Enabled(t, Join)
    ensures forall k :: 0 <= k < |more| ==> !more[k].Interrupted?
  {
    ReachableInv(acts, s);
    RunKeepsStopWakes(INIT, acts, s);
    more, t := StoppingExits(s);
    LeadsPushesNothing(s, more, t);
  }

  // ---------------------------------------------------------------- disable

  ghost predicate Quiet(s: State, fd: Fd) {
    fd >= |s.fds.table.events| || s.fds.table.events[fd].cb.None?
  }

  /** The step runs an enable task that installs a callback on `fd`. */
  ghost predicate InstallsCallback(s: State, a: Action, fd: Fd) {
    a.RunTask? && s.next < |s.queue| && var t := s.queue[s.next]; t.Enable? && t.fd == fd && t.withCb
  }

  ghost predicate NoInstall(s: State, acts: seq<Action>, fd: Fd)
    decreases |acts|
  {
    acts == [] || (Enabled(s, acts[0]) ==> !InstallsCallback(s, acts[0], fd) && NoInstall(Next(s, acts[0]), acts[1..], fd))
  }

  /** The callbacks run for events of `fd`. */
  function FiringsOf(fired: seq<Firing>, fd: Fd): seq<Firing> {
    if fired == [] then []
    else
      var last := fired[|fired| - 1];
      FiringsOf(fired[..|fired| - 1], fd) + if last.event.FdEvent? && last.event.fd == fd then [last] else []
  }

  lemma QuietStep(s: State, a: Action, fd: Fd)
    requires Enabled(s, a) && Quiet(s, fd) && !InstallsCallback(s, a, fd)
    ensures Quiet(Next(s, a), fd) && FiringsOf(Next(s, a).fired, fd) == FiringsOf(s.fired, fd)
  {
    var t := Next(s, a);
    if a.RunTask? {
      var task := s.queue[s.next];
      if task.Register? {
        RegisterReachesFd(s.fds.table, task.fd);
      }
    } else if a.Dispatch? && t.fired != s.fired {
      assert t.fired[..|s.fired|] == s.fired;
    }
  }

  lemma {:induction false} QuietRun(s: State, acts: seq<Action>, t: State, fd: Fd)
    requires Quiet(s, fd) && Run(s, acts, t) && NoInstall(s, acts, fd)
    ensures FiringsOf(t.fired, fd) == FiringsOf(s.fired, fd)
    decreases |acts|
  {
    if acts != [] {
      QuietStep(s, acts[0], fd);
      QuietRun(Next(s, acts[0]), acts[1..], t, fd);
    }
  }

  /**
   * A disable or unregister task that meets no epoll error silences its fd: whatever runs next, no
   * callback is called for the fd until an enable task with a callback has run.
   */
  lemma DisableSilences(before: seq<Action>, s: State, acts: seq<Action>, t: State)
    requires Run(INIT, before, s) && Enabled(s, RunTask(NoFault))
    requires s.queue[s.next].Disable? || s.queue[s.next].Unregister?
    requires var u := Next(s, RunTask(NoFault)); Run(u, acts, t) && NoInstall(u, acts, s.queue[s.next].fd)
    ensures var fd := s.queue[s.next].fd; FiringsOf(t.fired, fd) == FiringsOf(s.fired, fd)
  {
    ReachableInv(before, s);
    DisableQuiets(s);
    QuietRun(Next(s, RunTask(NoFault)), acts, t, s.queue[s.next].fd);
  }

  lemma DisableQuiets(s: State)
    requires Inv(s) && Enabled(s, RunTask(NoFault))
    requires s.queue[s.next].Disable? || s.queue[s.next].Unregister?
    ensures var u := Next(s, RunTask(NoFault)); Quiet(u, s.queue[s.next].fd) && u.fired == s.fired
  {
    RunTaskIsLegal(s);
    LegalTaskIsInRange(s.fds, s.queue[s.next]);
  }
}
