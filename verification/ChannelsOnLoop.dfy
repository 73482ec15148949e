/**
 * The loop with its channels: every task for an fd is posted by a LoopChannel, and everything else
 * the posters and the executor do is the loop protocol. No legality of posts is assumed here; that
 * the channels provide it makes the theorems of the loop hold for every such program.
 */
module ChannelsOnLoop {
  import opened EventTables
  import opened FdLives
  import C = LoopChannels
  import L = LoopProtocol
  import LC = LoopCallbacks
  import LT = LoopTheorems

  datatype State = State(channels: C.State, loop: L.State)

  function Init(): State {
    State(C.INIT, L.INIT)
  }

  datatype Action =
    | Open(fd: Fd, inc: Incarnation)   // the kernel hands out an fd
    | Channel(use: C.Action)           // a use of a channel, with the push it leads to
    | PushUser(id: nat)                // any other post
    | Io(io: L.Action)                 // the writes of the posters, the executor, stop, start and destruction

  /** Channels and posters stay within the life of the loop; the kernel hands out only numbers that are not open. */
  predicate Enabled(s: State, a: Action) {
    match a
    case Open(fd, inc) => L.Enabled(s.loop, L.Open(fd, inc)) && C.Enabled(s.channels, C.Open(fd, inc))
    case Channel(use) => !use.Open? && C.Enabled(s.channels, use) && !s.loop.destroyed
    case PushUser(_) => !s.loop.destroyed
    case Io(io) => !io.Open? && !io.Push? && L.Enabled(s.loop, io)
  }

  function Next(s: State, a: Action): State
    requires Enabled(s, a)
  {
    match a
    case Open(fd, inc) => State(C.Next(s.channels, C.Open(fd, inc)), L.Next(s.loop, L.Open(fd, inc)))
    case Channel(use) =>
      var posts := C.Posts(s.channels, use);
      State(C.Next(s.channels, use), if posts == [] then s.loop else L.Pushed(s.loop, posts[0]))
    case PushUser(id) => s.(loop := L.Pushed(s.loop, User(id)))
    case Io(io) => s.(loop := L.Next(s.loop, io))
  }

  predicate Run(s: State, acts: seq<Action>, t: State)
    decreases |acts|
  {
    if acts == [] then s == t
    else Enabled(s, acts[0]) && Run(Next(s, acts[0]), acts[1..], t)
  }

  // ---------------------------------------------------------------- composition

  /** Channels and loop agree on the stage every incarnation has posted. */
  ghost predicate Related(s: State) {
    s.channels.lives == s.loop.chans && s.channels.fdOf == s.loop.fds.fdOf
  }

  ghost predicate Inv(s: State) {
    (L.Inv(s.loop) == true) && (C.Owned(s.channels) == true) && Related(s)
  }

  /** What the step is in the loop protocol. */
  function LoopSteps(s: State, a: Action): seq<L.Action>
    requires Enabled(s, a)
  {
    match a
    case Open(fd, inc) => [L.Open(fd, inc)]
    case Channel(use) =>
      var posts := C.Posts(s.channels, use);
      if posts == [] then [] else [L.Push(posts[0])]
    case PushUser(id) => [L.Push(User(id))]
    case Io(io) => [io]
  }

  /** Every post of a channel is one the loop accepts, and keeps the two in agreement. */
  lemma PostIsAccepted(s: State, use: C.Action)
    requires Inv(s) && Enabled(s, Channel(use))
    ensures var posts := C.Posts(s.channels, use); posts != [] ==> L.Enabled(s.loop, L.Push(posts[0]))
    ensures Related(Next(s, Channel(use)))
  {
  }

  /** Steps of the loop other than posts and opens change nothing the channels know. */
  lemma IoKeepsRelated(s: L.State, io: L.Action)
    requires L.Enabled(s, io) && !io.Open? && !io.Push?
    ensures L.Next(s, io).chans == s.chans && L.Next(s, io).fds.fdOf == s.fds.fdOf
  {
  }

  lemma NextIsLoopStep(s: State, a: Action)
    requires Inv(s) && Enabled(s, a)
    ensures L.Run(s.loop, LoopSteps(s, a), Next(s, a).loop) && Related(Next(s, a))
  {
    var steps, u := LoopSteps(s, a), Next(s, a).loop;
    match a
    case Channel(use) => PostIsAccepted(s, use);
    case Io(io) => IoKeepsRelated(s.loop, io);
    case Open(_, _) =>
    case PushUser(_) =>
    if steps != [] {
      assert L.Enabled(s.loop, steps[0]) && u == L.Next(s.loop, steps[0]);
      assert steps[1..] == [];
    }
  }

  lemma NextKeepsInv(s: State, a: Action)
    requires Inv(s) && Enabled(s, a)
    ensures Inv(Next(s, a))
  {
    NextIsLoopStep(s, a);
    L.RunKeepsInv(s.loop, LoopSteps(s, a), Next(s, a).loop);
    match a
    case Channel(use) => C.NextKeepsOwned(s.channels, use);
    case Open(fd, inc) => C.NextKeepsOwned(s.channels, C.Open(fd, inc));
    case PushUser(_) =>
    case Io(_) =>
  }

  /** A run of loop and channels is a run of the loop protocol. */
  lemma {:induction false} RunIsLoopRun(s: State, acts: seq<Action>, t: State) returns (ios: seq<L.Action>)
    requires Inv(s) && Run(s, acts, t)
    ensures Inv(t) && L.Run(s.loop, ios, t.loop)
    ensures NoTaskFails(acts) ==> Unfailed(ios)
    decreases |acts|
  {
    if acts == [] {
      ios := [];
    } else {
      var u := Next(s, acts[0]);
      NextIsLoopStep(s, acts[0]);
      NextKeepsInv(s, acts[0]);
      var more := RunIsLoopRun(u, acts[1..], t);
      LT.RunAppend(s.loop, LoopSteps(s, acts[0]), u.loop, more, t.loop);
      ios := LoopSteps(s, acts[0]) + more;
    }
  }

  lemma InitInv()
    ensures Inv(Init())
  {
    assert L.Run(L.INIT, [], L.INIT);
    LT.ReachableInv([], L.INIT);
  }

  /** However channels are used, no index is out of range and events reach the channel they were collected for. */
  lemma ChannelsKeepEventsApart(acts: seq<Action>, t: State)
    requires Run(Init(), acts, t)
    ensures !t.loop.crashed
    ensures forall f :: f in t.loop.fired ==> f.event.FdEvent? && f.event.inc == f.owner
  {
    InitInv();
    var ios := RunIsLoopRun(Init(), acts, t);
    LT.EventsReachTheirOwnChannel(ios, t.loop);
  }

  /** Each fd is closed at most once, and with no post outstanding the closed ones are exactly those no channel owns any more. */
  lemma UnownedFdsAreClosed(acts: seq<Action>, t: State, i: Incarnation)
    requires Run(Init(), acts, t)
    requires !t.loop.destroyed && t.loop.ran == t.loop.posted
    requires i in t.channels.lives && t.channels.lives[i] != Opened
    ensures Distinct(t.loop.closes)
    ensures i in t.loop.closes <==> !C.HasOwner(t.channels.channels, i)
  {
    InitInv();
    var ios := RunIsLoopRun(Init(), acts, t);
    assert t.loop.fds.lives == t.channels.lives by {
      assert |L.Pending(t.loop)| == 0;
    }
    OwnedIffRegistered(t.channels, i);
  }

  lemma OwnedIffRegistered(s: C.State, i: Incarnation)
    requires C.Owned(s) && i in s.lives && s.lives[i] != Opened
    ensures s.lives[i] == Closed <==> !C.HasOwner(s.channels, i)
  {
  }

  // ---------------------------------------------------------------- what the channels ask for is what they get

  /** The uses of channels in the steps, with the fds the kernel hands out. */
  function UsesOf(acts: seq<Action>): seq<C.Action> {
    if acts == [] then []
    else
      (match acts[0]
       case Open(fd, inc) => [C.Open(fd, inc)]
       case Channel(use) => [use]
       case PushUser(_) => []
       case Io(_) => []) + UsesOf(acts[1..])
  }

  lemma {:induction false} RunIsChannelRun(s: State, acts: seq<Action>, t: State)
    requires Run(s, acts, t)
    ensures C.Run(s.channels, UsesOf(acts), t.channels)
    decreases |acts|
  {
    if acts != [] {
      var u := Next(s, acts[0]);
      RunIsChannelRun(u, acts[1..], t);
      if acts[0].Open? || acts[0].Channel? {
        var use := if acts[0].Open? then C.Open(acts[0].fd, acts[0].inc) else acts[0].use;
        assert UsesOf(acts) == [use] + UsesOf(acts[1..]);
        assert u.channels == C.Next(s.channels, use);
      } else {
        assert UsesOf(acts) == UsesOf(acts[1..]);
      }
    }
  }

  /** The queue of the loop asks for what the channels have posted. */
  ghost predicate AsksAlike(s: State, i: Incarnation) {
    Asked(Smooth(s.loop.posted), i) == Asked(Smooth(s.channels.posted), i)
  }

  lemma PushAsksAlike(a: seq<Task>, b: seq<Task>, t: Task, i: Incarnation)
    requires Asked(Smooth(a), i) == Asked(Smooth(b), i)
    ensures Asked(Smooth(a + [t]), i) == Asked(Smooth(b + [t]), i)
    ensures t.User? ==> Asked(Smooth(a + [t]), i) == Asked(Smooth(b), i)
  {
    SmoothStep(a, t, i);
    SmoothStep(b, t, i);
    AskedStep(Smooth(a), Deed(t, NoFault), i);
    AskedStep(Smooth(b), Deed(t, NoFault), i);
  }

  lemma NextAsksAlike(s: State, a: Action, i: Incarnation)
    requires AsksAlike(s, i) && Enabled(s, a)
    ensures AsksAlike(Next(s, a), i)
  {
    match a
    case Channel(use) =>
      var posts := C.Posts(s.channels, use);
      if posts == [] {
        assert s.channels.posted + posts == s.channels.posted;
      } else {
        assert posts == [posts[0]];
        PushAsksAlike(s.loop.posted, s.channels.posted, posts[0], i);
      }
    case PushUser(id) => PushAsksAlike(s.loop.posted, s.channels.posted, User(id), i);
    case Open(fd, inc) => assert s.channels.posted + [] == s.channels.posted;
    case Io(io) => IoKeepsPosted(s.loop, io);
  }

  lemma IoKeepsPosted(s: L.State, io: L.Action)
    requires L.Enabled(s, io) && !io.Push?
    ensures L.Next(s, io).posted == s.posted
  {
  }

  lemma {:induction false} RunAsksAlike(s: State, acts: seq<Action>, t: State, i: Incarnation)
    requires AsksAlike(s, i) && Run(s, acts, t)
    ensures AsksAlike(t, i)
    decreases |acts|
  {
    if acts != [] {
      NextAsksAlike(s, acts[0], i);
      RunAsksAlike(Next(s, acts[0]), acts[1..], t, i);
    }
  }

  /** In no step of the loop does epoll refuse a task. */
  ghost predicate Unfailed(ios: seq<L.Action>) {
    forall k :: 0 <= k < |ios| && ios[k].RunTask? ==> ios[k].fault != FirstFails
  }

  /** The same of the steps of loop and channels. */
  ghost predicate NoTaskFails(acts: seq<Action>) {
    forall k :: 0 <= k < |acts| && acts[k].Io? && acts[k].io.RunTask? ==> acts[k].io.fault != FirstFails
  }

  lemma {:induction false} UnfailedDeeds(s: L.State, ios: seq<L.Action>)
    requires Unfailed(ios)
    ensures forall d :: d in LC.Deeds(s, ios) ==> d.fault != FirstFails
    decreases |ios|
  {
    if ios != [] && L.Enabled(s, ios[0]) {
      UnfailedDeeds(L.Next(s, ios[0]), ios[1..]);
    }
  }

  lemma AsksWhatIsPosted(ios: seq<L.Action>, t: L.State, i: Incarnation)
    requires L.Run(L.INIT, ios, t) && Unfailed(ios) && t.ran == t.posted
    ensures Asked(LC.Deeds(L.INIT, ios), i) == Asked(Smooth(t.posted), i)
  {
    LT.ReachableInv([], L.INIT);
    LC.DeedsAreTheTasksRun(L.INIT, ios, t);
    var done := LC.Deeds(L.INIT, ios);
    assert [] + TasksOf(done) == TasksOf(done);
    UnfailedDeeds(L.INIT, ios);
    UnfailedAskAll(done, i);
  }

  /**
   * Once every task posted has run, and epoll has refused none, the kernel watches the fd of each channel
   * for exactly the events of the last update made through its owner, and the table holds the callback
   * of that channel exactly if one was given since the last disable.
   */
  lemma ChannelsGetWhatTheyAsk(acts: seq<Action>, t: State, id: C.ChannelId)
    requires Run(Init(), acts, t) && NoTaskFails(acts)
    requires !t.loop.destroyed && t.loop.ran == t.loop.posted
    requires id in t.channels.channels && t.channels.channels[id].Owns?
    ensures var h := t.channels.channels[id];
            Serves(t.loop.fds.table, h.fd, h.inc, C.WantedBy(C.INIT, UsesOf(acts), h.inc, NOTHING))
  {
    var h := t.channels.channels[id];
    InitInv();
    var ios := RunIsLoopRun(Init(), acts, t);
    LC.ChannelsAreServed(ios, t.loop);
    AsksWhatIsPosted(ios, t.loop, h.inc);
    RunAsksAlike(Init(), acts, t, h.inc);
    RunIsChannelRun(Init(), acts, t);
    C.PostsAskAsWanted(UsesOf(acts), t.channels, h.inc);
    OwnedIsServed(t, id, LC.Deeds(L.INIT, ios));
  }

  lemma OwnedIsServed(t: State, id: C.ChannelId, done: seq<Deed>)
    requires Inv(t) && t.loop.ran == t.loop.posted && RequestsServed(t.loop.fds, done)
    requires id in t.channels.channels && t.channels.channels[id].Owns?
    ensures var h := t.channels.channels[id]; Serves(t.loop.fds.table, h.fd, h.inc, Asked(done, h.inc))
  {
    assert t.loop.fds.lives == t.channels.lives by {
      assert |L.Pending(t.loop)| == 0;
    }
  }

  /**
   * An event dispatched then calls back the channel it was collected for exactly if that channel was given
   * a callback since its last disable and still has an owner. It is one call.
   */
  lemma EventsCallAsAsked(acts: seq<Action>, t: State)
    requires Run(Init(), acts, t) && NoTaskFails(acts)
    requires t.loop.ran == t.loop.posted && L.Enabled(t.loop, L.Dispatch)
    ensures var e := t.loop.batch[0];
            L.Next(t.loop, L.Dispatch).fired ==
            t.loop.fired + if C.WantedBy(C.INIT, UsesOf(acts), e.inc, NOTHING).cb then [L.Firing(e, e.inc)] else []
  {
    var e := t.loop.batch[0];
    InitInv();
    var ios := RunIsLoopRun(Init(), acts, t);
    LC.DispatchCallsBack(ios, t.loop);
    AsksWhatIsPosted(ios, t.loop, e.inc);
    RunAsksAlike(Init(), acts, t, e.inc);
    RunIsChannelRun(Init(), acts, t);
    C.PostsAskAsWanted(UsesOf(acts), t.channels, e.inc);
  }
}
