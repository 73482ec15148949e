/**
 * Sending on a stream endpoint (post_send_task, the write branch of the handlers and
 * update_event), together with what the loop and an edge-triggered kernel socket do to it.
 */
module SendPath {
  import opened Base

  /** One answer of send() before any error. */
  datatype SendResult = Sent(n: nat) | Again

  /**
   * What the endpoint itself holds. `outbox` are the enable tasks its update_event calls have
   * posted and the loop has not run yet. A server session is connected from the start.
   */
  datatype Endpoint = Endpoint(connected: bool, queued: seq<byte>, recorded: Interest, outbox: seq<Interest>)

  function UpdateEvent(e: Endpoint, types: Interest): Endpoint {
    e.(recorded := types, outbox := e.outbox + [types])
  }

  /** The send is tried only by a connected endpoint with nothing queued. */
  predicate SendsDirectly(e: Endpoint) {
    e.connected && e.queued == []
  }

  /** One post_send_task task. */
  function Post(e: Endpoint, data: seq<byte>, r: SendResult): Endpoint
    requires SendsDirectly(e) && r.Sent? ==> r.n <= |data|
  {
    if !SendsDirectly(e) then e.(queued := e.queued + data)
    else if r == Sent(|data|) then e
    else
      var left := if r.Sent? then data[r.n..] else data;
      UpdateEvent(e.(queued := left), e.recorded + {Write})
  }

  /** A write event in which the kernel takes the first `n` queued bytes and, if any are left, refuses more. */
  function Flush(e: Endpoint, n: nat): Endpoint
    requires n <= |e.queued|
  {
    if n == |e.queued| then UpdateEvent(e.(queued := []), e.recorded - {Write})
    else e.(queued := e.queued[n..])
  }

  /** The client's start() once the connection is up. */
  function Start(e: Endpoint): Endpoint {
    UpdateEvent(e.(connected := true), {Read, Error} + (if e.queued == [] then {} else {Write}))
  }

  datatype State = State(
    ep: Endpoint,
    interest: Option<Interest>,  // what the kernel watches for this fd
    full: bool,                  // the socket is not writable
    edge: bool,                  // a writability edge waits in the ready list
    collected: bool,             // an event with the write bit is in the executor's batch
    taken: seq<byte>,            // bytes the kernel has accepted, in order
    posted: seq<byte>            // data of all send tasks run so far, in task order
  )

  /** A session after accept and start(). */
  const SERVER_INIT := State(Endpoint(true, [], {Read, Error}, [{Read, Error}]), None, false, false, false, [], [])

  /** A client after connect() returned EINPROGRESS. */
  const CLIENT_INIT := State(Endpoint(false, [], {Write}, [{Write}]), None, true, false, false, [], [])

  datatype Action =
    | PostTask(data: seq<byte>, r: SendResult, fullAfter: bool)
    | WriteEvent(n: nat, fullAfter: bool)
    | RunEnable      // the loop runs the oldest posted enable task
    | PeerReads      // the socket becomes writable
    | SocketFills    // the socket stops being writable by itself
    | Collect        // epoll_wait reports the write bit, for its own edge or with any other event of the fd
    | Lapse          // epoll_wait finds nothing to report for the edge

  function WatchesWrite(s: State): bool {
    s.interest.Some? && Write in s.interest.value
  }

  predicate Enabled(s: State, a: Action) {
    match a
    case PostTask(data, r, fullAfter) =>
      // A refused send means no room; a socket with room takes something.
      SendsDirectly(s.ep) ==>
        (match r
         case Again => s.full && fullAfter
         case Sent(n) => n <= |data| && (data != [] ==> n > 0 && !s.full))
    case WriteEvent(n, fullAfter) =>
      && s.collected
      && (s.ep.connected ==> n <= |s.ep.queued| && (n < |s.ep.queued| ==> fullAfter) && (n > 0 ==> !s.full))
    case RunEnable => s.ep.outbox != []
    case PeerReads => s.full
    case SocketFills => !s.full
    case Collect => !s.full && WatchesWrite(s)
    case Lapse => s.edge && (s.full || !WatchesWrite(s))
  }

  function Next(s: State, a: Action): State
    requires Enabled(s, a)
  {
    match a
    case PostTask(data, r, fullAfter) =>
      var tried := SendsDirectly(s.ep);
      s.(ep := Post(s.ep, data, r),
         posted := s.posted + data,
         taken := s.taken + (if tried && r.Sent? then data[..r.n] else []),
         full := if tried then fullAfter else s.full)
    case WriteEvent(n, fullAfter) =>
      if !s.ep.connected then s.(ep := Start(s.ep), collected := false)
      else s.(ep := Flush(s.ep, n), taken := s.taken + s.ep.queued[..n], full := fullAfter, collected := false)
    case RunEnable =>
      // EPOLL_CTL_MOD and ADD look at the readiness again.
      var types := s.ep.outbox[0];
      s.(ep := s.ep.(outbox := s.ep.outbox[1..]), interest := Some(types),
         edge := s.edge || (Write in types && !s.full))
    case PeerReads => s.(full := false, edge := s.edge || WatchesWrite(s))
    case SocketFills => s.(full := true)
    case Collect => s.(edge := false, collected := true)
    case Lapse => s.(edge := false)
  }

  /** `t` is reached from `s` by `acts`. */
  predicate Run(s: State, acts: seq<Action>, t: State)
    decreases |acts|
  {
    if acts == [] then s == t
    else Enabled(s, acts[0]) && Run(Next(s, acts[0]), acts[1..], t)
  }

  /** The interest the last posted enable task will establish. */
  function Upcoming(s: State): Option<Interest> {
    if s.ep.outbox == [] then s.interest else Some(s.ep.outbox[|s.ep.outbox| - 1])
  }

  predicate Conserved(s: State) {
    s.taken + s.ep.queued == s.posted
  }

  /** Queued bytes always have a write event coming: from a task, an edge, a collected event or the peer's next read. */
  predicate WakeupComing(s: State) {
    s.ep.connected && s.ep.queued != [] ==>
      Write in s.ep.recorded && (s.ep.outbox != [] || s.edge || s.collected || s.full)
  }

  predicate Inv(s: State) {
    && Conserved(s)
    && Upcoming(s) == Some(s.ep.recorded)
    && WakeupComing(s)
    && (!s.ep.connected ==>
          s.taken == [] && s.ep.recorded == {Write} && (s.ep.outbox != [] || s.edge || s.collected || s.full))
  }

  lemma PostKeepsInv(s: State, a: Action)
    requires Inv(s) && Enabled(s, a) && a.PostTask?
    ensures Inv(Next(s, a))
  {
    if SendsDirectly(s.ep) && a.r.Sent? {
      assert a.data == a.data[..a.r.n] + a.data[a.r.n..];
    }
  }

  lemma WriteEventKeepsInv(s: State, a: Action)
    requires Inv(s) && Enabled(s, a) && a.WriteEvent?
    ensures Inv(Next(s, a))
  {
    if s.ep.connected {
      var q, n := s.ep.queued, a.n;
      assert (s.taken + q[..n]) + q[n..] == s.taken + q;
      if n == |q| {
        assert q[..n] == q && (s.taken + q) + [] == s.taken + q;
      }
    }
  }

  lemma NextKeepsInv(s: State, a: Action)
    requires Inv(s) && Enabled(s, a)
    ensures Inv(Next(s, a))
  {
    if a.PostTask? {
      PostKeepsInv(s, a);
    } else if a.WriteEvent? {
      WriteEventKeepsInv(s, a);
    }
  }

  /** The data of the send tasks of a run, in task order. */
  function PostedIn(acts: seq<Action>): seq<byte> {
    if acts == [] then []
    else (if acts[0].PostTask? then acts[0].data else []) + PostedIn(acts[1..])
  }

  lemma {:induction false} RunKeepsInv(s: State, acts: seq<Action>, t: State)
    requires Inv(s) && Run(s, acts, t)
    ensures Inv(t) && t.posted == s.posted + PostedIn(acts)
    decreases |acts|
  {
    if acts != [] {
      NextKeepsInv(s, acts[0]);
      RunKeepsInv(Next(s, acts[0]), acts[1..], t);
    }
  }

  /**
   * In every run before the first error the accepted bytes followed by the queued ones are the
   * posted data in task order, and queued bytes keep the write bit in the recorded interest.
   */
  lemma SendOrderPreserved(client: bool, acts: seq<Action>, t: State)
    requires Run(if client then CLIENT_INIT else SERVER_INIT, acts, t)
    ensures t.taken + t.ep.queued == PostedIn(acts)
    ensures t.ep.connected && t.ep.queued != [] ==> Write in t.ep.recorded
    ensures !t.ep.connected ==> t.taken == []
  {
    RunKeepsInv(if client then CLIENT_INIT else SERVER_INIT, acts, t);
  }

  // ---------------------------------------------------------------- the interest

  /**
   * A connected endpoint always asks for reads and errors, in its record and in every enable task on its
   * way; before the connection it has asked for writes once.
   */
  ghost predicate InterestKept(s: State) {
    if s.ep.connected then
      && {Read, Error} <= s.ep.recorded <= {Read, Write, Error}
      && (forall k :: 0 <= k < |s.ep.outbox| ==> {Read, Error} <= s.ep.outbox[k] <= {Read, Write, Error})
      && (s.ep.outbox == [] ==> s.interest == Some(s.ep.recorded))
    else
      && (s.interest.None? ==> s.ep.outbox == [{Write}] && !s.collected && !s.edge)
      && (s.interest.Some? ==> s.ep.outbox == [] && s.interest == Some({Write}))
  }

  lemma NextKeepsInterest(s: State, a: Action)
    requires InterestKept(s) && Upcoming(s) == Some(s.ep.recorded) && Enabled(s, a)
    ensures InterestKept(Next(s, a))
  {
  }

  lemma {:induction false} RunKeepsInterest(s: State, acts: seq<Action>, t: State)
    requires Inv(s) && InterestKept(s) && Run(s, acts, t)
    ensures InterestKept(t)
    decreases |acts|
  {
    if acts != [] {
      NextKeepsInv(s, acts[0]);
      NextKeepsInterest(s, acts[0]);
      RunKeepsInterest(Next(s, acts[0]), acts[1..], t);
    }
  }

  /**
   * Sending never costs the endpoint its reads: in every run a connected endpoint has reads and errors in
   * its recorded interest and in all enable tasks on their way, and with none on its way in the kernel.
   */
  lemma ReadsStayOn(client: bool, acts: seq<Action>, t: State)
    requires Run(if client then CLIENT_INIT else SERVER_INIT, acts, t) && t.ep.connected
    ensures {Read, Error} <= t.ep.recorded <= {Read, Write, Error}
    ensures forall k :: 0 <= k < |t.ep.outbox| ==> {Read, Error} <= t.ep.outbox[k]
    ensures t.ep.outbox == [] ==> t.interest.Some? && {Read, Error} <= t.interest.value
  {
    RunKeepsInterest(if client then CLIENT_INIT else SERVER_INIT, acts, t);
  }

  /** A connected endpoint asks for writes exactly while bytes wait. */
  predicate WritesWanted(s: State) {
    s.ep.connected ==> (Write in s.ep.recorded <==> s.ep.queued != [])
  }

  /** No send task is without data. */
  ghost predicate PostsHaveData(acts: seq<Action>) {
    forall k :: 0 <= k < |acts| && acts[k].PostTask? ==> acts[k].data != []
  }

  lemma NextKeepsWritesWanted(s: State, a: Action)
    requires WritesWanted(s) && InterestKept(s) && Enabled(s, a) && (a.PostTask? ==> a.data != [])
    ensures WritesWanted(Next(s, a))
  {
  }

  lemma {:induction false} RunKeepsWritesWanted(s: State, acts: seq<Action>, t: State)
    requires Inv(s) && InterestKept(s) && WritesWanted(s) && Run(s, acts, t) && PostsHaveData(acts)
    ensures WritesWanted(t)
    decreases |acts|
  {
    if acts != [] {
      NextKeepsInv(s, acts[0]);
      NextKeepsInterest(s, acts[0]);
      NextKeepsWritesWanted(s, acts[0]);
      RunKeepsWritesWanted(Next(s, acts[0]), acts[1..], t);
    }
  }

  /** In every run whose send tasks carry data, a connected endpoint asks for the write event exactly while bytes wait. */
  lemma WritesAskedIffQueued(client: bool, acts: seq<Action>, t: State)
    requires Run(if client then CLIENT_INIT else SERVER_INIT, acts, t) && t.ep.connected && PostsHaveData(acts)
    ensures Write in t.ep.recorded <==> t.ep.queued != []
  {
    RunKeepsWritesWanted(if client then CLIENT_INIT else SERVER_INIT, acts, t);
  }

  /** An empty message the kernel refuses asks for a write event with nothing to write. */
  lemma EmptyPostAsksForWrites() returns (acts: seq<Action>, t: State)
    ensures Run(SERVER_INIT, acts, t) && t.ep.queued == [] && Write in t.ep.recorded
  {
    var u := Next(SERVER_INIT, SocketFills);
    t := Next(u, PostTask([], Again, true));
    acts := [SocketFills, PostTask([], Again, true)];
    assert acts[1..] == [PostTask([], Again, true)] && acts[1..][1..] == [];
  }

  /** A write event that empties the queue ends the interest in writes and nothing else; one that does not leaves it alone. */
  lemma FlushStopsWrites(s: State, n: nat, fullAfter: bool)
    requires Enabled(s, WriteEvent(n, fullAfter)) && s.ep.connected
    ensures var t := Next(s, WriteEvent(n, fullAfter));
            && t.ep.queued == s.ep.queued[n..] && t.taken == s.taken + s.ep.queued[..n]
            && (forall x :: x in t.ep.recorded <==> x in s.ep.recorded && (x != Write || n < |s.ep.queued|))
            && t.ep.outbox == if n == |s.ep.queued| then s.ep.outbox + [t.ep.recorded] else s.ep.outbox
  {
    if n == |s.ep.queued| {
      assert s.ep.queued[n..] == [];
    }
  }

  /**
   * The direct path: a connected endpoint with nothing queued hands the data to the kernel, and only
   * what is not taken is queued, with the write event asked for. Any other endpoint queues all of it.
   */
  lemma DirectSendIffIdle(s: State, data: seq<byte>, r: SendResult, fullAfter: bool)
    requires Enabled(s, PostTask(data, r, fullAfter))
    ensures var t := Next(s, PostTask(data, r, fullAfter));
            if s.ep.connected && s.ep.queued == [] then
              match r
              case Sent(n) =>
                && t.taken == s.taken + data[..n] && t.ep.queued == data[n..]
                && (n == |data| ==> t.ep == s.ep)
                && (n < |data| ==> t.ep.recorded == s.ep.recorded + {Write} && t.ep.outbox == s.ep.outbox + [t.ep.recorded])
              case Again =>
                && t.taken == s.taken && t.ep.queued == data
                && t.ep.recorded == s.ep.recorded + {Write} && t.ep.outbox == s.ep.outbox + [t.ep.recorded]
            else
              t.taken == s.taken && t.ep == s.ep.(queued := s.ep.queued + data)
  {
    if r == Sent(|data|) {
      assert data[|data|..] == [] && data[..|data|] == data;
    }
  }

  lemma {:induction false} RunAppend(s: State, a: seq<Action>, m: State, b: seq<Action>, t: State)
    requires Run(s, a, m) && Run(m, b, t)
    ensures Run(s, a + b, t)
    decreases |a|
  {
    if a == [] {
      assert a + b == b;
    } else {
      assert (a + b)[1..] == a[1..] + b;
      RunAppend(Next(s, a[0]), a[1..], m, b, t);
    }
  }

  ghost predicate NoPosts(acts: seq<Action>) {
    forall k :: 0 <= k < |acts| ==> !acts[k].PostTask?
  }

  lemma {:induction false} NoPostsPostNothing(acts: seq<Action>)
    requires NoPosts(acts)
    ensures PostedIn(acts) == []
  {
    if acts != [] {
      NoPostsPostNothing(acts[1..]);
    }
  }

  /** Running the posted enable tasks leaves the recorded interest in the kernel and moves no data. */
  lemma {:induction false} EnablesRun(s: State) returns (acts: seq<Action>, t: State)
    requires Inv(s)
    ensures Run(s, acts, t) && Inv(t) && NoPosts(acts)
    ensures t.ep == s.ep.(outbox := []) && t.posted == s.posted
    decreases |s.ep.outbox|
  {
    if s.ep.outbox == [] {
      acts, t := [], s;
    } else {
      NextKeepsInv(s, RunEnable);
      var more, u := EnablesRun(Next(s, RunEnable));
      acts, t := [RunEnable] + more, u;
      assert acts[1..] == more;
    }
  }

  /** From a state with all enables run, a write event can be collected once the peer reads. */
  lemma EventArrives(s: State) returns (acts: seq<Action>, t: State)
    requires Inv(s) && s.ep.outbox == [] && (s.ep.connected ==> s.ep.queued != [])
    ensures Run(s, acts, t) && Inv(t) && t.collected && !t.full && t.ep == s.ep && NoPosts(acts)
  {
    var a1, u := [], s;
    if u.full {
      NextKeepsInv(u, PeerReads);
      a1, u := [PeerReads], Next(u, PeerReads);
    }
    assert Run(s, a1, u);
    if u.collected {
      acts, t := a1, u;
    } else {
      NextKeepsInv(u, Collect);
      t := Next(u, Collect);
      acts := a1 + [Collect];
      RunAppend(s, a1, u, [Collect], t);
    }
  }

  /** The write event takes everything that is queued. */
  lemma EverythingFlushes(s: State) returns (acts: seq<Action>, t: State)
    requires Inv(s) && s.collected && !s.full && s.ep.connected
    ensures Run(s, acts, t) && Inv(t) && NoPosts(acts)
    ensures t.ep.queued == [] && t.ep.connected
  {
    var a := WriteEvent(|s.ep.queued|, false);
    NextKeepsInv(s, a);
    acts, t := [a], Next(s, a);
    assert Run(t, acts[1..], t);
  }

  /** The connection attempt ends in start(), which asks for the write bit when bytes are waiting. */
  lemma ConnectionCompletes(s: State) returns (acts: seq<Action>, t: State)
    requires Inv(s)
    ensures Run(s, acts, t) && Inv(t) && NoPosts(acts) && t.ep.connected
  {
    if s.ep.connected {
      acts, t := [], s;
    } else {
      var a1, u1 := EnablesRun(s);
      var a2, u2 := EventArrives(u1);
      var a := WriteEvent(0, false);
      NextKeepsInv(u2, a);
      t := Next(u2, a);
      RunAppend(s, a1, u1, a2, u2);
      RunAppend(s, a1 + a2, u2, [a], t);
      acts := a1 + a2 + [a];
    }
  }

  /** A connected endpoint drains. */
  lemma QueueDrains(s: State) returns (acts: seq<Action>, t: State)
    requires Inv(s) && s.ep.connected
    ensures Run(s, acts, t) && Inv(t) && NoPosts(acts) && t.ep.queued == []
  {
    if s.ep.queued == [] {
      acts, t := [], s;
    } else {
      var a1, u1 := EnablesRun(s);
      var a2, u2 := EventArrives(u1);
      var a3, u3 := EverythingFlushes(u2);
      RunAppend(s, a1, u1, a2, u2);
      RunAppend(s, a1 + a2, u2, a3, u3);
      acts, t := a1 + a2 + a3, u3;
    }
  }

  lemma ReachableInv(client: bool, acts: seq<Action>, s: State)
    requires Run(if client then CLIENT_INIT else SERVER_INIT, acts, s)
    ensures Inv(s) && s.posted == PostedIn(acts)
  {
    var init := if client then CLIENT_INIT else SERVER_INIT;
    RunKeepsInv(init, acts, s);
    assert init.posted + PostedIn(acts) == PostedIn(acts);
  }

  lemma DrainedMeansTaken(s: State, acts: seq<Action>, t: State)
    requires Inv(s) && Run(s, acts, t) && NoPosts(acts) && t.ep.queued == []
    ensures t.taken == s.posted
  {
    NoPostsPostNothing(acts);
    RunKeepsInv(s, acts, t);
    assert t.taken + [] == t.taken && s.posted + [] == s.posted;
  }

  /**
   * No send stalls: from every reachable state, running the loop and a peer that reads delivers
   * all posted bytes without any further post.
   */
  lemma QueuedBytesCanLeave(client: bool, acts: seq<Action>, s: State) returns (more: seq<Action>, t: State)
    requires Run(if client then CLIENT_INIT else SERVER_INIT, acts, s)
    ensures Run(s, more, t) && NoPosts(more)
    ensures t.ep.queued == [] && t.taken == PostedIn(acts)
  {
    ReachableInv(client, acts, s);
    var a1, u1 := ConnectionCompletes(s);
    var a2, u2 := QueueDrains(u1);
    RunAppend(s, a1, u1, a2, u2);
    more, t := a1 + a2, u2;
    DrainedMeansTaken(s, more, t);
  }
}
