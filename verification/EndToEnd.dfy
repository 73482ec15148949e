/**
 * The whole path of a message: posted to the sender's loop, sent by its task or by a later write
 * event, read by the receiving session in any portions, split into fragments, and posted to the
 * receiver's heavy queue. The parts are the machines of the other modules.
 */
module EndToEnd {
  import opened Base
  import opened Framing
  import D = FdLives
  import L = LoopProtocol
  import LT = LoopTheorems
  import S = SendPath
  import H = HeavyQueues

  /** A heavy task of the receiver: on_fragment posts one per fragment, others post anything. */
  datatype HeavyTask = Fragment(data: seq<byte>) | Other(id: nat)

  /** Which user tasks of the sender's loop are sends on this connection, and how the receiver splits. */
  datatype Setup = Setup(client: bool, payload: nat -> Option<seq<byte>>, split: Split)

  datatype State = State(
    sender: L.State,
    path: S.State,
    arrived: nat,              // bytes the receiver has read
    residue: seq<byte>,        // its recv_buf_
    found: seq<seq<byte>>,     // fragments of the last read still to be posted
    heavy: H.State<HeavyTask>
  )

  function Init(c: Setup): State {
    State(L.INIT, if c.client then S.CLIENT_INIT else S.SERVER_INIT, 0, [], [], H.Init())
  }

  datatype Action =
    | Io(io: L.Action, r: S.SendResult, fullAfter: bool)   // a step of the sender's loop; a send task calls send()
    | Socket(socket: S.Action)                                 // write events, enables and the kernel
    | ReadBytes(n: nat)                                   // the receiver reads what has arrived and splits it
    | HandOver                                            // on_fragment for the next fragment
    | Heavy(step: H.Action<HeavyTask>)

  /** The data a send task run by `a` sends. */
  function SendOf(c: Setup, s: L.State, a: L.Action): Option<seq<byte>> {
    if a.RunTask? && s.next < |s.queue| && s.queue[s.next].User? then c.payload(s.queue[s.next].id) else None
  }

  /** Somebody runs enable tasks, waits for events and serves them. */
  predicate HasIoThread(s: L.State) {
    s.pc != L.Exited && !s.destroyed
  }

  ghost predicate Enabled(c: Setup, s: State, a: Action) {
    match a
    case Io(l, r, fullAfter) =>
      && L.Enabled(s.sender, l)
      && var data := SendOf(c, s.sender, l);
         data.Some? ==> S.Enabled(s.path, S.PostTask(data.value, r, fullAfter))
    case Socket(x) =>
      && !x.PostTask? && S.Enabled(s.path, x)
      && (x.PeerReads? || x.SocketFills? || HasIoThread(s.sender))
    case ReadBytes(n) => s.found == [] && s.arrived + n <= |s.path.taken|
    case HandOver => s.found != [] && H.Enabled(s.heavy, H.Push(Fragment(s.found[0])))
    case Heavy(x) => H.Enabled(s.heavy, x) && (x.Push? ==> x.task.Other?)
  }

  ghost function Next(c: Setup, s: State, a: Action): State
    requires WithinSlice(c.split) && Enabled(c, s, a)
  {
    match a
    case Io(l, r, fullAfter) =>
      var data := SendOf(c, s.sender, l);
      s.(sender := L.Next(s.sender, l),
         path := if data.Some? then S.Next(s.path, S.PostTask(data.value, r, fullAfter)) else s.path)
    case Socket(x) => s.(path := S.Next(s.path, x))
    case ReadBytes(n) =>
      var p := Parse(c.split, s.residue + s.path.taken[s.arrived..s.arrived + n]);
      s.(arrived := s.arrived + n, residue := p.rest, found := p.frames)
    case HandOver => s.(found := s.found[1..], heavy := H.Next(s.heavy, H.Push(Fragment(s.found[0]))))
    case Heavy(x) => s.(heavy := H.Next(s.heavy, x))
  }

  ghost predicate Run(c: Setup, s: State, acts: seq<Action>, t: State)
    requires WithinSlice(c.split)
    decreases |acts|
  {
    if acts == [] then s == t
    else Enabled(c, s, acts[0]) && Run(c, Next(c, s, acts[0]), acts[1..], t)
  }

  // ---------------------------------------------------------------- what the parts carry

  /** The messages sent by these tasks. */
  function Sends(c: Setup, tasks: seq<D.Task>): seq<seq<byte>> {
    if tasks == [] then []
    else
      var data := if tasks[0].User? then c.payload(tasks[0].id) else None;
      (if data.Some? then [data.value] else []) + Sends(c, tasks[1..])
  }

  lemma {:induction false} SendsAppend(c: Setup, a: seq<D.Task>, b: seq<D.Task>)
    ensures Sends(c, a + b) == Sends(c, a) + Sends(c, b)
  {
    if a == [] {
      assert a + b == b;
    } else {
      assert (a + b)[1..] == a[1..] + b;
      SendsAppend(c, a[1..], b);
    }
  }

  /** The fragments among these heavy tasks. */
  function Fragments(tasks: seq<HeavyTask>): seq<seq<byte>> {
    if tasks == [] then []
    else (if tasks[0].Fragment? then [tasks[0].data] else []) + Fragments(tasks[1..])
  }

  lemma {:induction false} FragmentsAppend(a: seq<HeavyTask>, b: seq<HeavyTask>)
    ensures Fragments(a + b) == Fragments(a) + Fragments(b)
  {
    if a == [] {
      assert a + b == b;
    } else {
      assert (a + b)[1..] == a[1..] + b;
      FragmentsAppend(a[1..], b);
    }
  }

  // ---------------------------------------------------------------- invariant

  /** The endpoint has been given the messages of the tasks that have run. */
  ghost predicate SendsPosted(c: Setup, s: State) {
    s.path.posted == Concat(Sends(c, s.sender.ran))
  }

  /** The receiver has parsed everything it has read. */
  ghost predicate ReadsParsed(c: Setup, s: State)
    requires WithinSlice(c.split)
  {
    && s.arrived <= |s.path.taken|
    && Parse(c.split, s.path.taken[..s.arrived]) == Parsed(Fragments(s.heavy.posted) + s.found, s.residue)
  }

  ghost predicate Inv(c: Setup, s: State)
    requires WithinSlice(c.split)
  {
    && (L.Inv(s.sender) == true) && (S.Inv(s.path) == true) && (H.Inv(s.heavy) == true)
    && (SendsPosted(c, s) == true) && (ReadsParsed(c, s) == true)
  }

  lemma InitInv(c: Setup)
    requires WithinSlice(c.split)
    ensures Inv(c, Init(c))
  {
    var s := Init(c);
    assert s.path.taken[..0] == [];
    assert c.split([]) <= 0;
    assert SendsPosted(c, s) && ReadsParsed(c, s);
  }

  lemma TakenGrows(s: S.State, a: S.Action)
    requires S.Enabled(s, a)
    ensures s.taken <= S.Next(s, a).taken
    ensures S.Next(s, a).posted == s.posted + if a.PostTask? then a.data else []
  {
  }

  lemma LongerTaken(c: Setup, s: State, path: S.State)
    requires WithinSlice(c.split) && ReadsParsed(c, s) && s.path.taken <= path.taken
    ensures ReadsParsed(c, s.(path := path))
  {
    assert path.taken[..s.arrived] == s.path.taken[..s.arrived];
  }

  /** What running a task adds to the messages sent. */
  lemma RunAddsSend(c: Setup, s: L.State, a: L.Action)
    requires L.Inv(s) && L.Enabled(s, a)
    ensures Sends(c, L.Next(s, a).ran) == Sends(c, s.ran) + match SendOf(c, s, a) case None => [] case Some(data) => [data]
  {
    if a.RunTask? {
      var task := s.queue[s.next];
      L.RunTaskIsLegal(s);
      D.ExecuteKeepsConsistent(s.fds, task, a.fault);
      SendsAppend(c, s.ran, [task]);
      assert [task][1..] == [];
    } else {
      LT.OthersKeepRan(s, a);
    }
  }

  lemma ConcatOne(messages: seq<seq<byte>>, data: seq<byte>)
    ensures Concat(messages + [data]) == Concat(messages) + data
  {
    ConcatAppend(messages, [data]);
    assert Concat([data]) == data + [] == data;
  }

  lemma IoKeepsInv(c: Setup, s: State, a: Action)
    requires WithinSlice(c.split) && Inv(c, s) && a.Io? && Enabled(c, s, a)
    ensures Inv(c, Next(c, s, a))
  {
    L.NextKeepsInv(s.sender, a.io);
    RunAddsSend(c, s.sender, a.io);
    var data := SendOf(c, s.sender, a.io);
    if data.Some? {
      var send := S.PostTask(data.value, a.r, a.fullAfter);
      S.NextKeepsInv(s.path, send);
      TakenGrows(s.path, send);
      LongerTaken(c, s, S.Next(s.path, send));
      ConcatOne(Sends(c, s.sender.ran), data.value);
    } else {
      assert Sends(c, s.sender.ran) + [] == Sends(c, s.sender.ran);
    }
  }

  lemma SocketKeepsInv(c: Setup, s: State, a: Action)
    requires WithinSlice(c.split) && Inv(c, s) && a.Socket? && Enabled(c, s, a)
    ensures Inv(c, Next(c, s, a))
  {
    S.NextKeepsInv(s.path, a.socket);
    TakenGrows(s.path, a.socket);
    LongerTaken(c, s, S.Next(s.path, a.socket));
    assert s.path.posted + [] == s.path.posted;
  }

  lemma ReadOn(split: Split, taken: seq<byte>, arrived: nat, n: nat, posted: seq<seq<byte>>, rest: seq<byte>)
    requires WithinSlice(split) && PrefixStable(split) && arrived + n <= |taken|
    requires Parse(split, taken[..arrived]) == Parsed(posted + [], rest)
    ensures var p := Parse(split, rest + taken[arrived..arrived + n]);
            Parse(split, taken[..arrived + n]) == Parsed(posted + p.frames, p.rest)
  {
    assert posted + [] == posted;
    ParseAppend(split, taken[..arrived], taken[arrived..arrived + n]);
    assert taken[..arrived + n] == taken[..arrived] + taken[arrived..arrived + n];
  }

  lemma ReadKeepsParsed(c: Setup, s: State, n: nat)
    requires WithinSlice(c.split) && PrefixStable(c.split) && ReadsParsed(c, s) && Enabled(c, s, ReadBytes(n))
    ensures ReadsParsed(c, Next(c, s, ReadBytes(n)))
  {
    ReadOn(c.split, s.path.taken, s.arrived, n, Fragments(s.heavy.posted), s.residue);
  }

  lemma ReadKeepsInv(c: Setup, s: State, n: nat)
    requires WithinSlice(c.split) && PrefixStable(c.split) && Inv(c, s) && Enabled(c, s, ReadBytes(n))
    ensures Inv(c, Next(c, s, ReadBytes(n)))
  {
    ReadKeepsParsed(c, s, n);
  }

  lemma FragmentPosted(tasks: seq<HeavyTask>, task: HeavyTask)
    ensures Fragments(tasks + [task]) == Fragments(tasks) + if task.Fragment? then [task.data] else []
  {
    FragmentsAppend(tasks, [task]);
    assert [task][1..] == [];
  }

  lemma FirstPosted(tasks: seq<HeavyTask>, found: seq<seq<byte>>)
    requires found != []
    ensures Fragments(tasks + [Fragment(found[0])]) + found[1..] == Fragments(tasks) + found
  {
    FragmentPosted(tasks, Fragment(found[0]));
  }

  lemma HandOverKeepsInv(c: Setup, s: State)
    requires WithinSlice(c.split) && Inv(c, s) && Enabled(c, s, HandOver)
    ensures Inv(c, Next(c, s, HandOver))
  {
    H.NextKeepsInv(s.heavy, H.Push(Fragment(s.found[0])));
    FirstPosted(s.heavy.posted, s.found);
    assert ReadsParsed(c, Next(c, s, HandOver));
  }

  lemma HeavyKeepsInv(c: Setup, s: State, x: H.Action<HeavyTask>)
    requires WithinSlice(c.split) && Inv(c, s) && Enabled(c, s, Heavy(x))
    ensures Inv(c, Next(c, s, Heavy(x)))
  {
    H.NextKeepsInv(s.heavy, x);
    HeavyPosts(s.heavy, x);
    if x.Push? {
      FragmentPosted(s.heavy.posted, x.task);
      assert Fragments(s.heavy.posted) + [] == Fragments(s.heavy.posted);
    }
    assert ReadsParsed(c, Next(c, s, Heavy(x)));
  }

  lemma HeavyPosts<T>(s: H.State<T>, a: H.Action<T>)
    requires H.Enabled(s, a)
    ensures H.Next(s, a).posted == if a.Push? then s.posted + [a.task] else s.posted
  {
  }

  lemma NextKeepsInv(c: Setup, s: State, a: Action)
    requires WithinSlice(c.split) && PrefixStable(c.split) && Inv(c, s) && Enabled(c, s, a)
    ensures Inv(c, Next(c, s, a))
  {
    match a
    case Io(_, _, _) => IoKeepsInv(c, s, a);
    case Socket(_) => SocketKeepsInv(c, s, a);
    case ReadBytes(n) => ReadKeepsInv(c, s, n);
    case HandOver => HandOverKeepsInv(c, s);
    case Heavy(x) => HeavyKeepsInv(c, s, x);
  }

  lemma {:induction false} RunKeepsInv(c: Setup, s: State, acts: seq<Action>, t: State)
    requires WithinSlice(c.split) && PrefixStable(c.split) && Inv(c, s) && Run(c, s, acts, t)
    ensures Inv(c, t)
    decreases |acts|
  {
    if acts != [] {
      NextKeepsInv(c, s, acts[0]);
      RunKeepsInv(c, Next(c, s, acts[0]), acts[1..], t);
    }
  }

  // ---------------------------------------------------------------- order and completeness

  /** Every message is one frame of the receiver's split callback. */
  ghost predicate MessagesAreFrames(c: Setup, messages: seq<seq<byte>>) {
    forall i :: 0 <= i < |messages| ==> c.split(messages[i]) == |messages[i]| > 0
  }

  /** Nothing is under way any more. */
  ghost predicate Drained(s: State) {
    && s.sender.ran == s.sender.posted && s.path.ep.queued == [] && s.arrived == |s.path.taken|
    && s.found == [] && s.heavy.ran == s.heavy.posted
  }

  /**
   * In every run the fragments handled so far are the first messages posted, in the order of the
   * posts, whole and without repetition; when nothing is under way they are all of them.
   */
  lemma MessagesArriveInOrder(c: Setup, acts: seq<Action>, t: State)
    requires WithinSlice(c.split) && PrefixStable(c.split) && Run(c, Init(c), acts, t)
    requires MessagesAreFrames(c, Sends(c, t.sender.posted))
    ensures Fragments(t.heavy.ran) <= Sends(c, t.sender.posted)
    ensures Drained(t) ==> Fragments(t.heavy.ran) == Sends(c, t.sender.posted) && t.residue == []
  {
    InitInv(c);
    RunKeepsInv(c, Init(c), acts, t);
    InvGivesOrder(c, t);
  }

  lemma ReadsAreFirst(messages: seq<seq<byte>>, sent: seq<seq<byte>>, later: seq<seq<byte>>, path: S.State, arrived: nat)
    requires messages == sent + later && path.taken + path.ep.queued == Concat(sent) && arrived <= |path.taken|
    ensures path.taken[..arrived] <= Concat(messages)
    ensures later == [] && path.ep.queued == [] && arrived == |path.taken| ==> path.taken[..arrived] == Concat(messages)
  {
    ConcatAppend(sent, later);
  }

  lemma InvGivesOrder(c: Setup, t: State)
    requires WithinSlice(c.split) && PrefixStable(c.split) && Inv(c, t)
    requires MessagesAreFrames(c, Sends(c, t.sender.posted))
    ensures Fragments(t.heavy.ran) <= Sends(c, t.sender.posted)
    ensures Drained(t) ==> Fragments(t.heavy.ran) == Sends(c, t.sender.posted) && t.residue == []
  {
    var messages, sent, later := Sends(c, t.sender.posted), Sends(c, t.sender.ran), Sends(c, L.Pending(t.sender));
    SendsAppend(c, t.sender.ran, L.Pending(t.sender));
    ReadsAreFirst(messages, sent, later, t.path, t.arrived);
    PrefixGivesFirstFrames(c.split, messages, t.path.taken[..t.arrived]);
    FragmentsAppend(t.heavy.ran, H.Pending(t.heavy));
    assert Fragments(t.heavy.ran) <= Fragments(t.heavy.posted);
    if Drained(t) {
      assert |L.Pending(t.sender)| == 0;
    }
  }

  // ---------------------------------------------------------------- progress

  /** `t` is reached from `s` without any new task on the sender's loop. */
  ghost predicate Goes(c: Setup, s: State, acts: seq<Action>, t: State)
    requires WithinSlice(c.split)
  {
    (Run(c, s, acts, t) == true) && (Inv(c, s) == true) && (Inv(c, t) == true) && t.sender.posted == s.sender.posted
  }

  lemma {:induction false} RunAppend(c: Setup, s: State, a: seq<Action>, m: State, b: seq<Action>, t: State)
    requires WithinSlice(c.split) && Run(c, s, a, m) && Run(c, m, b, t)
    ensures Run(c, s, a + b, t)
    decreases |a|
  {
    TailOfConcat(a, b);
    if a != [] {
      RunAppend(c, Next(c, s, a[0]), a[1..], m, b, t);
    }
  }

  lemma GoesThen(c: Setup, s: State, a: seq<Action>, m: State, b: seq<Action>, t: State)
    requires WithinSlice(c.split) && Goes(c, s, a, m) && Goes(c, m, b, t)
    ensures Goes(c, s, a + b, t)
  {
    RunAppend(c, s, a, m, b, t);
  }

  lemma GoesOne(c: Setup, s: State, a: Action)
    requires WithinSlice(c.split) && PrefixStable(c.split) && Inv(c, s) && Enabled(c, s, a) && !(a.Io? && a.io.Push?)
    ensures Goes(c, s, [a], Next(c, s, a))
  {
    NextKeepsInv(c, s, a);
    NoNewTask(c, s, a);
    RunOne(c, s, a);
  }

  lemma RunOne(c: Setup, s: State, a: Action)
    requires WithinSlice(c.split) && Enabled(c, s, a)
    ensures Run(c, s, [a], Next(c, s, a))
  {
    assert [a][1..] == [];
    assert Run(c, Next(c, s, a), [], Next(c, s, a));
  }

  lemma NoNewTask(c: Setup, s: State, a: Action)
    requires WithinSlice(c.split) && Enabled(c, s, a) && !(a.Io? && a.io.Push?)
    ensures Next(c, s, a).sender.posted == s.sender.posted
  {
    if a.Io? {
      LT.NextPosts(s.sender, a.io);
      assert s.sender.posted + [] == s.sender.posted;
    }
  }

  /** A step first, then the rest. */
  lemma GoesOn(c: Setup, s: State, a: Action, more: seq<Action>, t: State)
    requires WithinSlice(c.split) && PrefixStable(c.split) && Inv(c, s) && Enabled(c, s, a) && !(a.Io? && a.io.Push?)
    requires Goes(c, Next(c, s, a), more, t)
    ensures Goes(c, s, [a] + more, t)
  {
    GoesOne(c, s, a);
    GoesThen(c, s, [a], Next(c, s, a), more, t);
  }

  /** The sender's loop is the loop protocol. */
  lemma {:induction false} SenderRun(c: Setup, s: State, acts: seq<Action>, t: State) returns (ios: seq<L.Action>)
    requires WithinSlice(c.split) && Run(c, s, acts, t)
    ensures L.Run(s.sender, ios, t.sender)
    decreases |acts|
  {
    if acts == [] {
      ios := [];
    } else {
      var more := SenderRun(c, Next(c, s, acts[0]), acts[1..], t);
      if acts[0].Io? {
        ios := [acts[0].io] + more;
        assert ios[1..] == more;
      } else {
        ios := more;
      }
    }
  }

  /** A run of the sender's loop alone carries over: the socket takes each message whole or refuses it. */
  lemma {:induction false} IoRuns(c: Setup, s: State, ios: seq<L.Action>, l: L.State) returns (acts: seq<Action>, t: State)
    requires WithinSlice(c.split) && PrefixStable(c.split) && Inv(c, s)
    requires L.Run(s.sender, ios, l) && LT.PushedIn(ios) == []
    ensures Goes(c, s, acts, t) && t == s.(sender := l, path := t.path)
    decreases |ios|
  {
    if ios == [] {
      acts, t := [], s;
    } else {
      var data := SendOf(c, s.sender, ios[0]);
      var r := if s.path.full || data.None? then S.Again else S.Sent(|data.value|);
      var a := Io(ios[0], r, s.path.full);
      GoesOne(c, s, a);
      var more;
      more, t := IoRuns(c, Next(c, s, a), ios[1..], l);
      GoesOn(c, s, a, more, t);
      acts := [a] + more;
    }
  }

  lemma {:induction false} SocketRuns(c: Setup, s: State, steps: seq<S.Action>, p: S.State) returns (acts: seq<Action>)
    requires WithinSlice(c.split) && PrefixStable(c.split) && Inv(c, s)
    requires S.Run(s.path, steps, p) && S.NoPosts(steps) && HasIoThread(s.sender)
    ensures Goes(c, s, acts, s.(path := p))
    decreases |steps|
  {
    if steps == [] {
      acts := [];
    } else {
      var a := Socket(steps[0]);
      GoesOne(c, s, a);
      var more := SocketRuns(c, Next(c, s, a), steps[1..], p);
      GoesOn(c, s, a, more, s.(path := p));
      acts := [a] + more;
    }
  }

  lemma {:induction false} HeavyRuns(c: Setup, s: State, steps: seq<H.Action<HeavyTask>>, h: H.State<HeavyTask>)
    returns (acts: seq<Action>)
    requires WithinSlice(c.split) && PrefixStable(c.split) && Inv(c, s)
    requires H.Run(s.heavy, steps, h) && H.NoPosts(steps)
    ensures Goes(c, s, acts, s.(heavy := h))
    decreases |steps|
  {
    if steps == [] {
      acts := [];
    } else {
      var a := Heavy(steps[0]);
      GoesOne(c, s, a);
      var more := HeavyRuns(c, Next(c, s, a), steps[1..], h);
      GoesOn(c, s, a, more, s.(heavy := h));
      acts := [a] + more;
    }
  }

  /** The found fragments are posted; a heavy thread about to sleep releases the mutex first. */
  lemma {:induction false} FoundIsHandedOver(c: Setup, s: State) returns (acts: seq<Action>, t: State)
    requires WithinSlice(c.split) && PrefixStable(c.split) && Inv(c, s)
    ensures Goes(c, s, acts, t) && t == s.(found := [], heavy := t.heavy) && t.heavy.exe == s.heavy.exe
    decreases |s.found|, s.heavy.pc == H.Checked
  {
    if s.found == [] {
      acts, t := [], s;
    } else {
      var a := if s.heavy.pc == H.Checked then Heavy(H.Sleep) else HandOver;
      GoesOne(c, s, a);
      var more;
      more, t := FoundIsHandedOver(c, Next(c, s, a));
      GoesOn(c, s, a, more, t);
      acts := [a] + more;
    }
  }

  /** The receiver reads all there is and posts every fragment of it. */
  lemma AllIsRead(c: Setup, s: State) returns (acts: seq<Action>, t: State)
    requires WithinSlice(c.split) && PrefixStable(c.split) && Inv(c, s)
    ensures Goes(c, s, acts, t) && t.sender == s.sender && t.path == s.path && t.heavy.exe == s.heavy.exe
    ensures t.arrived == |t.path.taken| && t.found == []
  {
    var a1, u1 := FoundIsHandedOver(c, s);
    var a := ReadBytes(|u1.path.taken| - u1.arrived);
    GoesOne(c, u1, a);
    var u2 := Next(c, u1, a);
    GoesThen(c, s, a1, u1, [a], u2);
    var a3, u3 := FoundIsHandedOver(c, u2);
    GoesThen(c, s, a1 + [a], u2, a3, u3);
    acts, t := a1 + [a] + a3, u3;
  }

  /** The sender's tasks run, the connection completes and the send buffer empties. */
  lemma AllIsSent(c: Setup, before: seq<Action>, s: State) returns (acts: seq<Action>, t: State)
    requires WithinSlice(c.split) && PrefixStable(c.split) && Run(c, Init(c), before, s) && Inv(c, s)
    requires !s.sender.destroyed
    ensures Goes(c, s, acts, t) && t.sender.ran == t.sender.posted && t.path.ep.queued == [] && t.heavy == s.heavy
  {
    var ios := SenderRun(c, Init(c), before, s);
    var more, l := LT.EveryPostedTaskCanRun(ios, s.sender);
    var a1, u1 := IoRuns(c, s, more, l);
    LT.PostedArePushed(L.INIT, ios, s.sender);
    var b2, p2 := S.ConnectionCompletes(u1.path);
    var a2 := SocketRuns(c, u1, b2, p2);
    var u2 := u1.(path := p2);
    GoesThen(c, s, a1, u1, a2, u2);
    var b3, p3 := S.QueueDrains(p2);
    var a3 := SocketRuns(c, u2, b3, p3);
    GoesThen(c, s, a1 + a2, u2, a3, u2.(path := p3));
    acts, t := a1 + a2 + a3, u2.(path := p3);
  }

  /**
   * No message can get stuck: from every reachable state in which the sender's loop exists and the
   * receiver's heavy thread is running there is a continuation, without any further post, in which
   * the receiver has handled exactly the messages posted, in order.
   */
  lemma EveryMessageCanArrive(c: Setup, before: seq<Action>, s: State) returns (acts: seq<Action>, t: State)
    requires WithinSlice(c.split) && PrefixStable(c.split) && Run(c, Init(c), before, s)
    requires MessagesAreFrames(c, Sends(c, s.sender.posted))
    requires !s.sender.destroyed && s.heavy.exe == H.Running
    ensures Run(c, s, acts, t) && t.sender.posted == s.sender.posted
    ensures Fragments(t.heavy.ran) == Sends(c, s.sender.posted) && t.residue == []
  {
    InitInv(c);
    RunKeepsInv(c, Init(c), before, s);
    var a1, u1 := AllIsSent(c, before, s);
    var a2, u2 := AllIsRead(c, u1);
    GoesThen(c, s, a1, u1, a2, u2);
    var b3, h3 := H.PostedTasksCanRun(u2.heavy);
    var a3 := HeavyRuns(c, u2, b3, h3);
    acts, t := a1 + a2 + a3, u2.(heavy := h3);
    GoesThen(c, s, a1 + a2, u2, a3, t);
    InvGivesOrder(c, t);
  }
}
