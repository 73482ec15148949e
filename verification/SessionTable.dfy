/**
 * The session table of StreamServerSocket (src/net/inet.cpp): accept inserts by fd number, stop()
 * posts a life-checked erase, and an fd number is reused once its session's channel is closed.
 */
module SessionTables {
  type Fd = nat
  type Sid = nat

  datatype State = State(
    sessions: map<Fd, Sid>,   // sessions_
    held: set<Sid>,           // sessions referenced from elsewhere: heavy tasks, user code
    alive: set<Sid>,          // session objects not yet destroyed
    closing: set<Sid>,        // destroyed, with the channel's unregister task still queued
    erases: seq<Sid>,         // queued erase tasks, which hold only a weak reference
    open: map<Fd, Sid>,       // the kernel's open session fds
    fdOf: map<Sid, Fd>        // the fd each session was accepted with
  )

  const INIT := State(map[], {}, {}, {}, [], map[], map[])

  predicate Referenced(s: State, sid: Sid) {
    sid in s.held || sid in s.sessions.Values
  }

  /** The last reference is gone: the session is destroyed and its channel posts the unregister task. */
  function DropIfUnreferenced(s: State, sid: Sid): State {
    if sid in s.alive && !Referenced(s, sid) then s.(alive := s.alive - {sid}, closing := s.closing + {sid}) else s
  }

  datatype Action =
    | Accept(fd: Fd, sid: Sid)
    | Hold(sid: Sid)
    | Release(sid: Sid)
    | StopSession(sid: Sid)
    | RunErase
    | RunUnregister(sid: Sid)

  /** accept4 returns a number that is not open; a session can be named only through a reference to it. */
  predicate Enabled(s: State, a: Action) {
    match a
    case Accept(fd, sid) => fd !in s.open && sid !in s.fdOf
    case Hold(sid) => sid in s.alive
    case Release(sid) => sid in s.held
    case StopSession(sid) => sid in s.alive
    case RunErase => s.erases != []
    case RunUnregister(sid) => sid in s.closing && sid in s.fdOf
  }

  function Insert(sessions: map<Fd, Sid>, fd: Fd, sid: Sid): map<Fd, Sid> {
    if fd in sessions then sessions else sessions[fd := sid]
  }

  function Next(s: State, a: Action): State
    requires Enabled(s, a)
  {
    match a
    case Accept(fd, sid) =>
      DropIfUnreferenced(
        s.(open := s.open[fd := sid], fdOf := s.fdOf[sid := fd], alive := s.alive + {sid},
           sessions := Insert(s.sessions, fd, sid)), sid)
    case Hold(sid) => s.(held := s.held + {sid})
    case Release(sid) => DropIfUnreferenced(s.(held := s.held - {sid}), sid)
    case StopSession(sid) => s.(erases := s.erases + [sid])
    case RunErase =>
      var sid := s.erases[0];
      var t := s.(erases := s.erases[1..]);
      if sid !in s.alive || sid !in s.fdOf then t
      else DropIfUnreferenced(t.(sessions := t.sessions - {s.fdOf[sid]}), sid)
    case RunUnregister(sid) => s.(closing := s.closing - {sid}, open := s.open - {s.fdOf[sid]})
  }

  predicate Run(s: State, acts: seq<Action>, t: State)
    decreases |acts|
  {
    if acts == [] then s == t
    else Enabled(s, acts[0]) && Run(Next(s, acts[0]), acts[1..], t)
  }

  ghost predicate Inv(s: State) {
    // Every entry maps an fd to the living session that owns the open fd.
    && (forall f :: f in s.sessions ==> s.sessions[f] in s.alive && s.sessions[f] in s.fdOf && s.fdOf[s.sessions[f]] == f)
    // A session's fd stays open until its unregister task has run.
    && (forall i :: i in s.alive || i in s.closing ==> i in s.fdOf && s.fdOf[i] in s.open && s.open[s.fdOf[i]] == i)
    && (forall i :: i in s.alive ==> i !in s.closing && Referenced(s, i))
    && (forall i :: i in s.held ==> i in s.alive)
    // An open fd belongs to a session that is alive or on its way out.
    && (forall f :: f in s.open ==> s.open[f] in s.fdOf && s.fdOf[s.open[f]] == f
                                    && (s.open[f] in s.alive || s.open[f] in s.closing))
  }

  lemma AcceptKeepsInv(s: State, fd: Fd, sid: Sid)
    requires Inv(s) && Enabled(s, Accept(fd, sid))
    ensures Inv(Next(s, Accept(fd, sid)))
    ensures fd !in s.sessions && Next(s, Accept(fd, sid)).sessions == s.sessions[fd := sid]
    ensures sid in Next(s, Accept(fd, sid)).alive
  {
    var t := Next(s, Accept(fd, sid));
    assert fd !in s.sessions;
    assert s.sessions[fd := sid][fd] == sid;
    forall i | i in t.alive
      ensures Referenced(t, i)
    {
      if i != sid && i !in s.held {
        var f :| f in s.sessions && s.sessions[f] == i;
        assert t.sessions[f] == i;
      }
    }
  }

  lemma EraseKeepsInv(s: State)
    requires Inv(s) && Enabled(s, RunErase)
    ensures Inv(Next(s, RunErase))
  {
    var t := Next(s, RunErase);
    forall i | i in t.alive
      ensures Referenced(t, i)
    {
      if i !in s.held {
        var f :| f in s.sessions && s.sessions[f] == i;
        assert f in t.sessions ==> t.sessions[f] == i;
      }
    }
  }

  lemma NextKeepsInv(s: State, a: Action)
    requires Inv(s) && Enabled(s, a)
    ensures Inv(Next(s, a))
  {
    match a
    case Accept(fd, sid) => AcceptKeepsInv(s, fd, sid);
    case RunErase => EraseKeepsInv(s);
    case _ =>
  }

  lemma {:induction false} RunKeepsInv(s: State, acts: seq<Action>, t: State)
    requires Inv(s) && Run(s, acts, t)
    ensures Inv(t)
    decreases |acts|
  {
    if acts != [] {
      NextKeepsInv(s, acts[0]);
      RunKeepsInv(Next(s, acts[0]), acts[1..], t);
    }
  }

  /** Whatever fd accept4 returns, the table has no entry for it, so the new session is always entered. */
  lemma AcceptFindsKeyAbsent(acts: seq<Action>, s: State, fd: Fd, sid: Sid)
    requires Run(INIT, acts, s) && Enabled(s, Accept(fd, sid))
    ensures fd !in s.sessions && Next(s, Accept(fd, sid)).sessions == s.sessions[fd := sid]
    ensures sid in Next(s, Accept(fd, sid)).alive
  {
    RunKeepsInv(INIT, acts, s);
    AcceptKeepsInv(s, fd, sid);
  }

  /** An erase task, first or repeated, removes at most the entry of the session that posted it. */
  lemma EraseSparesOthers(acts: seq<Action>, s: State)
    requires Run(INIT, acts, s) && s.erases != []
    ensures var t := Next(s, RunErase);
            && (forall f :: f in s.sessions && s.sessions[f] != s.erases[0] ==> f in t.sessions && t.sessions[f] == s.sessions[f])
            && s.erases[0] !in t.sessions.Values
            && (forall f :: f in t.sessions ==> f in s.sessions)
  {
    RunKeepsInv(INIT, acts, s);
    NextKeepsInv(s, RunErase);
  }

  /** Every entry names the living session whose fd it is, and that fd is open. */
  lemma EntriesOwnTheirFd(acts: seq<Action>, s: State, fd: Fd)
    requires Run(INIT, acts, s) && fd in s.sessions
    ensures fd in s.open && s.open[fd] == s.sessions[fd] && s.sessions[fd] in s.alive
    ensures forall f :: f in s.sessions && s.sessions[f] == s.sessions[fd] ==> f == fd
  {
    RunKeepsInv(INIT, acts, s);
  }

  /** No fd stays behind: once a session is destroyed and its unregister task has run, none of the open fds is its own. */
  lemma FdsAreGivenBack(acts: seq<Action>, s: State, sid: Sid)
    requires Run(INIT, acts, s) && sid in s.fdOf
    ensures (exists f :: f in s.open && s.open[f] == sid) <==> sid in s.alive || sid in s.closing
  {
    RunKeepsInv(INIT, acts, s);
    if sid in s.alive || sid in s.closing {
      assert s.open[s.fdOf[sid]] == sid;
    }
  }

  ghost predicate Gone(s: State, sid: Sid) {
    sid in s.fdOf && sid !in s.sessions.Values
  }

  lemma GoneStays(s: State, a: Action, sid: Sid)
    requires Inv(s) && Gone(s, sid) && Enabled(s, a)
    ensures Gone(Next(s, a), sid)
  {
    var t := Next(s, a);
    forall f | f in t.sessions
      ensures t.sessions[f] != sid
    {
      if a.Accept? && f == a.fd && f !in s.sessions {
        assert t.sessions[f] == a.sid;
      } else {
        assert f in s.sessions && t.sessions[f] == s.sessions[f];
      }
    }
  }

  /** A session that has left the table never comes back, even when its fd number does. */
  lemma {:induction false} ErasedStaysErased(s: State, acts: seq<Action>, t: State, sid: Sid)
    requires Inv(s) && Gone(s, sid) && Run(s, acts, t)
    ensures Gone(t, sid)
    decreases |acts|
  {
    if acts != [] {
      GoneStays(s, acts[0], sid);
      NextKeepsInv(s, acts[0]);
      ErasedStaysErased(Next(s, acts[0]), acts[1..], t, sid);
    }
  }

  /** A stopped session has an erase task queued, or has left the table. */
  ghost predicate Leaving(s: State, sid: Sid) {
    sid in s.fdOf && (sid in s.erases || sid !in s.sessions.Values)
  }

  lemma LeavingStep(s: State, a: Action, sid: Sid)
    requires Inv(s) && Leaving(s, sid) && Enabled(s, a)
    ensures Leaving(Next(s, a), sid)
  {
    var t := Next(s, a);
    if sid !in s.erases {
      GoneStays(s, a, sid);
    } else if a.RunErase? && s.erases[0] == sid {
      assert sid !in t.sessions.Values by {
        assert s.erases != [];
        ErasedIsGone(s);
      }
    } else if a.RunErase? {
      assert sid in t.erases by {
        var k :| 0 <= k < |s.erases| && s.erases[k] == sid;
        assert t.erases[k - 1] == sid;
      }
    }
  }

  lemma ErasedIsGone(s: State)
    requires Inv(s) && s.erases != []
    ensures s.erases[0] !in Next(s, RunErase).sessions.Values
  {
  }

  lemma {:induction false} LeavingRun(s: State, acts: seq<Action>, t: State, sid: Sid)
    requires Inv(s) && Leaving(s, sid) && Run(s, acts, t)
    ensures Leaving(t, sid)
    decreases |acts|
  {
    if acts != [] {
      LeavingStep(s, acts[0], sid);
      NextKeepsInv(s, acts[0]);
      LeavingRun(Next(s, acts[0]), acts[1..], t, sid);
    }
  }

  /** In every run a stopped session is out of the table once the erase tasks queued for it have run. */
  lemma StoppedLeavesTable(before: seq<Action>, s: State, sid: Sid, acts: seq<Action>, t: State)
    requires Run(INIT, before, s) && Enabled(s, StopSession(sid))
    requires Run(Next(s, StopSession(sid)), acts, t)
    ensures sid !in t.erases ==> sid !in t.sessions.Values
    ensures sid in Next(s, StopSession(sid)).erases
  {
    RunKeepsInv(INIT, before, s);
    NextKeepsInv(s, StopSession(sid));
    LeavingRun(Next(s, StopSession(sid)), acts, t, sid);
  }

  // ---------------------------------------------------------------- imperative form

  lemma {:induction false} RunAppend(s: State, a: seq<Action>, m: State, b: seq<Action>, t: State)
    requires Run(s, a, m) && Run(m, b, t)
    ensures Run(s, a + b, t)
    decreases |a|
  {
    if a == [] {
      assert a + b == b;
    } else {
      assert (a + b)[1..] == a[1..] + b;
      RunAppend(Next(s, a[0]), a[1..], m, b, t);
    }
  }

  lemma RunStep(s: State, acts: seq<Action>, t: State, a: Action)
    requires Run(s, acts, t) && Enabled(t, a)
    ensures Run(s, acts + [a], Next(t, a))
  {
    assert Run(Next(t, a), [a][1..], Next(t, a));
    RunAppend(s, acts, t, [a], Next(t, a));
  }

  /** What accept4 may return next, one after the other: each fd not open, each session new. */
  ghost predicate CanAccept(s: State, accepted: seq<(Fd, Sid)>)
    decreases |accepted|
  {
    accepted != [] ==>
      var a := Accept(accepted[0].0, accepted[0].1);
      Enabled(s, a) && CanAccept(Next(s, a), accepted[1..])
  }

  function Accepts(accepted: seq<(Fd, Sid)>): seq<Action> {
    seq(|accepted|, i requires 0 <= i < |accepted| => Accept(accepted[i].0, accepted[i].1))
  }

  /** The table of the server; the ghost state `s` follows the steps of the sessions. */
  class StreamServer {
    var sessions: map<Fd, Sid>
    var erases: seq<Sid>           // the erase tasks in the queue of the loop
    ghost var s: State

    ghost predicate Valid()
      reads this
    {
      sessions == s.sessions && erases == s.erases
    }

    constructor ()
      ensures Valid() && s == INIT
    {
      sessions, erases := map[], [];
      s := INIT;
    }

    /** The accept loop: a session for each returned fd, until accept4 would block or fails. */
    method OnReadable(accepted: seq<(Fd, Sid)>)
      requires Valid() && Inv(s) && CanAccept(s, accepted)
      modifies this
      ensures Valid() && (Inv(s) == true) && Run(old(s), Accepts(accepted), s)
      // Every accepted session is entered, and no entry is lost.
      ensures forall i :: 0 <= i < |accepted| ==> accepted[i].0 in sessions && sessions[accepted[i].0] == accepted[i].1
      ensures forall f :: f in old(sessions) ==> f in sessions && sessions[f] == old(sessions)[f]
      ensures forall f :: f in sessions ==> f in old(sessions) || exists i :: 0 <= i < |accepted| && accepted[i].0 == f
    {
      ghost var start := s;
      for n := 0 to |accepted|
        invariant Valid() && (Inv(s) == true) && CanAccept(s, accepted[n..]) && Run(start, Accepts(accepted[..n]), s)
        invariant forall i :: 0 <= i < n ==> accepted[i].0 in sessions && sessions[accepted[i].0] == accepted[i].1
        invariant forall f :: f in old(sessions) ==> f in sessions && sessions[f] == old(sessions)[f]
        invariant forall f :: f in sessions ==> f in old(sessions) || exists i :: 0 <= i < n && accepted[i].0 == f
      {
        AcceptOneMore(start, accepted, n, s);
        AcceptOne(accepted[n].0, accepted[n].1);
      }
      assert accepted[..|accepted|] == accepted;
    }

    /** sessions_.insert of the new session; an existing key would be kept, but there is none. */
    method AcceptOne(fd: Fd, sid: Sid)
      requires Valid() && Inv(s) && Enabled(s, Accept(fd, sid))
      modifies this
      ensures Valid() && (Inv(s) == true) && s == Next(old(s), Accept(fd, sid))
      ensures fd !in old(sessions) && sessions == old(sessions)[fd := sid]
    {
      AcceptKeepsInv(s, fd, sid);
      s := Next(s, Accept(fd, sid));
      if fd !in sessions {
        sessions := sessions[fd := sid];
      }
    }

    /** stop() of a session posts an erase task that holds a weak reference to it. */
    method PostErase(sid: Sid)
      requires Valid() && Inv(s) && sid in s.alive
      modifies this`erases, this`s
      ensures Valid() && Inv(s) && s == Next(old(s), StopSession(sid))
      ensures erases == old(erases) + [sid]
    {
      NextKeepsInv(s, StopSession(sid));
      erases := erases + [sid];
      s := Next(s, StopSession(sid));
    }

    /**
     * The oldest erase task. `life` tells whether its session could be locked, and then `fd` is that
     * session's fd. At most the entry of that session goes, and other sessions keep theirs.
     */
    method EraseTask(fd: Fd, life: bool)
      requires Valid() && Inv(s) && erases != []
      requires life <==> erases[0] in s.alive
      requires life ==> s.fdOf[erases[0]] == fd
      modifies this
      ensures Valid() && Inv(s) && s == Next(old(s), RunErase) && erases == old(erases)[1..]
      ensures forall f :: f in sessions <==> f in old(sessions) && old(sessions)[f] != old(erases)[0]
      ensures forall f :: f in sessions ==> sessions[f] == old(sessions)[f]
    {
      EraseKeepsInv(s);
      s := Next(s, RunErase);
      erases := erases[1..];
      if life {
        sessions := map f | f in sessions && f != fd :: sessions[f];
      }
    }
  }

  lemma AcceptOneMore(start: State, accepted: seq<(Fd, Sid)>, n: nat, s: State)
    requires n < |accepted| && CanAccept(s, accepted[n..]) && Run(start, Accepts(accepted[..n]), s)
    ensures var a := Accept(accepted[n].0, accepted[n].1);
            && Enabled(s, a) && CanAccept(Next(s, a), accepted[n + 1..])
            && Run(start, Accepts(accepted[..n + 1]), Next(s, a))
  {
    var a := Accept(accepted[n].0, accepted[n].1);
    assert accepted[n..][0] == accepted[n] && accepted[n..][1..] == accepted[n + 1..];
    RunStep(start, Accepts(accepted[..n]), s, a);
    assert Accepts(accepted[..n]) + [a] == Accepts(accepted[..n + 1]);
  }
}
