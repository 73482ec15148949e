/**
 * The event table of src/core.cpp and the four queued tasks that change it, over an epoll
 * instance that answers EEXIST and ENOENT like the kernel's.
 */
module EventTables {
  import opened Base

  type Fd = nat
  /** Tells two uses of one fd number apart; the code never sees it. */
  type Incarnation = nat

  /** `cb` names the incarnation whose channel installed the callback. */
  datatype Event = Event(inRegister: bool, inEpoll: bool, cb: Option<Incarnation>)

  const UNUSED := Event(false, false, None)

  const INIT_EVENT_LEN: nat := 512

  datatype Table = Table(events: seq<Event>, watched: map<Fd, Interest>)

  function InitTable(): Table {
    Table(seq(INIT_EVENT_LEN, _ => UNUSED), map[])
  }

  /** Which epoll_ctl call of a task fails for a reason other than EEXIST and ENOENT. */
  datatype Fault = NoFault | FirstFails | RetryFails

  /** The table grows by half, or to just hold `fd` when that is not enough. */
  function GrownSize(size: nat, fd: Fd): nat {
    Max(size + size / 2, fd + 1)
  }

  function RegisterFd(t: Table, fd: Fd): Table {
    var size := if fd >= |t.events| then GrownSize(|t.events|, fd) else |t.events|;
    var grown := t.events + seq(size - |t.events|, _ => UNUSED);
    t.(events := grown[fd := grown[fd].(inRegister := true)])
  }

  /** The fd is closed, which also takes it out of the epoll set. */
  function UnregisterFd(t: Table, fd: Fd): Table
    requires fd < |t.events|
  {
    if !t.events[fd].inRegister then t
    else Table(t.events[fd := UNUSED], t.watched - {fd})
  }

  /** An unregister task whose close() fails: all it may have done is the epoll deletion. */
  function FailedUnregister(t: Table, fd: Fd, fault: Fault): Table
    requires fd < |t.events|
  {
    var e := t.events[fd];
    if e.inRegister && e.inEpoll && fault != FirstFails then t.(watched := t.watched - {fd}) else t
  }

  /** Whether the fallback call of an enable task is needed. */
  predicate Disagrees(t: Table, fd: Fd)
    requires fd < |t.events|
  {
    t.events[fd].inEpoll != (fd in t.watched)
  }

  predicate EnableSucceeds(t: Table, fd: Fd, fault: Fault)
    requires fd < |t.events|
  {
    t.events[fd].inRegister && fault != FirstFails && (fault == RetryFails ==> !Disagrees(t, fd))
  }

  /** `cb` is the new callback, or None for the overload that keeps the old one. */
  function EnableFd(t: Table, fd: Fd, types: Interest, cb: Option<Incarnation>, fault: Fault): Table
    requires fd < |t.events|
  {
    if !EnableSucceeds(t, fd, fault) then t
    else
      var e := t.events[fd];
      Table(t.events[fd := e.(inEpoll := true, cb := if cb.Some? then cb else e.cb)], t.watched[fd := types])
  }

  function DisableFd(t: Table, fd: Fd, fault: Fault): Table
    requires fd < |t.events|
  {
    if !t.events[fd].inRegister || fault == FirstFails then t
    else Table(t.events[fd := t.events[fd].(inEpoll := false, cb := None)], t.watched - {fd})
  }

  datatype CtlOp = Add | Mod | Del
  datatype Errno = Ok | Eexist | Enoent | Other

  /** An epoll instance. */
  class Poller {
    var watched: map<Fd, Interest>

    constructor ()
      ensures watched == map[]
    {
      watched := map[];
    }

    method Ctl(op: CtlOp, fd: Fd, types: Interest, fails: bool) returns (err: Errno)
      modifies this
      ensures err == if fails then Other
                     else if op == Add && fd in old(watched) then Eexist
                     else if op != Add && fd !in old(watched) then Enoent
                     else Ok
      ensures watched == if err != Ok then old(watched)
                         else if op == Del then old(watched) - {fd}
                         else old(watched)[fd := types]
    {
      if fails {
        err := Other;
      } else if op == Add && fd in watched {
        err := Eexist;
      } else if op != Add && fd !in watched {
        err := Enoent;
      } else {
        err := Ok;
        watched := if op == Del then watched - {fd} else watched[fd := types];
      }
    }
  }

  /** The table with the bodies of the queued tasks. */
  class EventTable {
    var events: seq<Event>
    const poller: Poller

    ghost function Abs(): Table
      reads this, poller
    {
      Table(events, poller.watched)
    }

    constructor ()
      ensures Abs() == InitTable() && fresh(poller)
    {
      events := seq(INIT_EVENT_LEN, _ => UNUSED);
      poller := new Poller();
    }

    method RegisterTask(fd: Fd)
      modifies this
      ensures Abs() == RegisterFd(old(Abs()), fd)
    {
      if fd >= |events| {
        var newSize := |events| + |events| / 2;
        if newSize < fd + 1 {
          newSize := fd + 1;
        }
        events := events + seq(newSize - |events|, _ => UNUSED);
      } else {
        assert events == events + seq(0, _ => UNUSED);
      }
      events := events[fd := events[fd].(inRegister := true)];
    }

    /**
     * `closed` is set when the fd was closed. When close() fails the entry stays as it was, though the
     * kernel may no longer watch the fd.
     */
    method UnregisterTask(fd: Fd, fault: Fault, closeFails: bool) returns (closed: bool)
      requires fd < |events|
      modifies this, poller
      ensures closed == (old(events[fd].inRegister) && !closeFails)
      ensures Abs() == if closeFails then FailedUnregister(old(Abs()), fd, fault) else UnregisterFd(old(Abs()), fd)
    {
      closed := false;
      if events[fd].inRegister {
        if events[fd].inEpoll {
          var err := poller.Ctl(Del, fd, {}, fault == FirstFails);
        }
        if closeFails {
          assert poller.watched == FailedUnregister(old(Abs()), fd, fault).watched;
          return;
        }
        closed := true;
        // Closing the last descriptor removes it from the epoll set in any case.
        poller.watched := poller.watched - {fd};
        events := events[fd := Event(false, false, None)];
      }
    }

    /** Both overloads: `cb` is None for the one without a callback. */
    method EnableTask(fd: Fd, types: Interest, cb: Option<Incarnation>, fault: Fault) returns (ok: bool)
      requires fd < |events|
      modifies this, poller
      ensures Abs() == EnableFd(old(Abs()), fd, types, cb, fault)
      ensures ok == EnableSucceeds(old(Abs()), fd, fault)
    {
      if !events[fd].inRegister {
        return false;
      }
      var op := if events[fd].inEpoll then Mod else Add;
      var err := poller.Ctl(op, fd, types, fault == FirstFails);
      if err != Ok {
        if op == Add && err == Eexist {
          err := poller.Ctl(Mod, fd, types, fault == RetryFails);
        } else if op == Mod && err == Enoent {
          err := poller.Ctl(Add, fd, types, fault == RetryFails);
        }
        if err != Ok {
          return false;
        }
      }
      events := events[fd := events[fd].(inEpoll := true)];
      if cb.Some? {
        events := events[fd := events[fd].(cb := cb)];
      }
      ok := true;
    }

    method DisableTask(fd: Fd, fault: Fault) returns (ok: bool)
      requires fd < |events|
      modifies this, poller
      ensures Abs() == DisableFd(old(Abs()), fd, fault)
      ensures ok == (old(events[fd].inRegister) && fault != FirstFails)
    {
      if !events[fd].inRegister {
        return false;
      }
      var err := poller.Ctl(Del, fd, {}, fault == FirstFails);
      if err != Ok && err != Enoent {
        return false;
      }
      assert poller.watched == old(poller.watched) - {fd};
      events := events[fd := events[fd].(inEpoll := false)];
      events := events[fd := events[fd].(cb := None)];
      ok := true;
    }
  }

  /** Growth reaches the fd, keeps every old entry and adds unused ones. */
  lemma RegisterReachesFd(t: Table, fd: Fd)
    ensures var r := RegisterFd(t, fd);
            && fd < |r.events| && |t.events| <= |r.events| && r.watched == t.watched
            && r.events[fd].inRegister
            && (forall f :: 0 <= f < |t.events| && f != fd ==> r.events[f] == t.events[f])
            && (forall f :: |t.events| <= f < |r.events| && f != fd ==> r.events[f] == UNUSED)
            && (fd < |t.events| ==> r == t.(events := t.events[fd := t.events[fd].(inRegister := true)]))
            && (fd >= |t.events| ==> r.events[fd] == Event(true, false, None))
            && |r.events| == (if fd < |t.events| then |t.events|
                              else if |t.events| + |t.events| / 2 > fd then |t.events| + |t.events| / 2 else fd + 1)
  {
    if fd < |t.events| {
      assert t.events + seq(0, _ => UNUSED) == t.events;
    }
  }

  /** A successful enable leaves flag and kernel at the request even if they disagreed; a failed one changes nothing. */
  lemma EnableEstablishesRequest(t: Table, fd: Fd, types: Interest, cb: Option<Incarnation>, fault: Fault)
    requires fd < |t.events| && t.events[fd].inRegister
    ensures var r := EnableFd(t, fd, types, cb, fault);
            if fault == NoFault || (fault == RetryFails && !Disagrees(t, fd)) then
              && fd in r.watched && r.watched[fd] == types && r.events[fd].inEpoll && !Disagrees(r, fd)
              && r.events[fd].cb == (if cb.Some? then cb else t.events[fd].cb)
              && forall f :: f in t.watched && f != fd ==> f in r.watched && r.watched[f] == t.watched[f]
            else r == t
  {
  }

  /** An fd whose close() failed stays registered, and a later enable task watches it again although the flag is stale. */
  lemma FailedCloseIsRecoverable(t: Table, fd: Fd, types: Interest, cb: Option<Incarnation>)
    requires fd < |t.events| && t.events[fd].inRegister
    ensures var u := FailedUnregister(t, fd, NoFault);
            var r := EnableFd(u, fd, types, cb, NoFault);
            && u.events == t.events && (t.events[fd].inEpoll ==> Disagrees(u, fd))
            && fd in r.watched && r.watched[fd] == types && !Disagrees(r, fd)
  {
    EnableEstablishesRequest(FailedUnregister(t, fd, NoFault), fd, types, cb, NoFault);
  }
}
