/**
 * What the queued tasks do to the event table and to the fd numbers, over the life of each
 * channel: opened by the kernel, registered, and closed by its unregister task.
 */
module FdLives {
  import opened Base
  import opened EventTables

  /** A queued task. The code acts on `fd`; `inc` records which channel posted it. */
  datatype Task =
    | User(id: nat)
    | Register(fd: Fd, inc: Incarnation)
    | Unregister(fd: Fd, inc: Incarnation)
    | Enable(fd: Fd, inc: Incarnation, types: Interest, withCb: bool)
    | Disable(fd: Fd, inc: Incarnation)

  /** How far a channel has got. */
  datatype Life = Opened | Registered | Closed

  type Lives = map<Incarnation, Life>
  type Names = map<Incarnation, Fd>

  /** A channel's tasks come in the order register, any enables and disables, unregister. */
  predicate Legal(t: Task, lives: Lives, fdOf: Names) {
    t.User? || (
      && t.inc in lives && t.inc in fdOf && fdOf[t.inc] == t.fd
      && lives[t.inc] == if t.Register? then Opened else Registered)
  }

  function Advance(t: Task, lives: Lives): Lives {
    match t
    case Register(_, i) => lives[i := Registered]
    case Unregister(_, i) => lives[i := Closed]
    case _ => lives
  }

  /** The event table, the kernel's open fds, and the stage every channel's executed tasks have reached. */
  datatype Fds = Fds(table: Table, open: map<Fd, Incarnation>, fdOf: Names, lives: Lives)

  const NO_FDS := Fds(InitTable(), map[], map[], map[])

  function OpenFd(d: Fds, fd: Fd, inc: Incarnation): Fds {
    d.(open := d.open[fd := inc], fdOf := d.fdOf[inc := fd], lives := d.lives[inc := Opened])
  }

  /** The table is indexed without a bounds check by all but register tasks. */
  predicate InRange(d: Fds, t: Task) {
    t.User? || t.Register? || t.fd < |d.table.events|
  }

  /** Whether the task closes an fd. */
  predicate Closing(d: Fds, t: Task)
    requires InRange(d, t)
  {
    t.Unregister? && d.table.events[t.fd].inRegister && t.fd in d.open
  }

  /** The effect of one queued task. */
  function Execute(d: Fds, t: Task, fault: Fault): Fds
    requires InRange(d, t)
  {
    var table := match t
      case User(_) => d.table
      case Register(fd, _) => RegisterFd(d.table, fd)
      case Unregister(fd, _) => UnregisterFd(d.table, fd)
      case Enable(fd, inc, types, withCb) => EnableFd(d.table, fd, types, if withCb then Some(inc) else None, fault)
      case Disable(fd, _) => DisableFd(d.table, fd, fault);
    Fds(table, if Closing(d, t) then d.open - {t.fd} else d.open, d.fdOf, Advance(t, d.lives))
  }

  /** The open fds are those of the incarnations not yet closed. */
  ghost predicate OpenFollowsLives(d: Fds) {
    && d.lives.Keys == d.fdOf.Keys
    && (forall f :: f in d.open ==> d.open[f] in d.lives && d.lives[d.open[f]] != Closed && d.fdOf[d.open[f]] == f)
    && (forall i :: i in d.lives && d.lives[i] != Closed ==> d.fdOf[i] in d.open && d.open[d.fdOf[i]] == i)
  }

  /** Flags, callback and kernel agree, and a callback belongs to the incarnation open on its fd. */
  ghost predicate EventFollowsLives(d: Fds, f: Fd)
    requires f < |d.table.events|
  {
    var e := d.table.events[f];
    && (e.inRegister <==> f in d.open && d.open[f] in d.lives && d.lives[d.open[f]] == Registered)
    && (e.inEpoll ==> e.inRegister)
    && (e.inEpoll <==> f in d.table.watched)
    && (e.cb.Some? ==> e.inEpoll && f in d.open && e.cb.value == d.open[f])
  }

  ghost predicate TableFollowsLives(d: Fds) {
    && d.lives.Keys == d.fdOf.Keys
    && (forall f :: 0 <= f < |d.table.events| ==> EventFollowsLives(d, f))
    && (forall i :: i in d.lives && d.lives[i] == Registered ==> d.fdOf[i] < |d.table.events|)
    && (forall f :: f in d.table.watched ==> f < |d.table.events| && d.table.events[f].inEpoll)
  }

  ghost predicate Consistent(d: Fds) {
    OpenFollowsLives(d) && TableFollowsLives(d)
  }

  lemma OpenKeepsConsistent(d: Fds, fd: Fd, inc: Incarnation)
    requires Consistent(d) && fd !in d.open && inc !in d.lives
    ensures Consistent(OpenFd(d, fd, inc))
  {
    var e := OpenFd(d, fd, inc);
    forall f | 0 <= f < |e.table.events|
      ensures EventFollowsLives(e, f)
    {
      assert EventFollowsLives(d, f);
    }
  }

  /** A task in its turn finds its own incarnation open on its fd, and its index in range. */
  lemma LegalTaskIsInRange(d: Fds, t: Task)
    requires Consistent(d) && Legal(t, d.lives, d.fdOf) && !t.User?
    ensures InRange(d, t) && t.fd in d.open && d.open[t.fd] == t.inc
    ensures !t.Register? ==> d.table.events[t.fd].inRegister
  {
    if !t.Register? {
      assert EventFollowsLives(d, t.fd);
    }
  }

  lemma RegisterKeepsConsistent(d: Fds, t: Task, fault: Fault)
    requires Consistent(d) && t.Register? && Legal(t, d.lives, d.fdOf)
    ensures Consistent(Execute(d, t, fault))
  {
    var e := Execute(d, t, fault);
    RegisterReachesFd(d.table, t.fd);
    forall f | 0 <= f < |e.table.events|
      ensures EventFollowsLives(e, f)
    {
      if f < |d.table.events| {
        assert EventFollowsLives(d, f);
      }
    }
  }

  lemma UnregisterKeepsConsistent(d: Fds, t: Task, fault: Fault)
    requires Consistent(d) && t.Unregister? && Legal(t, d.lives, d.fdOf)
    ensures InRange(d, t) && Closing(d, t) && Consistent(Execute(d, t, fault))
  {
    LegalTaskIsInRange(d, t);
    var e := Execute(d, t, fault);
    forall f | 0 <= f < |e.table.events|
      ensures EventFollowsLives(e, f)
    {
      assert EventFollowsLives(d, f);
    }
  }

  lemma EnableDisableKeepConsistent(d: Fds, t: Task, fault: Fault)
    requires Consistent(d) && (t.Enable? || t.Disable?) && Legal(t, d.lives, d.fdOf)
    ensures InRange(d, t) && Consistent(Execute(d, t, fault))
  {
    LegalTaskIsInRange(d, t);
    var e := Execute(d, t, fault);
    forall f | 0 <= f < |e.table.events|
      ensures EventFollowsLives(e, f)
    {
      assert EventFollowsLives(d, f);
    }
  }

  /** Every task in its turn keeps table, kernel and lives in step. */
  lemma ExecuteKeepsConsistent(d: Fds, t: Task, fault: Fault)
    requires Consistent(d) && Legal(t, d.lives, d.fdOf)
    ensures InRange(d, t) && Consistent(Execute(d, t, fault))
  {
    match t
    case User(_) =>
      assert Execute(d, t, fault) == d;
    case Register(_, _) => RegisterKeepsConsistent(d, t, fault);
    case Unregister(_, _) => UnregisterKeepsConsistent(d, t, fault);
    case _ => EnableDisableKeepConsistent(d, t, fault);
  }

  /** The table entry of a callback: it is in range and belongs to incarnation `inc`, if there is one. */
  predicate CallbackIs(d: Fds, fd: Fd, inc: Incarnation) {
    fd < |d.table.events| && (d.table.events[fd].cb.Some? ==> d.table.events[fd].cb.value == inc)
  }

  /** A task of another fd or of incarnation `inc` itself cannot give `fd` another owner's callback. */
  lemma ExecuteKeepsCallback(d: Fds, t: Task, fault: Fault, fd: Fd, inc: Incarnation)
    requires InRange(d, t) && CallbackIs(d, fd, inc)
    requires t.User? || t.fd != fd || t.inc == inc
    ensures CallbackIs(Execute(d, t, fault), fd, inc)
  {
    if t.Register? {
      RegisterReachesFd(d.table, t.fd);
    }
  }

  // ---------------------------------------------------------------- sequences of queued tasks

  /** The tasks of `p` can run in order from `lives`, each in its turn. */
  predicate WellFormed(p: seq<Task>, lives: Lives, fdOf: Names)
    decreases |p|
  {
    p == [] || (Legal(p[0], lives, fdOf) && WellFormed(p[1..], Advance(p[0], lives), fdOf))
  }

  function Replay(p: seq<Task>, lives: Lives): Lives
    decreases |p|
  {
    if p == [] then lives else Replay(p[1..], Advance(p[0], lives))
  }

  lemma {:induction false} WellFormedAppend(p: seq<Task>, t: Task, lives: Lives, fdOf: Names)
    requires WellFormed(p, lives, fdOf) && Legal(t, Replay(p, lives), fdOf)
    ensures WellFormed(p + [t], lives, fdOf)
    ensures Replay(p + [t], lives) == Advance(t, Replay(p, lives))
    decreases |p|
  {
    if p == [] {
      assert p + [t] == [t] && [t][1..] == [];
    } else {
      assert (p + [t])[1..] == p[1..] + [t];
      WellFormedAppend(p[1..], t, Advance(p[0], lives), fdOf);
    }
  }

  /** A new incarnation does not disturb the tasks already queued. */
  lemma {:induction false} WellFormedOpen(p: seq<Task>, lives: Lives, fdOf: Names, inc: Incarnation, fd: Fd)
    requires WellFormed(p, lives, fdOf) && inc !in lives && inc !in fdOf
    ensures WellFormed(p, lives[inc := Opened], fdOf[inc := fd])
    ensures Replay(p, lives[inc := Opened]) == Replay(p, lives)[inc := Opened]
    decreases |p|
  {
    if p != [] {
      assert Advance(p[0], lives[inc := Opened]) == Advance(p[0], lives)[inc := Opened];
      WellFormedOpen(p[1..], Advance(p[0], lives), fdOf, inc, fd);
    }
  }

  /** Every queued channel task finds its incarnation not yet closed. */
  lemma {:induction false} QueuedTasksAreAlive(p: seq<Task>, lives: Lives, fdOf: Names, k: nat)
    requires WellFormed(p, lives, fdOf) && k < |p| && !p[k].User?
    ensures p[k].inc in lives && lives[p[k].inc] != Closed
    ensures p[k].inc in fdOf && fdOf[p[k].inc] == p[k].fd
    decreases k
  {
    if k > 0 {
      QueuedTasksAreAlive(p[1..], Advance(p[0], lives), fdOf, k - 1);
    }
  }

  // ---------------------------------------------------------------- closing what is left

  /** The incarnations open on registered fds, in fd order, as ~Loop closes them. */
  function RegisteredFrom(d: Fds, from: nat): seq<Incarnation>
    decreases |d.table.events| - from
  {
    if from >= |d.table.events| then []
    else
      (if d.table.events[from].inRegister && from in d.open then [d.open[from]] else []) + RegisteredFrom(d, from + 1)
  }

  predicate Distinct<T(==)>(s: seq<T>) {
    forall i, j :: 0 <= i < j < |s| ==> s[i] != s[j]
  }

  /** ~Loop closes every registered incarnation once and no other. */
  lemma {:induction false} RegisteredFromIsExact(d: Fds, from: nat)
    requires Consistent(d)
    ensures var r := RegisteredFrom(d, from);
            && Distinct(r)
            && forall i :: i in r <==> i in d.lives && d.lives[i] == Registered && d.fdOf[i] >= from
    decreases |d.table.events| - from
  {
    if from < |d.table.events| {
      assert EventFollowsLives(d, from);
      RegisteredFromIsExact(d, from + 1);
      var r := RegisteredFrom(d, from);
      var tail := RegisteredFrom(d, from + 1);
      if d.table.events[from].inRegister {
        assert r == [d.open[from]] + tail;
        assert d.open[from] !in tail;
      } else {
        assert r == tail;
      }
    }
  }

  lemma DistinctAppend<T>(a: seq<T>, b: seq<T>)
    requires Distinct(a) && Distinct(b)
    requires forall x :: x in a ==> x !in b
    ensures Distinct(a + b)
  {
    forall i, j | 0 <= i < j < |a + b|
      ensures (a + b)[i] != (a + b)[j]
    {
      if i < |a| <= j {
        assert a[i] in a && b[j - |a|] in b;
      }
    }
  }

  // ---------------------------------------------------------------- what a history of tasks asks for

  /** A task that has run, with what epoll did to it. */
  datatype Deed = Deed(task: Task, fault: Fault)

  /** The events a channel wants to be told of, and whether it has a callback for them. */
  datatype Request = Request(types: Option<Interest>, cb: bool)

  const NOTHING := Request(None, false)

  /**
   * What channel `inc` has asked for: its last enable task, unless its last disable task or its end came
   * later. A task that failed in epoll does not count. An enable without a callback keeps the old one.
   */
  function Asked(done: seq<Deed>, inc: Incarnation): Request {
    if done == [] then NOTHING
    else
      var before, d := Asked(done[..|done| - 1], inc), done[|done| - 1];
      match d.task
      case Enable(_, i, types, withCb) =>
        if i == inc && d.fault != FirstFails then Request(Some(types), withCb || before.cb) else before
      case Disable(_, i) => if i == inc && d.fault != FirstFails then NOTHING else before
      case Unregister(_, i) => if i == inc then NOTHING else before
      case Register(_, i) => before
      case User(_) => before
  }

  lemma AskedStep(done: seq<Deed>, d: Deed, inc: Incarnation)
    ensures Asked(done + [d], inc) ==
            match d.task
            case Enable(_, i, types, withCb) =>
              if i == inc && d.fault != FirstFails then Request(Some(types), withCb || Asked(done, inc).cb) else Asked(done, inc)
            case Disable(_, i) => if i == inc && d.fault != FirstFails then NOTHING else Asked(done, inc)
            case Unregister(_, i) => if i == inc then NOTHING else Asked(done, inc)
            case Register(_, i) => Asked(done, inc)
            case User(_) => Asked(done, inc)
  {
    assert (done + [d])[..|done|] == done;
  }

  /** The tasks, each met by an epoll that does not fail. */
  function Smooth(tasks: seq<Task>): (done: seq<Deed>)
    ensures |done| == |tasks|
  {
    seq(|tasks|, i requires 0 <= i < |tasks| => Deed(tasks[i], NoFault))
  }

  lemma SmoothStep(tasks: seq<Task>, t: Task, inc: Incarnation)
    ensures Asked(Smooth(tasks + [t]), inc) == Asked(Smooth(tasks) + [Deed(t, NoFault)], inc)
  {
    assert Smooth(tasks + [t]) == Smooth(tasks) + [Deed(t, NoFault)];
  }

  function TasksOf(done: seq<Deed>): (tasks: seq<Task>)
    ensures |tasks| == |done|
  {
    seq(|done|, i requires 0 <= i < |done| => done[i].task)
  }

  /** Only tasks that failed in epoll ask for less than was posted. */
  lemma {:induction false} UnfailedAskAll(done: seq<Deed>, inc: Incarnation)
    requires forall d :: d in done ==> d.fault != FirstFails
    ensures Asked(done, inc) == Asked(Smooth(TasksOf(done)), inc)
    decreases |done|
  {
    if done != [] {
      var front, d := done[..|done| - 1], done[|done| - 1];
      assert done == front + [d];
      UnfailedAskAll(front, inc);
      assert TasksOf(done) == TasksOf(front) + [d.task];
      SmoothStep(TasksOf(front), d.task, inc);
      AskedStep(front, d, inc);
      AskedStep(Smooth(TasksOf(front)), Deed(d.task, NoFault), inc);
    }
  }

  /** The table entry and the kernel's interest of `fd` are what `inc` has asked for. */
  ghost predicate Serves(t: Table, fd: Fd, inc: Incarnation, r: Request) {
    && fd < |t.events|
    && (r.types.Some? <==> fd in t.watched)
    && (r.types.Some? ==> t.watched[fd] == r.types.value)
    && t.events[fd].cb == if r.cb then Some(inc) else None
  }

  /** Every registered channel is served as it asked, and no other has asked for anything. */
  ghost predicate RequestsServed(d: Fds, done: seq<Deed>) {
    forall inc ::
      if inc in d.lives && d.lives[inc] == Registered then
        inc in d.fdOf && Serves(d.table, d.fdOf[inc], inc, Asked(done, inc))
      else Asked(done, inc) == NOTHING
  }

  /** The channel of the task is served afterwards. */
  lemma ExecuteServesOwn(d: Fds, t: Task, fault: Fault, r: Request)
    requires Consistent(d) && Legal(t, d.lives, d.fdOf) && !t.User? && InRange(d, t)
    requires if t.Register? then r == NOTHING else Serves(d.table, t.fd, t.inc, r)
    ensures var e := Execute(d, t, fault);
            match t
            case Register(_, _) => Serves(e.table, t.fd, t.inc, NOTHING)
            case Unregister(_, _) => true
            case Enable(_, _, types, withCb) =>
              Serves(e.table, t.fd, t.inc, if fault != FirstFails then Request(Some(types), withCb || r.cb) else r)
            case Disable(_, _) => Serves(e.table, t.fd, t.inc, if fault != FirstFails then NOTHING else r)
  {
    LegalTaskIsInRange(d, t);
    if t.Register? {
      RegisterReachesFd(d.table, t.fd);
      if t.fd < |d.table.events| {
        assert EventFollowsLives(d, t.fd);
      }
    } else {
      assert EventFollowsLives(d, t.fd);
    }
  }

  /** Other channels are served as before. */
  lemma ExecuteServesOthers(d: Fds, t: Task, fault: Fault, fd: Fd, inc: Incarnation, r: Request)
    requires InRange(d, t) && Serves(d.table, fd, inc, r) && (t.User? || t.fd != fd)
    ensures Serves(Execute(d, t, fault).table, fd, inc, r)
  {
    if t.Register? {
      RegisterReachesFd(d.table, t.fd);
    }
  }

  lemma ExecuteKeepsRequest(d: Fds, t: Task, fault: Fault, done: seq<Deed>, inc: Incarnation)
    requires Consistent(d) && Legal(t, d.lives, d.fdOf) && InRange(d, t) && RequestsServed(d, done)
    ensures var e, r := Execute(d, t, fault), Asked(done + [Deed(t, fault)], inc);
            if inc in e.lives && e.lives[inc] == Registered then inc in e.fdOf && Serves(e.table, e.fdOf[inc], inc, r)
            else r == NOTHING
  {
    AskedStep(done, Deed(t, fault), inc);
    if !t.User? && t.inc == inc {
      ExecuteServesOwn(d, t, fault, Asked(done, inc));
    } else if inc in d.lives && d.lives[inc] == Registered {
      if !t.User? {
        LegalTaskIsInRange(d, t);
        assert d.open[d.fdOf[inc]] == inc;
      }
      ExecuteServesOthers(d, t, fault, d.fdOf[inc], inc, Asked(done, inc));
    }
  }

  /** Every task in its turn leaves all channels served as they have asked. */
  lemma ExecuteServes(d: Fds, t: Task, fault: Fault, done: seq<Deed>)
    requires Consistent(d) && Legal(t, d.lives, d.fdOf) && InRange(d, t) && RequestsServed(d, done)
    ensures RequestsServed(Execute(d, t, fault), done + [Deed(t, fault)])
  {
    forall inc
      ensures var e, r := Execute(d, t, fault), Asked(done + [Deed(t, fault)], inc);
              if inc in e.lives && e.lives[inc] == Registered then inc in e.fdOf && Serves(e.table, e.fdOf[inc], inc, r)
              else r == NOTHING
    {
      ExecuteKeepsRequest(d, t, fault, done, inc);
    }
  }
}
