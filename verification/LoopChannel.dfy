/**
 * LoopChannel of src/core.cpp: the owner of a registered fd. Construction posts the register task,
 * destruction the unregister task, and ownership moves between objects. Over any use of any number
 * of channels the tasks they post continue the life of their incarnation, as the loop expects.
 */
module LoopChannels {
  import opened Base
  import opened EventTables
  import opened FdLives

  type ChannelId = nat

  /** What a channel owns; Empty is the moved-from pair of -1 and nullptr. */
  datatype Handle = Empty | Owns(fd: Fd, inc: Incarnation)

  /** The living channel objects, the stage each incarnation has posted, and the posts. */
  datatype State = State(channels: map<ChannelId, Handle>, lives: Lives, fdOf: Names, posted: seq<Task>)

  const INIT := State(map[], map[], map[], [])

  datatype Action =
    | Open(fd: Fd, inc: Incarnation)               // the kernel hands out an fd
    | Construct(id: ChannelId, inc: Incarnation)
    | MoveConstruct(id: ChannelId, from: ChannelId)
    | MoveAssign(to: ChannelId, from: ChannelId)
    | UpdateEvent(id: ChannelId, types: Interest, withCb: bool)
    | DisableEvent(id: ChannelId)
    | Destruct(id: ChannelId)

  /** A channel is constructed once for each fd received. */
  predicate Enabled(s: State, a: Action) {
    match a
    case Open(_, inc) => inc !in s.lives
    case Construct(id, inc) => id !in s.channels && inc in s.lives && s.lives[inc] == Opened && inc in s.fdOf
    case MoveConstruct(id, from) => id !in s.channels && from in s.channels
    case MoveAssign(to, from) => to in s.channels && from in s.channels
    case UpdateEvent(id, _, _) => id in s.channels
    case DisableEvent(id) => id in s.channels
    case Destruct(id) => id in s.channels
  }

  /** The tasks the step posts. */
  function Posts(s: State, a: Action): seq<Task>
    requires Enabled(s, a)
  {
    match a
    case Construct(_, inc) => [Register(s.fdOf[inc], inc)]
    case UpdateEvent(id, types, withCb) =>
      (match s.channels[id] case Empty => [] case Owns(fd, inc) => [Enable(fd, inc, types, withCb)])
    case DisableEvent(id) =>
      (match s.channels[id] case Empty => [] case Owns(fd, inc) => [Disable(fd, inc)])
    case Destruct(id) =>
      (match s.channels[id] case Empty => [] case Owns(fd, inc) => [Unregister(fd, inc)])
    case Open(_, _) => []
    case MoveConstruct(_, _) => []
    case MoveAssign(_, _) => []
  }

  function Moved(s: State, a: Action): State
    requires Enabled(s, a)
  {
    match a
    case Open(fd, inc) => s.(lives := s.lives[inc := Opened], fdOf := s.fdOf[inc := fd])
    case Construct(id, inc) => s.(channels := s.channels[id := Owns(s.fdOf[inc], inc)])
    case MoveConstruct(id, from) => s.(channels := s.channels[id := s.channels[from]][from := Empty])
    case MoveAssign(to, from) => s.(channels := s.channels[to := s.channels[from]][from := s.channels[to]])
    case Destruct(id) => s.(channels := s.channels - {id})
    case UpdateEvent(_, _, _) => s
    case DisableEvent(_) => s
  }

  function Next(s: State, a: Action): State
    requires Enabled(s, a)
  {
    var posts := Posts(s, a);
    Moved(s, a).(posted := s.posted + posts,
                 lives := if posts == [] then Moved(s, a).lives else Advance(posts[0], s.lives))
  }

  predicate Run(s: State, acts: seq<Action>, t: State)
    decreases |acts|
  {
    if acts == [] then s == t
    else Enabled(s, acts[0]) && Run(Next(s, acts[0]), acts[1..], t)
  }

  /** What a channel owns is registered. */
  ghost predicate OwnedAreRegistered(s: State) {
    && s.lives.Keys == s.fdOf.Keys
    && forall c :: c in s.channels && s.channels[c].Owns? ==>
         var h := s.channels[c];
         h.inc in s.lives && s.lives[h.inc] == Registered && s.fdOf[h.inc] == h.fd
  }

  /** No two channels own the same incarnation. */
  ghost predicate OneOwner(channels: map<ChannelId, Handle>) {
    forall c, d :: c in channels && d in channels && c != d && channels[c].Owns? && channels[d].Owns? ==>
      channels[c].inc != channels[d].inc
  }

  /** An incarnation is registered exactly while one channel owns it. */
  ghost predicate Owned(s: State) {
    && OwnedAreRegistered(s)
    && OneOwner(s.channels)
    && forall i :: i in s.lives && s.lives[i] == Registered ==> HasOwner(s.channels, i)
  }

  ghost predicate HasOwner(channels: map<ChannelId, Handle>, i: Incarnation) {
    exists c :: c in channels && channels[c].Owns? && channels[c].inc == i
  }

  lemma OwnersSurvive(s: State, a: Action, i: Incarnation)
    requires Owned(s) && Enabled(s, a) && HasOwner(s.channels, i)
    requires a.Destruct? && s.channels[a.id].Owns? ==> s.channels[a.id].inc != i
    ensures HasOwner(Next(s, a).channels, i)
  {
    var c :| c in s.channels && s.channels[c].Owns? && s.channels[c].inc == i;
    var t := Next(s, a);
    var holder :=
      match a
      case MoveConstruct(id, from) => if c == from then id else c
      case MoveAssign(to, from) => if c == from then to else if c == to then from else c
      case _ => c;
    assert t.channels[holder] == s.channels[c];
  }

  lemma NextKeepsHandles(s: State, a: Action)
    requires OwnedAreRegistered(s) && OneOwner(s.channels) && Enabled(s, a)
    ensures OwnedAreRegistered(Next(s, a)) && OneOwner(Next(s, a).channels)
  {
  }

  lemma NextKeepsOwned(s: State, a: Action)
    requires Owned(s) && Enabled(s, a)
    ensures Owned(Next(s, a))
  {
    NextKeepsHandles(s, a);
    var t := Next(s, a);
    forall i | i in t.lives && t.lives[i] == Registered
      ensures HasOwner(t.channels, i)
    {
      if a.Construct? && a.inc == i {
        assert t.channels[a.id] == Owns(s.fdOf[i], i);
      } else {
        OwnersSurvive(s, a, i);
      }
    }
  }

  lemma {:induction false} RunKeepsOwned(s: State, acts: seq<Action>, t: State)
    requires Owned(s) && Run(s, acts, t)
    ensures Owned(t)
    decreases |acts|
  {
    if acts != [] {
      NextKeepsOwned(s, acts[0]);
      RunKeepsOwned(Next(s, acts[0]), acts[1..], t);
    }
  }

  /** Whatever is constructed, moved, swapped and destroyed, a channel only posts what the loop accepts from its incarnation. */
  lemma PostsAreLegal(acts: seq<Action>, s: State, a: Action)
    requires Run(INIT, acts, s) && Enabled(s, a)
    ensures forall t :: t in Posts(s, a) ==> Legal(t, s.lives, s.fdOf)
  {
    RunKeepsOwned(INIT, acts, s);
  }

  /** An fd handed to a channel is unregistered exactly when no channel owns it any more. */
  lemma RegisteredIffOwned(acts: seq<Action>, s: State, i: Incarnation)
    requires Run(INIT, acts, s) && i in s.lives && s.lives[i] != Opened
    ensures s.lives[i] == Closed <==> !HasOwner(s.channels, i)
  {
    RunKeepsOwned(INIT, acts, s);
  }

  function Unregisters(posted: seq<Task>, i: Incarnation): nat {
    if posted == [] then 0
    else Unregisters(posted[..|posted| - 1], i) +
         if posted[|posted| - 1].Unregister? && posted[|posted| - 1].inc == i then 1 else 0
  }

  ghost predicate UnregistersFollowLives(s: State) {
    forall i :: Unregisters(s.posted, i) == if i in s.lives && s.lives[i] == Closed then 1 else 0
  }

  /** The step destroys the owner of `i`. */
  predicate Frees(s: State, a: Action, i: Incarnation)
    requires Enabled(s, a)
  {
    a.Destruct? && s.channels[a.id].Owns? && s.channels[a.id].inc == i
  }

  lemma UnregistersStep(s: State, a: Action, i: Incarnation)
    requires Owned(s) && Enabled(s, a)
    ensures Unregisters(Next(s, a).posted, i) ==
            Unregisters(s.posted, i) + if Frees(s, a, i) then 1 else 0
  {
    var posts := Posts(s, a);
    if posts == [] {
      assert s.posted + posts == s.posted;
    } else {
      assert (s.posted + posts)[..|s.posted|] == s.posted;
    }
  }

  lemma ClosedStep(s: State, a: Action, i: Incarnation)
    requires OwnedAreRegistered(s) && Enabled(s, a)
    ensures var t := Next(s, a);
            && (i in t.lives && t.lives[i] == Closed <==> (i in s.lives && s.lives[i] == Closed) || Frees(s, a, i))
            && (Frees(s, a, i) ==> s.lives[i] == Registered)
  {
  }

  lemma NextKeepsUnregisters(s: State, a: Action)
    requires Owned(s) && UnregistersFollowLives(s) && Enabled(s, a)
    ensures UnregistersFollowLives(Next(s, a))
  {
    var t := Next(s, a);
    forall i
      ensures Unregisters(t.posted, i) == if i in t.lives && t.lives[i] == Closed then 1 else 0
    {
      UnregistersStep(s, a, i);
      ClosedStep(s, a, i);
    }
  }

  lemma {:induction false} RunKeepsUnregisters(s: State, acts: seq<Action>, t: State)
    requires Owned(s) && UnregistersFollowLives(s) && Run(s, acts, t)
    ensures UnregistersFollowLives(t)
    decreases |acts|
  {
    if acts != [] {
      NextKeepsUnregisters(s, acts[0]);
      NextKeepsOwned(s, acts[0]);
      RunKeepsUnregisters(Next(s, acts[0]), acts[1..], t);
    }
  }

  /** Each registered fd gets one unregister task, when its last owner is destroyed, and never a second. */
  lemma UnregisteredOnce(acts: seq<Action>, s: State, i: Incarnation)
    requires Run(INIT, acts, s)
    ensures Unregisters(s.posted, i) <= 1
    ensures i in s.lives && s.lives[i] != Opened ==> (Unregisters(s.posted, i) == 1 <==> !HasOwner(s.channels, i))
  {
    RunKeepsUnregisters(INIT, acts, s);
    if i in s.lives && s.lives[i] != Opened {
      RegisteredIffOwned(acts, s, i);
    }
  }

  // ---------------------------------------------------------------- what is asked of the loop

  /** Channel `id` owns incarnation `i`. */
  predicate Holds(s: State, id: ChannelId, i: Incarnation) {
    id in s.channels && s.channels[id].Owns? && s.channels[id].inc == i
  }

  /** What the owner of `i` wants after the step: an update sets the types, and a callback stays until a disable. */
  function Wanted(s: State, a: Action, i: Incarnation, before: Request): Request {
    match a
    case UpdateEvent(id, types, withCb) => if Holds(s, id, i) then Request(Some(types), withCb || before.cb) else before
    case DisableEvent(id) => if Holds(s, id, i) then NOTHING else before
    case Destruct(id) => if Holds(s, id, i) then NOTHING else before
    case _ => before
  }

  /** What the owners of `i` have wanted last, over the steps `acts` from `s`. */
  function WantedBy(s: State, acts: seq<Action>, i: Incarnation, before: Request): Request
    decreases |acts|
  {
    if acts == [] || !Enabled(s, acts[0]) then before
    else WantedBy(Next(s, acts[0]), acts[1..], i, Wanted(s, acts[0], i, before))
  }

  lemma StepAsks(s: State, a: Action, i: Incarnation)
    requires Enabled(s, a)
    ensures Asked(Smooth(Next(s, a).posted), i) == Wanted(s, a, i, Asked(Smooth(s.posted), i))
  {
    var posts := Posts(s, a);
    if posts == [] {
      assert s.posted + posts == s.posted;
    } else {
      assert posts == [posts[0]];
      SmoothStep(s.posted, posts[0], i);
      AskedStep(Smooth(s.posted), Deed(posts[0], NoFault), i);
    }
  }

  lemma {:induction false} RunAsks(s: State, acts: seq<Action>, t: State, i: Incarnation)
    requires Run(s, acts, t)
    ensures Asked(Smooth(t.posted), i) == WantedBy(s, acts, i, Asked(Smooth(s.posted), i))
    decreases |acts|
  {
    if acts != [] {
      StepAsks(s, acts[0], i);
      RunAsks(Next(s, acts[0]), acts[1..], t, i);
    }
  }

  /**
   * The tasks posted for an incarnation ask the loop for what its owners have wanted last, whichever
   * objects those were.
   */
  lemma PostsAskAsWanted(acts: seq<Action>, t: State, i: Incarnation)
    requires Run(INIT, acts, t)
    ensures Asked(Smooth(t.posted), i) == WantedBy(INIT, acts, i, NOTHING)
  {
    RunAsks(INIT, acts, t, i);
  }

  /** The last enable task of `i`. */
  function LastEnable(posted: seq<Task>, i: Incarnation): Option<(Interest, bool)> {
    if posted == [] then None
    else
      var t := posted[|posted| - 1];
      if t.Enable? && t.inc == i then Some((t.types, t.withCb)) else LastEnable(posted[..|posted| - 1], i)
  }

  /** The last update of an owner of `i`, over the steps `acts` from `s`. */
  function LastUpdate(s: State, acts: seq<Action>, i: Incarnation, before: Option<(Interest, bool)>): Option<(Interest, bool)>
    decreases |acts|
  {
    if acts == [] || !Enabled(s, acts[0]) then before
    else
      var a := acts[0];
      LastUpdate(Next(s, a), acts[1..], i, if a.UpdateEvent? && Holds(s, a.id, i) then Some((a.types, a.withCb)) else before)
  }

  lemma StepEnables(s: State, a: Action, i: Incarnation)
    requires Enabled(s, a)
    ensures LastEnable(Next(s, a).posted, i) ==
            if a.UpdateEvent? && Holds(s, a.id, i) then Some((a.types, a.withCb)) else LastEnable(s.posted, i)
  {
    var posts := Posts(s, a);
    if posts == [] {
      assert s.posted + posts == s.posted;
    } else {
      assert (s.posted + posts)[..|s.posted|] == s.posted;
    }
  }

  lemma {:induction false} RunEnables(s: State, acts: seq<Action>, t: State, i: Incarnation)
    requires Run(s, acts, t)
    ensures LastEnable(t.posted, i) == LastUpdate(s, acts, i, LastEnable(s.posted, i))
    decreases |acts|
  {
    if acts != [] {
      StepEnables(s, acts[0], i);
      RunEnables(Next(s, acts[0]), acts[1..], t, i);
    }
  }

  /** The last enable task posted for an incarnation carries the types and the callback of the last update of its owner. */
  lemma LastEnableIsLastUpdate(acts: seq<Action>, t: State, i: Incarnation)
    requires Run(INIT, acts, t)
    ensures LastEnable(t.posted, i) == LastUpdate(INIT, acts, i, None)
  {
    RunEnables(INIT, acts, t, i);
  }

  // ---------------------------------------------------------------- imperative form

  /** The posting side of a loop. */
  class Inbox {
    var posted: seq<Task>

    constructor ()
      ensures posted == []
    {
      posted := [];
    }
  }

  /** All channels of a program, as the relation above sees them. */
  class World {
    ghost var s: State

    constructor ()
      ensures s == INIT
    {
      s := INIT;
    }

    /** The kernel hands out an fd under a new incarnation. */
    ghost method Opens(fd: Fd, inc: Incarnation)
      requires Enabled(s, Open(fd, inc))
      modifies this
      ensures s == Next(old(s), Open(fd, inc))
    {
      s := Next(s, Open(fd, inc));
    }
  }

  /** `inc` only names the owner of the fd in the posts; `id` is the object in the ghost state of the world. */
  class LoopChannel {
    var inLoop: Inbox?
    var fd: int
    var inc: Incarnation
    var recorded: Interest      // event_types_
    ghost const world: World
    ghost const id: ChannelId

    ghost predicate Valid()
      reads this, world
    {
      fd >= -1 && id in world.s.channels && world.s.channels[id] == Value()
    }

    /** What the channel owns. */
    function Value(): Handle
      reads this
    {
      if fd >= 0 && inLoop != null then Owns(fd, inc) else Empty
    }

    constructor (loop: Inbox, fd: Fd, inc: Incarnation, ghost world: World, ghost id: ChannelId)
      requires Enabled(world.s, Construct(id, inc)) && world.s.fdOf[inc] == fd
      modifies loop, world
      ensures Valid() && Value() == Owns(fd, inc) && inLoop == loop && this.world == world && this.id == id
      ensures world.s == Next(old(world.s), Construct(id, inc))
      ensures loop.posted == old(loop.posted) + [Register(fd, inc)] == old(loop.posted) + Posts(old(world.s), Construct(id, inc))
    {
      this.inLoop, this.fd, this.inc, this.recorded := loop, fd, inc, {};
      this.world, this.id := world, id;
      new;
      world.s := Next(world.s, Construct(id, inc));
      loop.posted := loop.posted + [Register(fd, inc)];
    }

    /** The recorded interest is not moved. */
    constructor Move(other: LoopChannel, ghost id: ChannelId)
      requires other.Valid() && Enabled(other.world.s, MoveConstruct(id, other.id))
      modifies other, other.world
      ensures world == other.world && this.id == id && Valid() && other.Valid()
      ensures world.s == Next(old(other.world.s), MoveConstruct(id, other.id))
      ensures Value() == old(other.Value()) && other.Value() == Empty
      ensures inLoop == old(other.inLoop) && recorded == {} && other.recorded == old(other.recorded)
    {
      inLoop, fd, inc, recorded := other.inLoop, other.fd, other.inc, {};
      this.world, this.id := other.world, id;
      new;
      world.s := Next(world.s, MoveConstruct(id, other.id));
      other.fd := -1;
      other.inLoop := null;
    }

    /** Move assignment swaps, so the old fd lives on in `other`. */
    method Assign(other: LoopChannel)
      requires Valid() && other.Valid() && world == other.world && (id == other.id ==> this == other)
      modifies this, other, world
      ensures Valid() && other.Valid() && world.s == Next(old(world.s), MoveAssign(id, other.id))
      ensures Value() == old(other.Value()) && other.Value() == old(Value())
      ensures inLoop == old(other.inLoop) && other.inLoop == old(inLoop)
      ensures recorded == old(recorded) && other.recorded == old(other.recorded)
    {
      world.s := Next(world.s, MoveAssign(id, other.id));
      fd, other.fd := other.fd, fd;
      inc, other.inc := other.inc, inc;
      inLoop, other.inLoop := other.inLoop, inLoop;
    }

    /** The destructor. */
    method Destruct()
      requires Valid()
      modifies inLoop, world
      ensures world.s == Next(old(world.s), Action.Destruct(id))
      ensures if inLoop == null then Value() == Empty
              else inLoop.posted == old(inLoop.posted) + Posts(old(world.s), Action.Destruct(id))
      ensures Value() != Empty ==> inLoop.posted == old(inLoop.posted) + [Unregister(fd, inc)]
    {
      world.s := Next(world.s, Action.Destruct(id));
      if fd != -1 && inLoop != null {
        inLoop.posted := inLoop.posted + [Unregister(fd, inc)];
      }
    }

    /** Both overloads; a moved-from channel posts nothing and records nothing. */
    method UpdateEvent(types: Interest, withCb: bool)
      requires Valid()
      modifies this`recorded, inLoop, world
      ensures Valid() && Value() == old(Value()) && inLoop == old(inLoop)
      ensures world.s == Next(old(world.s), Action.UpdateEvent(id, types, withCb))
      ensures if inLoop == null then Value() == Empty
              else inLoop.posted == old(inLoop.posted) + Posts(old(world.s), Action.UpdateEvent(id, types, withCb))
      ensures Value() != Empty ==> inLoop.posted == old(inLoop.posted) + [Enable(fd, inc, types, withCb)]
      ensures recorded == if Value() == Empty then old(recorded) else types
    {
      world.s := Next(world.s, Action.UpdateEvent(id, types, withCb));
      if fd == -1 || inLoop == null {
        return;
      }
      inLoop.posted := inLoop.posted + [Enable(fd, inc, types, withCb)];
      recorded := types;
    }

    method DisableEvent()
      requires Valid()
      modifies inLoop, world
      ensures Valid() && world.s == Next(old(world.s), Action.DisableEvent(id))
      ensures if inLoop == null then Value() == Empty
              else inLoop.posted == old(inLoop.posted) + Posts(old(world.s), Action.DisableEvent(id))
      ensures Value() != Empty ==> inLoop.posted == old(inLoop.posted) + [Disable(fd, inc)]
    {
      world.s := Next(world.s, Action.DisableEvent(id));
      if fd == -1 || inLoop == null {
        return;
      }
      inLoop.posted := inLoop.posted + [Disable(fd, inc)];
    }
  }
}
