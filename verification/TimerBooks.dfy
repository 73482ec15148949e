/**
 * What the tasks and the expiry handler of src/timer/timer.cpp do to the queue of deadlines and the
 * set of cancelled ids, over whole runs. Times are nanoseconds of the steady clock.
 */
module TimerBooks {
  import opened Base

  const MS: int := 1_000_000

  const TWO_TO_THE_64: nat := 0x1_0000_0000_0000_0000
  type UInt64 = n: nat | n < TWO_TO_THE_64

  /** std::chrono::milliseconds of a uint64_t: the count is signed, so the upper half becomes negative. */
  function Milliseconds(timeoutMs: UInt64): int {
    if timeoutMs < TWO_TO_THE_64 / 2 then timeoutMs else timeoutMs - TWO_TO_THE_64
  }

  // ---------------------------------------------------------------- books and steps

  /** A pending task; an interval of 0 marks one that is not repeated. */
  datatype Entry = Entry(timeStamp: int, interval: int)

  /** The entry that a post with the clock at `now` makes. */
  function EntryFor(now: int, timeoutMs: UInt64, repeated: bool): Entry {
    var duration := Milliseconds(timeoutMs) * MS;
    Entry(now + duration, if repeated then duration else 0)
  }

  /** A callback posted to the heavy queue by an expiry handler that sampled `now`. */
  datatype Dispatch = Dispatch(id: nat, entry: Entry, now: int)

  /** The timer's queue and cancel set, with the history its guarantees speak about. */
  datatype Books = Books(
    queue: map<nat, Entry>,        // timer_queue_, by task id
    deleteIds: set<nat>,           // delete_timer_ids_
    lastId: nat,                   // timer_id_start_
    clock: int,                    // the steady clock
    log: seq<Dispatch>,            // posts to the heavy queue, oldest first
    oneShots: set<nat>,            // ids of the one-shot tasks whose post task has run
    repeats: set<nat>,             // ids of the repeating tasks whose post task has run
    dropped: set<nat>,             // ids removed from the queue as cancelled
    cancelled: map<nat, nat>,      // queued ids whose cancel task has run, with |log| at that time
    timely: bool                   // no post has been for the past or with a negative interval
  )

  function NewBooks(now: int): Books {
    Books(map[], {}, 0, now, [], {}, {}, {}, map[], true)
  }

  function FiredIds(log: seq<Dispatch>): set<nat> {
    set k | 0 <= k < |log| :: log[k].id
  }

  ghost predicate IsTop(queue: map<nat, Entry>, id: nat) {
    id in queue && forall i :: i in queue ==> queue[id].timeStamp <= queue[i].timeStamp
  }

  /** The atomic effects; Fire removes a due entry, re-posts a repeating one at `again` and logs the dispatch. */
  datatype Action =
    | Tick(to: int)
    | TakeId
    | Post(id: nat, entry: Entry)
    | Cancel(id: nat)
    | Drop(id: nat)
    | Fire(id: nat, now: int, again: int)

  ghost predicate Enabled(b: Books, a: Action) {
    match a
    case Tick(to) => b.clock <= to
    case TakeId => true
    case Post(id, e) => 0 < id <= b.lastId && id !in b.oneShots && id !in b.repeats
    case Cancel(id) => true
    case Drop(id) => id in b.queue && id in b.deleteIds
    case Fire(id, now, again) =>
      && IsTop(b.queue, id) && id !in b.deleteIds
      && b.queue[id].timeStamp <= now <= b.clock && (forall k :: 0 <= k < |b.log| ==> b.log[k].now <= now)
      && now + b.queue[id].interval <= again
  }

  predicate Timely(clock: int, e: Entry) {
    clock <= e.timeStamp && 0 <= e.interval
  }

  function Next(b: Books, a: Action): Books
    requires a.Fire? ==> a.id in b.queue
  {
    match a
    case Tick(to) => b.(clock := to)
    case TakeId => b.(lastId := b.lastId + 1)
    case Post(id, e) =>
      var c := b.(queue := b.queue[id := e], timely := b.timely && Timely(b.clock, e));
      if e.interval != 0 then c.(repeats := c.repeats + {id}) else c.(oneShots := c.oneShots + {id})
    case Cancel(id) =>
      b.(deleteIds := b.deleteIds + {id},
         cancelled := if id in b.queue && id !in b.cancelled then b.cancelled[id := |b.log|] else b.cancelled)
    case Drop(id) => b.(queue := b.queue - {id}, deleteIds := b.deleteIds - {id}, dropped := b.dropped + {id})
    case Fire(id, now, again) =>
      var e := b.queue[id];
      b.(queue := if e.interval != 0 then b.queue[id := Entry(again, e.interval)] else b.queue - {id},
         log := b.log + [Dispatch(id, e, now)])
  }

  // ---------------------------------------------------------------- what the books guarantee

  /** No dispatch comes before its time, and handlers sample a clock that does not run back. */
  ghost predicate LogOnTime(log: seq<Dispatch>, clock: int) {
    && (forall k :: 0 <= k < |log| ==> log[k].entry.timeStamp <= log[k].now <= clock)
    && (forall i, j :: 0 <= i < j < |log| ==> log[i].now <= log[j].now)
  }

  /** Dispatches come in the order of their time stamps. */
  ghost predicate LogOrdered(log: seq<Dispatch>) {
    forall i, j :: 0 <= i < j < |log| ==> log[i].entry.timeStamp <= log[j].entry.timeStamp
  }

  /** Two dispatches of one id are of a repeating task and at least its interval apart. */
  ghost predicate LogSpaced(log: seq<Dispatch>) {
    forall i, j :: 0 <= i < j < |log| && log[i].id == log[j].id ==>
      log[i].entry.interval == log[j].entry.interval != 0 && log[i].now + log[i].entry.interval <= log[j].now
  }

  /** What is still queued can be dispatched later without breaking the spacing, */
  ghost predicate QueueSpaced(queue: map<nat, Entry>, log: seq<Dispatch>) {
    forall k :: 0 <= k < |log| && log[k].id in queue ==>
      var e := queue[log[k].id];
      e.interval == log[k].entry.interval != 0 && log[k].now + e.interval <= e.timeStamp
  }

  /** and without breaking the order. */
  ghost predicate QueueAfterLog(queue: map<nat, Entry>, log: seq<Dispatch>) {
    && Forward(queue)
    && (forall id, k :: id in queue && 0 <= k < |log| ==> log[k].entry.timeStamp <= queue[id].timeStamp)
  }

  function IdsOfKind(b: Books, interval: int): set<nat> {
    if interval == 0 then b.oneShots else b.repeats
  }

  /** Every accepted task is in one place: pending, dispatched (if it is one-shot) or dropped. */
  ghost predicate TasksConserved(b: Books) {
    && b.oneShots !! b.repeats
    && (forall id :: id in b.oneShots || id in b.repeats ==> 0 < id <= b.lastId)
    && (forall id :: id in b.queue ==> id in IdsOfKind(b, b.queue[id].interval))
    && (forall k :: 0 <= k < |b.log| ==> b.log[k].id in IdsOfKind(b, b.log[k].entry.interval))
    && (forall id :: id in FiredIds(b.log) || id in b.dropped ==> id in b.oneShots || id in b.repeats)
    && (forall id :: id in b.oneShots ==> InOnePlace(b, id))
    && (forall id :: id in b.repeats ==> (id in b.queue <==> id !in b.dropped))
  }

  predicate InOnePlace(b: Books, id: nat) {
    || (id in b.queue && id !in FiredIds(b.log) && id !in b.dropped)
    || (id !in b.queue && id in FiredIds(b.log) && id !in b.dropped)
    || (id !in b.queue && id !in FiredIds(b.log) && id in b.dropped)
  }

  /** A cancelled id is not dispatched again. */
  ghost predicate CancelledSilent(b: Books) {
    forall id :: id in b.cancelled ==>
      && (id in b.oneShots || id in b.repeats)
      && (id in b.queue ==> id in b.deleteIds)
      && (forall k :: b.cancelled[id] <= k < |b.log| ==> b.log[k].id != id)
  }

  ghost predicate Sound(b: Books) {
    && LogOnTime(b.log, b.clock)
    && LogSpaced(b.log)
    && QueueSpaced(b.queue, b.log)
    && (b.timely ==> LogOrdered(b.log) && QueueAfterLog(b.queue, b.log))
    && TasksConserved(b)
    && CancelledSilent(b)
  }

  // ---------------------------------------------------------------- the steps keep it

  lemma FiredIdsAppend(log: seq<Dispatch>, d: Dispatch)
    ensures FiredIds(log + [d]) == FiredIds(log) + {d.id}
  {
    assert (log + [d])[|log|] == d;
    forall id | id in FiredIds(log)
      ensures id in FiredIds(log + [d])
    {
      var k :| 0 <= k < |log| && log[k].id == id;
      assert (log + [d])[k] == log[k];
    }
  }

  /** The id of a new task is not in the queue, so pushing it never meets an entry of the same id. */
  lemma PostIsNew(b: Books, id: nat, e: Entry)
    requires TasksConserved(b) && Enabled(b, Post(id, e))
    ensures id !in b.queue && id !in FiredIds(b.log) && id !in b.dropped
    ensures forall k :: 0 <= k < |b.log| ==> b.log[k].id != id
  {
    forall k | 0 <= k < |b.log|
      ensures b.log[k].id != id
    {
      assert b.log[k].id in FiredIds(b.log);
    }
  }

  lemma PostKeepsTasks(b: Books, id: nat, e: Entry)
    requires TasksConserved(b) && Enabled(b, Post(id, e))
    requires id !in b.queue && id !in FiredIds(b.log) && id !in b.dropped
    ensures TasksConserved(Next(b, Post(id, e)))
  {
  }

  lemma PostKeepsSilence(b: Books, id: nat, e: Entry)
    requires CancelledSilent(b) && Enabled(b, Post(id, e))
    ensures CancelledSilent(Next(b, Post(id, e)))
  {
  }

  lemma PostKeepsQueue(b: Books, id: nat, e: Entry)
    requires QueueSpaced(b.queue, b.log) && LogOnTime(b.log, b.clock)
    requires forall k :: 0 <= k < |b.log| ==> b.log[k].id != id
    ensures var c := Next(b, Post(id, e));
            && QueueSpaced(c.queue, c.log)
            && (QueueAfterLog(b.queue, b.log) && Timely(b.clock, e) ==> QueueAfterLog(c.queue, c.log))
  {
  }

  lemma PostKeepsSound(b: Books, id: nat, e: Entry)
    requires Sound(b) && Enabled(b, Post(id, e))
    ensures Sound(Next(b, Post(id, e)))
  {
    PostIsNew(b, id, e);
    PostKeepsTasks(b, id, e);
    PostKeepsSilence(b, id, e);
    PostKeepsQueue(b, id, e);
  }

  lemma DropKeepsTasks(b: Books, id: nat)
    requires TasksConserved(b) && Enabled(b, Drop(id))
    ensures TasksConserved(Next(b, Drop(id)))
  {
  }

  lemma DropKeepsSilence(b: Books, id: nat)
    requires CancelledSilent(b) && Enabled(b, Drop(id))
    ensures CancelledSilent(Next(b, Drop(id)))
  {
  }

  lemma DropKeepsQueue(b: Books, id: nat)
    requires QueueSpaced(b.queue, b.log)
    ensures var c := Next(b, Drop(id));
            QueueSpaced(c.queue, c.log) && (QueueAfterLog(b.queue, b.log) ==> QueueAfterLog(c.queue, c.log))
  {
  }

  lemma DropKeepsSound(b: Books, id: nat)
    requires Sound(b) && Enabled(b, Drop(id))
    ensures Sound(Next(b, Drop(id)))
  {
    DropKeepsTasks(b, id);
    DropKeepsSilence(b, id);
    DropKeepsQueue(b, id);
  }

  lemma FireKeepsTime(b: Books, id: nat, now: int, again: int)
    requires LogOnTime(b.log, b.clock) && Enabled(b, Fire(id, now, again))
    ensures var c := Next(b, Fire(id, now, again)); LogOnTime(c.log, c.clock)
  {
  }

  lemma FireKeepsSpacing(b: Books, id: nat, now: int, again: int)
    requires LogSpaced(b.log) && QueueSpaced(b.queue, b.log)
    requires Enabled(b, Fire(id, now, again))
    ensures var c := Next(b, Fire(id, now, again)); LogSpaced(c.log) && QueueSpaced(c.queue, c.log)
  {
  }

  lemma FireKeepsOrder(b: Books, id: nat, now: int, again: int)
    requires LogOrdered(b.log) && QueueAfterLog(b.queue, b.log)
    requires Enabled(b, Fire(id, now, again))
    ensures var c := Next(b, Fire(id, now, again)); LogOrdered(c.log) && QueueAfterLog(c.queue, c.log)
  {
  }

  lemma FireKeepsTasks(b: Books, id: nat, now: int, again: int)
    requires TasksConserved(b) && Enabled(b, Fire(id, now, again))
    ensures TasksConserved(Next(b, Fire(id, now, again)))
  {
    FiredIdsAppend(b.log, Dispatch(id, b.queue[id], now));
  }

  lemma FireKeepsSilence(b: Books, id: nat, now: int, again: int)
    requires CancelledSilent(b) && Enabled(b, Fire(id, now, again))
    ensures CancelledSilent(Next(b, Fire(id, now, again)))
  {
  }

  lemma CancelKeepsSound(b: Books, id: nat)
    requires Sound(b)
    ensures Sound(Next(b, Cancel(id)))
  {
    assert TasksConserved(Next(b, Cancel(id)));
  }

  lemma NextKeepsSound(b: Books, a: Action)
    requires Sound(b) && Enabled(b, a)
    ensures Sound(Next(b, a))
  {
    match a
    case Post(id, e) => PostKeepsSound(b, id, e);
    case Drop(id) => DropKeepsSound(b, id);
    case Fire(id, now, again) =>
      FireKeepsTime(b, id, now, again);
      FireKeepsSpacing(b, id, now, again);
      if b.timely {
        FireKeepsOrder(b, id, now, again);
      }
      FireKeepsTasks(b, id, now, again);
      FireKeepsSilence(b, id, now, again);
    case Cancel(id) => CancelKeepsSound(b, id);
    case _ =>
      assert TasksConserved(Next(b, a));
  }

  ghost predicate Run(b: Books, acts: seq<Action>, c: Books)
    decreases |acts|
  {
    if acts == [] then b == c
    else Enabled(b, acts[0]) && Run(Next(b, acts[0]), acts[1..], c)
  }

  lemma {:induction false} RunKeepsSound(b: Books, acts: seq<Action>, c: Books)
    requires Sound(b) && Run(b, acts, c)
    ensures Sound(c)
    decreases |acts|
  {
    if acts != [] {
      NextKeepsSound(b, acts[0]);
      RunKeepsSound(Next(b, acts[0]), acts[1..], c);
    }
  }

  lemma ReachableIsSound(start: int, acts: seq<Action>, b: Books)
    requires Run(NewBooks(start), acts, b)
    ensures Sound(b)
  {
    RunKeepsSound(NewBooks(start), acts, b);
  }

  /**
   * Over every run: nothing is dispatched before its time stamp, dispatches of one task are its
   * interval apart in handler time, every accepted one-shot task is pending, dispatched once, or
   * dropped as cancelled, and without a post for the past dispatched time stamps never go back.
   */
  lemma DispatchGuarantees(start: int, acts: seq<Action>, b: Books)
    requires Run(NewBooks(start), acts, b)
    ensures LogOnTime(b.log, b.clock) && LogSpaced(b.log)
    ensures b.timely ==> LogOrdered(b.log)
    ensures forall id :: id in b.oneShots ==> InOnePlace(b, id)
    ensures forall i, j :: 0 <= i < j < |b.log| && b.log[i].id in b.oneShots ==> b.log[i].id != b.log[j].id
  {
    ReachableIsSound(start, acts, b);
  }

  lemma {:induction false} CancelledIsKept(b: Books, acts: seq<Action>, c: Books, id: nat)
    requires Run(b, acts, c) && id in b.cancelled
    ensures id in c.cancelled && c.cancelled[id] == b.cancelled[id]
    decreases |acts|
  {
    if acts != [] {
      CancelledIsKept(Next(b, acts[0]), acts[1..], c, id);
    }
  }

  /** Once the cancel task of a queued id has run, nothing that follows ever dispatches that id, repeating or not. */
  lemma CancelIsFinal(start: int, before: seq<Action>, b: Books, id: nat, acts: seq<Action>, c: Books)
    requires Run(NewBooks(start), before, b) && id in b.queue
    requires Run(Next(b, Cancel(id)), acts, c)
    ensures forall k :: |b.log| <= k < |c.log| ==> c.log[k].id != id
  {
    ReachableIsSound(start, before, b);
    var after := Next(b, Cancel(id));
    NextKeepsSound(b, Cancel(id));
    RunKeepsSound(after, acts, c);
    CancelledIsKept(after, acts, c, id);
    CancelledInPast(start, before, b);
  }

  lemma {:induction false} StaleIdStays(b: Books, acts: seq<Action>, c: Books, id: nat)
    requires id !in b.queue && id in b.deleteIds && (id in b.oneShots || id in b.repeats)
    requires Run(b, acts, c)
    ensures id in c.deleteIds && id !in c.queue
    decreases |acts|
  {
    if acts != [] {
      StaleIdStays(Next(b, acts[0]), acts[1..], c, id);
    }
  }

  /** Cancelling an accepted task that has left the queue has no effect but one: its id stays in the cancel set for good. */
  lemma LateCancelIsKept(b: Books, acts: seq<Action>, c: Books, id: nat)
    requires id !in b.queue && (id in b.oneShots || id in b.repeats)
    requires Run(Next(b, Cancel(id)), acts, c)
    ensures id in c.deleteIds && id !in c.queue
  {
    StaleIdStays(Next(b, Cancel(id)), acts, c, id);
  }

  /** A queued id that is marked stays in the queue and the cancel set together. */
  lemma {:induction false} MarkedTogether(b: Books, acts: seq<Action>, c: Books, id: nat)
    requires (id in b.queue <==> id in b.deleteIds) && (id in b.oneShots || id in b.repeats)
    requires Run(b, acts, c) && forall k :: 0 <= k < |acts| ==> acts[k] != Cancel(id)
    ensures id in c.queue <==> id in c.deleteIds
    decreases |acts|
  {
    if acts != [] {
      assert acts[0] != Cancel(id);
      MarkedTogether(Next(b, acts[0]), acts[1..], c, id);
    }
  }

  /**
   * What a cancel leaves behind, counted from the last cancel of an accepted id: once the task is out
   * of the queue its id is still in the cancel set exactly when it was out already as the cancel ran.
   */
  lemma CancelLeavesItsIdIff(b: Books, acts: seq<Action>, c: Books, id: nat)
    requires (id in b.oneShots || id in b.repeats) && Run(Next(b, Cancel(id)), acts, c)
    requires (forall k :: 0 <= k < |acts| ==> acts[k] != Cancel(id)) && id !in c.queue
    ensures id in c.deleteIds <==> id !in b.queue
  {
    if id in b.queue {
      MarkedTogether(Next(b, Cancel(id)), acts, c, id);
    } else {
      LateCancelIsKept(b, acts, c, id);
    }
  }

  /** A run in which a cancel comes too late: the task fires first, and whatever follows the id is never taken out again. */
  lemma LateCancelHappens() returns (acts: seq<Action>, b: Books)
    ensures Run(NewBooks(0), acts, b) && 1 in b.deleteIds && 1 !in b.queue
    ensures forall more, c :: Run(b, more, c) ==> 1 in c.deleteIds
  {
    var start, e := NewBooks(0), Entry(0, 0);
    acts, b := [], start;
    RunStep(start, acts, b, TakeId);
    acts, b := acts + [TakeId], Next(b, TakeId);
    RunStep(start, acts, b, Post(1, e));
    acts, b := acts + [Post(1, e)], Next(b, Post(1, e));
    RunStep(start, acts, b, Fire(1, 0, 0));
    acts, b := acts + [Fire(1, 0, 0)], Next(b, Fire(1, 0, 0));
    RunStep(start, acts, b, Cancel(1));
    acts, b := acts + [Cancel(1)], Next(b, Cancel(1));
    forall more, c | Run(b, more, c)
      ensures 1 in c.deleteIds
    {
      StaleIdStays(b, more, c, 1);
    }
  }

  ghost predicate CancelsRecorded(b: Books) {
    forall id :: id in b.cancelled ==> b.cancelled[id] <= |b.log|
  }

  lemma {:induction false} RunRecordsCancels(b: Books, acts: seq<Action>, c: Books)
    requires CancelsRecorded(b) && Run(b, acts, c)
    ensures CancelsRecorded(c)
    decreases |acts|
  {
    if acts != [] {
      RunRecordsCancels(Next(b, acts[0]), acts[1..], c);
    }
  }

  lemma CancelledInPast(start: int, acts: seq<Action>, b: Books)
    requires Run(NewBooks(start), acts, b)
    ensures CancelsRecorded(b)
  {
    RunRecordsCancels(NewBooks(start), acts, b);
  }

  lemma {:induction false} RunStep(b: Books, acts: seq<Action>, c: Books, a: Action)
    requires Run(b, acts, c) && Enabled(c, a)
    ensures Run(b, acts + [a], Next(c, a))
    decreases |acts|
  {
    if acts == [] {
      assert acts + [a] == [a] && [a][1..] == [];
    } else {
      assert (acts + [a])[1..] == acts[1..] + [a];
      RunStep(Next(b, acts[0]), acts[1..], c, a);
    }
  }

  // ---------------------------------------------------------------- timeouts that turn negative

  /** A post is for the past exactly when the signed conversion of its timeout is negative. */
  lemma TimelyIff(now: int, timeoutMs: UInt64, repeated: bool)
    ensures Timely(now, EntryFor(now, timeoutMs, repeated)) <==> timeoutMs < TWO_TO_THE_64 / 2
  {
  }

  /** Every post of the run is made with the clock at that moment and a timeout of at most `most`. */
  ghost predicate TimeoutsUpTo(b: Books, acts: seq<Action>, most: UInt64)
    decreases |acts|
  {
    acts != [] && Enabled(b, acts[0]) ==>
      && (acts[0].Post? ==> MadeWith(b.clock, acts[0].entry, most))
      && TimeoutsUpTo(Next(b, acts[0]), acts[1..], most)
  }

  ghost predicate MadeWith(now: int, e: Entry, most: UInt64) {
    exists timeoutMs: UInt64, repeated: bool :: timeoutMs <= most && e == EntryFor(now, timeoutMs, repeated)
  }

  lemma {:induction false} SmallTimeoutsAreTimely(b: Books, acts: seq<Action>, c: Books, most: UInt64)
    requires b.timely && Run(b, acts, c) && TimeoutsUpTo(b, acts, most) && most < TWO_TO_THE_64 / 2
    ensures c.timely
    decreases |acts|
  {
    if acts != [] {
      if acts[0].Post? {
        var timeoutMs: UInt64, repeated: bool :| timeoutMs <= most && acts[0].entry == EntryFor(b.clock, timeoutMs, repeated);
        TimelyIff(b.clock, timeoutMs, repeated);
      }
      SmallTimeoutsAreTimely(Next(b, acts[0]), acts[1..], c, most);
    }
  }

  lemma {:induction false} TimeoutsStep(b: Books, acts: seq<Action>, c: Books, a: Action, most: UInt64)
    requires Run(b, acts, c) && TimeoutsUpTo(b, acts, most) && Enabled(c, a)
    requires a.Post? ==> MadeWith(c.clock, a.entry, most)
    ensures TimeoutsUpTo(b, acts + [a], most)
    decreases |acts|
  {
    if acts == [] {
      assert acts + [a] == [a] && [a][1..] == [];
    } else {
      assert (acts + [a])[1..] == acts[1..] + [a];
      TimeoutsStep(Next(b, acts[0]), acts[1..], c, a, most);
    }
  }

  /** A post that becomes one for the past is dispatched after one with a later time stamp. */
  lemma NegativeTimeoutBreaksOrder(timeoutMs: UInt64) returns (acts: seq<Action>, b: Books)
    requires timeoutMs >= TWO_TO_THE_64 / 2
    ensures Run(NewBooks(0), acts, b) && TimeoutsUpTo(NewBooks(0), acts, timeoutMs) && !LogOrdered(b.log)
  {
    var start, e, f := NewBooks(0), EntryFor(0, 0, false), EntryFor(0, timeoutMs, false);
    assert MadeWith(0, e, timeoutMs) && MadeWith(0, f, timeoutMs);
    acts, b := Extended(start, [], start, TakeId, timeoutMs);
    acts, b := Extended(start, acts, b, Post(1, e), timeoutMs);
    acts, b := Extended(start, acts, b, Fire(1, 0, 0), timeoutMs);
    acts, b := Extended(start, acts, b, TakeId, timeoutMs);
    acts, b := Extended(start, acts, b, Post(2, f), timeoutMs);
    acts, b := Extended(start, acts, b, Fire(2, 0, 0), timeoutMs);
    assert b.log[0].entry.timeStamp == 0 > b.log[1].entry.timeStamp;
  }

  lemma Extended(b: Books, acts: seq<Action>, c: Books, a: Action, most: UInt64) returns (longer: seq<Action>, d: Books)
    requires Run(b, acts, c) && TimeoutsUpTo(b, acts, most) && Enabled(c, a)
    requires a.Post? ==> MadeWith(c.clock, a.entry, most)
    ensures longer == acts + [a] && d == Next(c, a) && Run(b, longer, d) && TimeoutsUpTo(b, longer, most)
  {
    RunStep(b, acts, c, a);
    TimeoutsStep(b, acts, c, a, most);
    longer, d := acts + [a], Next(c, a);
  }

  ghost predicate RunUpTo(start: int, acts: seq<Action>, b: Books, most: UInt64) {
    Run(NewBooks(start), acts, b) && TimeoutsUpTo(NewBooks(start), acts, most)
  }

  /** Dispatched time stamps never go back exactly when no timeout reaches 2^63 ms. */
  lemma OrderIffTimeouts(most: UInt64)
    ensures most < TWO_TO_THE_64 / 2 <==> forall start, acts, b :: RunUpTo(start, acts, b, most) ==> LogOrdered(b.log)
  {
    if most < TWO_TO_THE_64 / 2 {
      forall start, acts, b | RunUpTo(start, acts, b, most)
        ensures LogOrdered(b.log)
      {
        SmallTimeoutsAreTimely(NewBooks(start), acts, b, most);
        DispatchGuarantees(start, acts, b);
      }
    } else {
      var acts, b := NegativeTimeoutBreaksOrder(most);
      assert RunUpTo(0, acts, b, most);
    }
  }

  // ---------------------------------------------------------------- what a timeout means

  /** What is counted in nanoseconds for a timeout: a million for each millisecond, modulo the signed conversion. */
  lemma EntryForIs(now: int, timeoutMs: UInt64, repeated: bool)
    ensures var e, signed := EntryFor(now, timeoutMs, repeated), timeoutMs as int;
            && (timeoutMs < 0x8000_0000_0000_0000 ==> e.timeStamp - now == 1_000_000 * signed)
            && (timeoutMs >= 0x8000_0000_0000_0000 ==> e.timeStamp - now == 1_000_000 * (signed - 0x1_0000_0000_0000_0000))
            && e.interval == if repeated then e.timeStamp - now else 0
  {
  }

  ghost predicate Fired(log: seq<Dispatch>, id: nat) {
    exists k :: 0 <= k < |log| && log[k].id == id
  }

  /** What runs keep for an accepted id whose entry was `e`: its first dispatch is of `e`, the others come later. */
  ghost predicate Scheduled(b: Books, id: nat, e: Entry) {
    && (id in b.oneShots || id in b.repeats)
    && (forall k :: 0 <= k < |b.log| && b.log[k].id == id ==>
          b.log[k].now >= e.timeStamp && b.log[k].entry.interval == e.interval)
    && (id in b.queue ==> b.queue[id].interval == e.interval)
    && (id in b.queue && !Fired(b.log, id) ==> b.queue[id] == e)
  }

  lemma FiredAppend(log: seq<Dispatch>, d: Dispatch, id: nat)
    ensures Fired(log + [d], id) <==> Fired(log, id) || d.id == id
  {
    assert (log + [d])[|log|] == d;
    if Fired(log, id) {
      var k :| 0 <= k < |log| && log[k].id == id;
      assert (log + [d])[k].id == id;
    }
  }

  lemma ScheduledStep(b: Books, a: Action, id: nat, e: Entry)
    requires Scheduled(b, id, e) && Enabled(b, a)
    ensures Scheduled(Next(b, a), id, e)
  {
    if a.Fire? {
      FiredAppend(b.log, Dispatch(a.id, b.queue[a.id], a.now), id);
    }
  }

  lemma {:induction false} ScheduledRun(b: Books, acts: seq<Action>, c: Books, id: nat, e: Entry)
    requires Scheduled(b, id, e) && Run(b, acts, c)
    ensures Scheduled(c, id, e)
    decreases |acts|
  {
    if acts != [] {
      ScheduledStep(b, acts[0], id, e);
      ScheduledRun(Next(b, acts[0]), acts[1..], c, id, e);
    }
  }

  /** In a sound state `b` the entry `e` is posted, and `acts` lead from there to `c`. */
  ghost predicate PostLeads(b: Books, id: nat, e: Entry, acts: seq<Action>, c: Books) {
    Sound(b) && Enabled(b, Post(id, e)) && Run(Next(b, Post(id, e)), acts, c)
  }

  lemma PostStarts(b: Books, id: nat, e: Entry)
    requires Sound(b) && Enabled(b, Post(id, e))
    ensures Scheduled(Next(b, Post(id, e)), id, e) && Sound(Next(b, Post(id, e)))
    ensures id !in b.dropped && !Fired(b.log, id)
  {
    PostIsNew(b, id, e);
    PostKeepsSound(b, id, e);
  }

  /** Only a cancel marks or drops an id. */
  lemma {:induction false} UncancelledStays(b: Books, acts: seq<Action>, c: Books, id: nat)
    requires Run(b, acts, c) && id !in b.deleteIds && id !in b.dropped
    requires forall k :: 0 <= k < |acts| ==> acts[k] != Cancel(id)
    ensures id !in c.deleteIds && id !in c.dropped
    decreases |acts|
  {
    if acts != [] {
      assert acts[0] != Cancel(id);
      UncancelledStays(Next(b, acts[0]), acts[1..], c, id);
    }
  }

  /** Whatever follows a post, its entry stays scheduled, and the books stay sound. */
  lemma PostSchedules(b: Books, id: nat, e: Entry, acts: seq<Action>, c: Books)
    requires PostLeads(b, id, e, acts, c) == true
    ensures Scheduled(c, id, e) && Sound(c)
  {
    PostStarts(b, id, e);
    ScheduledRun(Next(b, Post(id, e)), acts, c, id, e);
    RunKeepsSound(Next(b, Post(id, e)), acts, c);
  }

  /**
   * In every run no dispatch of a task comes before its timeout has passed since the post, and those of a
   * repeating task are the timeout apart, for every timeout as the signed conversion reads it.
   */
  lemma TimeoutIsKept(start: int, before: seq<Action>, b: Books, id: nat, timeoutMs: UInt64, repeated: bool, acts: seq<Action>, c: Books)
    requires Run(NewBooks(start), before, b) && Enabled(b, Post(id, EntryFor(b.clock, timeoutMs, repeated)))
    requires Run(Next(b, Post(id, EntryFor(b.clock, timeoutMs, repeated))), acts, c)
    ensures var ms := if timeoutMs < 0x8000_0000_0000_0000 then timeoutMs as int else timeoutMs as int - 0x1_0000_0000_0000_0000;
            && (forall k :: 0 <= k < |c.log| && c.log[k].id == id ==> c.log[k].now >= b.clock + 1_000_000 * ms)
            && (forall j, k :: 0 <= j < k < |c.log| && c.log[j].id == c.log[k].id == id ==>
                  repeated && c.log[k].now >= c.log[j].now + 1_000_000 * ms)
  {
    EntryForIs(b.clock, timeoutMs, repeated);
    var e := EntryFor(b.clock, timeoutMs, repeated);
    assert PostLeads(b, id, e, acts, c) by {
      ReachableIsSound(start, before, b);
    }
    PostSchedules(b, id, e, acts, c);
  }

  lemma AcceptedIdsAreOld(start: int, acts: seq<Action>, b: Books)
    requires Run(NewBooks(start), acts, b)
    ensures forall id :: id in b.oneShots || id in b.repeats ==> 0 < id <= b.lastId
  {
    ReachableIsSound(start, acts, b);
  }

  /** In every run a post meets neither a queued entry nor a past dispatch of its id. */
  lemma PostedIdIsNew(start: int, acts: seq<Action>, b: Books, id: nat, e: Entry)
    requires Run(NewBooks(start), acts, b) && Enabled(b, Post(id, e))
    ensures id !in b.queue && forall k :: 0 <= k < |b.log| ==> b.log[k].id != id
  {
    ReachableIsSound(start, acts, b);
    PostIsNew(b, id, e);
  }

  lemma LogIsPast(start: int, acts: seq<Action>, b: Books)
    requires Run(NewBooks(start), acts, b)
    ensures forall k :: 0 <= k < |b.log| ==> b.log[k].now <= b.clock
  {
    ReachableIsSound(start, acts, b);
  }

  // ---------------------------------------------------------------- one handler pass

  /** No pending task repeats into the past. */
  ghost predicate Forward(queue: map<nat, Entry>) {
    forall id :: id in queue ==> 0 <= queue[id].interval
  }

  /** So it is as long as no timeout reaches 2^63 ms. */
  lemma TimelyIsForward(start: int, acts: seq<Action>, b: Books)
    requires Run(NewBooks(start), acts, b) && b.timely
    ensures Forward(b.queue)
  {
    ReachableIsSound(start, acts, b);
  }

  /** The entries a handler that sampled `now` has to deal with. */
  ghost function Due(queue: map<nat, Entry>, now: int): set<nat> {
    set id | id in queue && queue[id].timeStamp <= now
  }

  /**
   * How far a pass that sampled `now` over the queue and cancel set of `a` has got in `b`: each entry
   * is untouched, dropped because cancelled, or dispatched and, when repeating, queued for later.
   */
  ghost predicate Pass(a: Books, now: int, b: Books) {
    && a.log <= b.log && a.oneShots == b.oneShots && a.repeats == b.repeats && a.lastId == b.lastId
    && (forall k :: 0 <= k < |b.log| ==> b.log[k].now <= now)
    && (forall id :: id in b.queue ==> id in a.queue && (id in b.deleteIds <==> id in a.deleteIds))
    && (forall k :: |a.log| <= k < |b.log| ==>
          var d := b.log[k];
          d.id in a.queue && d == Dispatch(d.id, a.queue[d.id], now) && d.entry.timeStamp <= now && d.id !in a.deleteIds)
    && (forall id :: id in a.queue ==> Untouched(a, b, id) || PassDropped(a, now, b, id) || PassFired(a, now, b, id))
  }

  ghost predicate Untouched(a: Books, b: Books, id: nat)
    requires id in a.queue
  {
    id in b.queue && b.queue[id] == a.queue[id] && id !in FiredIds(b.log[Min(|a.log|, |b.log|)..])
  }

  ghost predicate PassDropped(a: Books, now: int, b: Books, id: nat)
    requires id in a.queue
  {
    && a.queue[id].timeStamp <= now && id in a.deleteIds
    && id !in b.queue && id in b.dropped && id !in FiredIds(b.log[Min(|a.log|, |b.log|)..])
  }

  ghost predicate PassFired(a: Books, now: int, b: Books, id: nat)
    requires id in a.queue
  {
    && a.queue[id].timeStamp <= now && id !in a.deleteIds && id in FiredIds(b.log[Min(|a.log|, |b.log|)..])
    && if a.queue[id].interval == 0 then id !in b.queue
       else id in b.queue && b.queue[id].interval == a.queue[id].interval
            && now <= b.queue[id].timeStamp - a.queue[id].interval <= b.clock
  }

  lemma PassStarts(a: Books, now: int)
    requires forall k :: 0 <= k < |a.log| ==> a.log[k].now <= now
    ensures Pass(a, now, a)
  {
    assert a.log[|a.log|..] == [];
  }

  lemma PassTicks(a: Books, now: int, b: Books, to: int)
    requires Pass(a, now, b) && b.clock <= to
    ensures Pass(a, now, b.(clock := to))
  {
    var c := b.(clock := to);
    forall id | id in a.queue
      ensures Untouched(a, c, id) || PassDropped(a, now, c, id) || PassFired(a, now, c, id)
    {
      assert Untouched(a, b, id) || PassDropped(a, now, b, id) || PassFired(a, now, b, id);
    }
  }

  lemma PassDrops(a: Books, now: int, b: Books, id: nat)
    requires Pass(a, now, b) && id in b.queue && id in b.deleteIds && b.queue[id].timeStamp <= now
    ensures Pass(a, now, Next(b, Drop(id)))
    ensures Due(Next(b, Drop(id)).queue, now) < Due(b.queue, now)
    ensures Forward(b.queue) ==> Forward(Next(b, Drop(id)).queue)
  {
    var c := Next(b, Drop(id));
    assert id in Due(b.queue, now) && id !in Due(c.queue, now);
    assert Untouched(a, b, id);
    forall i | i in a.queue
      ensures Untouched(a, c, i) || PassDropped(a, now, c, i) || PassFired(a, now, c, i)
    {
      assert Untouched(a, b, i) || PassDropped(a, now, b, i) || PassFired(a, now, b, i);
    }
  }

  lemma PassFires(a: Books, now: int, b: Books, id: nat, again: int, to: int)
    requires Pass(a, now, b) && id in b.queue && id !in b.deleteIds && b.queue[id].timeStamp <= now
    requires Forward(b.queue) && now <= b.clock <= to
    requires b.queue[id].interval != 0 ==> now <= again - b.queue[id].interval <= to
    ensures Pass(a, now, Next(b, Fire(id, now, again)).(clock := to))
    ensures Due(Next(b, Fire(id, now, again)).queue, now) < Due(b.queue, now)
    ensures Forward(Next(b, Fire(id, now, again)).queue)
  {
    PassTicks(a, now, b, to);
    PassFiresFirst(a, now, b.(clock := to), id, again);
    FireShrinksDueIff(b, now, id, again);
  }

  lemma PassFiresFirst(a: Books, now: int, b: Books, id: nat, again: int)
    requires Pass(a, now, b) && id in b.queue && id !in b.deleteIds && b.queue[id].timeStamp <= now
    requires b.queue[id].interval != 0 ==> now <= again - b.queue[id].interval <= b.clock
    requires 0 <= b.queue[id].interval
    ensures Pass(a, now, Next(b, Fire(id, now, again)))
  {
    var c := Next(b, Fire(id, now, again));
    assert Untouched(a, b, id);
    var d := Dispatch(id, b.queue[id], now);
    var logged := b.log[|a.log|..];
    assert c.log[|a.log|..] == logged + [d];
    FiredIdsAppend(logged, d);
    forall i | i in a.queue
      ensures Untouched(a, c, i) || PassDropped(a, now, c, i) || PassFired(a, now, c, i)
    {
      assert Untouched(a, b, i) || PassDropped(a, now, b, i) || PassFired(a, now, b, i);
    }
  }

  /** A dispatch brings a pass nearer to its end exactly when the entry does not come back due. */
  lemma FireShrinksDueIff(b: Books, now: int, id: nat, again: int)
    requires id in b.queue && b.queue[id].timeStamp <= now
    ensures Due(Next(b, Fire(id, now, again)).queue, now) < Due(b.queue, now) <==> b.queue[id].interval == 0 || again > now
  {
    var c := Next(b, Fire(id, now, again));
    assert id in Due(b.queue, now);
    if b.queue[id].interval == 0 || again > now {
      assert id !in Due(c.queue, now);
    } else {
      assert id in Due(c.queue, now);
      assert Due(b.queue, now) <= Due(c.queue, now);
    }
  }

  /** A pass that leaves nothing due has dispatched every due entry that was not cancelled, and dropped the others. */
  lemma PassServes(a: Books, now: int, b: Books, id: nat)
    requires Pass(a, now, b) && Due(b.queue, now) == {}
    requires id in a.queue && a.queue[id].timeStamp <= now
    ensures if id in a.deleteIds then id !in b.queue && id in b.dropped
            else exists k :: |a.log| <= k < |b.log| && b.log[k] == Dispatch(id, a.queue[id], now)
  {
    assert Untouched(a, b, id) || PassDropped(a, now, b, id) || PassFired(a, now, b, id);
    assert id !in Due(b.queue, now);
    if id !in a.deleteIds {
      var logged := b.log[|a.log|..];
      var k :| 0 <= k < |logged| && logged[k].id == id;
      assert b.log[|a.log| + k] == logged[k];
    }
  }

  lemma StillQueued(b: Books, id: nat)
    requires TasksConserved(b) && (id in b.oneShots || id in b.repeats) && !Fired(b.log, id) && id !in b.dropped
    ensures id in b.queue
  {
    assert id !in FiredIds(b.log);
  }

  lemma UncancelledAfterPost(b: Books, id: nat, e: Entry, acts: seq<Action>, c: Books)
    requires PostLeads(b, id, e, acts, c) == true
    requires id !in b.deleteIds && forall k :: 0 <= k < |acts| ==> acts[k] != Cancel(id)
    ensures id !in c.deleteIds && id !in c.dropped
  {
    PostStarts(b, id, e);
    UncancelledStays(Next(b, Post(id, e)), acts, c, id);
  }

  /** A posted entry waits unchanged until it is dispatched or cancelled. */
  lemma StaysQueued(b: Books, id: nat, e: Entry, acts: seq<Action>, c: Books)
    requires PostLeads(b, id, e, acts, c) == true
    requires !Fired(c.log, id) && id !in b.deleteIds && forall k :: 0 <= k < |acts| ==> acts[k] != Cancel(id)
    ensures id in c.queue && c.queue[id] == e && id !in c.deleteIds
  {
    UncancelledAfterPost(b, id, e, acts, c);
    PostSchedules(b, id, e, acts, c);
    StillQueued(c, id);
  }

  lemma ServedWhenDue(start: int, before: seq<Action>, b: Books, id: nat, e: Entry, acts: seq<Action>, c: Books, now: int, d: Books)
    requires Run(NewBooks(start), before, b) && Enabled(b, Post(id, e)) && Run(Next(b, Post(id, e)), acts, c)
    requires !Fired(c.log, id) && id !in b.deleteIds && forall k :: 0 <= k < |acts| ==> acts[k] != Cancel(id)
    requires (Pass(c, now, d) == true) && Due(d.queue, now) == {} && e.timeStamp <= now
    ensures exists k :: |c.log| <= k < |d.log| && d.log[k].id == id && d.log[k].now == now
  {
    ReachableIsSound(start, before, b);
    StaysQueued(b, id, e, acts, c);
    PassServes(c, now, d, id);
  }

  /**
   * And not later than that: a pass that samples the clock when the timeout has passed dispatches the
   * task, unless it was dispatched before or cancelled.
   */
  lemma TimeoutIsServed(start: int, before: seq<Action>, b: Books, id: nat, timeoutMs: UInt64, repeated: bool,
                        acts: seq<Action>, c: Books, now: int, d: Books)
    requires Run(NewBooks(start), before, b) && Enabled(b, Post(id, EntryFor(b.clock, timeoutMs, repeated)))
    requires Run(Next(b, Post(id, EntryFor(b.clock, timeoutMs, repeated))), acts, c)
    requires now >= b.clock + 1_000_000 *
               if timeoutMs < 0x8000_0000_0000_0000 then timeoutMs as int else timeoutMs as int - 0x1_0000_0000_0000_0000
    requires Pass(c, now, d) && Due(d.queue, now) == {}
    requires !Fired(c.log, id) && id !in b.deleteIds && forall k :: 0 <= k < |acts| ==> acts[k] != Cancel(id)
    ensures exists k :: |c.log| <= k < |d.log| && d.log[k].id == id && d.log[k].now == now
  {
    EntryForIs(b.clock, timeoutMs, repeated);
    ServedWhenDue(start, before, b, id, EntryFor(b.clock, timeoutMs, repeated), acts, c, now, d);
  }

  /**
   * With a timeout of 2^63 ms or more a repeating task can keep a handler busy: for any number of
   * times a pass that sampled 0 dispatches it, no time passing, and it is still due.
   */
  lemma {:induction false} ExpiryCanSpin(timeoutMs: UInt64, n: nat) returns (acts: seq<Action>, b: Books)
    requires timeoutMs >= TWO_TO_THE_64 / 2
    ensures Run(NewBooks(0), acts, b) && |b.log| == n && (forall k :: 0 <= k < n ==> b.log[k].id == 1 && b.log[k].now == 0)
    ensures b.clock == 0 && b.queue.Keys == {1} && b.deleteIds == {} && 1 in Due(b.queue, 0)
    ensures b.queue[1].interval == Milliseconds(timeoutMs) * MS
  {
    var start := NewBooks(0);
    if n == 0 {
      var e := EntryFor(0, timeoutMs, true);
      RunStep(start, [], start, TakeId);
      b := Next(start, TakeId);
      RunStep(start, [] + [TakeId], b, Post(1, e));
      acts, b := [] + [TakeId] + [Post(1, e)], Next(b, Post(1, e));
    } else {
      acts, b := ExpiryCanSpin(timeoutMs, n - 1);
      var a := Fire(1, 0, b.queue[1].interval);
      RunStep(start, acts, b, a);
      acts, b := acts + [a], Next(b, a);
    }
  }
}
