/**
 * The timer of src/timer/timer.cpp: a priority queue of deadlines, lazy cancellation through a set of
 * ids, repeating tasks that re-post themselves, and a one-shot timerfd.
 */
module Timers {
  import opened Base
  import opened TimerBooks

  const SEC: int := 1_000_000_000

  // ---------------------------------------------------------------- arming arithmetic

  /** duration_cast to a coarser unit truncates toward zero. */
  function TruncDiv(a: int, b: int): int
    requires b > 0
  {
    if a >= 0 then a / b else -(-a / b)
  }

  /** The seconds and nanoseconds written to the timerfd for a time stamp `diff` ahead of the clock. */
  function ArmValue(diff: int): (int, int) {
    var ms := TruncDiv(diff, MS);
    if ms <= 0 then (0, 1) else (ms / 1000, ms % 1000 * 1_000_000)
  }

  function ArmDelay(diff: int): int {
    ArmValue(diff).0 * SEC + ArmValue(diff).1
  }

  /** The value is a valid, never disarming timespec; the timer fires at most a millisecond early and, counted from the clock reading, never late. */
  lemma ArmDelayBounds(diff: int)
    ensures var (sec, nsec) := ArmValue(diff); sec >= 0 && 0 <= nsec < SEC
    ensures 0 < ArmDelay(diff) <= Max(diff, 1)
    ensures diff > MS ==> diff - ArmDelay(diff) < MS
    ensures ArmDelay(diff) == if diff >= MS then diff - diff % MS else 1
  {
    if diff >= 0 {
      var ms := diff / MS;
      assert diff == ms * MS + diff % MS;
      if ms > 0 {
        assert ms == ms / 1000 * 1000 + ms % 1000;
      }
    }
  }

  /** The two fields of the timespec, as set_next_wake_time fills them, and the delay they stand for. */
  method WakeDelay(diff: int) returns (delay: int)
    ensures delay == ArmDelay(diff) && diff - MS < delay && 0 < delay
  {
    var timeoutMs := TruncDiv(diff, MS);
    var sec, nsec := 0, 0;
    if timeoutMs <= 0 {
      sec := 0;
      nsec := 1;
    } else {
      sec := timeoutMs / 1000;
      nsec := timeoutMs % 1000 * 1_000_000;
    }
    ArmDelayBounds(diff);
    delay := sec * SEC + nsec;
  }

  /** How long after its clock reading an arming for a time stamp `diff` ahead may take to stay in time. */
  function Slack(diff: int): int {
    if diff >= MS then diff % MS else Max(diff, 1) - 1
  }

  /**
   * The delay is relative, so the time `slip` between reading the clock and arming is added to it.
   * The deadline stays within the time stamp, or one nanosecond from the reading when that has passed,
   * exactly when the slip fits into what the truncation cut off. Counted from the arming itself, a time
   * stamp less than a millisecond ahead is always met.
   */
  lemma ArmedInTimeIff(clock: int, stamp: int, slip: nat)
    ensures var diff := stamp - clock;
            && (clock + slip + ArmDelay(diff) <= Max(stamp, clock + 1) <==> slip <= Slack(diff))
            && (clock + slip + ArmDelay(diff) <= Max(stamp, clock + slip + 1) <==> diff < MS || slip <= Slack(diff))
  {
    ArmDelayBounds(stamp - clock);
  }

  // ---------------------------------------------------------------- the timer itself

  /** An element of the priority queue. */
  datatype TimerUnit = TimerUnit(id: nat, timeStamp: int, interval: int)

  /** The priority queue holds every entry of the map once and nothing else. */
  ghost predicate Holds(queue: multiset<TimerUnit>, m: map<nat, Entry>) {
    forall u :: queue[u] == if u.id in m && m[u.id] == Entry(u.timeStamp, u.interval) then 1 else 0
  }

  lemma HoldsPush(queue: multiset<TimerUnit>, m: map<nat, Entry>, u: TimerUnit)
    requires Holds(queue, m) && u.id !in m
    ensures Holds(queue + multiset{u}, m[u.id := Entry(u.timeStamp, u.interval)])
  {
  }

  lemma HoldsPop(queue: multiset<TimerUnit>, m: map<nat, Entry>, u: TimerUnit)
    requires Holds(queue, m) && u in queue
    ensures u.id in m && m[u.id] == Entry(u.timeStamp, u.interval)
    ensures Holds(queue - multiset{u}, m - {u.id})
  {
    assert queue[u] == 1;
  }

  lemma HoldsRequeue(queue: multiset<TimerUnit>, m: map<nat, Entry>, u: TimerUnit, v: TimerUnit)
    requires Holds(queue, m) && u in queue && v.id == u.id
    ensures Holds(queue - multiset{u} + multiset{v}, m[v.id := Entry(v.timeStamp, v.interval)])
  {
    HoldsPop(queue, m, u);
    HoldsPush(queue - multiset{u}, m - {u.id}, v);
    var e := Entry(v.timeStamp, v.interval);
    assert (m - {u.id})[v.id := e] == m[v.id := e];
  }

  lemma HoldsEmpty(queue: multiset<TimerUnit>, m: map<nat, Entry>)
    requires Holds(queue, m)
    ensures queue == multiset{} <==> m == map[]
  {
    if m != map[] {
      var id :| id in m;
      assert queue[TimerUnit(id, m[id].timeStamp, m[id].interval)] == 1;
    }
    if queue != multiset{} {
      var u :| u in queue;
      assert u.id in m;
    }
  }

  lemma {:induction false} EarliestExists(ids: set<nat>, m: map<nat, Entry>) returns (top: nat)
    requires ids != {} && forall id :: id in ids ==> id in m
    ensures top in ids && forall id :: id in ids ==> m[top].timeStamp <= m[id].timeStamp
    decreases |ids|
  {
    top :| top in ids;
    var rest := ids - {top};
    if rest != {} {
      var other := EarliestExists(rest, m);
      var first := if m[other].timeStamp < m[top].timeStamp then other else top;
      forall id | id in ids
        ensures m[first].timeStamp <= m[id].timeStamp
      {
        assert id == top || id in rest;
      }
      top := first;
    } else {
      assert ids == {top};
    }
  }

  lemma HoldsTop(queue: multiset<TimerUnit>, m: map<nat, Entry>)
    requires Holds(queue, m) && queue != multiset{}
    ensures exists top :: top in queue && forall u :: u in queue ==> top.timeStamp <= u.timeStamp
  {
    HoldsEmpty(queue, m);
    var first := EarliestExists(m.Keys, m);
    assert TimerUnit(first, m[first].timeStamp, m[first].interval) in queue;
  }

  lemma TopIsTop(queue: multiset<TimerUnit>, m: map<nat, Entry>, top: TimerUnit)
    requires Holds(queue, m) && top in queue && forall u :: u in queue ==> top.timeStamp <= u.timeStamp
    ensures IsTop(m, top.id) && m[top.id] == Entry(top.timeStamp, top.interval)
  {
    forall id | id in m
      ensures m[top.id].timeStamp <= m[id].timeStamp
    {
      assert TimerUnit(id, m[id].timeStamp, m[id].interval) in queue;
    }
  }

  /** The time stamp of the earliest entries. */
  ghost predicate EarliestIs(m: map<nat, Entry>, stamp: int) {
    exists id :: IsTop(m, id) && m[id].timeStamp == stamp
  }

  /** A later entry leaves the earliest time stamp alone. */
  lemma EarliestStays(m: map<nat, Entry>, stamp: int, id: nat, e: Entry, top: nat)
    requires EarliestIs(m, stamp) && id !in m
    requires IsTop(m[id := e], top) && m[id := e][top].timeStamp != e.timeStamp
    ensures EarliestIs(m[id := e], stamp)
  {
    var first :| IsTop(m, first) && m[first].timeStamp == stamp;
    var grown := m[id := e];
    assert grown[top].timeStamp <= grown[id].timeStamp;
    forall i | i in grown
      ensures grown[first].timeStamp <= grown[i].timeStamp
    {
      assert i == id || i in m;
    }
  }

  class Timer {
    var queue: multiset<TimerUnit>
    var deleteIds: set<nat>
    var lastId: nat
    var clock: int
    var deadline: Option<int>   // when the timerfd fires or has fired, until it is read
    var fired: seq<Dispatch>    // the callbacks posted to the heavy queue

    // The run of atomic effects so far; DispatchGuarantees and CancelIsFinal speak about it.
    ghost const start: int
    ghost var trace: seq<Action>
    ghost var b: Books

    ghost var armClock: int     // the clock reading used for the last arming
    ghost var armSlip: nat      // the time from that reading to the arming
    ghost var armStamp: int     // the time stamp it was for

    /** All but the arming, which a handler pass restores at its end. */
    ghost predicate Core()
      reads this
    {
      && (Holds(queue, b.queue) == true) && Run(NewBooks(start), trace, b)
      && deleteIds == b.deleteIds && lastId == b.lastId && clock == b.clock && fired == b.log
    }

    /** With entries pending, the timerfd is armed or has fired for the earliest of them, by the computed delay. */
    ghost predicate Armed()
      reads this
    {
      b.queue != map[] ==>
        && deadline == Some(armClock + armSlip + ArmDelay(armStamp - armClock))
        && EarliestIs(b.queue, armStamp)
    }

    ghost predicate Valid()
      reads this
    {
      Core() && Armed()
    }

    constructor (now: int)
      ensures Valid() && b == NewBooks(now) && trace == []
    {
      queue, deleteIds, lastId := multiset{}, {}, 0;
      clock, deadline, fired := now, None, [];
      start, trace, b := now, [], NewBooks(now);
      armClock, armSlip, armStamp := now, 0, now;
    }

    ghost method Step(a: Action)
      requires Run(NewBooks(start), trace, b) && Enabled(b, a)
      modifies this`trace, this`b
      ensures Run(NewBooks(start), trace, b) && b == Next(old(b), a) && trace == old(trace) + [a]
    {
      RunStep(NewBooks(start), trace, b, a);
      trace := trace + [a];
      b := Next(b, a);
    }

    /** A clock reading after some time has passed. */
    method Now(passed: nat) returns (now: int)
      requires Core()
      modifies this`clock, this`trace, this`b
      ensures Core() && now == clock == old(clock) + passed && b == old(b).(clock := now)
    {
      clock := clock + passed;
      Step(Tick(clock));
      now := clock;
    }

    /** The id a post call returns at once. */
    method NewId() returns (id: nat)
      requires Valid()
      modifies this`lastId, this`trace, this`b
      ensures Valid() && b == Next(old(b), TakeId) && id == lastId
      ensures id !in b.oneShots && id !in b.repeats
    {
      AcceptedIdsAreOld(start, trace, b);
      lastId := lastId + 1;
      Step(TakeId);
      id := lastId;
    }

    /**
     * Arms the timerfd for `time`: it reads the clock for the delay after `toReading`, and the delay
     * starts to run after another `toArming`.
     */
    method SetNextWakeTime(time: int, toReading: nat, toArming: nat)
      requires Core()
      modifies this`clock, this`deadline, this`armClock, this`armSlip, this`armStamp, this`trace, this`b
      ensures Core() && b == old(b).(clock := clock)
      ensures armStamp == time && armClock == old(clock) + toReading && armSlip == toArming
      ensures clock == armClock + armSlip
      ensures deadline == Some(clock + ArmDelay(time - armClock))
      ensures time - MS < deadline.value && clock < deadline.value
    {
      var reading := Now(toReading);
      var delay := WakeDelay(time - reading);
      var arming := Now(toArming);
      deadline := Some(arming + delay);
      armClock, armSlip, armStamp := reading, arming - reading, time;
    }

    /**
     * Between the steps of the loop, the wake-up for the earliest entry is on time exactly when the
     * arming was quick enough: counted from its clock reading, and counted from the arming itself.
     */
    lemma ArmedInTime(id: nat)
      requires Valid() && IsTop(b.queue, id)
      ensures deadline.Some?
      ensures var stamp, diff := b.queue[id].timeStamp, b.queue[id].timeStamp - armClock;
              && (deadline.value <= Max(stamp, armClock + 1) <==> armSlip <= Slack(diff))
              && (deadline.value <= Max(stamp, armClock + armSlip + 1) <==> diff < MS || armSlip <= Slack(diff))
    {
      ArmedInTimeIff(armClock, armStamp, armSlip);
    }

    /** The earliest entry; ties are broken in any way. */
    method Top() returns (top: TimerUnit)
      requires Core() && queue != multiset{}
      ensures top in queue && b.queue[top.id] == Entry(top.timeStamp, top.interval) && IsTop(b.queue, top.id)
    {
      HoldsTop(queue, b.queue);
      top :| top in queue && forall u :: u in queue ==> top.timeStamp <= u.timeStamp;
      TopIsTop(queue, b.queue, top);
    }

    /** The queued part of post_once_task (`repeated` false) and post_repeat_task; the clock is read three times. */
    method PostTask(id: nat, timeoutMs: UInt64, repeated: bool, toStamp: nat, toReading: nat, toArming: nat)
      requires Valid() && 0 < id <= lastId && id !in b.oneShots && id !in b.repeats
      modifies this
      ensures Valid() && id in b.queue
      // A repeating task without an interval is a one-shot task.
      ensures b.queue[id] == EntryFor(old(clock) + toStamp, timeoutMs, repeated)
      ensures timeoutMs < 0x8000_0000_0000_0000 ==>
                b.queue[id].timeStamp - (old(clock) + toStamp) == 1_000_000 * timeoutMs
      ensures timeoutMs >= 0x8000_0000_0000_0000 ==>
                b.queue[id].timeStamp - (old(clock) + toStamp) == 1_000_000 * (timeoutMs as int - 0x1_0000_0000_0000_0000)
      ensures b.queue[id].interval == if repeated then b.queue[id].timeStamp - (old(clock) + toStamp) else 0
      ensures b == Next(old(b).(clock := old(clock) + toStamp), Post(id, b.queue[id])).(clock := clock)
      // The timerfd is set again exactly for an entry that is among the earliest.
      ensures if EarliestIs(b.queue, b.queue[id].timeStamp)
              then armStamp == b.queue[id].timeStamp && armClock == old(clock) + toStamp + toReading && armSlip == toArming
              else deadline == old(deadline)
    {
      var now := Now(toStamp);
      var interval := if repeated then Milliseconds(timeoutMs) * MS else 0;
      var stamp := now + Milliseconds(timeoutMs) * MS;
      EntryForIs(now, timeoutMs, repeated);
      PostUnit(TimerUnit(id, stamp, interval), toReading, toArming);
    }

    /** Pushes the new entry and arms for it. */
    method PostUnit(unit: TimerUnit, toReading: nat, toArming: nat)
      requires Valid() && Enabled(b, Post(unit.id, Entry(unit.timeStamp, unit.interval)))
      modifies this
      ensures Valid() && unit.id in b.queue && b.queue[unit.id] == Entry(unit.timeStamp, unit.interval)
      ensures b == Next(old(b), Post(unit.id, Entry(unit.timeStamp, unit.interval))).(clock := clock)
      ensures if EarliestIs(b.queue, unit.timeStamp)
              then armStamp == unit.timeStamp && armClock == old(clock) + toReading && armSlip == toArming
              else deadline == old(deadline)
    {
      PushNew(unit);
      ArmAfterPost(unit.id, unit.timeStamp, old(b.queue), toReading, toArming);
    }

    /** Arms when the entry just pushed is among the earliest. */
    method ArmAfterPost(id: nat, stamp: int, ghost before: map<nat, Entry>, toReading: nat, toArming: nat)
      requires Core() && id in b.queue && b.queue[id].timeStamp == stamp
      requires id !in before && b.queue == before[id := b.queue[id]]
      requires before != map[] ==>
                 deadline == Some(armClock + armSlip + ArmDelay(armStamp - armClock)) && EarliestIs(before, armStamp)
      modifies this`clock, this`deadline, this`armClock, this`armSlip, this`armStamp, this`trace, this`b
      ensures Valid() && b == old(b).(clock := clock)
      ensures if EarliestIs(b.queue, stamp)
              then armStamp == stamp && armClock == old(clock) + toReading && armSlip == toArming
              else deadline == old(deadline)
    {
      HoldsEmpty(queue, b.queue);
      var top := Top();
      if top.timeStamp == stamp {
        SetNextWakeTime(top.timeStamp, toReading, toArming);
      } else {
        EarliestStays(before, armStamp, id, b.queue[id], top.id);
      }
    }

    /** A new entry enters the queue. */
    method PushNew(unit: TimerUnit)
      requires Core() && Enabled(b, Post(unit.id, Entry(unit.timeStamp, unit.interval)))
      modifies this`queue, this`trace, this`b
      ensures Core() && queue == old(queue) + multiset{unit} && unit.id !in old(b.queue)
      ensures b == Next(old(b), Post(unit.id, Entry(unit.timeStamp, unit.interval)))
    {
      PostedIdIsNew(start, trace, b, unit.id, Entry(unit.timeStamp, unit.interval));
      HoldsPush(queue, b.queue, unit);
      queue := queue + multiset{unit};
      Step(Post(unit.id, Entry(unit.timeStamp, unit.interval)));
    }

    /** The queued part of cancel_task. */
    method CancelTask(id: nat)
      requires Valid()
      modifies this`deleteIds, this`trace, this`b
      ensures Valid() && b == Next(old(b), Cancel(id)) && deleteIds == old(deleteIds) + {id}
    {
      deleteIds := deleteIds + {id};
      Step(Cancel(id));
    }

    /** A cancelled entry leaves the queue and the cancel set. */
    method DropTop(top: TimerUnit)
      requires Core() && top in queue && top.id in deleteIds
      modifies this`queue, this`deleteIds, this`trace, this`b
      ensures top.id in old(b.queue) && Core() && b == Next(old(b), Drop(top.id))
    {
      HoldsPop(queue, b.queue, top);
      queue := queue - multiset{top};
      deleteIds := deleteIds - {top.id};
      Step(Drop(top.id));
    }

    /** A due entry leaves the queue, comes back at a later time if it repeats, and is posted to the heavy queue. */
    method FireTop(top: TimerUnit, now: int) returns (ghost again: int)
      requires Core() && top in queue && top.id in b.queue && Enabled(b, Fire(top.id, now, now + top.interval))
      requires b.queue[top.id] == Entry(top.timeStamp, top.interval)
      modifies this`queue, this`clock, this`fired, this`trace, this`b
      ensures clock >= old(clock) && again == if top.interval == 0 then now else clock + top.interval
      ensures fired == old(fired) + [Dispatch(top.id, Entry(top.timeStamp, top.interval), now)]
      ensures Core() && b == Next(old(b), Fire(top.id, now, again)).(clock := clock)
    {
      if top.interval == 0 {
        FireOnce(top, now);
        again := now;
      } else {
        again := FireAgain(top, now);
      }
    }

    method FireOnce(top: TimerUnit, now: int)
      requires Core() && top in queue && top.interval == 0 && Enabled(b, Fire(top.id, now, now))
      requires b.queue[top.id] == Entry(top.timeStamp, 0)
      modifies this`queue, this`fired, this`trace, this`b
      ensures Core() && b == Next(old(b), Fire(top.id, now, now))
    {
      HoldsPop(queue, b.queue, top);
      queue := queue - multiset{top};
      fired := fired + [Dispatch(top.id, Entry(top.timeStamp, top.interval), now)];
      Step(Fire(top.id, now, now));
    }

    /** The clock is read for the new time stamp, a whole interval from then. */
    method FireAgain(top: TimerUnit, now: int) returns (ghost again: int)
      requires Core() && top in queue && top.interval != 0 && Enabled(b, Fire(top.id, now, now + top.interval))
      requires b.queue[top.id] == Entry(top.timeStamp, top.interval)
      modifies this`queue, this`clock, this`fired, this`trace, this`b
      ensures clock >= old(clock) && again == clock + top.interval >= now + top.interval
      ensures Core() && b == Next(old(b), Fire(top.id, now, again)).(clock := clock)
    {
      var passed: int :| passed >= 0;
      var reading := Now(passed);
      again := reading + top.interval;
      var unit := TimerUnit(top.id, reading + top.interval, top.interval);
      HoldsRequeue(queue, b.queue, top, unit);
      queue := queue - multiset{top} + multiset{unit};
      fired := fired + [Dispatch(top.id, Entry(top.timeStamp, top.interval), now)];
      Step(Fire(top.id, now, again));
    }

    /**
     * The expiry handler. It deals with every entry due at the clock reading it samples, dispatching
     * those not cancelled, and terminates although repeating entries go back into the queue. An
     * interval that turned negative could keep it busy, as ExpiryCanSpin shows.
     */
    method OnExpiry() returns (ghost now: int)
      requires Valid() && Forward(b.queue)
      modifies this
      ensures Valid() && old(clock) <= now <= clock
      ensures Pass(old(b), now, b) && Due(b.queue, now) == {}
    {
      ghost var a := b;
      now := clock;
      if deadline.Some? && deadline.value <= clock {
        // Reading the timerfd; it is disarmed until set again.
        deadline := None;
      }
      LogIsPast(start, trace, b);
      HoldsEmpty(queue, b.queue);
      if queue == multiset{} {
        PassStarts(a, now);
        return;
      }
      now := ServePass();
    }

    /** A pass over a queue with something in it. */
    method ServePass() returns (now: int)
      requires Core() && Forward(b.queue) && queue != multiset{}
      modifies this
      ensures Valid() && old(clock) <= now <= clock
      ensures Pass(old(b), now, b) && Due(b.queue, now) == {}
    {
      ghost var a := b;
      var passed: int :| passed >= 0;
      now := Now(passed);
      LogIsPast(start, trace, b);
      PassStarts(a, now);
      PassTicks(a, now, a, now);
      while queue != multiset{}
        invariant Core() && (Pass(a, now, b) == true) && (Forward(b.queue) == true) && now <= clock
        decreases Due(b.queue, now)
      {
        var top := Top();
        if top.timeStamp > now {
          Rearm(top, now, a);
          return;
        }
        ServeDue(top, now, a);
      }
      HoldsEmpty(queue, b.queue);
    }

    /** The end of a pass over `a`: nothing is due any more, and the timerfd is set for the earliest entry. */
    method Rearm(top: TimerUnit, now: int, ghost a: Books)
      requires Core() && (Pass(a, now, b) == true) && now <= clock
      requires IsTop(b.queue, top.id) && b.queue[top.id].timeStamp == top.timeStamp > now
      modifies this`clock, this`deadline, this`armClock, this`armSlip, this`armStamp, this`trace, this`b
      ensures Valid() && old(clock) <= clock && b.queue == old(b.queue)
      ensures (Pass(a, now, b) == true) && Due(b.queue, now) == {}
    {
      ghost var before := b;
      var toReading: int, toArming: int :| toReading >= 0 && toArming >= 0;
      SetNextWakeTime(top.timeStamp, toReading, toArming);
      PassTicks(a, now, before, clock);
    }

    /** One due entry of a pass over `a`: dropped when cancelled, otherwise dispatched. */
    method ServeDue(top: TimerUnit, now: int, ghost a: Books)
      requires Core() && (Pass(a, now, b) == true) && (Forward(b.queue) == true) && now <= clock
      requires top in queue && IsTop(b.queue, top.id) && b.queue[top.id] == Entry(top.timeStamp, top.interval)
      requires top.timeStamp <= now
      modifies this`queue, this`deleteIds, this`clock, this`fired, this`trace, this`b
      ensures Core() && (Pass(a, now, b) == true) && (Forward(b.queue) == true) && old(clock) <= clock
      ensures Due(b.queue, now) < Due(old(b.queue), now)
    {
      ghost var before := b;
      if top.id in deleteIds {
        PassDrops(a, now, before, top.id);
        DropTop(top);
      } else {
        ghost var again := FireTop(top, now);
        PassFires(a, now, before, top.id, again, clock);
      }
    }
  }

  /** A timer five milliseconds ahead whose arming took a nanosecond after the clock reading wakes up late. */
  method ArmingCanBeLate() returns (timer: Timer)
    ensures fresh(timer) && timer.Valid() && timer.deadline.Some? && 1 in timer.b.queue && timer.armSlip == 1
    ensures timer.deadline.value > Max(timer.b.queue[1].timeStamp, timer.armClock + timer.armSlip + 1)
  {
    timer := new Timer(0);
    var id := timer.NewId();
    timer.PostTask(id, 5, false, 0, 0, 1);
    assert IsTop(timer.b.queue, 1);
    timer.ArmedInTime(1);
  }
}
