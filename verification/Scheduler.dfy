/** The tick, delay and suspension machinery of FreeRtos/kernel/tasks.c on one core.

`Sched` is the kernel's file-level state, and the functions say what each kernel call does to it.
Module SchedulerRuns puts them together into runs, and module Kernel does the same in place.
*/
module Scheduling {
  import opened Basics
  import opened Rings

  const MAX_PRIORITIES: nat := 31
  const IDLE: Task := 0

  /** A task whose state list item is in a delayed list, keyed by its wake time. */
  datatype Sleeper = Sleeper(task: Task, value: nat)

  datatype Sched = Sched(
    tick: nat,                  // xTickCount
    overflows: nat,             // xNumOfOverflows
    pended: nat,                // xPendedTicks
    suspended: nat,             // uxSchedulerSuspended
    delayed: seq<Sleeper>,      // pxDelayedTaskList
    overflow: seq<Sleeper>,     // pxOverflowDelayedTaskList
    forever: seq<Task>,         // xSuspendedTaskList
    pending: seq<Task>,         // xPendingReadyList
    waiting: set<Task>,         // tasks whose event list item is in an event list
    ready: seq<Ring<Task>>,     // pxReadyTasksLists
    top: nat,                   // uxTopReadyPriority
    prio: map<Task, nat>,       // uxPriority
    current: Task,              // pxCurrentTCB
    yieldPending: bool,         // xYieldPendings[ 0 ]
    nextUnblock: nat)           // xNextTaskUnblockTime

  /** The unbounded clock that the 32-bit tick count stands for. */
  function Clock(s: Sched): nat {
    s.overflows * TICK_MOD + s.tick
  }

  // ---------------------------------------------------------------- lists of tasks

  function Values(list: seq<Sleeper>): (v: seq<nat>)
    ensures |v| == |list| && forall i :: 0 <= i < |v| ==> v[i] == list[i].value
  {
    seq(|list|, i requires 0 <= i < |list| => list[i].value)
  }

  /** How many sleepers of the list are task `q`. */
  function Asleep(list: seq<Sleeper>, q: Task): nat {
    if list == [] then 0 else (if list[0].task == q then 1 else 0) + Asleep(list[1..], q)
  }

  function InsertSleeper(list: seq<Sleeper>, e: Sleeper): seq<Sleeper> {
    var k := InsertPosition(Values(list), e.value);
    list[..k] + [e] + list[k..]
  }

  /** uxListRemove of the state item of `t`, if it is in this list. */
  function DropSleeper(list: seq<Sleeper>, t: Task): seq<Sleeper> {
    if list == [] then []
    else if list[0].task == t then list[1..]
    else [list[0]] + DropSleeper(list[1..], t)
  }

  function DropTask(list: seq<Task>, t: Task): seq<Task> {
    if list == [] then []
    else if list[0] == t then list[1..]
    else [list[0]] + DropTask(list[1..], t)
  }

  function Find(items: seq<Task>, t: Task): (k: nat)
    requires t in items
    ensures k < |items| && items[k] == t
  {
    if items[0] == t then 0 else 1 + Find(items[1..], t)
  }

  function One(b: bool): nat { if b then 1 else 0 }

  lemma {:induction false} AsleepSplice(list: seq<Sleeper>, k: nat, e: Sleeper, q: Task)
    requires k <= |list|
    ensures Asleep(list[..k] + [e] + list[k..], q) == Asleep(list, q) + One(e.task == q)
  {
    var r := list[..k] + [e] + list[k..];
    if k == 0 {
      assert r[1..] == list;
    } else {
      AsleepSplice(list[1..], k - 1, e, q);
      assert r[1..] == list[1..][..k - 1] + [e] + list[1..][k - 1..];
    }
  }

  lemma {:induction false} AsleepDrop(list: seq<Sleeper>, t: Task, q: Task)
    ensures Asleep(DropSleeper(list, t), q) == Asleep(list, q) - One(q == t && Asleep(list, t) > 0)
  {
    if list != [] && list[0].task != t {
      AsleepDrop(list[1..], t, q);
      assert DropSleeper(list, t)[1..] == DropSleeper(list[1..], t);
    }
  }

  lemma {:induction false} MemberIsAsleep(list: seq<Sleeper>, e: Sleeper)
    requires e in list
    ensures Asleep(list, e.task) > 0
  {
    if list[0] != e { MemberIsAsleep(list[1..], e); }
  }

  lemma {:induction false} CountDropTask(list: seq<Task>, t: Task, q: Task)
    ensures multiset(DropTask(list, t))[q] == multiset(list)[q] - One(q == t && t in list)
  {
    if list != [] {
      assert list == [list[0]] + list[1..];
      if list[0] != t { CountDropTask(list[1..], t, q); }
    }
  }

  lemma CountRingInsert(r: Ring<Task>, k: nat, t: Task, q: Task)
    requires k <= |r.items|
    ensures multiset(r.InsertAt(k, t).items)[q] == multiset(r.items)[q] + One(q == t)
  {
    assert r.items == r.items[..k] + r.items[k..];
  }

  lemma CountRingRemove(r: Ring<Task>, k: nat, q: Task)
    requires k < |r.items|
    ensures multiset(r.RemoveAt(k).items)[q] == multiset(r.items)[q] - One(q == r.items[k])
  {
    assert r.items == r.items[..k] + [r.items[k]] + r.items[k + 1..];
  }

  lemma {:induction false} DropAbsent(list: seq<Sleeper>, t: Task)
    requires Asleep(list, t) == 0
    ensures DropSleeper(list, t) == list
  {
    if list != [] { DropAbsent(list[1..], t); }
  }

  lemma {:induction false} DropTaskMembers(list: seq<Task>, t: Task)
    ensures forall q :: q in DropTask(list, t) ==> q in list
    ensures t !in list ==> DropTask(list, t) == list
  {
    if list != [] { DropTaskMembers(list[1..], t); }
  }

  lemma {:induction false} DropMembers(list: seq<Sleeper>, t: Task)
    ensures forall e :: e in DropSleeper(list, t) ==> e in list
    ensures forall e :: e in list && e.task != t ==> e in DropSleeper(list, t)
  {
    if list != [] && list[0].task != t {
      DropMembers(list[1..], t);
    }
  }

  lemma {:induction false} DropAscending(list: seq<Sleeper>, t: Task)
    requires Ascending(Values(list))
    ensures Ascending(Values(DropSleeper(list, t)))
  {
    if list != [] {
      assert forall e :: e in list[1..] ==> list[0].value <= e.value by {
        forall e | e in list[1..] ensures list[0].value <= e.value {
          var i :| 0 <= i < |list[1..]| && list[1..][i] == e;
          assert Values(list)[0] <= Values(list)[i + 1];
        }
      }
      TailAscending(list);
      if list[0].task != t {
        DropAscending(list[1..], t);
        DropMembers(list[1..], t);
        ConsAscending(list[0], DropSleeper(list[1..], t));
      }
    }
  }

  lemma TailAscending(list: seq<Sleeper>)
    requires Ascending(Values(list)) && list != []
    ensures Ascending(Values(list[1..]))
  {
    assert Values(list[1..]) == Values(list)[1..];
  }

  lemma ConsAscending(e: Sleeper, list: seq<Sleeper>)
    requires Ascending(Values(list)) && forall x :: x in list ==> e.value <= x.value
    ensures Ascending(Values([e] + list))
  {
    assert Values([e] + list) == [e.value] + Values(list);
  }

  // ---------------------------------------------------------------- state and invariant

  ghost predicate Shape(s: Sched) {
    && |s.ready| == MAX_PRIORITIES
    && (forall p :: 0 <= p < MAX_PRIORITIES ==> s.ready[p].WellFormed())
    && (forall t :: t in s.prio ==> s.prio[t] < MAX_PRIORITIES)
    && s.top < MAX_PRIORITIES
    && IDLE in s.prio && s.current in s.prio
    && (forall e :: e in s.delayed || e in s.overflow ==> e.task in s.prio)
    && (forall t :: t in s.forever || t in s.pending || t in s.waiting ==> t in s.prio)
  }

  ghost function ReadyPlaces(s: Sched, p: nat, q: Task): nat
    requires p < |s.ready|
  {
    multiset(s.ready[p].items)[q]
  }

  ghost predicate IsReady(s: Sched, q: Task)
    requires Shape(s)
  {
    q in s.prio && ReadyPlaces(s, s.prio[q], q) > 0
  }

  ghost function BlockedPlaces(s: Sched, q: Task): nat {
    Asleep(s.delayed, q) + Asleep(s.overflow, q) + multiset(s.forever)[q]
  }

  ghost predicate Blocked(s: Sched, q: Task) {
    BlockedPlaces(s, q) > 0
  }

  /** Every task's state item is in exactly one list, and in the ready list of its priority
  if that is a ready list; no other task is anywhere. */
  ghost predicate Placed(s: Sched)
    requires Shape(s)
  {
    && (forall q :: q in s.prio ==> BlockedPlaces(s, q) + ReadyPlaces(s, s.prio[q], q) == 1)
    && (forall q :: q !in s.prio ==> BlockedPlaces(s, q) == 0)
    && (forall p: nat, q :: p < MAX_PRIORITIES && ReadyPlaces(s, p, q) > 0 ==>
          q in s.prio && s.prio[q] == p && p <= s.top)
    && IsReady(s, IDLE)
  }

  /** The delayed lists are sorted and hold exactly the wake times still to come. */
  ghost predicate Timed(s: Sched) {
    && s.tick < TICK_MOD && s.nextUnblock < TICK_MOD && s.pended < TICK_MOD
    && Ascending(Values(s.delayed)) && Ascending(Values(s.overflow))
    && (forall e :: e in s.delayed ==> s.tick < e.value < TICK_MOD && s.nextUnblock <= e.value)
    && (forall e :: e in s.overflow ==> e.value < s.tick)
  }

  /** Tasks woken by an event while the scheduler is suspended, and tasks still waiting for one. */
  ghost predicate Events(s: Sched) {
    && (forall q :: multiset(s.pending)[q] <= One(Blocked(s, q)))
    && (forall q :: q in s.waiting ==> Blocked(s, q) && q !in s.pending)
  }

  ghost predicate Core(s: Sched) {
    Shape(s) && Placed(s) && Timed(s) && Events(s)
  }

  /** Nothing is held back while the scheduler runs. */
  ghost predicate Inv(s: Sched) {
    Core(s) && (s.suspended == 0 ==> s.pending == [] && s.pended == 0)
  }

  /** Fields that readying a task leaves alone. */
  ghost predicate SameRest(s: Sched, r: Sched) {
    && r.pended == s.pended && r.suspended == s.suspended && r.pending == s.pending
    && r.prio == s.prio && r.current == s.current && r.yieldPending == s.yieldPending
  }

  // ---------------------------------------------------------------- waking one task

  /** prvAddTaskToReadyList. */
  function AddReady(s: Sched, t: Task): Sched
    requires Shape(s) && t in s.prio
  {
    var p := s.prio[t];
    s.(ready := s.ready[p := s.ready[p].InsertEnd(t)], top := if p > s.top then p else s.top)
  }

  /** Take the state item of `t` out of its list and ready the task. */
  function Wake(s: Sched, t: Task): (r: Sched)
    requires Shape(s) && t in s.prio
    ensures Shape(r) && SameRest(s, r) && r.tick == s.tick && r.overflows == s.overflows
    ensures r.delayed == DropSleeper(s.delayed, t) && r.overflow == DropSleeper(s.overflow, t)
    ensures r.waiting == s.waiting && r.nextUnblock == s.nextUnblock
  {
    DropMembers(s.delayed, t);
    DropMembers(s.overflow, t);
    DropTaskMembers(s.forever, t);
    AddReady(s.(delayed := DropSleeper(s.delayed, t),
                overflow := DropSleeper(s.overflow, t),
                forever := DropTask(s.forever, t)), t)
  }

  lemma WakeCounts(s: Sched, t: Task, p: nat, q: Task)
    requires Shape(s) && Placed(s) && t in s.prio && Blocked(s, t) && p < MAX_PRIORITIES
    ensures BlockedPlaces(Wake(s, t), q) == BlockedPlaces(s, q) - One(q == t)
    ensures ReadyPlaces(Wake(s, t), p, q) == ReadyPlaces(s, p, q) + One(q == t && p == s.prio[t])
  {
    AsleepDrop(s.delayed, t, q);
    AsleepDrop(s.overflow, t, q);
    CountDropTask(s.forever, t, q);
    var ring := s.ready[s.prio[t]];
    CountRingInsert(ring, ring.EndPosition(), t, q);
  }

  /** Between `s` and `r`, task `t` went from a blocked list to its ready list; no other moved. */
  ghost predicate Readied(s: Sched, r: Sched, t: Task)
    requires Shape(s) && Shape(r) && t in s.prio
  {
    && (forall q :: BlockedPlaces(r, q) == BlockedPlaces(s, q) - One(q == t))
    && (forall p: nat, q :: p < MAX_PRIORITIES ==>
          ReadyPlaces(r, p, q) == ReadyPlaces(s, p, q) + One(q == t && p == s.prio[t]))
  }

  lemma WakeReadies(s: Sched, t: Task)
    requires Shape(s) && Placed(s) && t in s.prio && Blocked(s, t)
    ensures Readied(s, Wake(s, t), t)
  {
    forall q ensures BlockedPlaces(Wake(s, t), q) == BlockedPlaces(s, q) - One(q == t) {
      WakeCounts(s, t, 0, q);
    }
    forall p: nat, q | p < MAX_PRIORITIES
      ensures ReadyPlaces(Wake(s, t), p, q) == ReadyPlaces(s, p, q) + One(q == t && p == s.prio[t])
    {
      WakeCounts(s, t, p, q);
    }
  }

  lemma ReadiedIsPlaced(s: Sched, r: Sched, t: Task)
    requires Shape(s) && Placed(s) && t in s.prio && Shape(r) && Readied(s, r, t)
    requires r.prio == s.prio && r.top == if s.prio[t] > s.top then s.prio[t] else s.top
    ensures Placed(r) && IsReady(r, t)
    ensures forall q :: Blocked(r, q) <==> Blocked(s, q) && q != t
    ensures forall q :: IsReady(r, q) <==> IsReady(s, q) || q == t
  {}

  lemma WakePlaced(s: Sched, t: Task)
    requires Shape(s) && Placed(s) && t in s.prio && Blocked(s, t)
    ensures Placed(Wake(s, t)) && IsReady(Wake(s, t), t)
    ensures forall q :: Blocked(Wake(s, t), q) <==> Blocked(s, q) && q != t
    ensures forall q :: IsReady(Wake(s, t), q) <==> IsReady(s, q) || q == t
  {
    WakeReadies(s, t);
    ReadiedIsPlaced(s, Wake(s, t), t);
  }

  // ---------------------------------------------------------------- the tick

  function HeadValue(list: seq<Sleeper>): nat {
    if list == [] then MAX_DELAY else list[0].value
  }

  /** taskSWITCH_DELAYED_LISTS. */
  function SwitchLists(s: Sched): Sched {
    s.(delayed := s.overflow, overflow := s.delayed, overflows := s.overflows + 1,
       nextUnblock := HeadValue(s.overflow))
  }

  /** What xTaskIncrementTick hands to its loop: the tick has advanced, lists switched. */
  function Advance(s: Sched): (r: Sched)
    requires Shape(s)
    ensures Shape(r)
  {
    var now := (s.tick + 1) % TICK_MOD;
    if now == 0 then SwitchLists(s.(tick := now)) else s.(tick := now)
  }

  /** The loop of xTaskIncrementTick: ready every task whose time has come. */
  function UnblockExpired(s: Sched): (r: Sched)
    requires Shape(s)
    ensures Shape(r) && SameRest(s, r) && r.tick == s.tick && r.overflows == s.overflows
    ensures r.nextUnblock == HeadValue(r.delayed)
    decreases |s.delayed|
  {
    if s.delayed == [] || s.tick < s.delayed[0].value then
      s.(nextUnblock := HeadValue(s.delayed))
    else
      UnblockExpired(WakeHead(s))
  }

  /** xTaskIncrementTick while the scheduler runs. */
  function IncrementTick(s: Sched): (r: Sched)
    requires Shape(s)
    ensures Shape(r) && SameRest(s, r)
    ensures r.tick == (s.tick + 1) % TICK_MOD
    ensures r.overflows == s.overflows + One(r.tick == 0)
  {
    var s1 := Advance(s);
    if s1.tick >= s1.nextUnblock then UnblockExpired(s1) else s1
  }

  /** Does a task readied by the loop outrank the running one? */
  function UnblocksHigher(s: Sched): bool
    requires Shape(s)
    decreases |s.delayed|
  {
    s.delayed != [] && s.delayed[0].value <= s.tick &&
    (s.prio[s.delayed[0].task] > s.prio[s.current] || UnblocksHigher(WakeHead(s)))
  }

  /** Every task still on an event list is blocked. */
  ghost predicate WaitersBlocked(s: Sched) {
    forall q :: q in s.waiting ==> Blocked(s, q)
  }

  /** The step of the loop: the head of the delayed list becomes ready. */
  function WakeHead(s: Sched): (r: Sched)
    requires Shape(s) && s.delayed != []
    ensures Shape(r) && SameRest(s, r) && r.tick == s.tick && r.overflows == s.overflows
    ensures r.delayed == s.delayed[1..]
  {
    var t := s.delayed[0].task;
    Wake(s, t).(waiting := s.waiting - {t})
  }

  lemma HeadIsBlocked(s: Sched)
    requires Shape(s) && Placed(s) && s.delayed != []
    ensures var t := s.delayed[0].task;
            Blocked(s, t) && Asleep(s.overflow, t) == 0 && t !in s.forever
  {
    MemberIsAsleep(s.delayed, s.delayed[0]);
  }

  lemma WakeHeadLists(s: Sched)
    requires Shape(s) && Placed(s) && s.delayed != []
    ensures WakeHead(s).overflow == s.overflow && WakeHead(s).forever == s.forever
  {
    HeadIsBlocked(s);
    DropAbsent(s.overflow, s.delayed[0].task);
    DropTaskMembers(s.forever, s.delayed[0].task);
  }

  lemma WakeHeadPlaced(s: Sched)
    requires Shape(s) && Placed(s) && s.delayed != []
    ensures Placed(WakeHead(s)) && IsReady(WakeHead(s), s.delayed[0].task)
    ensures forall q :: IsReady(WakeHead(s), q) <==> IsReady(s, q) || q == s.delayed[0].task
    ensures WaitersBlocked(s) ==> WaitersBlocked(WakeHead(s))
  {
    var t := s.delayed[0].task;
    HeadIsBlocked(s);
    WakePlaced(s, t);
    SamePlaces(Wake(s, t), WakeHead(s));
  }

  /** No task has moved between `s` and `r`. */
  ghost predicate Unmoved(s: Sched, r: Sched)
    requires Shape(s) && Shape(r)
  {
    && r.prio == s.prio && r.top == s.top
    && (forall q :: BlockedPlaces(r, q) == BlockedPlaces(s, q))
    && (forall p: nat, q :: p < MAX_PRIORITIES ==> ReadyPlaces(r, p, q) == ReadyPlaces(s, p, q))
  }

  lemma UnmovedIsPlaced(s: Sched, r: Sched)
    requires Shape(s) && Placed(s) && Shape(r) && Unmoved(s, r)
    ensures Placed(r)
    ensures forall q :: IsReady(r, q) <==> IsReady(s, q)
  {}

  /** Placement depends on the lists and priorities only. */
  lemma SamePlaces(s: Sched, r: Sched)
    requires Shape(s) && Placed(s) && Shape(r)
    requires r.delayed == s.delayed && r.overflow == s.overflow && r.forever == s.forever
    requires r.ready == s.ready && r.prio == s.prio && r.top == s.top
    ensures Placed(r)
    ensures forall q :: BlockedPlaces(r, q) == BlockedPlaces(s, q)
    ensures forall q :: IsReady(r, q) <==> IsReady(s, q)
  {
    assert Unmoved(s, r);
    UnmovedIsPlaced(s, r);
  }

  /** The loop leaves every task in one place, and readies exactly the sleepers that are due. */
  lemma {:induction false} UnblockPlaced(s: Sched)
    requires Shape(s) && Placed(s)
    ensures Placed(UnblockExpired(s))
    ensures forall q :: IsReady(s, q) ==> IsReady(UnblockExpired(s), q)
    ensures WaitersBlocked(s) ==> WaitersBlocked(UnblockExpired(s))
    decreases |s.delayed|
  {
    if s.delayed == [] || s.tick < s.delayed[0].value {
      SamePlaces(s, UnblockExpired(s));
    } else {
      WakeHeadPlaced(s);
      WakeHeadLists(s);
      UnblockPlaced(WakeHead(s));
    }
  }

  lemma {:induction false} UnblockLists(s: Sched)
    requires Shape(s) && Placed(s)
    ensures var r := UnblockExpired(s);
            && r.overflow == s.overflow && r.forever == s.forever
            && (forall e :: e in r.delayed ==> e in s.delayed)
    decreases |s.delayed|
  {
    if s.delayed == [] || s.tick < s.delayed[0].value {
    } else {
      WakeHeadPlaced(s);
      WakeHeadLists(s);
      UnblockLists(WakeHead(s));
    }
  }

  lemma {:induction false} UnblockReadies(s: Sched, e: Sleeper)
    requires Shape(s) && Placed(s) && e in s.delayed
    ensures var r := UnblockExpired(s);
            e in r.delayed || (e.value <= s.tick && IsReady(r, e.task))
    decreases |s.delayed|
  {
    if s.delayed == [] || s.tick < s.delayed[0].value {
    } else {
      WakeHeadPlaced(s);
      WakeHeadLists(s);
      if e == s.delayed[0] {
        UnblockPlaced(WakeHead(s));
      } else {
        UnblockReadies(WakeHead(s), e);
      }
    }
  }

  lemma {:induction false} UnblockSorted(s: Sched)
    requires Shape(s) && Placed(s) && Ascending(Values(s.delayed))
    ensures var r := UnblockExpired(s);
            && Ascending(Values(r.delayed))
            && (forall e :: e in r.delayed ==> s.tick < e.value && HeadValue(r.delayed) <= e.value)
    decreases |s.delayed|
  {
    if s.delayed == [] {
    } else if s.tick < s.delayed[0].value {
      HeadIsLeast(s.delayed);
    } else {
      WakeHeadPlaced(s);
      WakeHeadLists(s);
      TailAscending(s.delayed);
      UnblockSorted(WakeHead(s));
    }
  }

  lemma HeadIsLeast(list: seq<Sleeper>)
    requires Ascending(Values(list)) && list != []
    ensures forall e :: e in list ==> list[0].value <= e.value
  {
    forall e | e in list ensures list[0].value <= e.value {
      var i :| 0 <= i < |list| && list[i] == e;
      assert Values(list)[0] <= Values(list)[i];
    }
  }

  // ---------------------------------------------------------------- one tick, exactly

  /** Task `t` is in a delayed list and its wake time is the true time `due`. */
  ghost predicate SleepsUntil(s: Sched, t: Task, due: nat) {
    var start := s.overflows * TICK_MOD;
    || (due >= start && Sleeper(t, due - start) in s.delayed)
    || (due >= start + TICK_MOD && Sleeper(t, due - start - TICK_MOD) in s.overflow)
  }

  /** The list that is switched away is empty, as taskSWITCH_DELAYED_LISTS asserts. */
  lemma NoSleeperAtWrap(s: Sched)
    requires Timed(s)
    ensures s.tick == MAX_DELAY ==> s.delayed == []
  {
    if s.delayed != [] { assert s.delayed[0] in s.delayed; }
  }

  ghost predicate Advanced(s: Sched) {
    && s.tick < TICK_MOD && s.nextUnblock < TICK_MOD && s.pended < TICK_MOD
    && Ascending(Values(s.delayed)) && Ascending(Values(s.overflow))
    && (forall e :: e in s.delayed ==> s.tick <= e.value < TICK_MOD && s.nextUnblock <= e.value)
    && (forall e :: e in s.overflow ==> e.value < s.tick)
  }

  lemma AdvanceTimed(s: Sched)
    requires Shape(s) && Timed(s)
    ensures Advanced(Advance(s)) && Clock(Advance(s)) == Clock(s) + 1
  {
    hide Shape, Ascending, Values;
    if s.tick == MAX_DELAY {
      NoSleeperAtWrap(s);
      if s.overflow != [] { HeadIsLeast(s.overflow); }
    }
  }

  lemma AdvancePlaced(s: Sched)
    requires Shape(s) && Placed(s) && WaitersBlocked(s)
    ensures Placed(Advance(s)) && WaitersBlocked(Advance(s))
    ensures forall q :: IsReady(Advance(s), q) <==> IsReady(s, q)
  {
    hide Placed, WaitersBlocked, IsReady, Advance, Unmoved;
    AdvanceUnmoved(s);
    UnmovedIsPlaced(s, Advance(s));
  }

  lemma AdvanceUnmoved(s: Sched)
    requires Shape(s)
    ensures Unmoved(s, Advance(s))
    ensures WaitersBlocked(s) ==> WaitersBlocked(Advance(s))
  {}

  lemma TickTimed(s: Sched)
    requires Shape(s) && Placed(s) && WaitersBlocked(s) && Timed(s)
    ensures Timed(IncrementTick(s)) && Clock(IncrementTick(s)) == Clock(s) + 1
  {
    hide Shape, Placed, Ascending, Values, UnblockExpired, Advance;
    var s1 := Advance(s);
    AdvanceTimed(s);
    AdvancePlaced(s);
    if s1.tick >= s1.nextUnblock {
      UnblockLists(s1);
      UnblockSorted(s1);
      BoundedHead(UnblockExpired(s1).delayed);
    }
  }

  lemma BoundedHead(list: seq<Sleeper>)
    requires forall e :: e in list ==> e.value < TICK_MOD
    ensures HeadValue(list) < TICK_MOD
  {
    if list != [] { assert list[0] in list; }
  }

  lemma TickPlaced(s: Sched)
    requires Shape(s) && Placed(s) && WaitersBlocked(s)
    ensures Placed(IncrementTick(s)) && WaitersBlocked(IncrementTick(s))
    ensures forall q :: IsReady(s, q) ==> IsReady(IncrementTick(s), q)
  {
    AdvancePlaced(s);
    UnblockPlaced(Advance(s));
  }

  lemma TickKeepsCore(s: Sched)
    requires Core(s) && s.pending == []
    ensures Core(IncrementTick(s))
  {
    TickPlaced(s);
    TickTimed(s);
  }

  lemma LoopIsExact(s: Sched, e: Sleeper)
    requires Shape(s) && Placed(s) && Advanced(s) && e in s.delayed
    ensures var r := if s.tick >= s.nextUnblock then UnblockExpired(s) else s;
            if s.tick < e.value then e in r.delayed else IsReady(r, e.task)
  {
    if s.tick >= s.nextUnblock {
      UnblockReadies(s, e);
      UnblockSorted(s);
    }
  }

  /** A sleeping task becomes ready in the very tick that reaches its wake time, not before. */
  lemma TickIsExact(s: Sched, t: Task, due: nat)
    requires Core(s) && SleepsUntil(s, t, due)
    ensures Clock(s) < due
    ensures if Clock(s) + 1 < due then SleepsUntil(IncrementTick(s), t, due)
            else IsReady(IncrementTick(s), t)
  {
    hide Placed, IsReady, Ascending, Values, UnblockExpired;
    AdvanceTimed(s);
    AdvancePlaced(s);
    AdvanceSleeper(s, t, due);
    AfterAdvance(Advance(s), t, due);
  }

  lemma AfterAdvance(s: Sched, t: Task, due: nat)
    requires Shape(s) && Placed(s) && Advanced(s) && SleepsUntil(s, t, due)
    ensures var r := if s.tick >= s.nextUnblock then UnblockExpired(s) else s;
            if Clock(s) < due then SleepsUntil(r, t, due) else IsReady(r, t)
  {
    hide Shape, Placed, Ascending, Values, UnblockExpired;
    var start := s.overflows * TICK_MOD;
    if due >= start && Sleeper(t, due - start) in s.delayed {
      LoopIsExact(s, Sleeper(t, due - start));
    } else {
      UnblockLists(s);
    }
  }

  lemma AdvanceSleeper(s: Sched, t: Task, due: nat)
    requires Shape(s) && Timed(s) && SleepsUntil(s, t, due)
    ensures Clock(s) < due && SleepsUntil(Advance(s), t, due)
  {
    NoSleeperAtWrap(s);
  }

  // ---------------------------------------------------------------- blocking the running task

  /** Take the running task out of its ready list. */
  function Unready(s: Sched): (r: Sched)
    requires Shape(s) && s.current in s.ready[s.prio[s.current]].items
    ensures Shape(r) && SameRest(s, r)
  {
    var p := s.prio[s.current];
    s.(ready := s.ready[p := s.ready[p].RemoveAt(Find(s.ready[p].items, s.current))])
  }

  /** xTimeToWake: a 32-bit sum, which may wrap. */
  function WakeTime(tick: nat, ticks: nat): (v: nat)
    ensures tick < TICK_MOD && ticks < TICK_MOD ==>
              v == if tick + ticks < TICK_MOD then tick + ticks else tick + ticks - TICK_MOD
  {
    (tick + ticks) % TICK_MOD
  }

  /** The second half of prvAddCurrentTaskToDelayedList: choose the list to sleep in. */
  function Enlist(s: Sched, ticks: nat, indefinitely: bool): (r: Sched)
    requires Shape(s)
    ensures Shape(r) && SameRest(s, r) && r.tick == s.tick && r.overflows == s.overflows && r.ready == s.ready && r.top == s.top
  {
    var e := Sleeper(s.current, WakeTime(s.tick, ticks));
    if ticks == MAX_DELAY && indefinitely then
      s.(forever := s.forever + [s.current])
    else if e.value < s.tick then
      s.(overflow := InsertSleeper(s.overflow, e))
    else
      s.(delayed := InsertSleeper(s.delayed, e),
         nextUnblock := if e.value < s.nextUnblock then e.value else s.nextUnblock)
  }

  /** prvAddCurrentTaskToDelayedList, together with the caller's insertion into an event list. */
  function Block(s: Sched, ticks: nat, indefinitely: bool, onEvent: bool): (r: Sched)
    requires Shape(s) && s.current in s.ready[s.prio[s.current]].items
    ensures Shape(r) && SameRest(s, r) && r.tick == s.tick && r.overflows == s.overflows
  {
    Enlist(Unready(s), ticks, indefinitely)
      .(waiting := if onEvent then s.waiting + {s.current} else s.waiting)
  }

  /** The running task went from its ready list to a blocked list; no other task moved. */
  ghost predicate WentToSleep(s: Sched, r: Sched)
    requires Shape(s) && Shape(r)
  {
    && r.prio == s.prio && r.top == s.top && r.current == s.current
    && (forall q :: BlockedPlaces(r, q) == BlockedPlaces(s, q) + One(q == s.current))
    && (forall p: nat, q :: p < MAX_PRIORITIES ==>
          ReadyPlaces(r, p, q) == ReadyPlaces(s, p, q) - One(q == s.current && p == s.prio[q]))
  }

  lemma EnlistCounts(s: Sched, ticks: nat, indefinitely: bool, q: Task)
    requires Shape(s)
    ensures BlockedPlaces(Enlist(s, ticks, indefinitely), q) == BlockedPlaces(s, q) + One(q == s.current)
  {
    var e := Sleeper(s.current, WakeTime(s.tick, ticks));
    AsleepSplice(s.overflow, InsertPosition(Values(s.overflow), e.value), e, q);
    AsleepSplice(s.delayed, InsertPosition(Values(s.delayed), e.value), e, q);
  }

  lemma BlockMoves(s: Sched, ticks: nat, indefinitely: bool, onEvent: bool)
    requires Shape(s) && s.current in s.ready[s.prio[s.current]].items
    ensures WentToSleep(s, Block(s, ticks, indefinitely, onEvent))
  {
    var r := Block(s, ticks, indefinitely, onEvent);
    forall q ensures BlockedPlaces(r, q) == BlockedPlaces(s, q) + One(q == s.current) {
      EnlistCounts(Unready(s), ticks, indefinitely, q);
    }
    var ring := s.ready[s.prio[s.current]];
    forall p: nat, q | p < MAX_PRIORITIES
      ensures ReadyPlaces(r, p, q) == ReadyPlaces(s, p, q) - One(q == s.current && p == s.prio[q])
    {
      CountRingRemove(ring, Find(ring.items, s.current), q);
    }
  }

  lemma AsleepIsPlaced(s: Sched, r: Sched)
    requires Shape(s) && Placed(s) && Shape(r) && WentToSleep(s, r)
    requires IsReady(s, s.current) && s.current != IDLE
    ensures Placed(r)
    ensures forall q :: Blocked(r, q) <==> Blocked(s, q) || q == s.current
    ensures forall q :: IsReady(r, q) <==> IsReady(s, q) && q != s.current
  {}

  lemma InsertedMembers(list: seq<Sleeper>, e: Sleeper)
    requires Ascending(Values(list))
    ensures Ascending(Values(InsertSleeper(list, e)))
    ensures forall x :: x in InsertSleeper(list, e) <==> x in list || x == e
  {
    var k := InsertPosition(Values(list), e.value);
    InsertionSortsStably(Values(list), e.value);
    assert Values(InsertSleeper(list, e)) == Values(list)[..k] + [e.value] + Values(list)[k..];
    assert list == list[..k] + list[k..];
  }

  lemma EnlistTimed(s: Sched, ticks: nat, indefinitely: bool)
    requires Shape(s) && Timed(s) && 1 <= ticks < TICK_MOD
    ensures Timed(Enlist(s, ticks, indefinitely))
  {
    var e := Sleeper(s.current, WakeTime(s.tick, ticks));
    InsertedMembers(s.delayed, e);
    InsertedMembers(s.overflow, e);
  }

  lemma EnlistDue(s: Sched, ticks: nat, indefinitely: bool)
    requires Shape(s) && Ascending(Values(s.delayed)) && Ascending(Values(s.overflow))
    requires s.tick < TICK_MOD && 1 <= ticks < TICK_MOD && !(ticks == MAX_DELAY && indefinitely)
    ensures SleepsUntil(Enlist(s, ticks, indefinitely), s.current, Clock(s) + ticks)
  {
    hide InsertSleeper, Ascending, Values, Shape;
    var e := Sleeper(s.current, WakeTime(s.tick, ticks));
    InsertedMembers(s.delayed, e);
    InsertedMembers(s.overflow, e);
  }

  lemma EnlistKeepsSleeper(s: Sched, ticks: nat, indefinitely: bool, t: Task, due: nat)
    requires Shape(s) && Ascending(Values(s.delayed)) && Ascending(Values(s.overflow))
    requires SleepsUntil(s, t, due)
    ensures SleepsUntil(Enlist(s, ticks, indefinitely), t, due)
  {
    hide InsertSleeper, Ascending, Values, Shape;
    var e := Sleeper(s.current, WakeTime(s.tick, ticks));
    InsertedMembers(s.delayed, e);
    InsertedMembers(s.overflow, e);
  }

  lemma BlockTimed(s: Sched, ticks: nat, indefinitely: bool, onEvent: bool)
    requires Shape(s) && s.current in s.ready[s.prio[s.current]].items
    requires Timed(s) && 1 <= ticks < TICK_MOD
    ensures Timed(Block(s, ticks, indefinitely, onEvent))
  {
    hide Shape, Enlist, Ascending, Values;
    EnlistTimed(Unready(s), ticks, indefinitely);
  }

  lemma BlockEvents(s: Sched, ticks: nat, indefinitely: bool, onEvent: bool)
    requires Shape(s) && s.current in s.ready[s.prio[s.current]].items && Events(s)
    requires forall q :: Blocked(Block(s, ticks, indefinitely, onEvent), q) <==> Blocked(s, q) || q == s.current
    requires !Blocked(s, s.current)
    ensures Events(Block(s, ticks, indefinitely, onEvent))
  {
    hide Shape, Enlist, Blocked;
  }

  /** Blocking keeps the invariant. */
  lemma BlockKeepsInv(s: Sched, ticks: nat, indefinitely: bool, onEvent: bool)
    requires Inv(s) && IsReady(s, s.current) && s.current != IDLE && 1 <= ticks < TICK_MOD
    ensures Inv(Block(s, ticks, indefinitely, onEvent))
  {
    ReadyIsMember(s);
    hide Placed, Shape, Timed, Events, Block, Blocked, WentToSleep;
    BlockMoves(s, ticks, indefinitely, onEvent);
    AsleepIsPlaced(s, Block(s, ticks, indefinitely, onEvent));
    BlockTimed(s, ticks, indefinitely, onEvent);
    BlockEvents(s, ticks, indefinitely, onEvent);
  }

  lemma ReadyIsMember(s: Sched)
    requires Shape(s) && Placed(s) && IsReady(s, s.current)
    ensures s.current in s.ready[s.prio[s.current]].items
    ensures !Blocked(s, s.current)
  {}

  /** A task blocked for `ticks` sleeps until exactly that many ticks from now. */
  lemma BlockSetsDue(s: Sched, ticks: nat, indefinitely: bool, onEvent: bool)
    requires Inv(s) && IsReady(s, s.current) && 1 <= ticks < TICK_MOD
    requires !(ticks == MAX_DELAY && indefinitely)
    ensures SleepsUntil(Block(s, ticks, indefinitely, onEvent), s.current, Clock(s) + ticks)
  {
    hide Placed, Shape, Events, Enlist, Ascending, Values;
    EnlistDue(Unready(s), ticks, indefinitely);
  }

  /** No other sleeper's time changes when a task blocks. */
  lemma BlockKeepsSleeper(s: Sched, ticks: nat, indefinitely: bool, onEvent: bool, t: Task, due: nat)
    requires Inv(s) && IsReady(s, s.current) && SleepsUntil(s, t, due)
    ensures SleepsUntil(Block(s, ticks, indefinitely, onEvent), t, due)
  {
    hide Placed, Shape, Events, Enlist, Ascending, Values;
    EnlistKeepsSleeper(Unready(s), ticks, indefinitely, t, due);
  }

  // ---------------------------------------------------------------- events

  /** xTaskRemoveFromEventList, for the task at the head of some event list. */
  function EventWake(s: Sched, t: Task): (r: Sched)
    requires Shape(s) && t in s.waiting
    ensures Shape(r) && r.tick == s.tick && r.overflows == s.overflows
    ensures r.pended == s.pended && r.suspended == s.suspended
  {
    var s1 := if s.suspended == 0 then Wake(s, t) else s.(pending := s.pending + [t]);
    s1.(waiting := s.waiting - {t}, yieldPending := s.yieldPending || s.prio[t] > s.prio[s.current])
  }

  lemma WakeTimed(s: Sched, t: Task)
    requires Shape(s) && t in s.prio && Timed(s)
    ensures Timed(Wake(s, t))
  {
    hide Shape, Wake, DropSleeper, Ascending, Values;
    DropMembers(s.delayed, t);
    DropMembers(s.overflow, t);
    DropAscending(s.delayed, t);
    DropAscending(s.overflow, t);
  }

  lemma WakeKeepsSleeper(s: Sched, t: Task, q: Task, due: nat)
    requires Shape(s) && t in s.prio && SleepsUntil(s, q, due) && q != t
    ensures SleepsUntil(Wake(s, t), q, due)
  {
    hide Shape, Wake, DropSleeper;
    DropMembers(s.delayed, t);
    DropMembers(s.overflow, t);
  }

  /** Readying a blocked task that is no longer on an event list. */
  lemma WakeEvents(s: Sched, r: Sched, t: Task)
    requires Events(s)
    requires forall q :: Blocked(r, q) <==> Blocked(s, q) && q != t
    requires forall q :: multiset(r.pending)[q] <= multiset(s.pending)[q] - One(q == t && t in s.pending)
    requires r.waiting == s.waiting - {t}
    ensures Events(r)
  {
    hide Blocked;
  }

  lemma EventWakeKeepsCore(s: Sched, t: Task)
    requires Core(s) && t in s.waiting
    ensures Core(EventWake(s, t))
  {
    var r := EventWake(s, t);
    if s.suspended == 0 {
      WokenKeepsCore(s, t, r);
    } else {
      hide Shape, Placed, Timed;
      SamePlaces(s, r);
      TimedSame(s, r);
    }
  }

  lemma WokenKeepsCore(s: Sched, t: Task, r: Sched)
    requires Core(s) && t in s.prio && Blocked(s, t) && Shape(r)
    requires var w := Wake(s, t);
             r == w.(waiting := s.waiting - {t}, pending := r.pending, yieldPending := r.yieldPending)
    requires forall q :: multiset(r.pending)[q] <= multiset(s.pending)[q] - One(q == t && t in s.pending)
    ensures Core(r) && IsReady(r, t)
    ensures forall q :: IsReady(r, q) <==> IsReady(s, q) || q == t
    ensures forall q :: Blocked(r, q) <==> Blocked(s, q) && q != t
  {
    hide Shape, Placed, Timed, Events, Wake, Blocked, IsReady;
    var w := Wake(s, t);
    WakePlaced(s, t);
    SamePlaces(w, r);
    WakeTimed(s, t);
    TimedSame(w, r);
    SameBlocked(w, r);
    WakeEvents(s, r, t);
  }

  lemma SameBlocked(s: Sched, r: Sched)
    requires forall q :: BlockedPlaces(r, q) == BlockedPlaces(s, q)
    ensures forall q :: Blocked(r, q) <==> Blocked(s, q)
  {}

  lemma TimedSame(s: Sched, r: Sched)
    requires Timed(s)
    requires r.delayed == s.delayed && r.overflow == s.overflow && r.nextUnblock == s.nextUnblock
    requires r.tick == s.tick && (r.pended == s.pended || r.pended < TICK_MOD)
    ensures Timed(r)
  {
    hide Ascending, Values;
  }

  // ---------------------------------------------------------------- resuming the scheduler

  /** One round of the first loop of xTaskResumeAll. */
  function WakePending(s: Sched): (r: Sched)
    requires Shape(s) && s.pending != []
    ensures Shape(r) && r.tick == s.tick && r.overflows == s.overflows && r.pended == s.pended && r.suspended == s.suspended
    ensures r.pending == s.pending[1..] && r.prio == s.prio && r.current == s.current
  {
    var t := s.pending[0];
    Wake(s, t).(pending := s.pending[1..], waiting := s.waiting - {t},
                yieldPending := s.yieldPending || s.prio[t] > s.prio[s.current])
  }

  /** The first loop of xTaskResumeAll. */
  function MovePending(s: Sched): (r: Sched)
    requires Shape(s)
    ensures Shape(r) && r.tick == s.tick && r.overflows == s.overflows && r.pended == s.pended && r.suspended == s.suspended
    ensures r.pending == [] && r.prio == s.prio && r.current == s.current
    decreases |s.pending|
  {
    if s.pending == [] then s else MovePending(WakePending(s))
  }

  /** What xTaskIncrementTick returns: should the running task be switched out? */
  function TickSwitches(s: Sched): bool
    requires Shape(s)
  {
    var s1 := Advance(s);
    || (s1.tick >= s1.nextUnblock && UnblocksHigher(s1))
    || |IncrementTick(s).ready[s.prio[s.current]].items| > 1
    || s.yieldPending
  }

  /** One round of the second loop of xTaskResumeAll. */
  function CatchUpOne(s: Sched): (r: Sched)
    requires Shape(s)
    ensures Shape(r) && r.pended == s.pended && r.suspended == s.suspended && r.pending == s.pending
    ensures r.tick == (s.tick + 1) % TICK_MOD && r.prio == s.prio && r.current == s.current
  {
    IncrementTick(s).(yieldPending := s.yieldPending || TickSwitches(s))
  }

  function CatchUp(s: Sched, n: nat): (r: Sched)
    requires Shape(s)
    ensures Shape(r) && r.pended == s.pended && r.suspended == s.suspended && r.pending == s.pending
    decreases n
  {
    if n == 0 then s else CatchUp(CatchUpOne(s), n - 1)
  }

  /** Where xTaskResumeAll stands when it starts to catch up. */
  function Resumed(s: Sched): (r: Sched)
    requires Shape(s) && s.suspended == 1
    ensures Shape(r) && Clock(r) == Clock(s) && r.tick == s.tick
    ensures r.pended == s.pended && r.suspended == 0 && r.pending == []
  {
    var s2 := MovePending(s.(suspended := 0));
    if s.pending == [] then s2 else s2.(nextUnblock := HeadValue(s2.delayed))
  }

  /** xTaskResumeAll. */
  function Resume(s: Sched): (r: Sched)
    requires Shape(s) && s.suspended > 0
    ensures Shape(r)
  {
    if s.suspended > 1 then s.(suspended := s.suspended - 1)
    else CatchUp(Resumed(s), s.pended).(pended := 0)
  }

  lemma WakePendingKeepsCore(s: Sched)
    requires Core(s) && s.pending != []
    ensures Core(WakePending(s)) && IsReady(WakePending(s), s.pending[0])
    ensures forall q :: IsReady(WakePending(s), q) <==> IsReady(s, q) || q == s.pending[0]
    ensures forall q :: Blocked(WakePending(s), q) <==> Blocked(s, q) && q != s.pending[0]
  {
    HeadOfPending(s);
    WokenKeepsCore(s, s.pending[0], WakePending(s));
  }

  lemma HeadOfPending(s: Sched)
    requires Events(s) && s.pending != []
    ensures Blocked(s, s.pending[0]) && s.pending[0] !in s.waiting
    ensures forall q :: multiset(s.pending[1..])[q] == multiset(s.pending)[q] - One(q == s.pending[0])
  {
    assert s.pending == [s.pending[0]] + s.pending[1..];
    assert multiset(s.pending)[s.pending[0]] > 0;
  }

  lemma {:induction false} MovePendingKeepsCore(s: Sched)
    requires Core(s)
    ensures Core(MovePending(s))
    ensures forall q :: IsReady(MovePending(s), q) <==> IsReady(s, q) || q in s.pending
    decreases |s.pending|
  {
    hide Shape, Placed, Timed, Events, IsReady, WakePending;
    if s.pending != [] {
      WakePendingKeepsCore(s);
      MovePendingKeepsCore(WakePending(s));
    }
  }

  lemma {:induction false} MovePendingKeepsSleeper(s: Sched, t: Task, due: nat)
    requires Shape(s) && SleepsUntil(s, t, due) && t !in s.pending
    ensures SleepsUntil(MovePending(s), t, due)
    decreases |s.pending|
  {
    hide Wake;
    if s.pending != [] {
      WakeKeepsSleeper(s, s.pending[0], t, due);
      MovePendingKeepsSleeper(WakePending(s), t, due);
    }
  }

  lemma ResetKeepsCore(s: Sched)
    requires Core(s)
    ensures Core(s.(nextUnblock := HeadValue(s.delayed)))
    ensures forall q :: IsReady(s.(nextUnblock := HeadValue(s.delayed)), q) <==> IsReady(s, q)
  {
    var r := s.(nextUnblock := HeadValue(s.delayed));
    SamePlaces(s, r);
    BoundedHead(s.delayed);
    if s.delayed != [] { HeadIsLeast(s.delayed); }
  }

  lemma CatchUpOneKeepsCore(s: Sched)
    requires Core(s) && s.pending == []
    ensures Core(CatchUpOne(s)) && Clock(CatchUpOne(s)) == Clock(s) + 1
    ensures forall q :: IsReady(s, q) ==> IsReady(CatchUpOne(s), q)
  {
    var r := IncrementTick(s);
    TickKeepsCore(s);
    TickPlaced(s);
    TickTimed(s);
    hide Timed, Placed, Shape, IncrementTick, TickSwitches, Events, IsReady;
    SameCore(r, CatchUpOne(s));
  }

  lemma SameCore(s: Sched, r: Sched)
    requires Core(s)
    requires r == s.(yieldPending := r.yieldPending, pended := r.pended, suspended := r.suspended, current := r.current)
    requires r.pended < TICK_MOD && (r.current == s.current || r.current in s.prio)
    ensures Core(r)
    ensures forall q :: IsReady(s, q) <==> IsReady(r, q)
  {
    SamePlaces(s, r);
    TimedSame(s, r);
  }

  lemma {:induction false} CatchUpKeepsCore(s: Sched, n: nat)
    requires Core(s) && s.pending == []
    ensures Core(CatchUp(s, n)) && Clock(CatchUp(s, n)) == Clock(s) + n
    ensures forall q :: IsReady(s, q) ==> IsReady(CatchUp(s, n), q)
    decreases n
  {
    hide Shape, Placed, Timed, Events, IsReady, CatchUpOne, Clock;
    if n > 0 {
      CatchUpOneKeepsCore(s);
      CatchUpKeepsCore(CatchUpOne(s), n - 1);
    }
  }

  lemma {:induction false} CatchUpTick(s: Sched, n: nat)
    requires Shape(s) && s.tick < TICK_MOD
    ensures CatchUp(s, n).tick == (s.tick + n) % TICK_MOD
    decreases n
  {
    hide Shape, CatchUpOne;
    if n > 0 {
      CatchUpTick(CatchUpOne(s), n - 1);
      WrappedSum(s.tick + 1, n - 1);
    }
  }

  lemma WrappedSum(a: nat, b: nat)
    ensures (a % TICK_MOD + b) % TICK_MOD == (a + b) % TICK_MOD
  {}

  lemma CatchUpOneIsExact(s: Sched, t: Task, due: nat)
    requires Core(s) && SleepsUntil(s, t, due)
    ensures if Clock(s) + 1 < due then SleepsUntil(CatchUpOne(s), t, due) else IsReady(CatchUpOne(s), t)
  {
    hide Placed, Timed, Events, IncrementTick, TickSwitches;
    TickIsExact(s, t, due);
  }

  /** However many ticks are caught up at once, a sleeper wakes in the one that is its time. */
  lemma {:induction false} CatchUpIsExact(s: Sched, n: nat, t: Task, due: nat)
    requires Core(s) && s.pending == [] && SleepsUntil(s, t, due)
    ensures if Clock(s) + n < due then SleepsUntil(CatchUp(s, n), t, due) else IsReady(CatchUp(s, n), t)
    decreases n
  {
    hide Shape, Placed, Timed, Events, IsReady, CatchUpOne, Clock, SleepsUntil;
    if n == 0 {
      TickIsExact(s, t, due);
    } else {
      CatchUpOneIsExact(s, t, due);
      CatchUpOneKeepsCore(s);
      if Clock(s) + 1 < due {
        CatchUpIsExact(CatchUpOne(s), n - 1, t, due);
      } else {
        CatchUpKeepsCore(CatchUpOne(s), n - 1);
      }
    }
  }

  lemma ResumedKeepsCore(s: Sched)
    requires Core(s) && s.suspended == 1
    ensures Core(Resumed(s))
    ensures forall q :: IsReady(Resumed(s), q) <==> IsReady(s, q) || q in s.pending
  {
    hide Shape, Placed, Timed, Events, IsReady, MovePending;
    var s1 := s.(suspended := 0);
    Bounds(s);
    SameCore(s, s1);
    MovePendingKeepsCore(s1);
    ResetKeepsCore(MovePending(s1));
  }

  lemma ResumedKeepsSleeper(s: Sched, t: Task, due: nat)
    requires Shape(s) && s.suspended == 1 && SleepsUntil(s, t, due) && t !in s.pending
    ensures SleepsUntil(Resumed(s), t, due)
  {
    hide MovePending;
    MovePendingKeepsSleeper(s.(suspended := 0), t, due);
  }

  lemma ResumeKeepsInv(s: Sched)
    requires Inv(s) && s.suspended > 0
    ensures Inv(Resume(s))
    ensures forall q :: IsReady(s, q) ==> IsReady(Resume(s), q)
  {
    hide Shape, Placed, Timed, Events, IsReady, Resumed, CatchUp;
    Bounds(s);
    if s.suspended > 1 {
      SameCore(s, Resume(s));
    } else {
      ResumedKeepsCore(s);
      CatchUpKeepsCore(Resumed(s), s.pended);
      SameCore(CatchUp(Resumed(s), s.pended), Resume(s));
    }
  }

  /** Resuming loses nothing: every pended tick is counted, and after the outermost resume
  nothing is pending and each task that was pending is ready, and so in no delayed list. */
  lemma ResumeLosesNothing(s: Sched)
    requires Inv(s) && s.suspended > 0
    ensures var r := Resume(s);
            && Clock(r) + r.pended == Clock(s) + s.pended
            && (s.suspended == 1 ==>
                  && r.pended == 0 && r.pending == []
                  && (forall t :: t in s.pending ==> IsReady(r, t) && !Blocked(r, t)))
  {
    hide Shape, Placed, Timed, Events, IsReady, Resumed, CatchUp, Blocked, SleepsUntil;
    Bounds(s);
    if s.suspended == 1 {
      var c := CatchUp(Resumed(s), s.pended);
      ResumedKeepsCore(s);
      CatchUpKeepsCore(Resumed(s), s.pended);
      SameCore(c, Resume(s));
      ReadyIsNotBlocked(Resume(s));
    }
  }

  lemma ResumeTick(s: Sched)
    requires Core(s) && s.suspended > 0
    ensures (Resume(s).tick + Resume(s).pended) % TICK_MOD == (s.tick + s.pended) % TICK_MOD
  {
    hide Shape, Placed, Timed, Events, Resumed, CatchUp;
    Bounds(s);
    if s.suspended == 1 {
      CatchUpTick(Resumed(s), s.pended);
    }
  }

  lemma Bounds(s: Sched)
    requires Core(s)
    ensures s.tick < TICK_MOD && s.pended < TICK_MOD && s.current in s.prio
  {}

  lemma ReadyIsNotBlocked(s: Sched)
    requires Shape(s) && Placed(s)
    ensures forall q :: IsReady(s, q) ==> !Blocked(s, q)
  {}

  // ---------------------------------------------------------------- choosing the next task

  ghost predicate SomeReady(ready: seq<Ring<Task>>, top: nat)
    requires top < |ready|
  {
    exists p: nat :: p <= top && ready[p].items != []
  }

  /** The downward search of taskSELECT_HIGHEST_PRIORITY_TASK. */
  function TopReady(ready: seq<Ring<Task>>, top: nat): (p: nat)
    requires top < |ready| && SomeReady(ready, top)
    ensures p <= top && ready[p].items != []
    ensures forall i :: p < i <= top ==> ready[i].items == []
  {
    if ready[top].items != [] then top else TopReady(ready, top - 1)
  }

  /** vTaskSwitchContext. */
  function SwitchContext(s: Sched): (r: Sched)
    requires Shape(s) && SomeReady(s.ready, s.top)
    ensures r.tick == s.tick && r.overflows == s.overflows && r.pended == s.pended
    ensures r.suspended == s.suspended && r.pending == s.pending
    ensures r.delayed == s.delayed && r.overflow == s.overflow
  {
    if s.suspended > 0 then s.(yieldPending := true)
    else
      var p := TopReady(s.ready, s.top);
      var ring := s.ready[p].Next();
      s.(yieldPending := false, top := p, ready := s.ready[p := ring], current := ring.Indexed())
  }

  lemma IdleIsReady(s: Sched)
    requires Shape(s) && Placed(s)
    ensures SomeReady(s.ready, s.top)
  {
    assert ReadyPlaces(s, s.prio[IDLE], IDLE) > 0;
  }

  lemma SwitchedIsPlaced(s: Sched)
    requires Shape(s) && Placed(s) && SomeReady(s.ready, s.top) && s.suspended == 0
    ensures var r := SwitchContext(s);
            && Shape(r) && Placed(r)
            && (forall q :: BlockedPlaces(r, q) == BlockedPlaces(s, q))
            && (forall q :: IsReady(r, q) <==> IsReady(s, q))
            && IsReady(s, r.current)
            && (forall q :: IsReady(s, q) ==> s.prio[q] <= s.prio[r.current])
  {
    var r := SwitchContext(s);
    var p := r.top;
    assert ReadyPlaces(s, p, r.current) > 0;
    assert forall i: nat, q :: i < MAX_PRIORITIES ==> ReadyPlaces(r, i, q) == ReadyPlaces(s, i, q);
    assert forall q :: BlockedPlaces(r, q) == BlockedPlaces(s, q);
  }

  lemma SwitchKeepsCore(s: Sched)
    requires Core(s) && SomeReady(s.ready, s.top)
    ensures Core(SwitchContext(s))
    ensures forall q :: IsReady(SwitchContext(s), q) <==> IsReady(s, q)
  {
    hide Placed, IsReady, Blocked, BlockedPlaces, TopReady;
    var r := SwitchContext(s);
    if s.suspended > 0 {
      Bounds(s);
      SameCore(s, r);
    } else {
      SwitchedIsPlaced(s);
      SameBlocked(s, r);
      TimedSame(s, r);
    }
  }

  // ---------------------------------------------------------------- changing a priority

  /** What xTaskPriorityInherit, the disinherit functions and vTaskPrioritySet do to the ready lists: a
  ready task moves to the end of the list of its new priority, any other stays where it is. */
  function Reprioritise(s: Sched, t: Task, p: nat): (r: Sched)
    requires Shape(s) && t in s.prio && p < MAX_PRIORITIES
    ensures r == s.(prio := s.prio[t := p], ready := r.ready, top := r.top)
  {
    var used := s.prio[t];
    var moved := s.(prio := s.prio[t := p]);
    if t in s.ready[used].items then
      AddReady(moved.(ready := s.ready[used := s.ready[used].RemoveAt(Find(s.ready[used].items, t))]), t)
    else
      moved
  }

  lemma ReprioritiseCounts(s: Sched, t: Task, p: nat, l: nat, q: Task)
    requires Shape(s) && t in s.prio && p < MAX_PRIORITIES && l < MAX_PRIORITIES && IsReady(s, t)
    ensures Shape(Reprioritise(s, t, p))
    ensures ReadyPlaces(Reprioritise(s, t, p), l, q) ==
            ReadyPlaces(s, l, q) + One(q == t && l == p) - One(q == t && l == s.prio[t])
  {
    var ring := s.ready[s.prio[t]];
    var k := Find(ring.items, t);
    CountRingRemove(ring, k, q);
    var left := s.ready[s.prio[t] := ring.RemoveAt(k)][p];
    CountRingInsert(left, left.EndPosition(), t, q);
  }

  lemma ReprioritisedIsPlaced(s: Sched, r: Sched, t: Task, p: nat)
    requires Shape(s) && Placed(s) && t in s.prio && p < MAX_PRIORITIES && Shape(r)
    requires r.prio == s.prio[t := p] && r.top == (if IsReady(s, t) && p > s.top then p else s.top)
    requires forall q :: BlockedPlaces(r, q) == BlockedPlaces(s, q)
    requires forall l: nat, q :: l < MAX_PRIORITIES ==>
               ReadyPlaces(r, l, q) == ReadyPlaces(s, l, q)
                 + if IsReady(s, t) then One(q == t && l == p) - One(q == t && l == s.prio[t]) else 0
    ensures Placed(r) && forall q :: IsReady(r, q) <==> IsReady(s, q)
  {
    hide BlockedPlaces, ReadyPlaces, Shape;
    PrioritiesKnown(s);
  }

  lemma PrioritiesKnown(s: Sched)
    requires Shape(s)
    ensures |s.ready| == MAX_PRIORITIES && IDLE in s.prio && forall q :: q in s.prio ==> s.prio[q] < MAX_PRIORITIES
  {}

  lemma ReprioritiseMoves(s: Sched, t: Task, p: nat)
    requires Shape(s) && t in s.prio && p < MAX_PRIORITIES
    ensures var r := Reprioritise(s, t, p);
            && Shape(r) && r.top == (if IsReady(s, t) && p > s.top then p else s.top)
            && (!IsReady(s, t) ==> r.ready == s.ready)
            && (forall q :: BlockedPlaces(r, q) == BlockedPlaces(s, q))
  {
    hide Find;
  }

  lemma ReprioritiseKeepsCore(s: Sched, t: Task, p: nat)
    requires Core(s) && t in s.prio && p < MAX_PRIORITIES
    ensures Core(Reprioritise(s, t, p))
    ensures forall q :: IsReady(Reprioritise(s, t, p), q) <==> IsReady(s, q)
  {
    hide Placed, Timed, Blocked, BlockedPlaces, IsReady, Shape, Reprioritise;
    var r := Reprioritise(s, t, p);
    PrioritiesKnown(s);
    ReprioritiseMoves(s, t, p);
    PrioritiesKnown(r);
    forall l: nat, q | l < MAX_PRIORITIES
      ensures ReadyPlaces(r, l, q) == ReadyPlaces(s, l, q)
                + if IsReady(s, t) then One(q == t && l == p) - One(q == t && l == s.prio[t]) else 0
    {
      if IsReady(s, t) { ReprioritiseCounts(s, t, p, l, q); }
    }
    ReprioritisedIsPlaced(s, r, t, p);
    SameBlocked(s, r);
    TimedSame(s, r);
  }
}
