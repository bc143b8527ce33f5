/** Mutexes and priority inheritance: xQueueSemaphoreTake and the give path of
FreeRtos/kernel/queue.c, with the inheritance functions of FreeRtos/kernel/tasks.c.
*/
module Mutexes {
  import opened Basics
  import opened Rings
  import opened Scheduling

  type MutexId = nat

  datatype Tcb = Tcb(
    prio: nat,        // uxPriority
    base: nat,        // uxBasePriority
    held: nat,        // uxMutexesHeld
    event: nat,       // value of xEventListItem
    eventInUse: bool) // taskEVENT_LIST_ITEM_VALUE_IN_USE

  datatype Mutex = Mutex(
    count: nat,            // uxMessagesWaiting
    holder: Option<Task>,  // u.xSemaphore.xMutexHolder
    waiters: seq<Task>)    // xTasksWaitingToReceive

  /** A call of xQueueSemaphoreTake that has blocked: its mutex and xInheritanceOccurred. */
  datatype Attempt = Attempt(mutex: MutexId, inherited: bool)

  datatype State = State(
    tcb: map<Task, Tcb>,
    ready: seq<Ring<Task>>,
    top: nat,
    mutex: map<MutexId, Mutex>,
    current: Task,
    attempt: map<Task, Attempt>)

  // ---------------------------------------------------------------- invariant

  ghost predicate Sized(s: State) {
    && |s.ready| == MAX_PRIORITIES
    && (forall p :: 0 <= p < MAX_PRIORITIES ==> s.ready[p].WellFormed())
    && (forall t :: t in s.tcb ==> s.tcb[t].prio < MAX_PRIORITIES && s.tcb[t].base < MAX_PRIORITIES)
    && (forall t :: t in s.tcb && !s.tcb[t].eventInUse ==> 1 <= s.tcb[t].event <= MAX_PRIORITIES)
    && s.current in s.tcb && s.top < MAX_PRIORITIES
    && (forall m :: m in s.mutex ==>
          && (s.mutex[m].holder.Some? ==> s.mutex[m].holder.value in s.tcb)
          && s.mutex[m].count == One(s.mutex[m].holder.None?)
          && (forall t :: t in s.mutex[m].waiters ==> t in s.tcb && !s.tcb[t].eventInUse))
  }

  ghost function InReady(s: State, p: nat, q: Task): nat
    requires p < |s.ready|
  {
    multiset(s.ready[p].items)[q]
  }

  ghost predicate IsReady(s: State, t: Task)
    requires Sized(s) && t in s.tcb
  {
    InReady(s, s.tcb[t].prio, t) > 0
  }

  /** Every ready task is in the ready list of its effective priority, once, and in no other. */
  ghost predicate InPlace(s: State)
    requires Sized(s)
  {
    forall p: nat, q :: p < MAX_PRIORITIES ==>
      InReady(s, p, q) <= One(q in s.tcb && s.tcb[q].prio == p && p <= s.top)
  }

  ghost function HeldBy(s: State, t: Task): set<MutexId> {
    set m | m in s.mutex && s.mutex[m].holder == Some(t)
  }

  /** Held counts are exact, nobody runs below base priority, and only holders run above it. */
  ghost predicate Inherited(s: State) {
    forall t :: t in s.tcb ==>
      && s.tcb[t].held == |HeldBy(s, t)|
      && s.tcb[t].prio >= s.tcb[t].base
      && (s.tcb[t].held == 0 ==> s.tcb[t].prio == s.tcb[t].base)
  }

  /** A waiter is blocked and waits once, for the mutex its call asked for. */
  ghost predicate Waiting(s: State)
    requires Sized(s)
  {
    forall m, t :: m in s.mutex && t in s.mutex[m].waiters ==>
      && !IsReady(s, t)
      && multiset(s.mutex[m].waiters)[t] == 1
      && t in s.attempt && s.attempt[t].mutex == m
  }

  ghost predicate Inv(s: State) {
    Sized(s) && InPlace(s) && Inherited(s) && Waiting(s)
  }

  // ---------------------------------------------------------------- ready lists

  /** prvAddTaskToReadyList. */
  function AddReady(s: State, t: Task): (r: State)
    requires Sized(s) && t in s.tcb
    ensures Sized(r) && r == s.(ready := r.ready, top := r.top)
  {
    var p := s.tcb[t].prio;
    s.(ready := s.ready[p := s.ready[p].InsertEnd(t)], top := if p > s.top then p else s.top)
  }

  /** uxListRemove on the state item of a ready task. */
  function Unready(s: State, t: Task): (r: State)
    requires Sized(s) && t in s.tcb && t in s.ready[s.tcb[t].prio].items
    ensures Sized(r) && r == s.(ready := r.ready)
  {
    var p := s.tcb[t].prio;
    s.(ready := s.ready[p := s.ready[p].RemoveAt(Find(s.ready[p].items, t))])
  }

  /** Give `t` a new effective priority, moving it to its new ready list if it is ready. */
  function Reprioritise(s: State, t: Task, p: nat): (r: State)
    requires Sized(s) && t in s.tcb && p < MAX_PRIORITIES
    ensures Sized(r) && r == s.(tcb := s.tcb[t := s.tcb[t].(prio := p)], ready := r.ready, top := r.top)
  {
    if t in s.ready[s.tcb[t].prio].items then
      var s1 := Unready(s, t);
      AddReady(s1.(tcb := s.tcb[t := s.tcb[t].(prio := p)]), t)
    else
      s.(tcb := s.tcb[t := s.tcb[t].(prio := p)])
  }

  lemma AddReadyCounts(s: State, t: Task, p: nat, q: Task)
    requires Sized(s) && t in s.tcb && p < MAX_PRIORITIES
    ensures InReady(AddReady(s, t), p, q) == InReady(s, p, q) + One(q == t && p == s.tcb[t].prio)
  {
    var ring := s.ready[s.tcb[t].prio];
    CountRingInsert(ring, ring.EndPosition(), t, q);
  }

  lemma UnreadyCounts(s: State, t: Task, p: nat, q: Task)
    requires Sized(s) && t in s.tcb && t in s.ready[s.tcb[t].prio].items && p < MAX_PRIORITIES
    ensures InReady(Unready(s, t), p, q) == InReady(s, p, q) - One(q == t && p == s.tcb[t].prio)
  {
    var ring := s.ready[s.tcb[t].prio];
    CountRingRemove(ring, Find(ring.items, t), q);
  }

  lemma ReadyOnce(s: State, t: Task, p: nat)
    requires Sized(s) && InPlace(s) && t in s.tcb && p < MAX_PRIORITIES
    ensures InReady(s, p, t) == One(p == s.tcb[t].prio && IsReady(s, t))
  {
    assert InReady(s, p, t) <= One(t in s.tcb && s.tcb[t].prio == p && p <= s.top);
  }

  lemma ReprioritiseCounts(s: State, t: Task, np: nat, p: nat, q: Task)
    requires Sized(s) && InPlace(s) && t in s.tcb && np < MAX_PRIORITIES && p < MAX_PRIORITIES
    ensures var r := Reprioritise(s, t, np);
            InReady(r, p, q) == if q == t then One(p == np && IsReady(s, t)) else InReady(s, p, q)
  {
    hide InPlace, AddReady, Unready;
    if t in s.ready[s.tcb[t].prio].items {
      var s1 := Unready(s, t).(tcb := s.tcb[t := s.tcb[t].(prio := np)]);
      UnreadyCounts(s, t, p, q);
      AddReadyCounts(s1, t, p, q);
    }
    ReadyOnce(s, t, p);
  }

  lemma ReprioritiseInPlace(s: State, t: Task, np: nat)
    requires Sized(s) && InPlace(s) && t in s.tcb && np < MAX_PRIORITIES
    ensures var r := Reprioritise(s, t, np);
            InPlace(r) && forall q :: q in s.tcb ==> (IsReady(r, q) <==> IsReady(s, q))
  {
    var r := Reprioritise(s, t, np);
    forall p: nat, q | p < MAX_PRIORITIES
      ensures InReady(r, p, q) == if q == t then One(p == np && IsReady(s, t)) else InReady(s, p, q)
    {
      ReprioritiseCounts(s, t, np, p, q);
    }
    MovedInPlace(s, r, t, np);
  }

  lemma MovedInPlace(s: State, r: State, t: Task, np: nat)
    requires Sized(s) && InPlace(s) && t in s.tcb && Sized(r)
    requires r.tcb == s.tcb[t := s.tcb[t].(prio := np)]
    requires r.top >= s.top && (IsReady(s, t) ==> r.top >= np)
    requires forall p: nat, q :: p < MAX_PRIORITIES ==>
      InReady(r, p, q) == if q == t then One(p == np && IsReady(s, t)) else InReady(s, p, q)
    ensures InPlace(r) && forall q :: q in s.tcb ==> (IsReady(r, q) <==> IsReady(s, q))
  {}

  // ---------------------------------------------------------------- changing a task's priorities

  /** New effective and base priority for `t`, and the event list item value that goes with it
  unless the item is in use for something else. */
  function Retune(s: State, t: Task, p: nat, b: nat, e: nat): (r: State)
    requires Sized(s) && t in s.tcb && p < MAX_PRIORITIES && b < MAX_PRIORITIES && 1 <= e <= MAX_PRIORITIES
    ensures Sized(r)
    ensures r.mutex == s.mutex && r.current == s.current && r.attempt == s.attempt
    ensures r.tcb.Keys == s.tcb.Keys && forall q :: q in s.tcb && q != t ==> r.tcb[q] == s.tcb[q]
    ensures r.tcb[t].prio == p && r.tcb[t].base == b && r.tcb[t].held == s.tcb[t].held
    ensures r.tcb[t].eventInUse == s.tcb[t].eventInUse
    ensures r.tcb[t].event == if s.tcb[t].eventInUse then s.tcb[t].event else e
  {
    var s1 := Reprioritise(s, t, p);
    var c := s1.tcb[t];
    s1.(tcb := s1.tcb[t := c.(base := b, event := if c.eventInUse then c.event else e)])
  }

  lemma RetuneInPlace(s: State, t: Task, p: nat, b: nat, e: nat)
    requires Sized(s) && InPlace(s) && t in s.tcb
    requires p < MAX_PRIORITIES && b < MAX_PRIORITIES && 1 <= e <= MAX_PRIORITIES
    ensures var r := Retune(s, t, p, b, e);
            InPlace(r) && forall q :: q in s.tcb ==> (IsReady(r, q) <==> IsReady(s, q))
  {
    hide InPlace, IsReady, Reprioritise, Sized;
    ReprioritiseInPlace(s, t, p);
    SameReady(Reprioritise(s, t, p), Retune(s, t, p, b, e));
  }

  lemma SameReady(s: State, r: State)
    requires Sized(s) && Sized(r) && InPlace(s) && r.ready == s.ready && r.top == s.top
    requires r.tcb.Keys == s.tcb.Keys && forall q :: q in s.tcb ==> r.tcb[q].prio == s.tcb[q].prio
    ensures InPlace(r) && forall q :: q in s.tcb ==> (IsReady(r, q) <==> IsReady(s, q))
  {
    assert forall p: nat, q :: p < MAX_PRIORITIES ==> InReady(r, p, q) == InReady(s, p, q);
  }

  lemma SameHeld(s: State, r: State)
    requires r.mutex == s.mutex
    ensures forall t :: HeldBy(r, t) == HeldBy(s, t)
  {}

  lemma RetuneInherited(s: State, t: Task, p: nat, b: nat, e: nat)
    requires Sized(s) && Inherited(s) && t in s.tcb && b <= p < MAX_PRIORITIES && 1 <= e <= MAX_PRIORITIES
    requires s.tcb[t].held == 0 ==> p == b
    ensures Inherited(Retune(s, t, p, b, e))
  {
    hide Retune, HeldBy, Sized;
    SameHeld(s, Retune(s, t, p, b, e));
  }

  /** Any retuning that respects the base priority keeps the invariant. */
  lemma RetuneKeepsInv(s: State, t: Task, p: nat, b: nat, e: nat)
    requires Inv(s) && t in s.tcb && b <= p < MAX_PRIORITIES && 1 <= e <= MAX_PRIORITIES
    requires s.tcb[t].held == 0 ==> p == b
    ensures Inv(Retune(s, t, p, b, e))
    ensures forall q :: q in s.tcb ==> (IsReady(Retune(s, t, p, b, e), q) <==> IsReady(s, q))
  {
    hide Retune, IsReady, InPlace, Inherited, Waiting, Sized;
    RetuneInPlace(s, t, p, b, e);
    RetuneInherited(s, t, p, b, e);
    WaitingKept(s, Retune(s, t, p, b, e));
  }

  lemma WaitersKnown(s: State)
    requires Sized(s)
    ensures forall m, t :: m in s.mutex && t in s.mutex[m].waiters ==> t in s.tcb
  {}

  // ---------------------------------------------------------------- the inheritance functions

  /** The event list item value that orders waiters by priority. */
  function EventValue(p: nat): (e: nat)
    requires p < MAX_PRIORITIES
    ensures 1 <= e <= MAX_PRIORITIES
  {
    MAX_PRIORITIES - p
  }

  /** xTaskPriorityInherit: what it returns. */
  function InheritOccurs(s: State, h: Task): bool
    requires Sized(s) && h in s.tcb
  {
    s.tcb[h].prio < s.tcb[s.current].prio || s.tcb[h].base < s.tcb[s.current].prio
  }

  /** xTaskPriorityInherit: lend the running task's priority to the holder. */
  function Inherit(s: State, h: Task): (r: State)
    requires Sized(s) && h in s.tcb
    ensures Sized(r)
  {
    var p := s.tcb[s.current].prio;
    if s.tcb[h].prio < p then Retune(s, h, p, s.tcb[h].base, EventValue(p)) else s
  }

  /** xTaskPriorityDisinherit, once the running task's held count has gone down. */
  function Disinherit(s: State): (r: State)
    requires Sized(s)
    ensures Sized(r)
  {
    var c := s.tcb[s.current];
    if c.prio != c.base && c.held == 0 then Retune(s, s.current, c.base, c.base, EventValue(c.base)) else s
  }

  function Max(a: nat, b: nat): nat { if a < b then b else a }

  /** vTaskPriorityDisinheritAfterTimeout. */
  function DisinheritAfterTimeout(s: State, h: Task, highest: nat): (r: State)
    requires Sized(s) && h in s.tcb && highest < MAX_PRIORITIES
    ensures Sized(r)
  {
    var p := Max(s.tcb[h].base, highest);
    if s.tcb[h].prio != p && s.tcb[h].held == 1 then Retune(s, h, p, s.tcb[h].base, EventValue(p)) else s
  }

  /** prvGetDisinheritPriorityAfterTimeout. */
  function HighestWaiting(s: State, m: MutexId): (p: nat)
    requires Sized(s) && m in s.mutex
    ensures p < MAX_PRIORITIES
  {
    var w := s.mutex[m].waiters;
    if w == [] then 0
    else
      assert w[0] in w;
      MAX_PRIORITIES - s.tcb[w[0]].event
  }

  /** vTaskPrioritySet. */
  function PrioritySet(s: State, t: Task, b: nat): (r: State)
    requires Sized(s) && t in s.tcb && b < MAX_PRIORITIES
    ensures Sized(r)
  {
    var c := s.tcb[t];
    if c.base == b then s
    else Retune(s, t, if c.base == c.prio || b > c.prio then b else c.prio, b, EventValue(b))
  }

  /** Does vTaskPrioritySet ask for a switch? */
  function SetAsks(s: State, t: Task, b: nat): bool
    requires Sized(s) && t in s.tcb && b < MAX_PRIORITIES
  {
    if b == s.tcb[t].base then false
    else if b > s.tcb[t].base then t != s.current && b > s.tcb[s.current].prio
    else t == s.current
  }

  lemma InheritKeepsInv(s: State, h: Task)
    requires Inv(s) && h in s.tcb && s.tcb[h].held > 0
    ensures Inv(Inherit(s, h))
    ensures forall q :: q in s.tcb ==> (IsReady(Inherit(s, h), q) <==> IsReady(s, q))
    ensures Inherit(s, h).tcb[h].prio >= s.tcb[s.current].prio
  {
    hide Retune, IsReady, InPlace, Waiting;
    var p := s.tcb[s.current].prio;
    if s.tcb[h].prio < p {
      RetuneKeepsInv(s, h, p, s.tcb[h].base, EventValue(p));
    }
  }

  lemma AfterTimeoutKeepsInv(s: State, h: Task, highest: nat)
    requires Inv(s) && h in s.tcb && highest < MAX_PRIORITIES
    ensures var r := DisinheritAfterTimeout(s, h, highest);
            && Inv(r)
            && (forall q :: q in s.tcb ==> (IsReady(r, q) <==> IsReady(s, q)))
            && (s.tcb[h].held == 1 ==> r.tcb[h].prio == Max(s.tcb[h].base, highest))
  {
    hide Retune, IsReady, InPlace, Waiting, Inherited;
    var p := Max(s.tcb[h].base, highest);
    if s.tcb[h].prio != p && s.tcb[h].held == 1 {
      RetuneKeepsInv(s, h, p, s.tcb[h].base, EventValue(p));
    }
  }

  lemma PrioritySetKeepsInv(s: State, t: Task, b: nat)
    requires Inv(s) && t in s.tcb && b < MAX_PRIORITIES
    ensures Inv(PrioritySet(s, t, b))
    ensures PrioritySet(s, t, b).tcb[t].base == b
  {
    hide Retune, IsReady, InPlace, Waiting;
    var c := s.tcb[t];
    if c.base != b {
      RetuneKeepsInv(s, t, if c.base == c.prio || b > c.prio then b else c.prio, b, EventValue(b));
    }
  }

  // ---------------------------------------------------------------- taking and giving

  ghost predicate Running(s: State)
    requires Sized(s)
  {
    s.current in s.ready[s.tcb[s.current].prio].items
  }

  /** The path of xQueueSemaphoreTake on which the mutex is free. */
  function Take(s: State, m: MutexId): (r: State)
    requires Sized(s) && m in s.mutex && s.mutex[m].count > 0
    ensures Sized(r)
  {
    var c := s.tcb[s.current];
    s.(mutex := s.mutex[m := s.mutex[m].(count := s.mutex[m].count - 1, holder := Some(s.current))],
       tcb := s.tcb[s.current := c.(held := c.held + 1)],
       attempt := s.attempt - {s.current})
  }

  lemma TakeHeld(s: State, m: MutexId, t: Task)
    requires Sized(s) && m in s.mutex && s.mutex[m].count > 0
    ensures |HeldBy(Take(s, m), t)| == |HeldBy(s, t)| + One(t == s.current)
  {
    var r := Take(s, m);
    if t == s.current {
      assert HeldBy(r, t) == HeldBy(s, t) + {m};
    } else {
      assert HeldBy(r, t) == HeldBy(s, t);
    }
  }

  lemma TakeInherited(s: State, m: MutexId)
    requires Sized(s) && Inherited(s) && m in s.mutex && s.mutex[m].count > 0
    ensures Inherited(Take(s, m))
  {
    hide HeldBy;
    forall t | t in s.tcb ensures |HeldBy(Take(s, m), t)| == |HeldBy(s, t)| + One(t == s.current) {
      TakeHeld(s, m, t);
    }
  }

  /** The waiting lists are as they were, and so are their tasks. */
  lemma WaitingKept(s: State, r: State)
    requires Sized(s) && Sized(r) && Waiting(s) && r.mutex.Keys == s.mutex.Keys && r.tcb.Keys == s.tcb.Keys
    requires forall m :: m in s.mutex ==> r.mutex[m].waiters == s.mutex[m].waiters
    requires forall q :: q in s.tcb ==> (IsReady(r, q) <==> IsReady(s, q))
    requires forall t :: t in s.attempt && !(t in s.tcb && IsReady(s, t)) ==> t in r.attempt && r.attempt[t] == s.attempt[t]
    ensures Waiting(r)
  {
    hide IsReady;
  }

  lemma CurrentKnown(s: State)
    requires Sized(s)
    ensures s.current in s.tcb && s.tcb[s.current].prio < MAX_PRIORITIES && s.tcb[s.current].base < MAX_PRIORITIES
  {}

  lemma RunningIsReady(s: State)
    requires Sized(s) && InPlace(s) && Running(s)
    ensures IsReady(s, s.current)
  {}

  lemma TakeKeepsInv(s: State, m: MutexId)
    requires Inv(s) && Running(s) && m in s.mutex && s.mutex[m].count > 0
    ensures Inv(Take(s, m))
  {
    hide Inherited, InPlace, IsReady, Waiting, Sized;
    CurrentKnown(s);
    TakeInherited(s, m);
    SameReady(s, Take(s, m));
    RunningIsReady(s);
    WaitingKept(s, Take(s, m));
  }

  /** xTaskPriorityDisinherit and the rest of prvCopyDataToQueue for a mutex the running task holds. */
  function Release(s: State, m: MutexId): (r: State)
    requires Sized(s) && m in s.mutex && s.mutex[m].holder == Some(s.current) && s.tcb[s.current].held > 0
    ensures Sized(r)
  {
    Disinherit(Freed(s, m))
  }

  /** The state after the held count has gone down and the mutex is free, before disinheriting. */
  function Freed(s: State, m: MutexId): (r: State)
    requires Sized(s) && m in s.mutex && s.mutex[m].holder == Some(s.current) && s.tcb[s.current].held > 0
    ensures Sized(r)
  {
    var c := s.tcb[s.current];
    s.(tcb := s.tcb[s.current := c.(held := c.held - 1)],
       mutex := s.mutex[m := s.mutex[m].(count := 1, holder := None)])
  }

  lemma FreedHeld(s: State, m: MutexId, t: Task)
    requires Sized(s) && m in s.mutex && s.mutex[m].holder == Some(s.current) && s.tcb[s.current].held > 0
    ensures |HeldBy(Freed(s, m), t)| == |HeldBy(s, t)| - One(t == s.current)
  {
    var r := Freed(s, m);
    if t == s.current {
      assert HeldBy(r, t) == HeldBy(s, t) - {m};
    } else {
      assert HeldBy(r, t) == HeldBy(s, t);
    }
  }

  lemma ReleaseInherited(s: State, m: MutexId)
    requires Sized(s) && Inherited(s) && m in s.mutex && s.mutex[m].holder == Some(s.current) && s.tcb[s.current].held > 0
    ensures Inherited(Release(s, m))
  {
    hide HeldBy, Sized, Retune;
    CurrentKnown(s);
    forall t | t in s.tcb ensures |HeldBy(Freed(s, m), t)| == |HeldBy(s, t)| - One(t == s.current) {
      FreedHeld(s, m, t);
    }
    SameHeld(Freed(s, m), Release(s, m));
  }

  lemma HolderHolds(s: State, m: MutexId)
    requires Sized(s) && Inherited(s) && m in s.mutex && s.mutex[m].holder.Some?
    ensures s.mutex[m].holder.value in s.tcb && s.tcb[s.mutex[m].holder.value].held > 0
  {
    assert m in HeldBy(s, s.mutex[m].holder.value);
  }

  lemma ReleaseKeepsInv(s: State, m: MutexId)
    requires Inv(s) && Running(s) && m in s.mutex && s.mutex[m].holder == Some(s.current) && s.tcb[s.current].held > 0
    ensures Inv(Release(s, m)) && Running(Release(s, m))
    ensures m in Release(s, m).mutex && Release(s, m).mutex[m].waiters == s.mutex[m].waiters
  {
    hide Inherited, InPlace, IsReady, Waiting, Sized, Retune, HeldBy;
    CurrentKnown(s);
    var f, r, b := Freed(s, m), Release(s, m), s.tcb[s.current].base;
    ReleaseInherited(s, m);
    SameReady(s, f);
    if r != f { RetuneInPlace(f, s.current, b, b, EventValue(b)); }
    RunningIsReady(s);
    WaitingKept(s, r);
    ReadyIsRunning(r);
  }

  lemma ReadyIsRunning(s: State)
    requires Sized(s) && IsReady(s, s.current)
    ensures Running(s)
  {}

  // ---------------------------------------------------------------- waiting

  /** Take a waiter off the list of the mutex and ready it: a give or a time out. */
  function Unwait(s: State, m: MutexId, t: Task): (r: State)
    requires Sized(s) && m in s.mutex && t in s.mutex[m].waiters
    ensures Sized(r) && r.tcb == s.tcb && r.current == s.current && r.attempt == s.attempt
  {
    var x := s.mutex[m];
    DropTaskMembers(x.waiters, t);
    AddReady(s.(mutex := s.mutex[m := x.(waiters := DropTask(x.waiters, t))]), t)
  }

  /** Giving back a mutex: release it, then wake the first waiter. */
  function Give(s: State, m: MutexId): (r: State)
    requires Sized(s) && m in s.mutex && s.mutex[m].holder == Some(s.current) && s.tcb[s.current].held > 0
    ensures Sized(r)
  {
    var r := Release(s, m);
    var w := r.mutex[m].waiters;
    if w == [] then r
    else
      assert w[0] in w;
      Unwait(r, m, w[0])
  }

  /** Does xQueueGenericSend ask for a switch when a mutex is given? If somebody waits, then by what
  xTaskRemoveFromEventList returns, and otherwise by what xTaskPriorityDisinherit returns. */
  function GiveAsks(s: State, m: MutexId): bool
    requires Sized(s) && m in s.mutex && s.mutex[m].holder == Some(s.current) && s.tcb[s.current].held > 0
  {
    var f, c := Release(s, m), s.tcb[s.current];
    var w := f.mutex[m].waiters;
    if w == [] then c.prio != c.base && c.held == 1
    else
      assert w[0] in w;
      f.tcb[w[0]].prio > f.tcb[f.current].prio
  }

  lemma AddedInPlace(s: State, r: State, t: Task)
    requires Sized(s) && InPlace(s) && Sized(r) && t in s.tcb && r.tcb == s.tcb && !IsReady(s, t)
    requires r.ready == AddReady(s, t).ready && r.top == AddReady(s, t).top
    ensures InPlace(r)
    ensures forall q :: q in s.tcb ==> (IsReady(r, q) <==> IsReady(s, q) || q == t)
  {
    forall p: nat, q | p < MAX_PRIORITIES
      ensures InReady(r, p, q) == InReady(s, p, q) + One(q == t && p == s.tcb[t].prio)
    {
      AddReadyCounts(s, t, p, q);
    }
    ReadiedInPlace(s, r, t);
  }

  lemma ReadiedInPlace(s: State, r: State, t: Task)
    requires Sized(s) && InPlace(s) && Sized(r) && t in s.tcb && r.tcb == s.tcb && !IsReady(s, t)
    requires r.top == if s.tcb[t].prio > s.top then s.tcb[t].prio else s.top
    requires forall p: nat, q :: p < MAX_PRIORITIES ==>
      InReady(r, p, q) == InReady(s, p, q) + One(q == t && p == s.tcb[t].prio)
    ensures InPlace(r)
    ensures forall q :: q in s.tcb ==> (IsReady(r, q) <==> IsReady(s, q) || q == t)
  {}

  lemma UnwaitHeld(s: State, m: MutexId, t: Task, q: Task)
    requires Sized(s) && m in s.mutex && t in s.mutex[m].waiters
    ensures HeldBy(Unwait(s, m, t), q) == HeldBy(s, q)
  {}

  /** A waiter of one mutex waits for no other. */
  lemma UnwaitMembers(s: State, m: MutexId, t: Task, n: MutexId, q: Task)
    requires Sized(s) && Waiting(s) && m in s.mutex && t in s.mutex[m].waiters
    requires n in s.mutex && n in Unwait(s, m, t).mutex && q in Unwait(s, m, t).mutex[n].waiters
    ensures q in s.mutex[n].waiters && q != t && multiset(Unwait(s, m, t).mutex[n].waiters)[q] == 1
  {
    hide Sized, IsReady;
    var w := s.mutex[m].waiters;
    CountDropTask(w, t, q);
    DropTaskMembers(w, t);
    assert n == m ==> multiset(DropTask(w, t))[q] > 0 && q in w;
    assert t in s.mutex[m].waiters && s.attempt[t].mutex == m && multiset(s.mutex[m].waiters)[t] == 1;
    assert q in s.mutex[n].waiters && s.attempt[q].mutex == n;
  }

  lemma UnwaitWaiting(s: State, m: MutexId, t: Task)
    requires Sized(s) && Waiting(s) && m in s.mutex && t in s.mutex[m].waiters
    requires forall q :: q in s.tcb ==> (IsReady(Unwait(s, m, t), q) <==> IsReady(s, q) || q == t)
    ensures Waiting(Unwait(s, m, t))
  {
    hide IsReady, Unwait, Sized;
    var r := Unwait(s, m, t);
    WaitersKnown(s);
    UnwaitKeys(s, m, t);
    forall n, q | n in r.mutex && q in r.mutex[n].waiters
      ensures q in s.mutex[n].waiters && q != t && multiset(r.mutex[n].waiters)[q] == 1
    {
      UnwaitMembers(s, m, t, n, q);
    }
  }

  lemma UnwaitKeys(s: State, m: MutexId, t: Task)
    requires Sized(s) && m in s.mutex && t in s.mutex[m].waiters
    ensures Unwait(s, m, t).mutex.Keys == s.mutex.Keys
  {}

  lemma UnwaitKeepsInv(s: State, m: MutexId, t: Task)
    requires Inv(s) && m in s.mutex && t in s.mutex[m].waiters
    ensures Inv(Unwait(s, m, t))
    ensures forall q :: q in s.tcb && IsReady(s, q) ==> IsReady(Unwait(s, m, t), q)
  {
    hide InPlace, IsReady, HeldBy, Unwait, Sized;
    var r := Unwait(s, m, t);
    WaitersKnown(s);
    UnwaitAdds(s, m, t);
    AddedInPlace(s, r, t);
    forall q ensures HeldBy(r, q) == HeldBy(s, q) { UnwaitHeld(s, m, t, q); }
    UnwaitWaiting(s, m, t);
  }

  lemma UnwaitAdds(s: State, m: MutexId, t: Task)
    requires Sized(s) && m in s.mutex && t in s.mutex[m].waiters
    ensures Unwait(s, m, t).ready == AddReady(s, t).ready && Unwait(s, m, t).top == AddReady(s, t).top
  {}

  lemma GiveKeepsInv(s: State, m: MutexId)
    requires Inv(s) && Running(s) && m in s.mutex && s.mutex[m].holder == Some(s.current) && s.tcb[s.current].held > 0
    ensures Inv(Give(s, m))
  {
    hide InPlace, Inherited, Waiting, Release, Unwait;
    ReleaseKeepsInv(s, m);
    var r := Release(s, m);
    var w := r.mutex[m].waiters;
    if w != [] { UnwaitKeepsInv(r, m, w[0]); }
  }

  function EventsOf(s: State, w: seq<Task>): (v: seq<nat>)
    requires forall t :: t in w ==> t in s.tcb
    ensures |v| == |w|
  {
    seq(|w|, i requires 0 <= i < |w| => s.tcb[w[i]].event)
  }

  /** vTaskPlaceOnEventList on the waiting list of a mutex. */
  function Wait(s: State, m: MutexId, inherited: bool): (r: State)
    requires Sized(s) && Running(s) && m in s.mutex && !s.tcb[s.current].eventInUse
    ensures Sized(r) && r.tcb == s.tcb && r.current == s.current
    ensures r.mutex.Keys == s.mutex.Keys && r.attempt == s.attempt[s.current := Attempt(m, inherited)]
  {
    var t, w := s.current, s.mutex[m].waiters;
    var k := InsertPosition(EventsOf(s, w), s.tcb[t].event);
    Unready(s, t).(mutex := s.mutex[m := s.mutex[m].(waiters := w[..k] + [t] + w[k..])],
                   attempt := s.attempt[t := Attempt(m, inherited)])
  }

  /** The path of xQueueSemaphoreTake that blocks on a held mutex. */
  function BlockOn(s: State, m: MutexId): (r: State)
    requires Sized(s) && Running(s) && m in s.mutex && s.mutex[m].holder.Some?
    requires Running(Inherit(s, s.mutex[m].holder.value)) && !s.tcb[s.current].eventInUse
    ensures Sized(r)
  {
    var h := s.mutex[m].holder.value;
    Wait(Inherit(s, h), m, InheritOccurs(s, h))
  }

  lemma RemovedInPlace(s: State, r: State, t: Task)
    requires Sized(s) && InPlace(s) && Sized(r) && t in s.tcb && r.tcb.Keys == s.tcb.Keys
    requires forall q :: q in s.tcb ==> r.tcb[q].prio == s.tcb[q].prio
    requires t in s.ready[s.tcb[t].prio].items && r.ready == Unready(s, t).ready && r.top == s.top
    ensures InPlace(r)
    ensures forall q :: q in s.tcb ==> (IsReady(r, q) <==> IsReady(s, q) && q != t)
  {
    forall p: nat, q | p < MAX_PRIORITIES
      ensures InReady(r, p, q) == InReady(s, p, q) - One(q == t && p == s.tcb[t].prio)
    {
      UnreadyCounts(s, t, p, q);
    }
    UnreadiedInPlace(s, r, t);
  }

  lemma UnreadiedInPlace(s: State, r: State, t: Task)
    requires Sized(s) && InPlace(s) && Sized(r) && t in s.tcb && r.tcb.Keys == s.tcb.Keys && r.top == s.top
    requires forall q :: q in s.tcb ==> r.tcb[q].prio == s.tcb[q].prio
    requires forall p: nat, q :: p < MAX_PRIORITIES ==>
      InReady(r, p, q) == InReady(s, p, q) - One(q == t && p == s.tcb[t].prio)
    ensures InPlace(r)
    ensures forall q :: q in s.tcb ==> (IsReady(r, q) <==> IsReady(s, q) && q != t)
  {}

  lemma SpliceCounts(w: seq<Task>, k: nat, t: Task, q: Task)
    requires k <= |w|
    ensures multiset(w[..k] + [t] + w[k..])[q] == multiset(w)[q] + One(q == t)
    ensures q in w[..k] + [t] + w[k..] <==> q in w || q == t
  {
    assert w == w[..k] + w[k..];
  }

  lemma WaitMembers(s: State, m: MutexId, inherited: bool, n: MutexId, q: Task)
    requires Sized(s) && Waiting(s) && Running(s) && m in s.mutex && !s.tcb[s.current].eventInUse
    requires IsReady(s, s.current)
    requires n in s.mutex && q in Wait(s, m, inherited).mutex[n].waiters
    ensures if q == s.current then n == m else q in s.mutex[n].waiters
    ensures multiset(Wait(s, m, inherited).mutex[n].waiters)[q] == 1
  {
    var t, w := s.current, s.mutex[m].waiters;
    hide IsReady, Waiting;
    SpliceCounts(w, InsertPosition(EventsOf(s, w), s.tcb[t].event), t, q);
    if t in w { WaiterFacts(s, m, t); }
    if q in s.mutex[n].waiters { WaiterFacts(s, n, q); }
  }

  lemma WaiterFacts(s: State, m: MutexId, t: Task)
    requires Sized(s) && Waiting(s) && m in s.mutex && t in s.mutex[m].waiters
    ensures !IsReady(s, t) && multiset(s.mutex[m].waiters)[t] == 1
    ensures t in s.attempt && s.attempt[t].mutex == m
  {}

  lemma WaitWaiting(s: State, m: MutexId, inherited: bool)
    requires Sized(s) && Waiting(s) && Running(s) && m in s.mutex && !s.tcb[s.current].eventInUse
    requires IsReady(s, s.current)
    requires forall q :: q in s.tcb ==> (IsReady(Wait(s, m, inherited), q) <==> IsReady(s, q) && q != s.current)
    ensures Waiting(Wait(s, m, inherited))
  {
    hide IsReady, Sized, Running, Wait;
    var r, t := Wait(s, m, inherited), s.current;
    WaitersKnown(s);
    CurrentKnown(s);
    forall n, q | n in r.mutex && q in r.mutex[n].waiters
      ensures if q == t then n == m else q in s.mutex[n].waiters
      ensures multiset(r.mutex[n].waiters)[q] == 1
    {
      WaitMembers(s, m, inherited, n, q);
    }
  }

  lemma WaitHeld(s: State, m: MutexId, inherited: bool, q: Task)
    requires Sized(s) && Running(s) && m in s.mutex && !s.tcb[s.current].eventInUse
    ensures HeldBy(Wait(s, m, inherited), q) == HeldBy(s, q)
  {}

  lemma WaitKeepsInv(s: State, m: MutexId, inherited: bool)
    requires Inv(s) && Running(s) && m in s.mutex && !s.tcb[s.current].eventInUse
    ensures Inv(Wait(s, m, inherited))
  {
    hide InPlace, IsReady, HeldBy, Sized, Waiting;
    var r := Wait(s, m, inherited);
    CurrentKnown(s);
    RunningIsReady(s);
    RemovedInPlace(s, r, s.current);
    forall q ensures HeldBy(r, q) == HeldBy(s, q) { WaitHeld(s, m, inherited, q); }
    WaitWaiting(s, m, inherited);
  }

  lemma BlockOnKeepsInv(s: State, m: MutexId)
    requires Inv(s) && Running(s) && m in s.mutex && s.mutex[m].holder.Some? && !s.tcb[s.current].eventInUse
    ensures var h := s.mutex[m].holder.value;
            && h in s.tcb && Running(Inherit(s, h))
            && Inv(BlockOn(s, m))
            && BlockOn(s, m).tcb[h].prio >= s.tcb[s.current].prio
  {
    hide Sized, Running, InPlace, IsReady, Inherited, Waiting, Retune, Wait;
    CurrentKnown(s);
    HolderHolds(s, m);
    var h := s.mutex[m].holder.value;
    InheritKeepsInv(s, h);
    RunningIsReady(s);
    ReadyIsRunning(Inherit(s, h));
    WaitKeepsInv(Inherit(s, h), m, InheritOccurs(s, h));
  }

  /** configASSERT( pxTCB != pxCurrentTCB ) on the path of the holder's fall back. */
  ghost predicate HolderAsserted(s: State, m: MutexId)
    requires Sized(s) && m in s.mutex && s.mutex[m].holder.Some?
  {
    var h := s.mutex[m].holder.value;
    s.tcb[h].prio != Max(s.tcb[h].base, HighestWaiting(s, m)) && s.tcb[h].held == 1 ==> h != s.current
  }

  /** The end of xQueueSemaphoreTake when the block time has run out and the mutex was held. By the
  time the holder is looked at it may have given the mutex back; then it is left alone. */
  function GiveUp(s: State, holder: Option<Task>): (r: State)
    requires Sized(s) && s.current in s.attempt && s.attempt[s.current].mutex in s.mutex
    requires holder.Some? ==> holder.value in s.tcb
    ensures Sized(r)
  {
    var a := s.attempt[s.current];
    var s1 := if a.inherited && holder.Some? then DisinheritAfterTimeout(s, holder.value, HighestWaiting(s, a.mutex)) else s;
    s1.(attempt := s.attempt - {s.current})
  }

  lemma GiveUpKeepsInv(s: State, holder: Option<Task>)
    requires Inv(s) && Running(s) && s.current in s.attempt && s.attempt[s.current].mutex in s.mutex
    requires holder.Some? ==> holder.value in s.tcb
    ensures Inv(GiveUp(s, holder))
  {
    var a := s.attempt[s.current];
    var p := HighestWaiting(s, a.mutex);
    if holder.Some? { AfterTimeoutKeepsInv(s, holder.value, p); }
    hide InPlace, IsReady, Inherited, Waiting, Sized, Retune, HeldBy;
    var s1 := if a.inherited && holder.Some? then DisinheritAfterTimeout(s, holder.value, p) else s;
    RunningIsReady(s);
    DropAttempt(s1);
  }

  lemma DropAttempt(s: State)
    requires Inv(s) && IsReady(s, s.current)
    ensures Inv(s.(attempt := s.attempt - {s.current}))
  {
    hide InPlace, IsReady, Waiting, HeldBy, Inherited, Sized;
    var r := s.(attempt := s.attempt - {s.current});
    CurrentKnown(s);
    SizedSame(s, r);
    SameReady(s, r);
    SameHeld(s, r);
    InheritedSame(s, r);
    WaitingKept(s, r);
  }

  lemma SizedSame(s: State, r: State)
    requires Sized(s) && r == s.(attempt := r.attempt, current := r.current) && r.current in s.tcb
    ensures Sized(r)
  {}

  lemma InheritedSame(s: State, r: State)
    requires Inherited(s) && r.tcb == s.tcb && forall t :: HeldBy(r, t) == HeldBy(s, t)
    ensures Inherited(r)
  {
    hide HeldBy;
  }

  // ---------------------------------------------------------------- everything else a task may do

  /** The running task blocks for some other reason, perhaps borrowing its event list item. */
  function SleepElsewhere(s: State, inUse: bool): (r: State)
    requires Sized(s) && Running(s) && forall m :: m in s.mutex ==> s.current !in s.mutex[m].waiters
    ensures Sized(r)
  {
    var c := s.tcb[s.current];
    Unready(s, s.current).(tcb := s.tcb[s.current := c.(eventInUse := c.eventInUse || inUse)])
  }

  lemma RunningWaitsNowhere(s: State)
    requires Sized(s) && InPlace(s) && Waiting(s) && Running(s)
    ensures forall m :: m in s.mutex ==> s.current !in s.mutex[m].waiters
  {
    RunningIsReady(s);
  }

  lemma SleepKeepsInv(s: State, inUse: bool)
    requires Inv(s) && Running(s) && forall m :: m in s.mutex ==> s.current !in s.mutex[m].waiters
    ensures Inv(SleepElsewhere(s, inUse))
  {
    hide InPlace, IsReady, HeldBy, Waiting, Sized;
    var r := SleepElsewhere(s, inUse);
    CurrentKnown(s);
    RemovedInPlace(s, r, s.current);
    SameHeld(s, r);
    FewerReady(s, r);
  }

  /** Waiting lists are not disturbed when fewer tasks are ready. */
  lemma FewerReady(s: State, r: State)
    requires Sized(s) && Sized(r) && Waiting(s) && r.mutex == s.mutex && r.attempt == s.attempt && r.tcb.Keys == s.tcb.Keys
    requires forall q :: q in s.tcb && IsReady(r, q) ==> IsReady(s, q)
    ensures Waiting(r)
  {
    hide IsReady;
  }

  lemma WakeKeepsInv(s: State, t: Task)
    requires Inv(s) && t in s.tcb && !IsReady(s, t)
    requires forall m :: m in s.mutex ==> t !in s.mutex[m].waiters
    ensures Inv(AddReady(s, t))
  {
    hide InPlace, IsReady, HeldBy;
    var r := AddReady(s, t);
    AddedInPlace(s, r, t);
    SameHeld(s, r);
  }

  lemma SwitchKeepsInv(s: State, t: Task)
    requires Inv(s) && t in s.tcb
    ensures Inv(s.(current := t))
  {
    hide InPlace, IsReady, Waiting, HeldBy, Inherited, Sized;
    var r := s.(current := t);
    SizedSame(s, r);
    SameReady(s, r);
    SameHeld(s, r);
    InheritedSame(s, r);
    WaitingKept(s, r);
  }

  /** uxTaskResetEventItemValue, by the running task. */
  function ResetEvent(s: State): (r: State)
    requires Sized(s)
    ensures Sized(r)
  {
    var c := s.tcb[s.current];
    s.(tcb := s.tcb[s.current := c.(event := EventValue(c.prio), eventInUse := false)])
  }

  lemma ResetKeepsInv(s: State)
    requires Inv(s)
    ensures Inv(ResetEvent(s))
  {
    hide InPlace, IsReady, Waiting, HeldBy, Sized;
    CurrentKnown(s);
    SameReady(s, ResetEvent(s));
    SameHeld(s, ResetEvent(s));
    WaitingKept(s, ResetEvent(s));
  }
}
