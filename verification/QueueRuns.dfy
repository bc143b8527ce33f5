/** The blocking calls of FreeRtos/kernel/queue.c as interleaved task and interrupt steps. */
module QueueRuns {
  import opened Basics
  import opened QueueLocks

  datatype Kind = Send | Overwrite | Receive | Peek

  predicate Reads(k: Kind) { k.Receive? || k.Peek? }

  /** Where a task is in its call. */
  datatype Phase =
    | Outside                              // in no call on this queue
    | Loop(kind: Kind)                     // before the first critical section, or blocked before it
    | Failed(kind: Kind)                   // found the queue full (or empty); scheduler not yet suspended
    | Locked(kind: Kind)                   // scheduler suspended and queue locked
    | Unexpired(kind: Kind)                // xTaskCheckForTimeOut said no
    | Placing(kind: Kind)                  // found the queue full (or empty) again
    | Unlocking(kind: Kind, again: bool)   // before the first half of prvUnlockQueue
    | Unlocking2(kind: Kind, again: bool)  // before its second half
    | LastLook(kind: Kind)                 // timed out; a receiver looks once more

  datatype State = State(
    length: nat,              // uxLength
    sized: bool,              // uxItemSize is not 0
    items: nat,               // uxMessagesWaiting
    recv: Side,               // xTasksWaitingToReceive and cTxLock
    send: Side,               // xTasksWaitingToSend and cRxLock
    pc: map<Task, Phase>,
    locker: Option<Task>)     // the task that has suspended the scheduler and locked the queue

  predicate HoldsLock(p: Phase) {
    p.Locked? || p.Unexpired? || p.Placing? || p.Unlocking? || p.Unlocking2?
  }

  /** The phases in which a task may be on a waiting list, or taken off it and not yet re-run. */
  predicate MayWait(p: Phase, reader: bool) {
    (p.Loop? || ((p.Unlocking? || p.Unlocking2?) && p.again)) && Reads(p.kind) == reader
  }

  // ---------------------------------------------------------------- invariant

  ghost predicate Fits(d: Side, pc: map<Task, Phase>, reader: bool) {
    && Sound(d, pc.Keys)
    && forall t :: t in d.waiting || t in d.woken ==> t in pc && MayWait(pc[t], reader)
  }

  /** Only the locker is between locking and unlocking, and the locks say how far it is. */
  ghost predicate LockHeld(s: State) {
    && (forall t :: t in s.pc && HoldsLock(s.pc[t]) ==> s.locker == Some(t))
    && match s.locker
       case None => s.recv.lock == UNLOCKED && s.send.lock == UNLOCKED
       case Some(t) =>
         && t in s.pc && HoldsLock(s.pc[t])
         && (s.recv.lock >= LOCKED_UNMODIFIED <==> !s.pc[t].Unlocking2?)
         && s.send.lock >= LOCKED_UNMODIFIED
  }

  ghost function Arriving(s: State, reader: bool): nat {
    if s.locker.Some? && s.locker.value in s.pc && s.pc[s.locker.value].Placing?
       && Reads(s.pc[s.locker.value].kind) == reader then 1 else 0
  }

  ghost predicate NoWakeUpLost(s: State) {
    && Covered(s.recv, s.items, Arriving(s, true))
    && Covered(s.send, s.length - s.items, Arriving(s, false))
  }

  ghost predicate Inv(s: State) {
    && (s.sized ==> s.items <= s.length) && |s.pc| <= INT8_MAX
    && Fits(s.recv, s.pc, true) && Fits(s.send, s.pc, false)
    && LockHeld(s) && NoWakeUpLost(s)
  }

  // ---------------------------------------------------------------- steps of interrupts

  /** uxMessagesWaiting after prvCopyDataToQueue: an item of size 0 is counted even if it overwrites. */
  function Counted(s: State, overwrite: bool): nat {
    if overwrite && s.sized && s.items > 0 then s.items else s.items + 1
  }

  /** xQueueGenericSendFromISR and xQueueGiveFromISR. */
  function SendFromIsr(s: State, overwrite: bool): State {
    if s.items < s.length || overwrite then
      s.(items := Counted(s, overwrite), recv := Notify(s.recv, |s.pc|))
    else
      s
  }

  /** xQueueReceiveFromISR. */
  function ReceiveFromIsr(s: State): State {
    if s.items > 0 then s.(items := s.items - 1, send := Notify(s.send, |s.pc|)) else s
  }

  /** Room for one more: the waiting tasks and the task about to join them are all different. */
  lemma RoomToCount(s: State, reader: bool)
    requires Inv(s)
    ensures var d := if reader then s.recv else s.send;
            |d.waiting| + Arriving(s, reader) <= |s.pc| && (Arriving(s, reader) > 0 ==> d.lock != UNLOCKED)
  {
    var d := if reader then s.recv else s.send;
    if Arriving(s, reader) > 0 {
      var t := s.locker.value;
      assert t !in d.waiting;
      DistinctFits(d.waiting, s.pc.Keys - {t});
    } else {
      DistinctFits(d.waiting, s.pc.Keys);
    }
  }

  lemma NotifyFits(d: Side, pc: map<Task, Phase>, reader: bool, units: int, arriving: nat)
    requires Fits(d, pc, reader) && Covered(d, units, arriving)
    requires |d.waiting| + arriving <= |pc| && (arriving > 0 ==> d.lock != UNLOCKED)
    ensures var e := Notify(d, |pc|);
            Fits(e, pc, reader) && Covered(e, units + 1, arriving)
            && (e.lock >= LOCKED_UNMODIFIED <==> d.lock >= LOCKED_UNMODIFIED)
            && (d.lock == UNLOCKED ==> e.lock == UNLOCKED)
  {
    assert |pc| == |pc.Keys|;
    NotifyCovers(d, units, arriving, pc.Keys);
    assert d.waiting != [] ==> d.waiting == [d.waiting[0]] + d.waiting[1..];
  }

  lemma SendFromIsrKeepsInv(s: State, overwrite: bool)
    requires Inv(s) && (overwrite ==> s.length == 1)
    ensures Inv(SendFromIsr(s, overwrite))
  {
    RoomToCount(s, true);
    NotifyFits(s.recv, s.pc, true, s.items, Arriving(s, true));
  }

  lemma ReceiveFromIsrKeepsInv(s: State)
    requires Inv(s)
    ensures Inv(ReceiveFromIsr(s))
  {
    RoomToCount(s, false);
    NotifyFits(s.send, s.pc, false, s.length - s.items, Arriving(s, false));
  }

  // ---------------------------------------------------------------- steps of tasks

  function Forget(d: Side, t: Task): Side { d.(woken := d.woken - {t}) }

  /** A task that is not waiting, and may run because the scheduler is not suspended. */
  predicate Runs(s: State, t: Task) {
    t in s.pc && s.locker.None? && t !in s.recv.waiting && t !in s.send.waiting
  }

  /** The call is refused: return at once, or go on to block. */
  function Refused(k: Kind, wait: bool): Phase { if wait then Failed(k) else Outside }

  /** The first critical section of xQueueGenericSend. */
  function TrySend(s: State, t: Task, wait: bool): State
    requires Runs(s, t) && s.pc[t].Loop? && !Reads(s.pc[t].kind)
  {
    var k := s.pc[t].kind;
    if s.items < s.length || k.Overwrite? then
      s.(items := Counted(s, k.Overwrite?),
         recv := WakeFirst(s.recv), send := Forget(s.send, t), pc := s.pc[t := Outside])
    else
      s.(send := Forget(s.send, t), pc := s.pc[t := Refused(k, wait)])
  }

  /** The first critical section of xQueueReceive and xQueueSemaphoreTake, or of xQueuePeek, which
  leaves the item for the next receiver and wakes it. */
  function TryReceive(s: State, t: Task, wait: bool): State
    requires Runs(s, t) && s.pc[t].Loop? && Reads(s.pc[t].kind)
  {
    var k := s.pc[t].kind;
    if s.items == 0 then
      s.(recv := Forget(s.recv, t), pc := s.pc[t := Refused(k, wait)])
    else if k.Peek? then
      s.(recv := WakeFirst(Forget(s.recv, t)), pc := s.pc[t := Outside])
    else
      s.(items := s.items - 1, recv := Forget(s.recv, t), send := WakeFirst(s.send), pc := s.pc[t := Outside])
  }

  lemma FitsStep(d: Side, pc: map<Task, Phase>, t: Task, p: Phase, reader: bool)
    requires Fits(d, pc, reader) && t in pc
    requires (t !in d.waiting && t !in d.woken) || MayWait(p, reader)
    ensures Fits(d, pc[t := p], reader)
  {
    assert pc[t := p].Keys == pc.Keys;
  }

  lemma ForgetFits(d: Side, pc: map<Task, Phase>, t: Task, reader: bool, units: int)
    requires Fits(d, pc, reader) && Covered(d, units, 0) && d.lock == UNLOCKED
    ensures Fits(Forget(d, t), pc, reader)
    ensures t in d.woken ==> Covered(Forget(d, t), units - 1, 0)
    ensures t !in d.woken ==> Covered(Forget(d, t), units, 0)
  {}

  lemma WakeFits(d: Side, pc: map<Task, Phase>, reader: bool, units: int)
    requires Fits(d, pc, reader) && Covered(d, units, 0) && d.lock == UNLOCKED
    ensures Fits(WakeFirst(d), pc, reader) && Covered(WakeFirst(d), units + 1, 0)
  {
    WakeFirstSound(d, pc.Keys);
    assert d.waiting != [] ==> d.waiting == [d.waiting[0]] + d.waiting[1..];
  }

  lemma FewerUnits(d: Side, units: int, fewer: int)
    requires Covered(d, units, 0) && fewer <= units
    ensures Covered(d, fewer, 0)
  {}

  /** A task is on, or fresh from, no list but the one its call waits on. */
  lemma WaitsWhereItShould(s: State, t: Task)
    requires Inv(s) && t in s.pc
    ensures !MayWait(s.pc[t], true) ==> t !in s.recv.waiting && t !in s.recv.woken
    ensures !MayWait(s.pc[t], false) ==> t !in s.send.waiting && t !in s.send.woken
  {}

  lemma OutOfLock(s: State, r: State, t: Task)
    requires LockHeld(s) && s.locker.None? && t in s.pc && r.locker.None?
    requires r.pc.Keys == s.pc.Keys && !HoldsLock(r.pc[t]) && forall q :: q in s.pc && q != t ==> r.pc[q] == s.pc[q]
    requires r.recv.lock == s.recv.lock && r.send.lock == s.send.lock
    ensures LockHeld(r)
  {}

  lemma TrySendKeepsInv(s: State, t: Task, wait: bool)
    requires Inv(s) && Runs(s, t) && s.pc[t].Loop? && !Reads(s.pc[t].kind)
    requires s.pc[t].kind.Overwrite? ==> s.length == 1
    ensures Inv(TrySend(s, t, wait))
  {
    hide Fits, Covered, LockHeld;
    var r, free := TrySend(s, t, wait), s.length - s.items;
    Unlocked(s);
    WaitsWhereItShould(s, t);
    OutOfLock(s, r, t);
    ForgetFits(s.send, s.pc, t, false, free);
    FitsStep(r.send, s.pc, t, r.pc[t], false);
    SendUnits(s, t, wait);
    SendWakes(s, t, wait);
    FitsStep(r.recv, s.pc, t, r.pc[t], true);
  }

  /** An item sent comes with a wake-up. */
  lemma SendWakes(s: State, t: Task, wait: bool)
    requires Inv(s) && Runs(s, t) && s.pc[t].Loop? && !Reads(s.pc[t].kind)
    ensures var r := TrySend(s, t, wait);
            Fits(r.recv, s.pc, true) && Covered(r.recv, r.items, 0) && (t !in r.recv.waiting && t !in r.recv.woken)
  {
    hide Fits, Covered, LockHeld;
    Unlocked(s);
    WaitsWhereItShould(s, t);
    WakeFits(s.recv, s.pc, true, s.items);
    FewerUnits(WakeFirst(s.recv), s.items + 1, s.items);
  }

  lemma SendUnits(s: State, t: Task, wait: bool)
    requires Inv(s) && Runs(s, t) && s.pc[t].Loop? && !Reads(s.pc[t].kind)
    requires s.pc[t].kind.Overwrite? ==> s.length == 1
    ensures var r := TrySend(s, t, wait);
            Covered(r.send, r.length - r.items, 0)
  {
    hide Fits, LockHeld;
    Unlocked(s);
  }

  lemma Unlocked(s: State)
    requires Inv(s) && s.locker.None?
    ensures s.recv.lock == UNLOCKED && s.send.lock == UNLOCKED
  {}

  /** An item taken by the task that was woken for it is an item less to wake somebody for. A peek
  leaves the item, and passes the wake-up on. */
  lemma ReceiveUnits(s: State, t: Task, wait: bool)
    requires Inv(s) && Runs(s, t) && s.pc[t].Loop? && Reads(s.pc[t].kind)
    ensures var r := TryReceive(s, t, wait);
            Fits(r.recv, s.pc, true) && Covered(r.recv, r.items, 0) && (t !in r.recv.waiting && t !in r.recv.woken)
  {
    hide Fits, LockHeld;
    Unlocked(s);
    ForgetFits(s.recv, s.pc, t, true, s.items);
    if s.items > 0 && s.pc[t].kind.Peek? {
      var units := if t in s.recv.woken then s.items - 1 else s.items;
      WakeFits(Forget(s.recv, t), s.pc, true, units);
      FewerUnits(WakeFirst(Forget(s.recv, t)), units + 1, s.items);
    }
  }

  lemma TryReceiveKeepsInv(s: State, t: Task, wait: bool)
    requires Inv(s) && Runs(s, t) && s.pc[t].Loop? && Reads(s.pc[t].kind)
    ensures Inv(TryReceive(s, t, wait))
  {
    hide Fits, Covered, LockHeld;
    var r, free := TryReceive(s, t, wait), s.length - s.items;
    Unlocked(s);
    WaitsWhereItShould(s, t);
    OutOfLock(s, r, t);
    ReceiveUnits(s, t, wait);
    FitsStep(r.recv, s.pc, t, r.pc[t], true);
    WakeFits(s.send, s.pc, false, free);
    FitsStep(WakeFirst(s.send), s.pc, t, r.pc[t], false);
    FitsStep(s.send, s.pc, t, r.pc[t], false);
  }

  // ---------------------------------------------------------------- blocking

  function Advance(s: State, t: Task, p: Phase): State { s.(pc := s.pc[t := p]) }

  function Lock(d: Side): Side { if d.lock == UNLOCKED then d.(lock := LOCKED_UNMODIFIED) else d }

  /** vTaskSuspendAll and prvLockQueue. */
  function Suspend(s: State, t: Task): State
    requires Runs(s, t) && s.pc[t].Failed?
  {
    Advance(s, t, Locked(s.pc[t].kind)).(recv := Lock(s.recv), send := Lock(s.send), locker := Some(t))
  }

  /** xTaskCheckForTimeOut. */
  function CheckTime(s: State, t: Task, expired: bool): State
    requires t in s.pc && s.pc[t].Locked?
  {
    Advance(s, t, if expired then Unlocking(s.pc[t].kind, false) else Unexpired(s.pc[t].kind))
  }

  /** prvIsQueueFull and prvIsQueueEmpty. */
  function CheckLevel(s: State, t: Task): State
    requires t in s.pc && s.pc[t].Unexpired?
  {
    var k := s.pc[t].kind;
    Advance(s, t, if s.items == (if Reads(k) then 0 else s.length) then Placing(k) else Unlocking(k, true))
  }

  /** vTaskPlaceOnEventList. */
  function Place(s: State, t: Task, i: nat): State
    requires t in s.pc && s.pc[t].Placing?
    requires i <= |(if Reads(s.pc[t].kind) then s.recv else s.send).waiting|
  {
    var k := s.pc[t].kind;
    if Reads(k) then
      Advance(s, t, Unlocking(k, true)).(recv := Enqueue(s.recv, t, i))
    else
      Advance(s, t, Unlocking(k, true)).(send := Enqueue(s.send, t, i))
  }

  /** The first critical section of prvUnlockQueue. */
  function UnlockTx(s: State, t: Task): State
    requires t in s.pc && s.pc[t].Unlocking?
  {
    Advance(s, t, Unlocking2(s.pc[t].kind, s.pc[t].again)).(recv := Drain(s.recv))
  }

  /** The second critical section of prvUnlockQueue, and xTaskResumeAll. A sender that has timed
  out returns; a receiver looks once more. */
  function UnlockRx(s: State, t: Task): State
    requires t in s.pc && s.pc[t].Unlocking2?
  {
    var k := s.pc[t].kind;
    Advance(s, t, if s.pc[t].again then Loop(k) else if Reads(k) then LastLook(k) else Outside)
      .(send := Drain(s.send), locker := None)
  }

  function Look(s: State, t: Task): State
    requires t in s.pc && s.pc[t].LastLook?
  {
    Advance(s, t, if s.items == 0 then Outside else Loop(s.pc[t].kind))
  }

  lemma AdvanceFits(s: State, t: Task, p: Phase)
    requires Inv(s) && t in s.pc
    requires (MayWait(s.pc[t], true) ==> MayWait(p, true)) && (MayWait(s.pc[t], false) ==> MayWait(p, false))
    ensures Fits(s.recv, s.pc[t := p], true) && Fits(s.send, s.pc[t := p], false)
  {
    hide Fits, LockHeld, Covered;
    WaitsWhereItShould(s, t);
    FitsStep(s.recv, s.pc, t, p, true);
    FitsStep(s.send, s.pc, t, p, false);
  }

  /** The locker moves on, to a phase in which the locks are as they were. */
  lemma LockerMoves(s: State, t: Task, p: Phase)
    requires LockHeld(s) && s.locker == Some(t) && HoldsLock(p) && (p.Unlocking2? <==> s.pc[t].Unlocking2?)
    ensures LockHeld(Advance(s, t, p))
  {}

  lemma SuspendKeepsInv(s: State, t: Task)
    requires Inv(s) && Runs(s, t) && s.pc[t].Failed?
    ensures Inv(Suspend(s, t))
  {
    AdvanceFits(s, t, Locked(s.pc[t].kind));
    hide Fits, Covered;
    LockFits(s.recv, Suspend(s, t).pc, true, s.items);
    LockFits(s.send, Suspend(s, t).pc, false, s.length - s.items);
  }

  lemma LockFits(d: Side, pc: map<Task, Phase>, reader: bool, units: int)
    requires Fits(d, pc, reader) && Covered(d, units, 0)
    ensures Fits(Lock(d), pc, reader) && Covered(Lock(d), units, 0)
  {}

  lemma CheckTimeKeepsInv(s: State, t: Task, expired: bool)
    requires Inv(s) && s.locker == Some(t) && t in s.pc && s.pc[t].Locked?
    ensures Inv(CheckTime(s, t, expired))
  {
    hide Fits, Covered, LockHeld;
    AdvanceFits(s, t, CheckTime(s, t, expired).pc[t]);
    LockerMoves(s, t, CheckTime(s, t, expired).pc[t]);
  }

  lemma CheckLevelKeepsInv(s: State, t: Task)
    requires Inv(s) && s.locker == Some(t) && t in s.pc && s.pc[t].Unexpired?
    ensures Inv(CheckLevel(s, t))
  {
    hide Fits, LockHeld;
    AdvanceFits(s, t, CheckLevel(s, t).pc[t]);
    LockerMoves(s, t, CheckLevel(s, t).pc[t]);
  }

  lemma EnqueueFits(d: Side, pc: map<Task, Phase>, t: Task, i: nat, p: Phase, reader: bool, units: int)
    requires Fits(d, pc, reader) && Covered(d, units, 1) && i <= |d.waiting|
    requires t in pc && t !in d.waiting && t !in d.woken && MayWait(p, reader)
    ensures Fits(Enqueue(d, t, i), pc[t := p], reader) && Covered(Enqueue(d, t, i), units, 0)
  {
    EnqueueSound(d, t, i, pc.Keys);
    assert pc[t := p].Keys == pc.Keys;
  }

  lemma PlaceKeepsInv(s: State, t: Task, i: nat)
    requires Inv(s) && s.locker == Some(t) && t in s.pc && s.pc[t].Placing?
    requires i <= |(if Reads(s.pc[t].kind) then s.recv else s.send).waiting|
    ensures Inv(Place(s, t, i))
  {
    hide Fits, Covered, LockHeld;
    var k := s.pc[t].kind;
    var p := Unlocking(k, true);
    AdvanceFits(s, t, p);
    LockerMoves(s, t, p);
    WaitsWhereItShould(s, t);
    if Reads(k) {
      EnqueueFits(s.recv, s.pc, t, i, p, true, s.items);
    } else {
      EnqueueFits(s.send, s.pc, t, i, p, false, s.length - s.items);
    }
    SameLocks(Advance(s, t, p), Place(s, t, i));
  }

  lemma SameLocks(s: State, r: State)
    requires LockHeld(s) && r.pc == s.pc && r.locker == s.locker
    requires r.recv.lock == s.recv.lock && r.send.lock == s.send.lock
    ensures LockHeld(r)
  {}

  lemma DrainFits(d: Side, pc: map<Task, Phase>, reader: bool, units: int)
    requires Fits(d, pc, reader) && Covered(d, units, 0) && d.lock >= LOCKED_UNMODIFIED
    ensures Fits(Drain(d), pc, reader) && Covered(Drain(d), units, 0) && Drain(d).lock == UNLOCKED
  {
    DrainCovers(d, units, pc.Keys);
  }

  lemma UnlockTxKeepsInv(s: State, t: Task)
    requires Inv(s) && s.locker == Some(t) && t in s.pc && s.pc[t].Unlocking?
    ensures Inv(UnlockTx(s, t))
  {
    hide Fits, Covered, Drain;
    var p := Unlocking2(s.pc[t].kind, s.pc[t].again);
    AdvanceFits(s, t, p);
    DrainFits(s.recv, s.pc[t := p], true, s.items);
  }

  lemma UnlockRxKeepsInv(s: State, t: Task)
    requires Inv(s) && s.locker == Some(t) && t in s.pc && s.pc[t].Unlocking2?
    ensures Inv(UnlockRx(s, t))
  {
    hide Fits, Covered, Drain;
    var p := UnlockRx(s, t).pc[t];
    AdvanceFits(s, t, p);
    LocksInSecondHalf(s, t);
    DrainFits(s.send, s.pc[t := p], false, s.length - s.items);
  }

  lemma LocksInSecondHalf(s: State, t: Task)
    requires Inv(s) && s.locker == Some(t) && t in s.pc && s.pc[t].Unlocking2?
    ensures s.recv.lock == UNLOCKED && s.send.lock >= LOCKED_UNMODIFIED
  {}

  lemma MoveKeepsInv(s: State, t: Task, p: Phase)
    requires Inv(s) && Runs(s, t) && (s.pc[t].LastLook? || s.pc[t].Outside?) && (p.Outside? || p.Loop?)
    ensures Inv(Advance(s, t, p))
  {
    hide Fits, Covered, LockHeld;
    AdvanceFits(s, t, p);
    OutOfLock(s, Advance(s, t, p), t);
  }

  // ---------------------------------------------------------------- timing out

  /** The tick interrupt takes a task off the list it waits on. Ticks are pended while the scheduler
  is suspended, so nobody times out while the queue is locked. */
  function Expire(s: State, reader: bool, i: nat): State
    requires i < |(if reader then s.recv else s.send).waiting|
  {
    if reader then s.(recv := Leave(s.recv, i)) else s.(send := Leave(s.send, i))
  }

  lemma LeaveFits(d: Side, pc: map<Task, Phase>, reader: bool, i: nat, units: int)
    requires Fits(d, pc, reader) && Covered(d, units, 0) && i < |d.waiting| && d.lock == UNLOCKED
    ensures Fits(Leave(d, i), pc, reader) && Covered(Leave(d, i), units, 0)
  {
    LeaveSound(d, i, pc.Keys);
  }

  lemma ExpireKeepsInv(s: State, reader: bool, i: nat)
    requires Inv(s) && s.locker.None? && i < |(if reader then s.recv else s.send).waiting|
    ensures Inv(Expire(s, reader, i))
  {
    hide Fits, Covered;
    if reader {
      LeaveFits(s.recv, s.pc, true, i, s.items);
    } else {
      LeaveFits(s.send, s.pc, false, i, s.length - s.items);
    }
  }

  // ---------------------------------------------------------------- runs

  datatype Op =
    | IsrSend(overwrite: bool)
    | IsrReceive
    | Call(t: Task, kind: Kind)
    | Try(t: Task, wait: bool)
    | SuspendAndLock(t: Task)
    | TimeCheck(t: Task, expired: bool)
    | LevelCheck(t: Task)
    | PlaceOnList(t: Task, i: nat)
    | UnlockFirst(t: Task)
    | UnlockSecond(t: Task)
    | LookAgain(t: Task)
    | TimeUp(reader: bool, i: nat)

  /** What the program order, the scheduler and the assertions of the source guarantee. */
  predicate Enabled(s: State, op: Op) {
    match op
    case IsrSend(overwrite) => overwrite ==> s.length == 1
    case IsrReceive => true
    case Call(t, kind) => Runs(s, t) && s.pc[t].Outside? && (kind.Overwrite? ==> s.length == 1)
    case Try(t, _) => Runs(s, t) && s.pc[t].Loop? && (s.pc[t].kind.Overwrite? ==> s.length == 1)
    case SuspendAndLock(t) => Runs(s, t) && s.pc[t].Failed?
    case TimeCheck(t, _) => s.locker == Some(t) && t in s.pc && s.pc[t].Locked?
    case LevelCheck(t) => s.locker == Some(t) && t in s.pc && s.pc[t].Unexpired?
    case PlaceOnList(t, i) => s.locker == Some(t) && t in s.pc && s.pc[t].Placing?
      && i <= |(if Reads(s.pc[t].kind) then s.recv else s.send).waiting|
    case UnlockFirst(t) => s.locker == Some(t) && t in s.pc && s.pc[t].Unlocking?
    case UnlockSecond(t) => s.locker == Some(t) && t in s.pc && s.pc[t].Unlocking2?
    case LookAgain(t) => Runs(s, t) && s.pc[t].LastLook?
    case TimeUp(reader, i) => s.locker.None? && i < |(if reader then s.recv else s.send).waiting|
  }

  ghost function Step(s: State, op: Op): (r: State)
    requires Inv(s) && Enabled(s, op)
    ensures Inv(r)
  {
    match op
    case IsrSend(overwrite) => SendFromIsrKeepsInv(s, overwrite); SendFromIsr(s, overwrite)
    case IsrReceive => ReceiveFromIsrKeepsInv(s); ReceiveFromIsr(s)
    case Call(t, kind) => MoveKeepsInv(s, t, Loop(kind)); Advance(s, t, Loop(kind))
    case Try(t, wait) =>
      if Reads(s.pc[t].kind) then TryReceiveKeepsInv(s, t, wait); TryReceive(s, t, wait)
      else TrySendKeepsInv(s, t, wait); TrySend(s, t, wait)
    case SuspendAndLock(t) => SuspendKeepsInv(s, t); Suspend(s, t)
    case TimeCheck(t, expired) => CheckTimeKeepsInv(s, t, expired); CheckTime(s, t, expired)
    case LevelCheck(t) => CheckLevelKeepsInv(s, t); CheckLevel(s, t)
    case PlaceOnList(t, i) => PlaceKeepsInv(s, t, i); Place(s, t, i)
    case UnlockFirst(t) => UnlockTxKeepsInv(s, t); UnlockTx(s, t)
    case UnlockSecond(t) => UnlockRxKeepsInv(s, t); UnlockRx(s, t)
    case LookAgain(t) => MoveKeepsInv(s, t, Look(s, t).pc[t]); Look(s, t)
    case TimeUp(reader, i) => ExpireKeepsInv(s, reader, i); Expire(s, reader, i)
  }

  ghost predicate Legal(s: State, ops: seq<Op>)
    requires Inv(s)
    decreases |ops|
  {
    ops == [] || (Enabled(s, ops[0]) && Legal(Step(s, ops[0]), ops[1..]))
  }

  ghost function Run(s: State, ops: seq<Op>): (r: State)
    requires Inv(s) && Legal(s, ops)
    ensures Inv(r)
    decreases |ops|
  {
    if ops == [] then s else Run(Step(s, ops[0]), ops[1..])
  }

  /** An unlocked queue that nobody is using, as xQueueGenericReset leaves a new one. */
  ghost predicate Start(s: State): (start: bool)
    ensures start ==> Inv(s)
  {
    && s.items == 0 && s.recv == Side([], {}, UNLOCKED) && s.send == Side([], {}, UNLOCKED) && s.locker.None?
    && |s.pc| <= INT8_MAX && forall t :: t in s.pc ==> s.pc[t].Outside?
  }

  /** No lost wake-up, after any interleaving: while receivers wait, the items do not outnumber the
  receivers woken and not yet re-run plus the wake-ups owed, unless the wake-ups owed cover every
  waiter; and the same for senders and free slots. */
  lemma NoLostWakeUp(s: State, ops: seq<Op>)
    requires Start(s) && Legal(s, ops)
    ensures var r := Run(s, ops);
            && (r.recv.waiting != [] ==>
                  || r.items <= |r.recv.woken| + (if r.recv.lock > 0 then r.recv.lock else 0)
                  || r.recv.lock >= |r.recv.waiting|)
            && (r.send.waiting != [] ==>
                  || r.length - r.items <= |r.send.woken| + (if r.send.lock > 0 then r.send.lock else 0)
                  || r.send.lock >= |r.send.waiting|)
  {
    hide Run, Legal;
  }

  /** A quiescent queue never has both items and waiting receivers, nor free slots and waiting
  senders. */
  lemma QuiescentQueue(s: State, ops: seq<Op>)
    requires Start(s) && Legal(s, ops)
    ensures var r := Run(s, ops);
            r.locker.None? ==>
              && (r.recv.woken == {} ==> r.items == 0 || r.recv.waiting == [])
              && (r.send.woken == {} ==> r.items >= r.length || r.send.waiting == [])
              && (r.sized ==> r.items <= r.length)
  {
    hide Run, Legal;
    var r := Run(s, ops);
    if r.locker.None? { Unlocked(r); }
  }

  /** The lock counters never leave the range of int8_t: configASSERT( cLock != queueINT8_MAX ) in
  prvIncrementQueueTxLock and prvIncrementQueueRxLock, reached only below the number of tasks. */
  lemma LocksFitInt8(s: State, ops: seq<Op>)
    requires Start(s) && Legal(s, ops)
    ensures var r := Run(s, ops);
            && UNLOCKED <= r.recv.lock <= INT8_MAX && (r.recv.lock < |r.pc| ==> r.recv.lock != INT8_MAX)
            && UNLOCKED <= r.send.lock <= INT8_MAX && (r.send.lock < |r.pc| ==> r.send.lock != INT8_MAX)
  {
    hide Run, Legal;
    var r := Run(s, ops);
    assert |r.pc| == |r.pc.Keys|;
  }
}
