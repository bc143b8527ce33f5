/** What the steps of module QueueRuns do, apart from how they do it: how many items there are, who waits,
who has been woken, and where each call goes next. A call that finds the queue empty, or full, does wait.
*/
module QueueEffects {
  import opened Basics
  import opened QueueLocks
  import opened QueueRuns

  function SideOf(s: State, reader: bool): Side { if reader then s.recv else s.send }

  /** The queue is full, for a call that sends, or empty, for one that reads. */
  predicate Stuck(s: State, k: Kind) {
    match k
    case Send => s.items >= s.length
    case Overwrite => false
    case _ => s.items == 0
  }

  /** The task that takes the step. */
  function Actor(op: Op): Option<Task> {
    match op
    case IsrSend(_) => None
    case IsrReceive => None
    case TimeUp(_, _) => None
    case Call(t, _) => Some(t)
    case Try(t, _) => Some(t)
    case SuspendAndLock(t) => Some(t)
    case TimeCheck(t, _) => Some(t)
    case LevelCheck(t) => Some(t)
    case PlaceOnList(t, _) => Some(t)
    case UnlockFirst(t) => Some(t)
    case UnlockSecond(t) => Some(t)
    case LookAgain(t) => Some(t)
  }

  /** Where the call of the actor goes. */
  ghost predicate Goes(s: State, op: Op, t: Task, p: Phase)
    requires Enabled(s, op) && Actor(op) == Some(t) && t in s.pc
  {
    match op
    case Call(_, k) => p == Loop(k)
    case Try(_, wait) => p == if Stuck(s, s.pc[t].kind) && wait then Failed(s.pc[t].kind) else Outside
    case SuspendAndLock(_) => p == Locked(s.pc[t].kind)
    case TimeCheck(_, expired) => p == if expired then Unlocking(s.pc[t].kind, false) else Unexpired(s.pc[t].kind)
    case LevelCheck(_) =>
      p == (var k := s.pc[t].kind;
            if (if Reads(k) then s.items == 0 else s.items == s.length) then Placing(k) else Unlocking(k, true))
    case PlaceOnList(_, _) => p == Unlocking(s.pc[t].kind, true)
    case UnlockFirst(_) => p == Unlocking2(s.pc[t].kind, s.pc[t].again)
    case UnlockSecond(_) =>
      p == if s.pc[t].again then Loop(s.pc[t].kind) else if Reads(s.pc[t].kind) then LastLook(s.pc[t].kind) else Outside
    case LookAgain(_) => p == if s.items > 0 then Loop(s.pc[t].kind) else Outside
  }

  /** The calls: the actor goes where its program takes it, and nobody else moves. */
  lemma CallsGoOn(s: State, op: Op)
    requires Inv(s) && Enabled(s, op)
    ensures var r := Step(s, op);
            && r.pc.Keys == s.pc.Keys
            && (forall q :: q in s.pc && Actor(op) != Some(q) ==> r.pc[q] == s.pc[q])
            && (forall t :: Actor(op) == Some(t) ==> t in s.pc && t in r.pc && Goes(s, op, t, r.pc[t]))
  {
    hide Fits, Covered, LockHeld, Drain, Notify, WakeFirst;
  }

  // ---------------------------------------------------------------- items

  /** The item that the step puts in, or takes out. */
  ghost function Change(s: State, op: Op): int
    requires Enabled(s, op)
  {
    match op
    case IsrSend(overwrite) =>
      if overwrite then (if s.sized && s.items > 0 then 0 else 1) else if s.items < s.length then 1 else 0
    case IsrReceive => if s.items > 0 then -1 else 0
    case Try(t, _) =>
      if Stuck(s, s.pc[t].kind) then 0
      else
        (match s.pc[t].kind
         case Send => 1
         case Overwrite => if s.sized && s.items > 0 then 0 else 1
         case Receive => -1
         case Peek => 0)
    case _ => 0
  }

  lemma ItemsChange(s: State, op: Op)
    requires Inv(s) && Enabled(s, op)
    ensures var r := Step(s, op); r.items == s.items + Change(s, op) && r.length == s.length && r.sized == s.sized
  {
    hide Fits, Covered, LockHeld, Drain, Notify, WakeFirst;
  }

  ghost function Changes(s: State, ops: seq<Op>): int
    requires Inv(s) && Legal(s, ops)
    decreases |ops|
  {
    if ops == [] then 0 else Change(s, ops[0]) + Changes(Step(s, ops[0]), ops[1..])
  }

  /** Over every run: uxMessagesWaiting is what it was, plus the items put in, less those taken out. */
  lemma {:induction false} RunCountsItems(s: State, ops: seq<Op>)
    requires Inv(s) && Legal(s, ops)
    ensures Run(s, ops).items == s.items + Changes(s, ops) && Run(s, ops).length == s.length
    decreases |ops|
  {
    hide Inv, Step, Enabled, Change;
    if ops != [] {
      ItemsChange(s, ops[0]);
      RunCountsItems(Step(s, ops[0]), ops[1..]);
    }
  }

  // ---------------------------------------------------------------- waiting

  lemma JoinedOnce(w: seq<Task>, i: nat, t: Task)
    requires i <= |w| && t !in w
    ensures var v := w[..i] + [t] + w[i..];
            v[i] == t && v[..i] + v[i + 1..] == w && multiset(v)[t] == 1
  {
    var v := w[..i] + [t] + w[i..];
    assert w == w[..i] + w[i..];
    assert multiset(v) == multiset(w) + multiset([t]);
  }

  /** From w to v, task t has joined the list at place i; the others are in their old order. */
  predicate Joined(w: seq<Task>, v: seq<Task>, i: nat, t: Task) {
    i < |v| && v[i] == t && v[..i] + v[i + 1..] == w && multiset(v)[t] == 1
  }

  /** vTaskPlaceOnEventList: the task is on the list of its side, once, and nothing else changes. */
  lemma PlaceEffect(s: State, t: Task, i: nat)
    requires Inv(s) && Enabled(s, PlaceOnList(t, i))
    ensures var r, reader := Step(s, PlaceOnList(t, i)), Reads(s.pc[t].kind);
            && Joined(SideOf(s, reader).waiting, SideOf(r, reader).waiting, i, t)
            && SideOf(r, reader) == SideOf(s, reader).(waiting := SideOf(r, reader).waiting)
            && SideOf(r, !reader) == SideOf(s, !reader) && r.locker == s.locker
  {
    WaitsWhereItShould(s, t);
    hide Fits, Covered, LockHeld, Inv, Joined;
    JoinedIs(SideOf(s, Reads(s.pc[t].kind)).waiting, i, t);
  }

  lemma JoinedIs(w: seq<Task>, i: nat, t: Task)
    requires i <= |w| && t !in w
    ensures Joined(w, w[..i] + [t] + w[i..], i, t)
  {
    JoinedOnce(w, i, t);
  }

  /** The block time of a task runs out: it is on no list, the others are in their old order. */
  lemma TimeUpEffect(s: State, reader: bool, i: nat)
    requires Inv(s) && Enabled(s, TimeUp(reader, i))
    ensures var r, t := Step(s, TimeUp(reader, i)), SideOf(s, reader).waiting[i];
            && SideOf(r, reader).waiting == SideOf(s, reader).waiting[..i] + SideOf(s, reader).waiting[i + 1..]
            && t !in SideOf(r, reader).waiting && t !in SideOf(r, reader).woken
            && SideOf(r, reader).woken == SideOf(s, reader).woken && SideOf(r, !reader) == SideOf(s, !reader)
            && r.pc == s.pc && r.locker == s.locker
  {
    hide Covered, LockHeld;
    CutMembers(SideOf(s, reader).waiting, i);
  }

  /** Task t, in a call of kind k, has found the queue empty (or full): it is about to wait, or waits,
  or has been woken and has not run since. */
  ghost predicate Parked(s: State, t: Task, k: Kind) {
    t in s.pc &&
    (|| s.pc[t] == Placing(k)
     || (MayWait(s.pc[t], Reads(k)) && s.pc[t].kind == k
         && (t in SideOf(s, Reads(k)).waiting || t in SideOf(s, Reads(k)).woken)))
  }

  /** prvIsQueueEmpty and prvIsQueueFull: a call goes on to wait if and only if the count is 0, or is the
  length. On an overfull queue of items of size 0 a sender does not wait. */
  lemma LevelEffect(s: State, t: Task)
    requires Inv(s) && Enabled(s, LevelCheck(t))
    ensures var k := s.pc[t].kind;
            Parked(Step(s, LevelCheck(t)), t, k) <==> s.items == if Reads(k) then 0 else s.length
  {
    WaitsWhereItShould(s, t);
    hide Fits, Covered, LockHeld;
  }

  /** The step is the time out of the task. */
  predicate TimesOut(s: State, op: Op, t: Task)
    requires Enabled(s, op)
  {
    op.TimeUp? && SideOf(s, op.reader).waiting[op.i] == t
  }

  /** The task is on the list, or has been taken off it and has not run since. */
  predicate On(d: Side, t: Task) { t in d.waiting || t in d.woken }

  lemma WakeFirstKeeps(d: Side, t: Task)
    requires On(d, t)
    ensures On(WakeFirst(d), t)
  {
    assert d.waiting != [] ==> d.waiting == [d.waiting[0]] + d.waiting[1..];
  }

  lemma NotifyKeeps(d: Side, tasks: nat, t: Task)
    requires On(d, t)
    ensures On(Notify(d, tasks), t)
  {
    hide WakeFirst, On;
    WakeFirstKeeps(d, t);
    if d.lock != UNLOCKED { SameLists(d, Notify(d, tasks), t); }
  }

  lemma SameLists(d: Side, e: Side, t: Task)
    requires On(d, t) && e.waiting == d.waiting && e.woken == d.woken
    ensures On(e, t)
  {}

  lemma DrainKeeps(d: Side, t: Task)
    requires On(d, t)
    ensures On(Drain(d), t)
  {
    DrainWakesInOrder(d);
    assert d.waiting == d.waiting[..Payable(d)] + d.waiting[Payable(d)..];
  }

  lemma EnqueueKeeps(d: Side, u: Task, i: nat, t: Task)
    requires On(d, t) && i <= |d.waiting|
    ensures On(Enqueue(d, u, i), t)
  {
    assert d.waiting == d.waiting[..i] + d.waiting[i..];
  }

  lemma LeaveKeeps(d: Side, i: nat, t: Task)
    requires On(d, t) && i < |d.waiting| && d.waiting[i] != t
    ensures On(Leave(d, i), t)
  {
    assert d.waiting == d.waiting[..i] + [d.waiting[i]] + d.waiting[i + 1..];
  }

  lemma ForgetKeeps(d: Side, u: Task, t: Task)
    requires On(d, t) && u != t
    ensures On(Forget(d, u), t)
  {}

  lemma LockKeeps(d: Side, t: Task)
    requires On(d, t)
    ensures On(Lock(d), t)
  {}

  /** A task stays on its list, or among those taken off it, until it tries again or times out. */
  lemma ListsKeep(s: State, op: Op, t: Task, reader: bool)
    requires Inv(s) && Enabled(s, op) && On(SideOf(s, reader), t) && !TimesOut(s, op, t)
    requires !(op.Try? && op.t == t)
    ensures On(SideOf(Step(s, op), reader), t)
  {
    hide Inv, Drain, Notify, WakeFirst, Enqueue, Leave, Lock, Forget, On;
    var d := SideOf(s, reader);
    WakeFirstKeeps(d, t);
    match op
    case IsrSend(_) => NotifyKeeps(d, |s.pc|, t);
    case IsrReceive => NotifyKeeps(d, |s.pc|, t);
    case Try(u, _) =>
      ForgetKeeps(d, u, t);
      WakeFirstKeeps(Forget(d, u), t);
    case SuspendAndLock(_) => LockKeeps(d, t);
    case PlaceOnList(u, i) => if reader == Reads(s.pc[u].kind) { EnqueueKeeps(d, u, i, t); }
    case UnlockFirst(_) => DrainKeeps(d, t);
    case UnlockSecond(_) => DrainKeeps(d, t);
    case TimeUp(other, i) => if reader == other { LeaveKeeps(d, i, t); }
    case _ =>
  }

  lemma ParkedStep(s: State, op: Op, t: Task, k: Kind)
    requires Inv(s) && Enabled(s, op) && Parked(s, t, k) && !TimesOut(s, op, t) && !(op.Try? && op.t == t)
    ensures Parked(Step(s, op), t, k)
  {
    hide Fits, Covered, LockHeld, Step, TimesOut;
    CallsGoOn(s, op);
    var r := Step(s, op);
    if s.pc[t] == Placing(k) {
      if Actor(op) == Some(t) {
        PlaceEffect(s, t, op.i);
        assert SideOf(r, Reads(k)).waiting[op.i] == t;
      }
    } else {
      ListsKeep(s, op, t, Reads(k));
      assert On(SideOf(r, Reads(k)), t);
    }
  }

  /** Over the run the task neither tries again nor times out. */
  ghost predicate Still(s: State, ops: seq<Op>, t: Task)
    requires Inv(s) && Legal(s, ops)
    decreases |ops|
  {
    ops == [] ||
    (!TimesOut(s, ops[0], t) && !(ops[0].Try? && ops[0].t == t) && Still(Step(s, ops[0]), ops[1..], t))
  }

  /** A call that has found the queue empty (or full) waits: over every run until it tries again or
  times out it is about to join the waiting list, or on it, or has been taken off it by a wake-up. */
  lemma {:induction false} BlockedCallWaits(s: State, ops: seq<Op>, t: Task, k: Kind)
    requires Inv(s) && Legal(s, ops) && Parked(s, t, k) && Still(s, ops, t)
    ensures Parked(Run(s, ops), t, k)
    decreases |ops|
  {
    hide Inv, Step, Enabled, Parked;
    if ops != [] {
      ParkedStep(s, ops[0], t, k);
      BlockedCallWaits(Step(s, ops[0]), ops[1..], t, k);
    }
  }

  /** And while it is on the list it takes no step, once it has unlocked the queue: it runs again only
  after a wake-up or its time out. */
  lemma WaitingTakesNoStep(s: State, op: Op, t: Task)
    requires Inv(s) && t in s.pc && s.pc[t].Loop? && (t in s.recv.waiting || t in s.send.waiting)
    ensures Enabled(s, op) ==> Actor(op) != Some(t)
  {}

  // ---------------------------------------------------------------- wake-ups

  /** From d to e the first n of those who wait have been woken, or all if there are fewer. */
  ghost predicate Woke(d: Side, e: Side, n: nat) {
    var m := if n < |d.waiting| then n else |d.waiting|;
    e.waiting == d.waiting[m..] && e.woken == d.woken + set q | q in d.waiting[..m]
  }

  lemma WakeFirstWakes(d: Side)
    ensures Woke(d, WakeFirst(d), 1) && WakeFirst(d).lock == d.lock
  {
    if d.waiting != [] { assert d.waiting[..1] == [d.waiting[0]]; }
  }

  lemma DrainWakes(d: Side)
    requires d.lock >= LOCKED_UNMODIFIED
    ensures Woke(d, Drain(d), d.lock) && Drain(d).lock == UNLOCKED
  {
    DrainWakesInOrder(d);
    DrainUnlocks(d);
  }

  lemma {:induction false} DrainUnlocks(d: Side)
    ensures Drain(d).lock == UNLOCKED
    decreases d.lock
  {
    if d.lock > LOCKED_UNMODIFIED && d.waiting != [] { DrainUnlocks(WakeFirst(d).(lock := d.lock - 1)); }
  }

  /** A new item, or a new free slot, wakes the first who waits for it; on a locked queue the wake-up is
  owed instead, as far as there are tasks to be woken. */
  ghost predicate Told(d: Side, e: Side, tasks: nat) {
    if d.lock == UNLOCKED then Woke(d, e, 1) && e.lock == UNLOCKED
    else e == d.(lock := if d.lock < tasks then d.lock + 1 else d.lock)
  }

  lemma NotifyTells(d: Side, tasks: nat)
    ensures Told(d, Notify(d, tasks), tasks)
  {
    hide Woke, WakeFirst;
    WakeFirstWakes(d);
  }

  /** What an interrupt does to those who wait. */
  lemma IsrWakes(s: State, op: Op)
    requires Inv(s) && Enabled(s, op) && (op.IsrSend? || op.IsrReceive?)
    ensures var r, sends := Step(s, op), op.IsrSend?;
            && SideOf(r, !sends) == SideOf(s, !sends) && r.locker == s.locker
            && var taken := if sends then op.overwrite || s.items < s.length else s.items > 0;
               if taken then Told(SideOf(s, sends), SideOf(r, sends), |s.pc|) else SideOf(r, sends) == SideOf(s, sends)
  {
    hide Fits, Covered, LockHeld, Told, Notify;
    NotifyTells(s.recv, |s.pc|);
    NotifyTells(s.send, |s.pc|);
  }

  /** What the first critical section of a call does to those who wait: the task itself is not one that
  has been woken any more, and if it has sent an item, taken one out or only looked at one, the first
  who waits for an item, for a slot or again for the item is woken. */
  lemma TryWakes(s: State, t: Task, wait: bool)
    requires Inv(s) && Enabled(s, Try(t, wait))
    ensures var r, k := Step(s, Try(t, wait)), s.pc[t].kind;
            var reader := Reads(k);
            var d, e := SideOf(s, reader), SideOf(r, reader);
            && r.locker.None? && !On(e, t)
            && (Stuck(s, k) || !k.Peek? ==> e == d.(woken := d.woken - {t}))
            && (!Stuck(s, k) && k.Peek? ==> Woke(d.(woken := d.woken - {t}), e, 1) && e.lock == d.lock)
            && (Stuck(s, k) || k.Peek? ==> SideOf(r, !reader) == SideOf(s, !reader))
            && (!Stuck(s, k) && !k.Peek? ==> Woke(SideOf(s, !reader), SideOf(r, !reader), 1))
  {
    hide Fits, Covered, LockHeld, Woke, WakeFirst;
    WakeFirstWakes(s.recv);
    WakeFirstWakes(s.send);
    WakeFirstWakes(Forget(s.recv, t));
    WakeFirstLeaves(Forget(s.recv, t), t);
  }

  lemma WakeFirstLeaves(d: Side, t: Task)
    ensures !On(d, t) ==> !On(WakeFirst(d), t)
  {}

  /** What locking and unlocking do: unlocking pays back what is owed, one side after the other. */
  lemma LocksEffect(s: State, op: Op)
    requires Inv(s) && Enabled(s, op) && (op.SuspendAndLock? || op.UnlockFirst? || op.UnlockSecond?)
    ensures var r := Step(s, op);
            match op
            case SuspendAndLock(t) =>
              r.recv == s.recv.(lock := LOCKED_UNMODIFIED) && r.send == s.send.(lock := LOCKED_UNMODIFIED)
              && r.locker == Some(t)
            case UnlockFirst(t) =>
              s.recv.lock >= 0 && Woke(s.recv, r.recv, s.recv.lock) && r.recv.lock == UNLOCKED && r.send == s.send
              && r.locker == Some(t)
            case UnlockSecond(t) =>
              s.send.lock >= 0 && Woke(s.send, r.send, s.send.lock) && r.send.lock == UNLOCKED && r.recv == s.recv
              && r.locker.None?
            case _ => true
  {
    LockOf(s);
    hide Fits, Covered, LockHeld, Woke, Drain;
    if s.recv.lock >= LOCKED_UNMODIFIED { DrainWakes(s.recv); }
    if s.send.lock >= LOCKED_UNMODIFIED { DrainWakes(s.send); }
  }

  lemma LockOf(s: State)
    requires Inv(s)
    ensures s.locker.None? ==> s.recv.lock == UNLOCKED && s.send.lock == UNLOCKED
    ensures s.locker.Some? && s.locker.value in s.pc ==>
              s.send.lock >= LOCKED_UNMODIFIED && (!s.pc[s.locker.value].Unlocking2? ==> s.recv.lock >= LOCKED_UNMODIFIED)
  {}

  /** The other steps leave everybody where they are. */
  lemma OthersWakeNobody(s: State, op: Op)
    requires Inv(s) && Enabled(s, op) && (op.Call? || op.TimeCheck? || op.LevelCheck? || op.LookAgain?)
    ensures var r := Step(s, op); r.recv == s.recv && r.send == s.send && r.locker == s.locker
  {
    hide Fits, Covered, LockHeld;
  }

  // ---------------------------------------------------------------- a call that blocks, from end to end

  lemma OneMore(s: State, ops: seq<Op>, op: Op)
    requires Inv(s) && Legal(s, ops) && Enabled(Run(s, ops), op)
    ensures Legal(s, ops + [op]) && Run(s, ops + [op]) == Step(Run(s, ops), op)
    decreases |ops|
  {
    hide Inv, Step, Enabled;
    if ops == [] {
      assert ops + [op] == [op] && [op][1..] == [];
    } else {
      OneMore(Step(s, ops[0]), ops[1..], op);
      assert (ops + [op])[1..] == ops[1..] + [op];
    }
  }

  /** The state in which the side of the call is `own`, the other side is `other`, and t is in phase p. */
  function With(s: State, reader: bool, own: Side, other: Side, t: Task, p: Phase, locker: Option<Task>): State {
    s.(recv := if reader then own else other, send := if reader then other else own, pc := s.pc[t := p], locker := locker)
  }

  lemma RefusedTry(s: State, t: Task)
    requires Inv(s) && Enabled(s, Try(t, true)) && Stuck(s, s.pc[t].kind)
    ensures var k := s.pc[t].kind;
            var d, o := SideOf(s, Reads(k)), SideOf(s, !Reads(k));
            Step(s, Try(t, true)) == With(s, Reads(k), d.(woken := d.woken - {t}), o, t, Failed(k), None)
  {
    hide Fits, Covered, LockHeld;
  }

  lemma LocksBoth(s: State, t: Task)
    requires Inv(s) && Enabled(s, SuspendAndLock(t))
    ensures var k := s.pc[t].kind;
            var d, o := SideOf(s, Reads(k)), SideOf(s, !Reads(k));
            Step(s, SuspendAndLock(t)) ==
            With(s, Reads(k), d.(lock := LOCKED_UNMODIFIED), o.(lock := LOCKED_UNMODIFIED), t, Locked(k), Some(t))
  {
    Unlocked(s);
    hide Fits, Covered, LockHeld;
  }

  lemma ChecksBoth(s: State, t: Task, k: Kind, d: Side, o: Side)
    requires Inv(s) && Enabled(s, TimeCheck(t, false)) && k == s.pc[t].kind
    requires s.items == (if Reads(k) then 0 else s.length)
    requires s == With(s, Reads(k), d, o, t, Locked(k), Some(t))
    ensures var r := Step(s, TimeCheck(t, false));
            && Enabled(r, LevelCheck(t)) && Inv(r)
            && Step(r, LevelCheck(t)) == With(s, Reads(k), d, o, t, Placing(k), Some(t))
  {
    hide Fits, Covered, LockHeld;
    var r := Step(s, TimeCheck(t, false));
    assert r.pc[t := Placing(k)] == s.pc[t := Placing(k)];
  }

  /** Unlocking with nothing owed wakes nobody. */
  lemma UnlocksBoth(s: State, t: Task, k: Kind, d: Side, o: Side)
    requires Inv(s) && Enabled(s, UnlockFirst(t)) && s == With(s, Reads(k), d, o, t, Unlocking(k, true), Some(t))
    requires d.lock == LOCKED_UNMODIFIED && o.lock == LOCKED_UNMODIFIED
    ensures var r := Step(s, UnlockFirst(t));
            && Enabled(r, UnlockSecond(t)) && Inv(r)
            && Step(r, UnlockSecond(t)) ==
               With(s, Reads(k), d.(lock := UNLOCKED), o.(lock := UNLOCKED), t, Loop(k), None)
  {
    hide Fits, Covered, LockHeld;
    assert s.pc[t] == Unlocking(k, true);
    var r := Step(s, UnlockFirst(t));
    assert r.pc[t := Loop(k)] == s.pc[t := Loop(k)];
  }

  ghost function BlockingCall(t: Task, i: nat): seq<Op> {
    [Try(t, true), SuspendAndLock(t), TimeCheck(t, false), LevelCheck(t), PlaceOnList(t, i),
     UnlockFirst(t), UnlockSecond(t)]
  }

  /** A call on an empty (or full) queue, with a block time and undisturbed, ends up on the waiting list
  at the place its priority calls for, with nothing else changed. */
  lemma CallBlocks(s: State, t: Task, i: nat)
    requires Inv(s) && Runs(s, t) && s.pc[t].Loop? && !s.pc[t].kind.Overwrite?
    requires s.items == (if Reads(s.pc[t].kind) then 0 else s.length)
    requires i <= |SideOf(s, Reads(s.pc[t].kind)).waiting|
    ensures Legal(s, BlockingCall(t, i))
    ensures var r, reader := Run(s, BlockingCall(t, i)), Reads(s.pc[t].kind);
            && Joined(SideOf(s, reader).waiting, SideOf(r, reader).waiting, i, t)
            && SideOf(r, reader) == Side(SideOf(r, reader).waiting, SideOf(s, reader).woken - {t}, UNLOCKED)
            && SideOf(r, !reader) == SideOf(s, !reader) && r.pc == s.pc && r.items == s.items && r.locker.None?
  {
    hide Inv, Step, Joined, Legal, Run, Enabled;
    var reader := Reads(s.pc[t].kind);
    var s1, s2, s3, s4 := FirstHalf(s, t);
    var s5, s6, r := SecondHalf(s, s4, t, i);
    SevenSteps(s, BlockingCall(t, i), s1, s2, s3, s4, s5, s6);
    assert s.pc[t := s.pc[t]] == s.pc;
    BothUnlocked(s);
  }

  /** As far as the decision to wait. */
  lemma FirstHalf(s: State, t: Task) returns (s1: State, s2: State, s3: State, s4: State)
    requires Inv(s) && Runs(s, t) && s.pc[t].Loop? && !s.pc[t].kind.Overwrite?
    requires s.items == (if Reads(s.pc[t].kind) then 0 else s.length)
    ensures Enabled(s, Try(t, true)) && s1 == Step(s, Try(t, true)) && Inv(s1)
    ensures Enabled(s1, SuspendAndLock(t)) && s2 == Step(s1, SuspendAndLock(t)) && Inv(s2)
    ensures Enabled(s2, TimeCheck(t, false)) && s3 == Step(s2, TimeCheck(t, false)) && Inv(s3)
    ensures Enabled(s3, LevelCheck(t)) && s4 == Step(s3, LevelCheck(t)) && Inv(s4)
    ensures var k := s.pc[t].kind;
            var d, o := SideOf(s, Reads(k)), SideOf(s, !Reads(k));
            s4 == With(s, Reads(k), Side(d.waiting, d.woken - {t}, LOCKED_UNMODIFIED),
                       o.(lock := LOCKED_UNMODIFIED), t, Placing(k), Some(t))
  {
    hide Inv, Step;
    var k := s.pc[t].kind;
    RefusedTry(s, t);
    s1 := Step(s, Try(t, true));
    LocksBoth(s1, t);
    s2 := Step(s1, SuspendAndLock(t));
    assert s1.pc[t := Locked(k)] == s.pc[t := Locked(k)];
    ChecksBoth(s2, t, k, SideOf(s2, Reads(k)), SideOf(s2, !Reads(k)));
    s3 := Step(s2, TimeCheck(t, false));
    s4 := Step(s3, LevelCheck(t));
    assert s2.pc[t := Placing(k)] == s.pc[t := Placing(k)];
  }

  /** From there to the point where it waits, with the queue unlocked. */
  lemma SecondHalf(s: State, s4: State, t: Task, i: nat) returns (s5: State, s6: State, r: State)
    requires t in s.pc && s.pc[t].Loop? && Inv(s4)
    requires var k := s.pc[t].kind;
             var d, o := SideOf(s, Reads(k)), SideOf(s, !Reads(k));
             && s4 == With(s, Reads(k), Side(d.waiting, d.woken - {t}, LOCKED_UNMODIFIED),
                           o.(lock := LOCKED_UNMODIFIED), t, Placing(k), Some(t))
             && i <= |d.waiting|
    ensures Enabled(s4, PlaceOnList(t, i)) && s5 == Step(s4, PlaceOnList(t, i)) && Inv(s5)
    ensures Enabled(s5, UnlockFirst(t)) && s6 == Step(s5, UnlockFirst(t)) && Inv(s6)
    ensures Enabled(s6, UnlockSecond(t)) && r == Step(s6, UnlockSecond(t))
    ensures var k := s.pc[t].kind;
            var d, o := SideOf(s, Reads(k)), SideOf(s, !Reads(k));
            && Joined(d.waiting, SideOf(r, Reads(k)).waiting, i, t)
            && r == With(s, Reads(k), Side(SideOf(r, Reads(k)).waiting, d.woken - {t}, UNLOCKED),
                         o.(lock := UNLOCKED), t, Loop(k), None)
  {
    hide Inv, Step, Joined;
    var k := s.pc[t].kind;
    PlaceEffect(s4, t, i);
    PlacedCall(s4, t, i);
    s5 := Step(s4, PlaceOnList(t, i));
    assert s5.pc == s.pc[t := Unlocking(k, true)] && s5.pc[t := Unlocking(k, true)] == s5.pc;
    UnlocksBoth(s5, t, k, SideOf(s5, Reads(k)), SideOf(s5, !Reads(k)));
    s6 := Step(s5, UnlockFirst(t));
    r := Step(s6, UnlockSecond(t));
    assert s5.pc[t := Loop(k)] == s.pc[t := Loop(k)];
  }

  lemma BothUnlocked(s: State)
    requires Inv(s) && s.locker.None?
    ensures s.recv.lock == UNLOCKED && s.send.lock == UNLOCKED
  {}

  lemma PlacedCall(s: State, t: Task, i: nat)
    requires Inv(s) && Enabled(s, PlaceOnList(t, i))
    ensures Step(s, PlaceOnList(t, i)).pc == s.pc[t := Unlocking(s.pc[t].kind, true)]
    ensures var r := Step(s, PlaceOnList(t, i)); r.items == s.items && r.length == s.length && r.sized == s.sized
  {
    hide Fits, Covered, LockHeld;
  }

  lemma SevenSteps(s: State, ops: seq<Op>, s1: State, s2: State, s3: State, s4: State, s5: State, s6: State)
    requires |ops| == 7 && Inv(s) && Enabled(s, ops[0]) && s1 == Step(s, ops[0])
    requires Enabled(s1, ops[1]) && s2 == Step(s1, ops[1]) && Enabled(s2, ops[2]) && s3 == Step(s2, ops[2])
    requires Enabled(s3, ops[3]) && s4 == Step(s3, ops[3]) && Enabled(s4, ops[4]) && s5 == Step(s4, ops[4])
    requires Enabled(s5, ops[5]) && s6 == Step(s5, ops[5]) && Enabled(s6, ops[6])
    ensures Legal(s, ops) && Run(s, ops) == Step(s6, ops[6])
  {
    hide Inv, Step, Enabled;
    assert [] + [ops[0]] == ops[..1];
    OneMore(s, [], ops[0]);
    assert ops[..1] + [ops[1]] == ops[..2];
    OneMore(s, ops[..1], ops[1]);
    assert ops[..2] + [ops[2]] == ops[..3];
    OneMore(s, ops[..2], ops[2]);
    assert ops[..3] + [ops[3]] == ops[..4];
    OneMore(s, ops[..3], ops[3]);
    assert ops[..4] + [ops[4]] == ops[..5];
    OneMore(s, ops[..4], ops[4]);
    assert ops[..5] + [ops[5]] == ops[..6];
    OneMore(s, ops[..5], ops[5]);
    assert ops[..6] + [ops[6]] == ops;
    OneMore(s, ops[..6], ops[6]);
  }
}
