/** Runs of the scheduler: what holds after any sequence of interrupts and kernel calls. */
module SchedulerRuns {
  import opened Basics
  import opened Rings
  import opened Scheduling

  datatype Op =
    | TickInterrupt
    | SuspendAll
    | ResumeAll
    | Delay(ticks: nat, indefinitely: bool, onEvent: bool)
    | Notify(task: Task)
    | ChangePriority(task: Task, prio: nat)
    | ContextSwitch

  /** What the kernel's assertions and its callers guarantee of each operation. */
  ghost predicate Enabled(s: Sched, op: Op)
    requires Shape(s)
  {
    match op
    case TickInterrupt => true
    case SuspendAll => true
    case ResumeAll => s.suspended > 0
    case Delay(ticks, _, _) => IsReady(s, s.current) && s.current != IDLE && 1 <= ticks < TICK_MOD
    case Notify(t) => t in s.waiting
    case ChangePriority(t, p) => t in s.prio && p < MAX_PRIORITIES
    case ContextSwitch => true
  }

  /** Every operation keeps the invariant. */
  ghost function Step(s: Sched, op: Op): (r: Sched)
    requires Inv(s) && Enabled(s, op)
    ensures Inv(r)
  {
    match op
    case TickInterrupt =>
      TickStep(s)
    case SuspendAll =>
      SuspendKeepsInv(s);
      s.(suspended := s.suspended + 1)
    case ResumeAll =>
      ResumeKeepsInv(s);
      Resume(s)
    case Delay(ticks, indefinitely, onEvent) =>
      BlockKeepsInv(s, ticks, indefinitely, onEvent);
      ReadyIsMember(s);
      Block(s, ticks, indefinitely, onEvent)
    case Notify(t) =>
      EventWakeKeepsCore(s, t);
      EventWake(s, t)
    case ChangePriority(t, p) =>
      ReprioritiseKeepsCore(s, t, p);
      Reprioritise(s, t, p)
    case ContextSwitch =>
      IdleIsReady(s);
      SwitchKeepsCore(s);
      SwitchContext(s)
  }

  /** xTaskIncrementTick: a tick while the scheduler is suspended is only counted. */
  ghost function TickStep(s: Sched): (r: Sched)
    requires Inv(s)
    ensures Inv(r)
  {
    if s.suspended == 0 then
      TickKeepsCore(s);
      IncrementTick(s)
    else
      PendKeepsInv(s);
      s.(pended := (s.pended + 1) % TICK_MOD)
  }

  lemma SuspendKeepsInv(s: Sched)
    requires Inv(s)
    ensures Inv(s.(suspended := s.suspended + 1))
  {
    hide Shape, Placed, Timed, Events;
    Bounds(s);
    SameCore(s, s.(suspended := s.suspended + 1));
  }

  lemma PendKeepsInv(s: Sched)
    requires Inv(s) && s.suspended > 0
    ensures Inv(s.(pended := (s.pended + 1) % TICK_MOD))
  {
    hide Shape, Placed, Timed, Events;
    SameCore(s, s.(pended := (s.pended + 1) % TICK_MOD));
  }

  ghost predicate Legal(s: Sched, ops: seq<Op>)
    requires Inv(s)
    decreases |ops|
  {
    ops == [] || (Enabled(s, ops[0]) && Legal(Step(s, ops[0]), ops[1..]))
  }

  ghost function Run(s: Sched, ops: seq<Op>): (r: Sched)
    requires Inv(s) && Legal(s, ops)
    ensures Inv(r)
    decreases |ops|
  {
    if ops == [] then s else Run(Step(s, ops[0]), ops[1..])
  }

  /** The scheduler with the idle task alone. */
  function Idling(): Sched {
    Sched(0, 0, 0, 0, [], [], [], [], {},
          seq(MAX_PRIORITIES, p => if p == 0 then Ring([IDLE], 0) else Ring([], 0)),
          0, map[IDLE := 0], IDLE, false, MAX_DELAY)
  }

  lemma IdlingIsInv()
    ensures Inv(Idling())
  {
    var s := Idling();
    assert forall p: nat, q :: p < MAX_PRIORITIES ==> ReadyPlaces(s, p, q) == One(p == 0 && q == IDLE);
    assert forall q :: BlockedPlaces(s, q) == 0;
  }

  /** prvAddNewTaskToReadyList, before the scheduler runs: a new task is ready, and the first to run
  if no task before it has a higher priority. */
  function Created(s: Sched, t: Task, p: nat): Sched
    requires Shape(s) && p < MAX_PRIORITIES && t != IDLE
  {
    var first := if s.prio[s.current] <= p then t else s.current;
    AddReady(s.(prio := s.prio[t := p], current := first), t)
  }

  lemma CreatedCounts(s: Sched, t: Task, p: nat, l: nat, q: Task)
    requires Shape(s) && p < MAX_PRIORITIES && t !in s.prio && l < MAX_PRIORITIES
    ensures ReadyPlaces(Created(s, t, p), l, q) == ReadyPlaces(s, l, q) + One(q == t && l == p)
    ensures BlockedPlaces(Created(s, t, p), q) == BlockedPlaces(s, q)
  {
    CountRingInsert(s.ready[p], s.ready[p].EndPosition(), t, q);
  }

  lemma CreatedKeepsInv(s: Sched, t: Task, p: nat)
    requires Inv(s) && p < MAX_PRIORITIES && t !in s.prio
    ensures Inv(Created(s, t, p)) && IsReady(Created(s, t, p), t)
    ensures forall q :: IsReady(s, q) ==> IsReady(Created(s, t, p), q)
  {
    hide Placed, Timed, IsReady, ReadyPlaces, BlockedPlaces, Blocked;
    var r := Created(s, t, p);
    forall l: nat, q | l < MAX_PRIORITIES
      ensures ReadyPlaces(r, l, q) == ReadyPlaces(s, l, q) + One(q == t && l == p)
    {
      CreatedCounts(s, t, p, l, q);
    }
    forall q ensures BlockedPlaces(r, q) == BlockedPlaces(s, q) {
      CreatedCounts(s, t, p, 0, q);
    }
    NewIsPlaced(s, r, t, p);
    SameBlocked(s, r);
    TimedSame(s, r);
  }

  lemma NewIsPlaced(s: Sched, r: Sched, t: Task, p: nat)
    requires Shape(s) && Placed(s) && p < MAX_PRIORITIES && t !in s.prio && Shape(r)
    requires r.prio == s.prio[t := p] && r.top == if p > s.top then p else s.top
    requires forall q :: BlockedPlaces(r, q) == BlockedPlaces(s, q)
    requires forall l: nat, q :: l < MAX_PRIORITIES ==> ReadyPlaces(r, l, q) == ReadyPlaces(s, l, q) + One(q == t && l == p)
    ensures Placed(r) && IsReady(r, t) && forall q :: IsReady(s, q) ==> IsReady(r, q)
  {
    hide BlockedPlaces, ReadyPlaces, Shape;
    NewIsNowhere(s, t);
    PrioritiesKnown(s);
    forall q | q in s.prio ensures r.prio[q] == s.prio[q] && q != t {}
  }

  lemma NewIsNowhere(s: Sched, t: Task)
    requires Shape(s) && Placed(s) && t !in s.prio
    ensures BlockedPlaces(s, t) == 0 && forall l: nat :: l < MAX_PRIORITIES ==> ReadyPlaces(s, l, t) == 0
  {}

  /** The scheduler with these tasks, each a number and a priority, created in order. */
  function Started(tasks: seq<(Task, nat)>): (s: Sched)
    requires forall i :: 0 <= i < |tasks| ==> tasks[i].0 != IDLE && tasks[i].1 < MAX_PRIORITIES
    ensures Shape(s)
  {
    if tasks == [] then
      Idling()
    else
      var n := |tasks| - 1;
      Created(Started(tasks[..n]), tasks[n].0, tasks[n].1)
  }

  /** Whatever tasks there are, the scheduler starts with the invariant and with all of them ready. */
  lemma {:induction false} StartedIsInv(tasks: seq<(Task, nat)>)
    requires forall i :: 0 <= i < |tasks| ==> tasks[i].0 != IDLE && tasks[i].1 < MAX_PRIORITIES
    requires forall i, j :: 0 <= i < j < |tasks| ==> tasks[i].0 != tasks[j].0
    ensures Inv(Started(tasks)) && forall i :: 0 <= i < |tasks| ==> IsReady(Started(tasks), tasks[i].0)
    ensures IDLE in Started(tasks).prio && Started(tasks).prio[IDLE] == 0
    ensures forall t :: t in Started(tasks).prio ==> t == IDLE || exists i :: 0 <= i < |tasks| && tasks[i].0 == t
  {
    hide Inv, IsReady, Shape;
    if tasks == [] {
      IdlingIsInv();
    } else {
      var n := |tasks| - 1;
      StartedIsInv(tasks[..n]);
      CreatedKeepsInv(Started(tasks[..n]), tasks[n].0, tasks[n].1);
      forall i | 0 <= i < n ensures IsReady(Started(tasks), tasks[i].0) {
        assert tasks[..n][i] == tasks[i];
      }
      forall t | t in Started(tasks).prio && t != IDLE ensures exists i :: 0 <= i < |tasks| && tasks[i].0 == t {
        if t != tasks[n].0 {
          var i :| 0 <= i < n && tasks[..n][i].0 == t;
          assert tasks[i].0 == t;
        }
      }
    }
  }

  function Interrupts(ops: seq<Op>): nat {
    if ops == [] then 0 else (if ops[0] == TickInterrupt then 1 else 0) + Interrupts(ops[1..])
  }

  // ---------------------------------------------------------------- ticks are conserved

  lemma StepTicks(s: Sched, op: Op)
    requires Inv(s) && Enabled(s, op) && op != ResumeAll
    ensures var r := Step(s, op);
            if op == TickInterrupt then
              || (r.tick == (s.tick + 1) % TICK_MOD && r.pended == s.pended)
              || (r.tick == s.tick && r.pended == (s.pended + 1) % TICK_MOD)
            else
              r.tick == s.tick && r.pended == s.pended
  {
    hide Shape, Placed, Events, Timed, IncrementTick, EventWake, SwitchContext;
  }

  lemma StepCountsTicks(s: Sched, op: Op)
    requires Inv(s) && Enabled(s, op)
    ensures var r := Step(s, op);
            (r.tick + r.pended) % TICK_MOD == (s.tick + s.pended + (if op == TickInterrupt then 1 else 0)) % TICK_MOD
  {
    hide Shape, Placed, Events, Timed, Resume, Block, EventWake, SwitchContext, TickStep;
    if op == ResumeAll {
      ResumeTick(s);
    } else {
      StepTicks(s, op);
      WrappedSum(s.tick + 1, s.pended);
      WrappedSum(s.pended + 1, s.tick);
    }
  }

  /** Over every run, nested suspensions included, the tick count plus the pended ticks is the
  number of tick interrupts, modulo 2^32. */
  lemma {:induction false} RunCountsTicks(s: Sched, ops: seq<Op>)
    requires Inv(s) && Legal(s, ops)
    ensures var r := Run(s, ops);
            (r.tick + r.pended) % TICK_MOD == (s.tick + s.pended + Interrupts(ops)) % TICK_MOD
    decreases |ops|
  {
    hide Inv, Step;
    if ops != [] {
      var r := Step(s, ops[0]);
      StepCountsTicks(s, ops[0]);
      RunCountsTicks(r, ops[1..]);
      WrappedSum(r.tick + r.pended, Interrupts(ops[1..]));
      WrappedSum(s.tick + s.pended + (if ops[0] == TickInterrupt then 1 else 0), Interrupts(ops[1..]));
    }
  }

  // ---------------------------------------------------------------- delays are exact

  /** One step either leaves a sleeper asleep or, exactly if it brings the clock to the
  sleeper's time, readies it. */
  lemma StepIsExact(s: Sched, op: Op, t: Task, due: nat)
    requires Inv(s) && Enabled(s, op) && SleepsUntil(s, t, due) && t !in s.pending && op != Notify(t)
    ensures var r := Step(s, op);
            && Clock(s) <= Clock(r)
            && if Clock(r) < due then SleepsUntil(r, t, due) && t !in r.pending else IsReady(r, t)
  {
    hide Placed, Timed, Events, Shape, IncrementTick, Resume, EventWake, SwitchContext, Block, SleepsUntil, IsReady;
    TickIsExact(s, t, due);
    match op
    case TickInterrupt => TickStepIsExact(s, t, due);
    case SuspendAll => SameSleeper(s, s.(suspended := s.suspended + 1), t, due);
    case ResumeAll => ResumeIsExact(s, t, due);
    case Delay(ticks, indefinitely, onEvent) => BlockKeepsSleeper(s, ticks, indefinitely, onEvent, t, due);
    case Notify(u) => EventWakeKeepsSleeper(s, u, t, due);
    case ChangePriority(u, p) => SameSleeper(s, Reprioritise(s, u, p), t, due);
    case ContextSwitch => SameSleeper(s, Step(s, op), t, due);
  }

  lemma SameSleeper(s: Sched, r: Sched, t: Task, due: nat)
    requires SleepsUntil(s, t, due)
    requires r.delayed == s.delayed && r.overflow == s.overflow && r.overflows == s.overflows
    ensures SleepsUntil(r, t, due)
  {}

  lemma TickStepIsExact(s: Sched, t: Task, due: nat)
    requires Inv(s) && SleepsUntil(s, t, due) && t !in s.pending
    ensures var r := TickStep(s);
            && Clock(s) <= Clock(r)
            && if Clock(r) < due then SleepsUntil(r, t, due) && t !in r.pending else IsReady(r, t)
  {
    hide Placed, Events, Shape, IncrementTick, SleepsUntil, IsReady;
    TickIsExact(s, t, due);
    if s.suspended > 0 { SameSleeper(s, TickStep(s), t, due); }
  }

  lemma ResumeIsExact(s: Sched, t: Task, due: nat)
    requires Inv(s) && s.suspended > 0 && SleepsUntil(s, t, due) && t !in s.pending
    ensures var r := Resume(s);
            && Clock(s) <= Clock(r)
            && if Clock(r) < due then SleepsUntil(r, t, due) && t !in r.pending else IsReady(r, t)
  {
    hide Placed, Events, Shape, Timed, Resumed, CatchUp, SleepsUntil, IsReady;
    TickIsExact(s, t, due);
    if s.suspended > 1 {
      SameSleeper(s, Resume(s), t, due);
    } else {
      var r, c := Resumed(s), CatchUp(Resumed(s), s.pended);
      ResumedKeepsCore(s);
      ResumedKeepsSleeper(s, t, due);
      CatchUpIsExact(r, s.pended, t, due);
      CatchUpKeepsCore(r, s.pended);
      SameCore(c, Resume(s));
      if Clock(c) < due { SameSleeper(c, Resume(s), t, due); }
    }
  }

  lemma EventWakeKeepsSleeper(s: Sched, u: Task, t: Task, due: nat)
    requires Core(s) && u in s.waiting && u != t && SleepsUntil(s, t, due) && t !in s.pending
    ensures SleepsUntil(EventWake(s, u), t, due) && t !in EventWake(s, u).pending
  {
    hide Placed, Events, Timed, Wake;
    if s.suspended == 0 { WakeKeepsSleeper(s, u, t, due); }
  }

  lemma StepClock(s: Sched, op: Op)
    requires Inv(s) && Enabled(s, op)
    ensures Clock(s) <= Clock(Step(s, op))
  {
    hide Placed, Events, Shape, IncrementTick, Resume, EventWake, SwitchContext, Block;
    if op == ResumeAll { ResumeLosesNothing(s); ResumePended(s); }
  }

  lemma ResumePended(s: Sched)
    requires Core(s) && s.suspended > 0
    ensures Resume(s).pended <= s.pended
  {
    hide Placed, Events, Shape, Timed, Resumed, CatchUp;
  }

  lemma {:induction false} RunClock(s: Sched, ops: seq<Op>)
    requires Inv(s) && Legal(s, ops)
    ensures Clock(s) <= Clock(Run(s, ops))
    decreases |ops|
  {
    hide Inv, Step, Clock;
    if ops != [] {
      StepClock(s, ops[0]);
      RunClock(Step(s, ops[0]), ops[1..]);
    }
  }

  /** A sleeper that no event wakes sleeps through any run that ends before its time. */
  lemma {:induction false} SleepsThrough(s: Sched, ops: seq<Op>, t: Task, due: nat)
    requires Inv(s) && Legal(s, ops) && SleepsUntil(s, t, due) && t !in s.pending && Notify(t) !in ops
    requires Clock(Run(s, ops)) < due
    ensures var r := Run(s, ops); SleepsUntil(r, t, due) && t !in r.pending
    decreases |ops|
  {
    hide Inv, Step, Clock, SleepsUntil, IsReady;
    if ops != [] {
      StepIsExact(s, ops[0], t, due);
      RunClock(Step(s, ops[0]), ops[1..]);
      SleepsThrough(Step(s, ops[0]), ops[1..], t, due);
    }
  }

  lemma SleeperIsNotReady(s: Sched, t: Task, due: nat)
    requires Core(s) && SleepsUntil(s, t, due)
    ensures !IsReady(s, t)
  {
    var start := s.overflows * TICK_MOD;
    if due >= start && Sleeper(t, due - start) in s.delayed {
      MemberIsAsleep(s.delayed, Sleeper(t, due - start));
    } else {
      MemberIsAsleep(s.overflow, Sleeper(t, due - start - TICK_MOD));
    }
  }

  /** A task that blocks for `ticks`, and is not woken by an event, is ready again after the
  step that takes the clock that many ticks on and after no earlier step, however often the
  tick count wraps and the scheduler is suspended meanwhile. */
  lemma DelayIsExact(s: Sched, delay: Op, ops: seq<Op>, op: Op)
    requires Inv(s) && delay.Delay? && Enabled(s, delay)
    requires !(delay.ticks == MAX_DELAY && delay.indefinitely)
    requires Legal(Step(s, delay), ops)
    requires Clock(Run(Step(s, delay), ops)) < Clock(s) + delay.ticks
    requires Enabled(Run(Step(s, delay), ops), op)
    requires Notify(s.current) !in ops && op != Notify(s.current)
    ensures var before := Run(Step(s, delay), ops);
            && !IsReady(before, s.current)
            && (IsReady(Step(before, op), s.current) <==> Clock(Step(before, op)) >= Clock(s) + delay.ticks)
  {
    hide IsReady, Shape, Placed, Timed, Events, Clock, SleepsUntil, Step;
    var t, due := s.current, Clock(s) + delay.ticks;
    var before := Run(Step(s, delay), ops);
    DelayStarts(s, delay);
    SleepsThrough(Step(s, delay), ops, t, due);
    SleeperIsNotReady(before, t, due);
    StepIsExact(before, op, t, due);
    if Clock(Step(before, op)) < due { SleeperIsNotReady(Step(before, op), t, due); }
  }

  lemma DelayStarts(s: Sched, delay: Op)
    requires Inv(s) && delay.Delay? && Enabled(s, delay)
    requires !(delay.ticks == MAX_DELAY && delay.indefinitely)
    ensures SleepsUntil(Step(s, delay), s.current, Clock(s) + delay.ticks)
    ensures s.current !in Step(s, delay).pending
  {
    hide Shape, Placed, Timed, Block, SleepsUntil, Clock;
    BlockSetsDue(s, delay.ticks, delay.indefinitely, delay.onEvent);
    ReadyIsMember(s);
  }

  ghost predicate HighestRuns(s: Sched)
    requires Shape(s)
  {
    IsReady(s, s.current) && forall t :: t in s.prio ==> s.prio[t] <= s.prio[s.current]
  }

  lemma CreatedRunsHighest(s: Sched, t: Task, p: nat)
    requires Inv(s) && p < MAX_PRIORITIES && t !in s.prio && HighestRuns(s)
    ensures s.current in s.prio
    ensures var r := Created(s, t, p);
            Shape(r) && HighestRuns(r) && s.prio[s.current] <= r.prio[r.current] && p <= r.prio[r.current]
  {
    hide Placed, Timed, Events, IsReady, ReadyPlaces;
    CreatedKeepsInv(s, t, p);
  }

  /** The first task to run is ready and has the highest priority. */
  lemma {:induction false} StartsWithHighest(tasks: seq<(Task, nat)>)
    requires forall i :: 0 <= i < |tasks| ==> tasks[i].0 != IDLE && tasks[i].1 < MAX_PRIORITIES
    requires forall i, j :: 0 <= i < j < |tasks| ==> tasks[i].0 != tasks[j].0
    ensures HighestRuns(Started(tasks))
    ensures forall i :: 0 <= i < |tasks| ==> tasks[i].1 <= Started(tasks).prio[Started(tasks).current]
  {
    hide Inv, HighestRuns, Shape, Created;
    if tasks == [] {
      IdlesReady();
    } else {
      var n := |tasks| - 1;
      var s := Started(tasks[..n]);
      StartedIsInv(tasks[..n]);
      StartsWithHighest(tasks[..n]);
      forall i | 0 <= i < n ensures tasks[..n][i].0 != tasks[n].0 {}
      assert tasks[n].0 !in s.prio;
      CreatedRunsHighest(s, tasks[n].0, tasks[n].1);
      forall i | 0 <= i < n ensures tasks[i].1 <= s.prio[s.current] { assert tasks[..n][i] == tasks[i]; }
    }
  }

  lemma IdlesReady()
    ensures Shape(Idling()) && HighestRuns(Idling())
  {}

  /** Such a run exists: if any task has a priority above that of the idle task, then the first to
  run may delay at once. */
  lemma DelayComesUp(tasks: seq<(Task, nat)>, i: nat, delay: Op)
    requires forall i :: 0 <= i < |tasks| ==> tasks[i].0 != IDLE && tasks[i].1 < MAX_PRIORITIES
    requires forall i, j :: 0 <= i < j < |tasks| ==> tasks[i].0 != tasks[j].0
    requires i < |tasks| && tasks[i].1 > 0 && delay.Delay? && 1 <= delay.ticks < TICK_MOD
    ensures Inv(Started(tasks)) && Enabled(Started(tasks), delay)
  {
    hide Placed, Timed, Events, IsReady, Started;
    StartedIsInv(tasks);
    StartsWithHighest(tasks);
  }

  /** Why a block time of zero must not be passed down: at the last tick before the wrap it would
  leave a task in the list that taskSWITCH_DELAYED_LISTS asserts to be empty. That none is passed down
  is part of TimeOut.CheckIsSafe, TimeOut.DelayUntilIsExact and Timers.Daemon.ProcessTimerOrBlock. */
  lemma ZeroDelayBreaksSwitch(s: Sched)
    requires Inv(s) && IsReady(s, s.current) && s.tick == MAX_DELAY
    ensures s.delayed == [] && |Enlist(s, 0, false).delayed| == 1
  {
    NoSleeperAtWrap(s);
  }
}
