/** What holds over every run of the scheduler, and what a task may rely on: one that an event wakes does
become ready, one that is blocked for ever stays blocked until then, and no ready task is above the
running one unless a switch is on its way.
*/
module SchedulerLaws {
  import opened Basics
  import opened Rings
  import opened Scheduling
  import opened SchedulerRuns
  import opened SchedulerEffects

  // ---------------------------------------------------------------- suspensions nest

  /** Suspensions begun less suspensions ended. */
  function Depth(ops: seq<Op>): int {
    if ops == [] then 0
    else (if ops[0] == SuspendAll then 1 else if ops[0] == ResumeAll then -1 else 0) + Depth(ops[1..])
  }

  lemma StepNests(s: Sched, op: Op)
    requires Inv(s) && Enabled(s, op)
    ensures Step(s, op).suspended == s.suspended + Depth([op])
    ensures s.suspended > 0 && Step(s, op).suspended > 0 ==> Step(s, op).current == s.current
  {
    hide Shape, Placed, Timed, Events, IsReady, Wake, CatchUp, Resumed;
  }

  /** Over every run, the scheduler is suspended if and only if fewer suspensions were ended than begun. */
  lemma {:induction false} SuspensionsNest(s: Sched, ops: seq<Op>)
    requires Inv(s) && Legal(s, ops)
    ensures Run(s, ops).suspended == s.suspended + Depth(ops)
    decreases |ops|
  {
    hide Inv, Step, Enabled;
    if ops != [] {
      StepNests(s, ops[0]);
      SuspensionsNest(Step(s, ops[0]), ops[1..]);
    }
  }

  // ---------------------------------------------------------------- a task held back does run

  /** The scheduler is suspended throughout the run. */
  ghost predicate StaysSuspended(s: Sched, ops: seq<Op>)
    requires Inv(s) && Legal(s, ops)
    decreases |ops|
  {
    s.suspended > 0 && (ops != [] ==> StaysSuspended(Step(s, ops[0]), ops[1..]))
  }

  /** Nobody else runs while the scheduler is suspended. */
  lemma {:induction false} SuspendedRunsOn(s: Sched, ops: seq<Op>)
    requires Inv(s) && Legal(s, ops) && StaysSuspended(s, ops)
    ensures Run(s, ops).current == s.current
    decreases |ops|
  {
    hide Inv, Step, Enabled;
    if ops != [] {
      StepNests(s, ops[0]);
      SuspendedRunsOn(Step(s, ops[0]), ops[1..]);
    }
  }

  lemma PendingStays(s: Sched, op: Op, t: Task)
    requires Inv(s) && Enabled(s, op) && t in s.pending && s.suspended > 0 && Step(s, op).suspended > 0
    ensures t in Step(s, op).pending
  {
    hide Placed, Timed, Events, IsReady, Wake, CatchUp, Resumed;
  }

  lemma {:induction false} HeldBackStays(s: Sched, ops: seq<Op>, t: Task)
    requires Inv(s) && t in s.pending && Legal(s, ops) && StaysSuspended(s, ops)
    ensures t in Run(s, ops).pending
    decreases |ops|
  {
    hide Inv, Step, Enabled;
    if ops != [] {
      PendingStays(s, ops[0], t);
      HeldBackStays(Step(s, ops[0]), ops[1..], t);
    }
  }

  /** A task that an event wakes is ready: at once if the scheduler runs, and otherwise as soon as it
  is resumed, whatever happens in between. */
  lemma WokenIsReady(s: Sched, t: Task, ops: seq<Op>)
    requires Inv(s) && t in s.waiting && Enabled(s, Notify(t))
    ensures s.suspended == 0 ==> IsReady(Step(s, Notify(t)), t)
    ensures Legal(Step(s, Notify(t)), ops) && StaysSuspended(Step(s, Notify(t)), ops) ==>
              var r := Run(Step(s, Notify(t)), ops);
              r.suspended == 1 ==> Enabled(r, ResumeAll) && IsReady(Step(r, ResumeAll), t)
  {
    hide Placed, Timed, Events, IsReady, Shape, EventWake, Resume, Run, Legal, StaysSuspended;
    NotifyEffect(s, t);
    var m := Step(s, Notify(t));
    if Legal(m, ops) && StaysSuspended(m, ops) {
      SuspendedNow(m, ops);
      HeldBackStays(m, ops, t);
      var r := Run(m, ops);
      if r.suspended == 1 { ResumeLosesNothing(r); }
    }
  }

  lemma SuspendedNow(s: Sched, ops: seq<Op>)
    requires Inv(s) && Legal(s, ops) && StaysSuspended(s, ops)
    ensures s.suspended > 0
  {}

  // ---------------------------------------------------------------- blocked for ever

  lemma ForeverStays(s: Sched, op: Op, t: Task)
    requires Inv(s) && Enabled(s, op) && t in s.forever && t !in s.pending && op != Notify(t)
    ensures var r := Step(s, op); t in r.forever && t !in r.pending
  {
    hide Placed, Timed, Events, IsReady, Shape, IncrementTick, Resume, EventWake, SwitchContext, Block, SleepsUntil;
    SleepersInProper(s);
    match op
    case TickInterrupt => TickEffect(s);
    case ResumeAll => if s.suspended == 1 { ResumeEffect(s); } else { NestedResume(s); }
    case Delay(ticks, indefinitely, onEvent) => BlockEffect(s, ticks, indefinitely, onEvent);
    case Notify(u) => NotifyEffect(s, u);
    case ContextSwitch => IdleIsReady(s); SwitchEffect(s);
    case _ =>
  }

  lemma NestedResume(s: Sched)
    requires Shape(s) && s.suspended > 1
    ensures Resume(s) == s.(suspended := s.suspended - 1)
  {}

  lemma SleepersInProper(s: Sched)
    requires Core(s)
    ensures forall q, T: nat :: q in s.forever ==> q !in Timely(s, T)
  {
    ForeverIsNotAsleep(s);
  }

  /** A task blocked without a time out stays blocked over every run in which no event wakes it. */
  lemma {:induction false} BlockedForGood(s: Sched, ops: seq<Op>, t: Task)
    requires Inv(s) && Legal(s, ops) && t in s.forever && t !in s.pending && Notify(t) !in ops
    ensures var r := Run(s, ops); t in r.forever && t !in r.pending && !IsReady(r, t)
    decreases |ops|
  {
    hide Inv, Step, Enabled, IsReady;
    if ops == [] {
      ForeverIsNotReady(s);
    } else {
      ForeverStays(s, ops[0], t);
      BlockedForGood(Step(s, ops[0]), ops[1..], t);
    }
  }

  lemma ForeverIsNotReady(s: Sched)
    requires Inv(s)
    ensures forall q :: q in s.forever ==> !IsReady(s, q)
  {
    SleepersAreBlocked(s);
  }

  /** The partner of DelayIsExact: a task that blocks for portMAX_DELAY, where that means for ever, is
  not ready until an event wakes it. */
  lemma IndefiniteDelay(s: Sched, onEvent: bool, ops: seq<Op>)
    requires Inv(s) && Enabled(s, Delay(MAX_DELAY, true, onEvent))
    requires var r := Step(s, Delay(MAX_DELAY, true, onEvent)); Legal(r, ops)
    requires Notify(s.current) !in ops
    ensures !IsReady(Run(Step(s, Delay(MAX_DELAY, true, onEvent)), ops), s.current)
  {
    hide Placed, Timed, Events, IsReady, Shape, Block, SleepsUntil, Run, Legal;
    BlockEffect(s, MAX_DELAY, true, onEvent);
    ReadyIsNotPending(s);
    var r := Step(s, Delay(MAX_DELAY, true, onEvent));
    BlockedForGood(r, ops, s.current);
  }

  lemma ReadyIsNotPending(s: Sched)
    requires Inv(s)
    ensures forall q :: IsReady(s, q) ==> q !in s.pending
  {
    BlockedIsNotReady(s);
    hide IsReady, Placed, Timed, Shape;
    forall q | q in s.pending ensures Blocked(s, q) { assert multiset(s.pending)[q] > 0; }
  }

  // ---------------------------------------------------------------- the highest task runs

  /** The step asks for a switch by what it returns: the tick by its answer, and a change of priority
  if it takes the running task down or another task above it, as vTaskPrioritySet does. What an event
  or a resume asks for is in yieldPending. */
  ghost predicate Asks(s: Sched, op: Op)
    requires Shape(s) && Enabled(s, op)
  {
    match op
    case TickInterrupt => s.suspended == 0 && TickSwitches(s)
    case ChangePriority(t, p) => if t == s.current then p < s.prio[t] else p > s.prio[s.current]
    case _ => false
  }

  /** A switch has been asked for since the last one that was made. */
  ghost predicate Asked(s: Sched, asked: bool, op: Op)
    requires Shape(s) && Enabled(s, op)
  {
    if op.ContextSwitch? && s.suspended == 0 then false else asked || Asks(s, op)
  }

  /** No ready task is above the running one, and none that is held back, or a switch is on its way. */
  ghost predicate Fair(s: Sched, asked: bool)
    requires Shape(s)
  {
    asked || s.yieldPending || (Highest(s) && forall q :: q in s.pending ==> !Outranks(s, q))
  }

  lemma QuietResume(s: Sched)
    requires Inv(s) && s.suspended == 1 && Highest(s) && !Resume(s).yieldPending
    ensures Highest(Resume(s)) && Resume(s).pending == []
  {
    hide IsReady, Placed, Timed, Events, Shape, Resume, Blocked, SleepsUntil;
    ResumeEffect(s);
    AnsweredIsHighest(s, Resume(s));
  }

  lemma NotifyStaysFair(s: Sched, t: Task, asked: bool)
    requires Core(s) && t in s.waiting && Fair(s, asked)
    ensures Fair(EventWake(s, t), asked)
  {
    hide IsReady, Placed, Timed, Events, Shape, EventWake, Blocked, SleepsUntil;
    var r := EventWake(s, t);
    NotifyEffect(s, t);
    assert forall q :: Outranks(r, q) == Outranks(s, q);
  }

  lemma RetunedStaysFair(s: Sched, t: Task, p: nat, asked: bool)
    requires Core(s) && t in s.prio && p < MAX_PRIORITIES && Fair(s, asked)
    requires if t == s.current then p >= s.prio[t] else p <= s.prio[s.current]
    ensures Shape(Reprioritise(s, t, p)) && Fair(Reprioritise(s, t, p), asked)
  {
    hide IsReady, Placed, Timed, Events, Shape, Reprioritise;
    var r := Reprioritise(s, t, p);
    ReprioritiseKeepsCore(s, t, p);
    PendingKnown(s);
    forall q | !Outranks(s, q) ensures !Outranks(r, q) {}
  }

  lemma BlockStaysFair(s: Sched, ticks: nat, indefinitely: bool, onEvent: bool, asked: bool)
    requires Inv(s) && IsReady(s, s.current) && s.current != IDLE && 1 <= ticks < TICK_MOD && Fair(s, asked)
    ensures s.current in s.ready[s.prio[s.current]].items && Fair(Block(s, ticks, indefinitely, onEvent), asked)
  {
    hide IsReady, Placed, Timed, Events, Shape, Block, Blocked, SleepsUntil;
    BlockEffect(s, ticks, indefinitely, onEvent);
    var r := Block(s, ticks, indefinitely, onEvent);
    assert forall q :: Outranks(r, q) == Outranks(s, q);
  }

  lemma SameIsFair(s: Sched, r: Sched, asked: bool)
    requires Core(s) && Fair(s, asked) && Shape(r)
    requires r == s.(yieldPending := r.yieldPending, pended := r.pended, suspended := r.suspended)
    requires r.pended < TICK_MOD && (s.yieldPending ==> r.yieldPending)
    ensures Fair(r, asked)
  {
    hide IsReady, Placed, Timed, Events;
    SameCore(s, r);
    assert forall q :: Outranks(r, q) == Outranks(s, q);
  }

  lemma StepStaysFair(s: Sched, op: Op, asked: bool)
    requires Inv(s) && Enabled(s, op) && Fair(s, asked)
    ensures Fair(Step(s, op), Asked(s, asked, op))
  {
    hide IsReady, Placed, Timed, Events, Shape, IncrementTick, TickSwitches, Resume, EventWake, SwitchContext;
    hide Block, Reprioritise, Highest, Outranks;
    Bounds(s);
    var r := Step(s, op);
    match op
    case TickInterrupt =>
      if s.suspended > 0 {
        SameIsFair(s, r, asked);
      } else if !asked && !s.yieldPending && !TickSwitches(s) {
        QuietTick(s);
        SamePending(s, r);
      } else if s.yieldPending {
        TickAnswer(s);
      }
    case SuspendAll => SameIsFair(s, r, asked);
    case ResumeAll =>
      if s.suspended > 1 {
        NestedResume(s);
        SameIsFair(s, r, asked);
      } else if !asked && !r.yieldPending {
        ResumeEffect(s);
        QuietResume(s);
      }
    case Delay(ticks, indefinitely, onEvent) => BlockStaysFair(s, ticks, indefinitely, onEvent, asked);
    case Notify(t) => NotifyStaysFair(s, t, asked);
    case ChangePriority(t, p) => if !Asks(s, op) { RetunedStaysFair(s, t, p, asked); }
    case ContextSwitch =>
      IdleIsReady(s);
      SwitchEffect(s);
  }

  lemma SamePending(s: Sched, r: Sched)
    requires r.prio == s.prio && r.current == s.current && r.pending == s.pending
    requires forall q :: q in s.pending ==> !Outranks(s, q)
    ensures forall q :: q in r.pending ==> !Outranks(r, q)
  {}

  /** Over the run, a switch has been asked for since the last one that was made. */
  ghost predicate AskedOver(s: Sched, asked: bool, ops: seq<Op>)
    requires Inv(s) && Legal(s, ops)
    decreases |ops|
  {
    if ops == [] then asked else AskedOver(Step(s, ops[0]), Asked(s, asked, ops[0]), ops[1..])
  }

  lemma {:induction false} RunStaysFair(s: Sched, ops: seq<Op>, asked: bool)
    requires Inv(s) && Legal(s, ops) && Fair(s, asked)
    ensures Fair(Run(s, ops), AskedOver(s, asked, ops))
    decreases |ops|
  {
    hide Shape, Placed, Timed, Events, Step, Enabled, Fair, Asked;
    if ops != [] {
      StepStaysFair(s, ops[0], asked);
      RunStaysFair(Step(s, ops[0]), ops[1..], Asked(s, asked, ops[0]));
    }
  }

  /** From every start, over every run: no ready task is above the running one, unless a switch is
  pending, or has been asked for since the last one. */
  lemma RunningIsHighest(tasks: seq<(Task, nat)>, ops: seq<Op>)
    requires forall i :: 0 <= i < |tasks| ==> tasks[i].0 != IDLE && tasks[i].1 < MAX_PRIORITIES
    requires forall i, j :: 0 <= i < j < |tasks| ==> tasks[i].0 != tasks[j].0
    requires Inv(Started(tasks)) && Legal(Started(tasks), ops)
    ensures var s, r := Started(tasks), Run(Started(tasks), ops);
            AskedOver(s, false, ops) || r.yieldPending || Highest(r)
  {
    hide Placed, Timed, Events, IsReady, Started, Run, Legal, AskedOver, Shape;
    var s := Started(tasks);
    StartsWithHighest(tasks);
    StartIsQuiet(tasks);
    RunStaysFair(s, ops, false);
  }

  lemma {:induction false} StartIsQuiet(tasks: seq<(Task, nat)>)
    requires forall i :: 0 <= i < |tasks| ==> tasks[i].0 != IDLE && tasks[i].1 < MAX_PRIORITIES
    ensures Started(tasks).pending == [] && !Started(tasks).yieldPending
    decreases |tasks|
  {
    hide Shape;
    if tasks != [] { StartIsQuiet(tasks[..|tasks| - 1]); }
  }
}
