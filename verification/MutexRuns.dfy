/** Runs of the mutex machine: every interleaving of taking, blocking, timing out, giving and
changing priorities keeps the held counts, the priorities and the ready lists right.
*/
module MutexRuns {
  import opened Basics
  import Rings
  import Scheduling
  import opened Mutexes

  /** One step of the system. All but the time-out, the wake-up and the switch are taken by the
  running task. */
  datatype Op =
    | Acquire(m: MutexId)                // the mutex is free: xQueueSemaphoreTake succeeds
    | Await(m: MutexId)                  // the mutex is held: inherit, then block
    | TimeOut(m: MutexId, t: Task)       // the block time of a waiter runs out
    | Abandon                            // the timed-out call gives up
    | HandBack(m: MutexId)               // give the mutex, waking the first waiter
    | SetPriority(t: Task, base: nat)    // vTaskPrioritySet
    | Sleep(inUse: bool)                 // block on something that is not a mutex
    | WakeUp(t: Task)                    // be woken from that
    | ResetItem                          // uxTaskResetEventItemValue
    | SwitchTo(t: Task)                  // vTaskSwitchContext

  /** What the step needs of its caller, and the configASSERTs on its path. */
  ghost predicate Enabled(s: State, op: Op)
    requires Inv(s)
  {
    (!op.TimeOut? && !op.WakeUp? && !op.SwitchTo? ==> Running(s)) &&
    match op
    case Acquire(m) => m in s.mutex && s.mutex[m].count > 0
    case Await(m) => m in s.mutex && s.mutex[m].count == 0 && !s.tcb[s.current].eventInUse
    case TimeOut(m, t) => m in s.mutex && t in s.mutex[m].waiters
    case Abandon => s.current in s.attempt && CanAbandon(s, s.attempt[s.current])
    case HandBack(m) => m in s.mutex && s.mutex[m].holder == Some(s.current) && !s.tcb[s.current].eventInUse
    case SetPriority(t, b) => t in s.tcb && b < Scheduling.MAX_PRIORITIES
    case Sleep(_) => true
    case WakeUp(t) => t in s.tcb && !IsReady(s, t) && forall m :: m in s.mutex ==> t !in s.mutex[m].waiters
    case ResetItem => true
    case SwitchTo(t) => t in s.tcb && IsReady(s, t)
  }

  /** The assertion of vTaskPriorityDisinheritAfterTimeout passes, if the mutex still has a holder. */
  ghost predicate CanAbandon(s: State, a: Attempt)
    requires Sized(s)
  {
    a.mutex in s.mutex && (a.inherited && s.mutex[a.mutex].holder.Some? ==> HolderAsserted(s, a.mutex))
  }

  ghost function Step(s: State, op: Op): (r: State)
    requires Inv(s) && Enabled(s, op)
    ensures Inv(r)
  {
    StepDefined(s, op);
    match op
    case Acquire(m) => TakeKeepsInv(s, m); Take(s, m)
    case Await(m) => BlockOnKeepsInv(s, m); BlockOn(s, m)
    case TimeOut(m, t) => UnwaitKeepsInv(s, m, t); Unwait(s, m, t)
    case Abandon => var h := s.mutex[s.attempt[s.current].mutex].holder; GiveUpKeepsInv(s, h); GiveUp(s, h)
    case HandBack(m) => GiveKeepsInv(s, m); Give(s, m)
    case SetPriority(t, b) => PrioritySetKeepsInv(s, t, b); PrioritySet(s, t, b)
    case Sleep(inUse) => SleepKeepsInv(s, inUse); SleepElsewhere(s, inUse)
    case WakeUp(t) => WakeKeepsInv(s, t); AddReady(s, t)
    case ResetItem => ResetKeepsInv(s); ResetEvent(s)
    case SwitchTo(t) => SwitchKeepsInv(s, t); s.(current := t)
  }

  /** The facts the cases of Step rely on. */
  lemma StepDefined(s: State, op: Op)
    requires Inv(s) && Enabled(s, op)
    ensures op.Await? ==> s.mutex[op.m].holder.Some?
    ensures op.Abandon? ==> var h := s.mutex[s.attempt[s.current].mutex].holder; h.Some? ==> h.value in s.tcb
    ensures op.HandBack? ==> s.tcb[s.current].held > 0
    ensures op.Sleep? ==> forall m :: m in s.mutex ==> s.current !in s.mutex[m].waiters
  {
    if op.HandBack? { HolderHolds(s, op.m); }
    if op.Sleep? { RunningWaitsNowhere(s); }
  }

  ghost predicate Legal(s: State, ops: seq<Op>)
    requires Inv(s)
    decreases |ops|
  {
    ops == [] || (Enabled(s, ops[0]) && Legal(Step(s, ops[0]), ops[1..]))
  }

  ghost function Run(s: State, ops: seq<Op>): (r: State)
    requires Inv(s) && Legal(s, ops)
    ensures Inv(r)
    decreases |ops|
  {
    if ops == [] then s else Run(Step(s, ops[0]), ops[1..])
  }

  /** After every run: uxMutexesHeld is the number of mutexes whose holder is the task, nobody runs
  below base priority, a task that holds nothing runs at its base priority, and a ready task is in
  the ready list of its effective priority and in no other. */
  lemma RunsKeepPriorities(s: State, ops: seq<Op>, t: Task)
    requires Inv(s) && Legal(s, ops)
    requires t in Run(s, ops).tcb
    ensures var r := Run(s, ops);
            && r.tcb[t].held == |set m | m in r.mutex && r.mutex[m].holder == Some(t)|
            && r.tcb[t].prio >= r.tcb[t].base
            && (r.tcb[t].held == 0 ==> r.tcb[t].prio == r.tcb[t].base)
            && (forall p :: 0 <= p < |r.ready| && t in r.ready[p].items ==> p == r.tcb[t].prio)
  {
    var r := Run(s, ops);
    hide Run, Legal;
    assert HeldBy(r, t) == set m | m in r.mutex && r.mutex[m].holder == Some(t);
    forall p | 0 <= p < |r.ready| && t in r.ready[p].items
      ensures p == r.tcb[t].prio
    {
      assert InReady(r, p, t) > 0;
    }
  }

  /** The state the scheduler starts in: no mutex held, every task at its base priority. */
  lemma StartKeepsInv(s: State)
    requires Sized(s) && InPlace(s)
    requires forall t :: t in s.tcb ==> s.tcb[t].held == 0 && s.tcb[t].prio == s.tcb[t].base
    requires forall m :: m in s.mutex ==> s.mutex[m].holder.None? && s.mutex[m].waiters == []
    ensures Inv(s)
  {
    assert forall t :: HeldBy(s, t) == {};
  }

  lemma {:induction false} RunAppends(s: State, a: seq<Op>, b: seq<Op>)
    requires Inv(s) && Legal(s, a) && Legal(Run(s, a), b)
    ensures Legal(s, a + b) && Run(s, a + b) == Run(Run(s, a), b)
    decreases |a|
  {
    hide Inv, Enabled, Step;
    if a == [] {
      assert a + b == b;
    } else {
      RunAppends(Step(s, a[0]), a[1..], b);
      assert (a + b)[1..] == a[1..] + b;
    }
  }
}
