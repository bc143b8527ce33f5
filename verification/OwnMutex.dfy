/** A task that takes a mutex it holds already, with a block time: when it may trip the assertion of
vTaskPriorityDisinheritAfterTimeout that the holder is not the running task, and how it comes to.
*/
module OwnMutex {
  import opened Basics
  import Rings
  import Scheduling
  import opened Mutexes
  import opened MutexRuns
  import opened MutexEffects

  // ---------------------------------------------------------------- what waits for it meanwhile

  /** Task t holds the mutex and is in a call that asks for it. */
  ghost predicate WaitsOnOwn(s: State, m: MutexId, t: Task) {
    m in s.mutex && s.mutex[m].holder == Some(t) && t in s.tcb && t in s.attempt && s.attempt[t].mutex == m
  }

  /** The call goes on as before, and the held count is the same. */
  ghost predicate CallKept(s: State, r: State, m: MutexId, t: Task)
    requires WaitsOnOwn(s, m, t)
  {
    WaitsOnOwn(r, m, t) && r.tcb[t].held == s.tcb[t].held && r.attempt[t] == s.attempt[t]
  }

  lemma BlockingKeepsCall(s: State, m: MutexId, t: Task, x: MutexId)
    requires Inv(s) && WaitsOnOwn(s, m, t) && Enabled(s, Await(x)) && s.current != t
    ensures CallKept(s, Step(s, Await(x)), m, t)
  {
    hide InPlace, Inherited, Waiting, HeldBy, IsReady, Retune, Sized, Running, Wait;
    StepDefined(s, Await(x));
    BlockOnKeepsInv(s, x);
    var h := s.mutex[x].holder.value;
    CurrentKnown(s);
    WaitKeepsHolders(Inherit(s, h), x, InheritOccurs(s, h));
  }

  lemma WaitKeepsHolders(s: State, x: MutexId, inherited: bool)
    requires Sized(s) && Running(s) && x in s.mutex && !s.tcb[s.current].eventInUse
    ensures forall y :: y in s.mutex ==> Wait(s, x, inherited).mutex[y].holder == s.mutex[y].holder
  {}

  lemma GivingKeepsCall(s: State, m: MutexId, t: Task, x: MutexId)
    requires Inv(s) && WaitsOnOwn(s, m, t) && Enabled(s, HandBack(x)) && s.current != t
    ensures CallKept(s, Step(s, HandBack(x)), m, t)
  {
    hide InPlace, Inherited, Waiting, HeldBy, IsReady, Retune, Running, Scheduling.DropTask;
    StepDefined(s, HandBack(x));
  }

  lemma GivingUpKeepsCall(s: State, m: MutexId, t: Task)
    requires Inv(s) && WaitsOnOwn(s, m, t) && Enabled(s, Abandon) && s.current != t
    ensures CallKept(s, Step(s, Abandon), m, t)
  {
    hide InPlace, Inherited, Waiting, HeldBy, IsReady, Retune, Running, HighestWaiting;
  }

  lemma TimingOutKeepsCall(s: State, m: MutexId, t: Task, x: MutexId, u: Task)
    requires Inv(s) && WaitsOnOwn(s, m, t) && Enabled(s, TimeOut(x, u))
    ensures CallKept(s, Step(s, TimeOut(x, u)), m, t)
  {
    hide InPlace, Inherited, Waiting, HeldBy, IsReady, Running, Scheduling.DropTask;
  }

  lemma TakingKeepsCall(s: State, m: MutexId, t: Task, x: MutexId)
    requires Inv(s) && WaitsOnOwn(s, m, t) && Enabled(s, Acquire(x)) && s.current != t
    ensures CallKept(s, Step(s, Acquire(x)), m, t)
  {
    hide InPlace, Inherited, Waiting, HeldBy, IsReady, Running;
  }

  lemma SettingKeepsCall(s: State, m: MutexId, t: Task, u: Task, b: nat)
    requires Inv(s) && WaitsOnOwn(s, m, t) && Enabled(s, SetPriority(u, b))
    ensures CallKept(s, Step(s, SetPriority(u, b)), m, t)
  {
    hide InPlace, Inherited, Waiting, HeldBy, IsReady, Running, Retune;
  }

  lemma RestKeepsCall(s: State, m: MutexId, t: Task, op: Op)
    requires Inv(s) && WaitsOnOwn(s, m, t) && Enabled(s, op) && !OwnStep(s, op, t)
    requires op.Sleep? || op.WakeUp? || op.ResetItem? || op.SwitchTo?
    ensures CallKept(s, Step(s, op), m, t)
  {
    hide InPlace, Inherited, Waiting, HeldBy, IsReady, Running;
  }

  /** Whatever others do, the task stays the holder, and its held count and its call stay as they are. */
  lemma OthersKeepCall(s: State, m: MutexId, t: Task, op: Op)
    requires Inv(s) && WaitsOnOwn(s, m, t) && Enabled(s, op) && !OwnStep(s, op, t)
    ensures CallKept(s, Step(s, op), m, t)
  {
    hide Inv, Step, CallKept, WaitsOnOwn, Enabled;
    match op
    case Acquire(x) => TakingKeepsCall(s, m, t, x);
    case Await(x) => BlockingKeepsCall(s, m, t, x);
    case HandBack(x) => GivingKeepsCall(s, m, t, x);
    case Abandon => GivingUpKeepsCall(s, m, t);
    case TimeOut(x, u) => TimingOutKeepsCall(s, m, t, x, u);
    case SetPriority(u, b) => SettingKeepsCall(s, m, t, u, b);
    case _ => RestKeepsCall(s, m, t, op);
  }

  lemma {:induction false} OthersKeepCalls(s: State, m: MutexId, t: Task, ops: seq<Op>)
    requires Inv(s) && WaitsOnOwn(s, m, t) && Legal(s, ops) && Passive(s, ops, t)
    ensures CallKept(s, Run(s, ops), m, t)
    decreases |ops|
  {
    hide Inv, Enabled, Step, OwnStep;
    if ops != [] {
      OthersKeepCall(s, m, t, ops[0]);
      OthersKeepCalls(Step(s, ops[0]), m, t, ops[1..]);
    }
  }

  // ---------------------------------------------------------------- when the assertion may fail

  /** After the run task t is running, at the end of its call, and the assertion fails. */
  ghost predicate Trips(s: State, ops: seq<Op>, t: Task)
    requires Inv(s)
  {
    && Legal(s, ops) && Passive(s, ops, t)
    && var r := Run(s, ops);
       r.current == t && Running(r) && t in r.attempt && !CanAbandon(r, r.attempt[t])
  }

  lemma OwnAwait(s: State, m: MutexId)
    requires Inv(s) && Running(s) && m in s.mutex && !s.tcb[s.current].eventInUse
    requires s.mutex[m].holder == Some(s.current)
    ensures Enabled(s, Await(m))
    ensures var r, t := Step(s, Await(m)), s.current;
            && r.tcb == s.tcb && WaitsOnOwn(r, m, t) && r.current == t
            && r.attempt == s.attempt[t := Attempt(m, s.tcb[t].base < s.tcb[t].prio)]
            && t in r.mutex[m].waiters && Scheduling.DropTask(r.mutex[m].waiters, t) == s.mutex[m].waiters
            && |r.mutex[m].waiters| == |s.mutex[m].waiters| + 1
            && ReadyTasks(r) == ReadyTasks(s) - {t}
  {
    hide Sized, Running, InPlace, Inherited, Waiting, IsReady, Step, Scheduling.DropTask;
    AwaitEffect(s, m, s.current);
    CurrentKnown(s);
  }

  /** Nothing else trips it: with another mutex held, or at its base priority, the task is safe. */
  lemma OnlyThenTrips(s: State, m: MutexId, ops: seq<Op>)
    requires Inv(s) && Running(s) && m in s.mutex && !s.tcb[s.current].eventInUse
    requires s.mutex[m].holder == Some(s.current) && Enabled(s, Await(m))
    requires Trips(Step(s, Await(m)), ops, s.current)
    ensures s.current in s.tcb && s.tcb[s.current].held == 1 && s.tcb[s.current].base < s.tcb[s.current].prio
  {
    hide InPlace, Inherited, Waiting, IsReady, Running, Step, Legal;
    hide Run, Passive, HighestWaiting, Sized, Scheduling.DropTask;
    OwnAwait(s, m);
    OthersKeepCalls(Step(s, Await(m)), m, s.current, ops);
    CurrentKnown(s);
  }

  function TimeOuts(m: MutexId, w: seq<Task>): seq<Op> { seq(|w|, i requires 0 <= i < |w| => TimeOut(m, w[i])) }

  /** The block times of all who wait for a mutex may run out one after the other. */
  lemma {:induction false} AllTimeOut(s: State, m: MutexId, t: Task)
    requires Inv(s) && m in s.mutex
    ensures var ops := TimeOuts(m, s.mutex[m].waiters);
            && Legal(s, ops) && Passive(s, ops, t) && Scheduled(s, ops)
            && var r := Run(s, ops);
               && r.tcb == s.tcb && r.current == s.current && r.attempt == s.attempt
               && m in r.mutex && r.mutex[m].holder == s.mutex[m].holder && r.mutex[m].waiters == []
               && ReadyTasks(r) == ReadyTasks(s) + set q | q in s.mutex[m].waiters
    decreases |s.mutex[m].waiters|
  {
    hide Inv, Step, Legal, Run, Passive, Scheduled, ReadyTasks;
    var w := s.mutex[m].waiters;
    var ops := TimeOuts(m, w);
    if w == [] {
      assert ops == [];
      NoStep(s, t);
    } else {
      TimeOutEffect(s, m, w[0]);
      var op := TimeOut(m, w[0]);
      var s1 := Step(s, op);
      assert s1.mutex[m].waiters == w[1..];
      AllTimeOut(s1, m, t);
      OneStep(s, op);
      assert ops == [op] + TimeOuts(m, w[1..]);
      RunAppends(s, [op], TimeOuts(m, w[1..]));
      PassiveAppends(s, [op], TimeOuts(m, w[1..]), t);
      ScheduledAppends(s, [op], TimeOuts(m, w[1..]));
      assert (set q | q in w) == {w[0]} + set q | q in w[1..];
    }
  }

  lemma NoStep(s: State, t: Task)
    requires Inv(s)
    ensures Legal(s, []) && Passive(s, [], t) && Scheduled(s, []) && Run(s, []) == s
  {}

  ghost function TripRun(s: State, m: MutexId, t: Task): seq<Op>
    requires m in s.mutex
  {
    [TimeOut(m, t)] + TimeOuts(m, s.mutex[m].waiters) + [SwitchTo(t)]
  }

  /** From then on it is tripped once all who wait have timed out. The scheduler takes part if nobody
  ready or waiting is above the task. */
  lemma ThenTrips(s: State, m: MutexId)
    requires Inv(s) && Running(s) && m in s.mutex && !s.tcb[s.current].eventInUse
    requires s.mutex[m].holder == Some(s.current)
    requires s.tcb[s.current].held == 1 && s.tcb[s.current].base < s.tcb[s.current].prio
    ensures Enabled(s, Await(m)) && Trips(Step(s, Await(m)), TripRun(s, m, s.current), s.current)
    ensures Highest(s, s.current)
            && (forall q :: q in s.mutex[m].waiters ==> q in s.tcb && s.tcb[q].prio <= s.tcb[s.current].prio)
            ==> Scheduled(Step(s, Await(m)), TripRun(s, m, s.current))
  {
    hide Sized, InPlace, Inherited, Waiting, IsReady, Running, Step;
    hide Legal, Run, Passive, Scheduled, Scheduling.DropTask, HighestWaiting;
    var t := s.current;
    OwnAwait(s, m);
    var s1 := Step(s, Await(m));
    TimeOutEffect(s1, m, t);
    var first := TimeOut(m, t);
    var s2 := Step(s1, first);
    var others := TimeOuts(m, s.mutex[m].waiters);
    AllTimeOut(s2, m, t);
    var s3 := Run(s2, others);
    SwitchEffect(s3, t);
    var r := s3.(current := t);
    OneStep(s1, first);
    OneStep(s3, SwitchTo(t));
    RunAppends(s1, [first], others);
    RunAppends(s1, [first] + others, [SwitchTo(t)]);
    PassiveAppends(s1, [first], others, t);
    PassiveAppends(s1, [first] + others, [SwitchTo(t)], t);
    NobodyWaiting(r, m);
    if Highest(s3, t) {
      ScheduledAppends(s1, [first], others);
      ScheduledAppends(s1, [first] + others, [SwitchTo(t)]);
    }
  }

  lemma NobodyWaiting(s: State, m: MutexId)
    requires Sized(s) && m in s.mutex && s.mutex[m].waiters == []
    ensures HighestWaiting(s, m) == 0
  {}

  /** If nothing happens in between, it also takes a first waiter of another priority than its own. */
  lemma UndisturbedTrips(s: State, m: MutexId)
    requires Inv(s) && Running(s) && m in s.mutex && !s.tcb[s.current].eventInUse
    requires s.mutex[m].holder == Some(s.current)
    ensures var t := s.current;
            && Enabled(s, Await(m))
            && (Trips(Step(s, Await(m)), [TimeOut(m, t)] + [SwitchTo(t)], t) <==>
                s.tcb[t].held == 1 && s.tcb[t].base < s.tcb[t].prio && HighestWaiting(s, m) != s.tcb[t].prio)
  {
    hide Sized, InPlace, Inherited, Waiting, IsReady, Running, Step;
    hide Legal, Run, Passive, Scheduling.DropTask, HighestWaiting;
    var t := s.current;
    OwnAwait(s, m);
    var s1 := Step(s, Await(m));
    TimeOutEffect(s1, m, t);
    var s2 := Step(s1, TimeOut(m, t));
    SwitchEffect(s2, t);
    OneStep(s1, TimeOut(m, t));
    OneStep(s2, SwitchTo(t));
    RunAppends(s1, [TimeOut(m, t)], [SwitchTo(t)]);
    PassiveAppends(s1, [TimeOut(m, t)], [SwitchTo(t)], t);
    SameWaiting(s, s2.(current := t), m);
    CurrentKnown(s);
  }

  lemma SameWaiting(s: State, r: State, m: MutexId)
    requires Sized(s) && Sized(r) && m in s.mutex && m in r.mutex && r.tcb == s.tcb
    requires r.mutex[m].waiters == s.mutex[m].waiters
    ensures HighestWaiting(r, m) == HighestWaiting(s, m)
  {}

  /** A task takes a mutex that it holds, with a block time. Until it runs again at the end of its
  call others may do what they like. Some run ends with the assertion of
  vTaskPriorityDisinheritAfterTimeout failing if and only if the task holds no other mutex and runs
  above its base priority. */
  lemma OwnMutexTripsAssert(s: State, m: MutexId)
    requires Inv(s) && Running(s) && m in s.mutex && !s.tcb[s.current].eventInUse
    requires s.mutex[m].holder == Some(s.current)
    ensures Enabled(s, Await(m))
    ensures (exists ops :: Trips(Step(s, Await(m)), ops, s.current)) <==>
            s.tcb[s.current].held == 1 && s.tcb[s.current].base < s.tcb[s.current].prio
  {
    hide InPlace, Inherited, Waiting, Step, Trips, TripRun;
    OwnAwait(s, m);
    if ops :| Trips(Step(s, Await(m)), ops, s.current) {
      OnlyThenTrips(s, m, ops);
    }
    if s.tcb[s.current].held == 1 && s.tcb[s.current].base < s.tcb[s.current].prio {
      ThenTrips(s, m);
    }
  }

  // ---------------------------------------------------------------- how that comes about

  /** Task b runs, above all others that are ready; of those task a is the highest. No task holds the
  mutex or waits for it, and a holds none. */
  ghost predicate Poised(s: State, m: MutexId, a: Task, b: Task) {
    && Inv(s) && Running(s) && s.current == b && a != b && a in ReadyTasks(s)
    && m in s.mutex && s.mutex[m].count > 0 && s.mutex[m].waiters == []
    && s.tcb[a].held == 0 && !s.tcb[a].eventInUse && !s.tcb[b].eventInUse
    && s.tcb[a].prio < s.tcb[b].prio
    && forall q :: q in ReadyTasks(s) && q != b ==> s.tcb[q].prio <= s.tcb[a].prio
  }

  /** b sleeps, a takes the mutex, and b is woken. */
  ghost function TakeIt(m: MutexId, a: Task, b: Task): seq<Op> {
    [Sleep(false), SwitchTo(a), Acquire(m), WakeUp(b), SwitchTo(b)]
  }

  ghost predicate Taken(s: State, r: State, m: MutexId, a: Task, b: Task) {
    && Inv(r) && Running(r) && Sized(s) && a in s.tcb && r.current == b && b in r.tcb
    && r.tcb == s.tcb[a := s.tcb[a].(held := 1)] && ReadyTasks(r) == ReadyTasks(s)
    && m in r.mutex && r.mutex[m].holder == Some(a) && r.mutex[m].waiters == []
  }

  lemma TakesIt(s: State, m: MutexId, a: Task, b: Task) returns (r: State)
    requires Poised(s, m, a, b)
    ensures Leads(s, TakeIt(m, a, b), r) && Taken(s, r, m, a, b)
  {
    hide Sized, InPlace, Inherited, Waiting, IsReady, Step, Legal, Run, Scheduled, ReadyTasks;
    RunningWaitsNowhere(s);
    RunsReady(s);
    CurrentKnown(s);
    SleepEffect(s, false);
    var s1 := Step(s, Sleep(false));
    SwitchEffect(s1, a);
    var s2 := s1.(current := a);
    AcquireEffect(s2, m);
    var s3 := Step(s2, Acquire(m));
    WakeEffect(s3, b);
    var s4 := Step(s3, WakeUp(b));
    SwitchEffect(s4, b);
    r := s4.(current := b);
    NothingYet(s);
    LeadsOn(s, [], s, Sleep(false));
    LeadsOn(s, [] + [Sleep(false)], s1, SwitchTo(a));
    LeadsOn(s, [] + [Sleep(false)] + [SwitchTo(a)], s2, Acquire(m));
    LeadsOn(s, [] + [Sleep(false)] + [SwitchTo(a)] + [Acquire(m)], s3, WakeUp(b));
    LeadsOn(s, [] + [Sleep(false)] + [SwitchTo(a)] + [Acquire(m)] + [WakeUp(b)], s4, SwitchTo(b));
    assert [] + [Sleep(false)] + [SwitchTo(a)] + [Acquire(m)] + [WakeUp(b)] + [SwitchTo(b)] == TakeIt(m, a, b);
  }

  /** b blocks on the mutex, a runs at its priority, and b times out. */
  ghost function LendIt(m: MutexId, a: Task, b: Task): seq<Op> {
    [Await(m), SwitchTo(a), TimeOut(m, b)]
  }

  ghost predicate Lent(s: State, r: State, m: MutexId, a: Task, b: Task) {
    && Inv(r) && Running(r) && Sized(s) && a in s.tcb && b in s.tcb && r.current == a
    && r.tcb.Keys == s.tcb.Keys && (forall q :: q in s.tcb && q != a ==> r.tcb[q] == s.tcb[q])
    && r.tcb[a] == s.tcb[a].(held := 1, prio := s.tcb[b].prio, event := EventValue(s.tcb[b].prio))
    && ReadyTasks(r) == ReadyTasks(s) && b in r.attempt && r.attempt[b] == Attempt(m, true)
    && m in r.mutex && r.mutex[m].holder == Some(a) && r.mutex[m].waiters == []
  }

  lemma LendsIt(s: State, t: State, m: MutexId, a: Task, b: Task) returns (r: State)
    requires Poised(s, m, a, b) && Taken(s, t, m, a, b)
    ensures Leads(t, LendIt(m, a, b), r) && Lent(s, r, m, a, b)
  {
    hide Sized, InPlace, Inherited, Waiting, IsReady, Step, Legal, Run, Scheduled, ReadyTasks, Running;
    RunsReady(s);
    CurrentKnown(s);
    BaseIsBelow(s, a);
    AwaitEffect(t, m, a);
    var s1 := Step(t, Await(m));
    AloneInList(s1.mutex[m].waiters, b);
    SwitchEffect(s1, a);
    var s2 := s1.(current := a);
    TimeOutEffect(s2, m, b);
    r := Step(s2, TimeOut(m, b));
    StillRuns(s2, r);
    NothingYet(t);
    LeadsOn(t, [], t, Await(m));
    LeadsOn(t, [] + [Await(m)], s1, SwitchTo(a));
    LeadsOn(t, [] + [Await(m)] + [SwitchTo(a)], s2, TimeOut(m, b));
    assert [] + [Await(m)] + [SwitchTo(a)] + [TimeOut(m, b)] == LendIt(m, a, b);
  }

  /** a takes the mutex it holds; b gives up, which leaves a where it is, since a waits itself; then
  a times out. */
  ghost function TakeAgain(m: MutexId, a: Task, b: Task): seq<Op> {
    [Await(m), SwitchTo(b), Abandon, TimeOut(m, a), SwitchTo(a)]
  }

  lemma AbandonLeaves(s: State, m: MutexId, a: Task)
    requires Inv(s) && Running(s) && s.current in s.attempt && s.attempt[s.current] == Attempt(m, true)
    requires m in s.mutex && s.mutex[m].holder == Some(a) && a != s.current && s.mutex[m].waiters == [a]
    requires a in s.tcb && s.tcb[a].prio < Scheduling.MAX_PRIORITIES && s.tcb[a].event == EventValue(s.tcb[a].prio)
    ensures Enabled(s, Abandon) && Step(s, Abandon) == s.(attempt := s.attempt - {s.current})
    ensures ReadyTasks(Step(s, Abandon)) == ReadyTasks(s)
  {
    BaseIsBelow(s, a);
    hide InPlace, Inherited, Waiting, HeldBy, Retune;
  }

  lemma TakesAgain(s: State, t: State, m: MutexId, a: Task, b: Task) returns (r: State)
    requires Poised(s, m, a, b) && Lent(s, t, m, a, b)
    ensures Leads(t, TakeAgain(m, a, b), r)
    ensures Inv(r) && Running(r) && r.current == a && a in r.attempt && !CanAbandon(r, r.attempt[a])
  {
    hide Sized, InPlace, Inherited, Waiting, IsReady, Step, Legal, Run, Scheduled, ReadyTasks, HighestWaiting, Running;
    RunsReady(s);
    CurrentKnown(s);
    BaseIsBelow(s, a);
    OwnAwait(t, m);
    var s1 := Step(t, Await(m));
    AloneInList(s1.mutex[m].waiters, a);
    SwitchEffect(s1, b);
    var s2 := s1.(current := b);
    AbandonLeaves(s2, m, a);
    var s3 := Step(s2, Abandon);
    TimeOutEffect(s3, m, a);
    var s4 := Step(s3, TimeOut(m, a));
    SwitchEffect(s4, a);
    r := s4.(current := a);
    NobodyWaiting(r, m);
    NothingYet(t);
    LeadsOn(t, [], t, Await(m));
    LeadsOn(t, [] + [Await(m)], s1, SwitchTo(b));
    LeadsOn(t, [] + [Await(m)] + [SwitchTo(b)], s2, Abandon);
    LeadsOn(t, [] + [Await(m)] + [SwitchTo(b)] + [Abandon], s3, TimeOut(m, a));
    LeadsOn(t, [] + [Await(m)] + [SwitchTo(b)] + [Abandon] + [TimeOut(m, a)], s4, SwitchTo(a));
    assert [] + [Await(m)] + [SwitchTo(b)] + [Abandon] + [TimeOut(m, a)] + [SwitchTo(a)] == TakeAgain(m, a, b);
  }

  /** It does come about under the scheduler, from every state in which a task runs that is above the
  next one, no mutex is held by that one, and the mutex is free. */
  lemma OwnMutexIsReachable(s: State, m: MutexId, a: Task, b: Task) returns (r: State)
    requires Poised(s, m, a, b)
    ensures Leads(s, TakeIt(m, a, b) + LendIt(m, a, b) + TakeAgain(m, a, b), r)
    ensures Inv(r) && Running(r) && r.current == a && a in r.attempt && !CanAbandon(r, r.attempt[a])
  {
    hide Inv, Poised, Taken, Lent, Leads, TakeIt, LendIt, TakeAgain, Running, CanAbandon;
    assert Inv(s) by { PoisedIsInv(s, m, a, b); }
    var s1 := TakesIt(s, m, a, b);
    var s2 := LendsIt(s, s1, m, a, b);
    r := TakesAgain(s, s2, m, a, b);
    PhasesInv(s, s1, s2, m, a, b);
    LeadsFurther(s, TakeIt(m, a, b), s1, LendIt(m, a, b), s2);
    LeadsFurther(s, TakeIt(m, a, b) + LendIt(m, a, b), s2, TakeAgain(m, a, b), r);
  }

  lemma PoisedIsInv(s: State, m: MutexId, a: Task, b: Task)
    requires Poised(s, m, a, b)
    ensures Inv(s)
  {}

  lemma PhasesInv(s: State, s1: State, s2: State, m: MutexId, a: Task, b: Task)
    requires Taken(s, s1, m, a, b) && Lent(s, s2, m, a, b)
    ensures Inv(s1) && Inv(s2)
  {}

  /** The idle task and two others, one below the other, with one mutex. */
  function ThreeTasks(): State {
    State(map[0 := Tcb(0, 0, 0, 31, false), 1 := Tcb(1, 1, 0, 30, false), 2 := Tcb(2, 2, 0, 29, false)],
          seq(Scheduling.MAX_PRIORITIES, p => if p <= 2 then Rings.Ring([p], 0) else Rings.Ring([], 0)),
          2, map[0 := Mutex(1, None, [])], 2, map[])
  }

  lemma ThreeInLists(p: nat, q: Task)
    requires p < Scheduling.MAX_PRIORITIES
    ensures InReady(ThreeTasks(), p, q) == Scheduling.One(p <= 2 && q == p)
  {}

  lemma ThreeInPlace()
    ensures Sized(ThreeTasks()) && InPlace(ThreeTasks()) && ReadyTasks(ThreeTasks()) == {0, 1, 2}
  {
    hide InReady;
    forall p: nat, q | p < Scheduling.MAX_PRIORITIES
      ensures InReady(ThreeTasks(), p, q) == Scheduling.One(p <= 2 && q == p)
    {
      ThreeInLists(p, q);
    }
  }

  /** And the system can start in such a state: no mutex held, every task ready and at its base
  priority, and the highest one running. */
  lemma StartIsPoised()
    ensures var s := ThreeTasks();
            && Poised(s, 0, 1, 2) && Highest(s, s.current) && ReadyTasks(s) == s.tcb.Keys
            && (forall t :: t in s.tcb ==> s.tcb[t].held == 0 && s.tcb[t].prio == s.tcb[t].base)
            && (forall m :: m in s.mutex ==> s.mutex[m].holder.None?)
  {
    hide InPlace, InReady, ReadyTasks, IsReady;
    ThreeInPlace();
    StartKeepsInv(ThreeTasks());
  }
}
