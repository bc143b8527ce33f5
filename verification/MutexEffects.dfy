/** What each step of module MutexRuns does to priorities, mutexes and the set of ready tasks, and runs
in which the scheduler takes part.
*/
module MutexEffects {
  import opened Basics
  import Rings
  import Scheduling
  import opened Mutexes
  import opened MutexRuns

  // ---------------------------------------------------------------- what the steps do

  ghost function ReadyTasks(s: State): set<Task>
    requires Sized(s)
  {
    set q | q in s.tcb && IsReady(s, q)
  }

  lemma {:induction false} DropUndoesSplice(w: seq<Task>, k: nat, t: Task)
    requires k <= |w| && t !in w
    ensures Scheduling.DropTask(w[..k] + [t] + w[k..], t) == w
  {
    var v := w[..k] + [t] + w[k..];
    if k > 0 {
      assert v[1..] == w[1..][..k - 1] + [t] + w[1..][k - 1..];
      DropUndoesSplice(w[1..], k - 1, t);
    } else {
      assert v[1..] == w;
    }
  }

  lemma SleepEffect(s: State, inUse: bool)
    requires Inv(s) && Running(s)
    ensures Enabled(s, Sleep(inUse)) && s.current in s.tcb
    ensures var r, c := Step(s, Sleep(inUse)), s.tcb[s.current];
            && r == s.(ready := r.ready, top := r.top, tcb := r.tcb)
            && r.tcb == s.tcb[s.current := c.(eventInUse := c.eventInUse || inUse)]
            && (!inUse ==> r.tcb == s.tcb)
            && ReadyTasks(r) == ReadyTasks(s) - {s.current}
  {
    hide InPlace, Inherited, Waiting, HeldBy, IsReady;
    RunningWaitsNowhere(s);
    var r := SleepElsewhere(s, inUse);
    assert !inUse ==> r.tcb == s.tcb;
    RemovedInPlace(s, r, s.current);
  }

  lemma WakeEffect(s: State, t: Task)
    requires Inv(s) && t in s.tcb && t !in ReadyTasks(s) && forall m :: m in s.mutex ==> t !in s.mutex[m].waiters
    ensures Enabled(s, WakeUp(t))
    ensures var r := Step(s, WakeUp(t));
            && r == s.(ready := r.ready, top := r.top)
            && ReadyTasks(r) == ReadyTasks(s) + {t}
  {
    hide InPlace, Inherited, Waiting, HeldBy, IsReady;
    AddedInPlace(s, AddReady(s, t), t);
  }

  lemma SwitchEffect(s: State, t: Task)
    requires Inv(s) && t in ReadyTasks(s)
    ensures Enabled(s, SwitchTo(t))
    ensures Step(s, SwitchTo(t)) == s.(current := t) && Running(s.(current := t))
    ensures ReadyTasks(s.(current := t)) == ReadyTasks(s)
  {
    hide InPlace, Inherited, Waiting, HeldBy;
  }

  lemma AcquireEffect(s: State, m: MutexId)
    requires Inv(s) && Running(s) && m in s.mutex && s.mutex[m].count > 0
    ensures Enabled(s, Acquire(m))
    ensures var r, t := Step(s, Acquire(m)), s.current;
            && r.tcb == s.tcb[t := s.tcb[t].(held := s.tcb[t].held + 1)] && r.current == t
            && r.attempt == s.attempt - {t}
            && r.mutex == s.mutex[m := Mutex(0, Some(t), s.mutex[m].waiters)]
            && ReadyTasks(r) == ReadyTasks(s)
  {
    hide InPlace, Inherited, Waiting, HeldBy, IsReady;
    SameReady(s, Take(s, m));
  }

  lemma TimeOutEffect(s: State, m: MutexId, t: Task)
    requires Inv(s) && m in s.mutex && t in s.mutex[m].waiters
    ensures Enabled(s, TimeOut(m, t))
    ensures var r := Step(s, TimeOut(m, t));
            && r.tcb == s.tcb && r.current == s.current && r.attempt == s.attempt
            && r.mutex == s.mutex[m := s.mutex[m].(waiters := Scheduling.DropTask(s.mutex[m].waiters, t))]
            && ReadyTasks(r) == ReadyTasks(s) + {t}
  {
    UnwaitEffect(s, m, t);
  }

  /** Task t has joined the waiting list behind everybody whose item value is not greater than its
  own, and before the first whose value is. */
  ghost predicate Queued(tcb: map<Task, Tcb>, w: seq<Task>, after: seq<Task>, t: Task) {
    t in tcb && exists k: nat :: k <= |w| && QueuedAt(tcb, w, after, t, k)
  }

  ghost predicate QueuedAt(tcb: map<Task, Tcb>, w: seq<Task>, after: seq<Task>, t: Task, k: nat)
    requires k <= |w| && t in tcb
  {
    && after == w[..k] + [t] + w[k..]
    && (forall i :: 0 <= i < k ==> w[i] in tcb && tcb[w[i]].event <= tcb[t].event)
    && (k < |w| ==> w[k] in tcb && tcb[w[k]].event > tcb[t].event)
  }

  lemma WaitEffect(s: State, m: MutexId, inherited: bool)
    requires Inv(s) && Running(s) && m in s.mutex && !s.tcb[s.current].eventInUse
    ensures var r, t := Wait(s, m, inherited), s.current;
            && r.mutex == s.mutex[m := s.mutex[m].(waiters := r.mutex[m].waiters)]
            && Queued(s.tcb, s.mutex[m].waiters, r.mutex[m].waiters, t)
            && t in r.mutex[m].waiters && Scheduling.DropTask(r.mutex[m].waiters, t) == s.mutex[m].waiters
            && |r.mutex[m].waiters| == |s.mutex[m].waiters| + 1
            && ReadyTasks(r) == ReadyTasks(s) - {t}
  {
    hide InPlace, Inherited, Waiting, HeldBy, IsReady, Scheduling.DropTask, Scheduling.Find;
    RunningWaitsNowhere(s);
    WaitJoins(s, m, inherited);
    WaitUnreadies(s, m, inherited);
  }

  lemma WaitUnreadies(s: State, m: MutexId, inherited: bool)
    requires Sized(s) && InPlace(s) && Running(s) && m in s.mutex && !s.tcb[s.current].eventInUse
    ensures ReadyTasks(Wait(s, m, inherited)) == ReadyTasks(s) - {s.current}
  {
    hide InPlace, IsReady, Scheduling.Find;
    RemovedInPlace(s, Wait(s, m, inherited), s.current);
  }

  lemma WaitJoins(s: State, m: MutexId, inherited: bool)
    requires Sized(s) && Running(s) && m in s.mutex && !s.tcb[s.current].eventInUse && s.current !in s.mutex[m].waiters
    ensures var x, t := Wait(s, m, inherited).mutex[m], s.current;
            && x == s.mutex[m].(waiters := x.waiters) && Queued(s.tcb, s.mutex[m].waiters, x.waiters, t)
            && t in x.waiters && |x.waiters| == |s.mutex[m].waiters| + 1
            && Scheduling.DropTask(x.waiters, t) == s.mutex[m].waiters
  {
    hide Scheduling.DropTask, Scheduling.Find;
    var w := s.mutex[m].waiters;
    var v := EventsOf(s, w);
    var k := Rings.InsertPosition(v, s.tcb[s.current].event);
    assert forall i :: 0 <= i < |w| ==> w[i] in s.tcb && v[i] == s.tcb[w[i]].event;
    assert QueuedAt(s.tcb, w, w[..k] + [s.current] + w[k..], s.current, k);
    DropUndoesSplice(w, k, s.current);
    assert (w[..k] + [s.current] + w[k..])[k] == s.current;
  }

  lemma HeldIsTaken(s: State, m: MutexId)
    requires Sized(s) && m in s.mutex && s.mutex[m].holder.Some?
    ensures s.mutex[m].count == 0
  {}

  /** A task blocks on a mutex: the holder is at its priority at least. */
  lemma AwaitEffect(s: State, m: MutexId, h: Task)
    requires Inv(s) && Running(s) && m in s.mutex && !s.tcb[s.current].eventInUse && s.mutex[m].holder == Some(h)
    ensures Enabled(s, Await(m)) && h in s.tcb && s.current in s.tcb
    ensures var r, t := Step(s, Await(m)), s.current;
            && r.current == t && r.attempt == s.attempt[t := Attempt(m, s.tcb[h].base < s.tcb[t].prio)]
            && r.tcb.Keys == s.tcb.Keys && (forall q :: q in s.tcb && q != h ==> r.tcb[q] == s.tcb[q])
            && (s.tcb[h].prio < s.tcb[t].prio ==> Raised(s.tcb[h], r.tcb[h], s.tcb[t].prio))
            && (s.tcb[h].prio >= s.tcb[t].prio ==> r.tcb == s.tcb)
            && m in r.mutex && r.mutex == s.mutex[m := s.mutex[m].(waiters := r.mutex[m].waiters)]
            && Queued(r.tcb, s.mutex[m].waiters, r.mutex[m].waiters, t)
            && t in r.mutex[m].waiters && Scheduling.DropTask(r.mutex[m].waiters, t) == s.mutex[m].waiters
            && |r.mutex[m].waiters| == |s.mutex[m].waiters| + 1
            && ReadyTasks(r) == ReadyTasks(s) - {t}
  {
    hide Sized, Running, InPlace, Inherited, Waiting, IsReady, Retune, Wait, Scheduling.DropTask, Queued;
    HeldIsTaken(s, m);
    CurrentKnown(s);
    HolderHolds(s, m);
    BlockOnKeepsInv(s, m);
    InheritKeepsInv(s, h);
    BaseIsBelow(s, h);
    WaitEffect(Inherit(s, h), m, InheritOccurs(s, h));
  }

  lemma BaseIsBelow(s: State, t: Task)
    requires Sized(s) && Inherited(s) && t in s.tcb
    ensures s.tcb[t].base <= s.tcb[t].prio
  {}

  predicate Raised(c: Tcb, d: Tcb, p: nat)
    requires p < Scheduling.MAX_PRIORITIES
  {
    d == c.(prio := p, event := if c.eventInUse then c.event else EventValue(p))
  }

  lemma RetuneEffect(s: State, t: Task, p: nat, b: nat, e: nat)
    requires Sized(s) && InPlace(s) && t in s.tcb
    requires p < Scheduling.MAX_PRIORITIES && b < Scheduling.MAX_PRIORITIES && 1 <= e <= Scheduling.MAX_PRIORITIES
    ensures ReadyTasks(Retune(s, t, p, b, e)) == ReadyTasks(s)
  {
    hide Retune, InPlace, Sized, IsReady;
    RetuneInPlace(s, t, p, b, e);
  }

  /** xTaskPriorityDisinherit: the held count goes down, and with the last mutex goes what has been
  inherited, and only with the last. */
  lemma ReleaseEffect(s: State, m: MutexId)
    requires Inv(s) && Running(s) && m in s.mutex && s.mutex[m].holder == Some(s.current) && !s.tcb[s.current].eventInUse
    ensures s.current in s.tcb && s.tcb[s.current].held > 0
    ensures var r, t, c := Release(s, m), s.current, s.tcb[s.current];
            && r.current == t && r.attempt == s.attempt
            && r.mutex == s.mutex[m := Mutex(1, None, s.mutex[m].waiters)]
            && r.tcb.Keys == s.tcb.Keys && (forall q :: q in s.tcb && q != t ==> r.tcb[q] == s.tcb[q])
            && r.tcb[t] == Tcb(if c.held == 1 then c.base else c.prio, c.base, c.held - 1, r.tcb[t].event, false)
            && r.tcb[t].event == (if c.held == 1 && c.prio != c.base then EventValue(c.base) else c.event)
            && ReadyTasks(r) == ReadyTasks(s)
  {
    hide Inherited, InPlace, IsReady, Waiting, Sized, Retune, HeldBy;
    HolderHolds(s, m);
    CurrentKnown(s);
    var f, b := Freed(s, m), s.tcb[s.current].base;
    SameReady(s, f);
    assert ReadyTasks(f) == ReadyTasks(s);
    RetuneEffect(f, s.current, b, b, EventValue(b));
  }

  /** Giving back a mutex: it is free, and exactly the first of those who wait becomes ready. */
  lemma GiveEffect(s: State, m: MutexId)
    requires Inv(s) && Running(s) && m in s.mutex && s.mutex[m].holder == Some(s.current) && !s.tcb[s.current].eventInUse
    ensures Enabled(s, HandBack(m)) && s.current in s.tcb && s.tcb[s.current].held > 0
    ensures var r, t, c, w := Step(s, HandBack(m)), s.current, s.tcb[s.current], s.mutex[m].waiters;
            && r.current == t && r.attempt == s.attempt
            && r.mutex == s.mutex[m := Mutex(1, None, if w == [] then [] else w[1..])]
            && ReadyTasks(r) == ReadyTasks(s) + (if w == [] then {} else {w[0]})
            && r.tcb.Keys == s.tcb.Keys && (forall q :: q in s.tcb && q != t ==> r.tcb[q] == s.tcb[q])
            && r.tcb[t] == Tcb(if c.held == 1 then c.base else c.prio, c.base, c.held - 1, r.tcb[t].event, false)
            && r.tcb[t].event == (if c.held == 1 && c.prio != c.base then EventValue(c.base) else c.event)
  {
    hide Inherited, InPlace, IsReady, Waiting, Sized, Running, Release, ReadyTasks, Unwait;
    ReleaseEffect(s, m);
    ReleaseKeepsInv(s, m);
    var f, w := Release(s, m), s.mutex[m].waiters;
    if w != [] {
      assert w[0] in w;
      UnwaitEffect(f, m, w[0]);
    }
  }

  lemma UnwaitEffect(s: State, m: MutexId, t: Task)
    requires Inv(s) && m in s.mutex && t in s.mutex[m].waiters
    ensures var r := Unwait(s, m, t);
            && r.tcb == s.tcb && r.current == s.current && r.attempt == s.attempt
            && r.mutex == s.mutex[m := s.mutex[m].(waiters := Scheduling.DropTask(s.mutex[m].waiters, t))]
            && ReadyTasks(r) == ReadyTasks(s) + {t}
  {
    hide InPlace, Inherited, HeldBy, Scheduling.DropTask, IsReady;
    UnwaitAdds(s, m, t);
    AddedInPlace(s, Unwait(s, m, t), t);
  }

  /** Giving up: if the call had lent its priority, and the mutex is the only one its holder holds, the
  holder falls back to the greater of its base priority and that of the first who waits. */
  lemma AbandonEffect(s: State)
    requires Inv(s) && Running(s) && s.current in s.attempt && CanAbandon(s, s.attempt[s.current])
    ensures Enabled(s, Abandon)
    ensures var r, a := Step(s, Abandon), s.attempt[s.current];
            && r.current == s.current && r.mutex == s.mutex && r.attempt == s.attempt - {s.current}
            && ReadyTasks(r) == ReadyTasks(s) && r.tcb.Keys == s.tcb.Keys
            && forall q :: q in s.tcb ==>
                 if a.inherited && s.mutex[a.mutex].holder == Some(q) && s.tcb[q].held == 1 then
                   FallsBack(s.tcb[q], r.tcb[q], HighestWaiting(s, a.mutex))
                 else
                   r.tcb[q] == s.tcb[q]
  {
    hide Inherited, InPlace, IsReady, Waiting, Retune, HeldBy, HighestWaiting, Running;
    var a := s.attempt[s.current];
    var holder, p := s.mutex[a.mutex].holder, HighestWaiting(s, a.mutex);
    if a.inherited && holder.Some? {
      var b := s.tcb[holder.value].base;
      RetuneEffect(s, holder.value, Max(b, p), b, EventValue(Max(b, p)));
    }
    var g := GiveUp(s, holder);
    assert ReadyTasks(g) == ReadyTasks(s) by { AttemptsAside(s, holder); }
  }

  /** The calls in progress have no part in who is ready. */
  lemma AttemptsAside(s: State, holder: Option<Task>)
    requires Inv(s) && s.current in s.attempt && s.attempt[s.current].mutex in s.mutex
    requires holder.Some? ==> holder.value in s.tcb
    ensures ReadyTasks(GiveUp(s, holder)) == ReadyTasks(s)
  {
    hide Inherited, InPlace, Waiting, Retune, HeldBy, HighestWaiting;
    var a := s.attempt[s.current];
    if a.inherited && holder.Some? {
      var p := Max(s.tcb[holder.value].base, HighestWaiting(s, a.mutex));
      RetuneEffect(s, holder.value, p, s.tcb[holder.value].base, EventValue(p));
    }
  }

  predicate FallsBack(c: Tcb, d: Tcb, highest: nat)
    requires c.base < Scheduling.MAX_PRIORITIES && highest < Scheduling.MAX_PRIORITIES
  {
    var p := Max(c.base, highest);
    d == c.(prio := p, event := if c.eventInUse || c.prio == p then c.event else EventValue(p))
  }

  /** vTaskPrioritySet: a task that runs at its base priority gets the new one, and one that has
  inherited keeps what it has inherited if that is more. */
  lemma SetPriorityEffect(s: State, t: Task, b: nat)
    requires Inv(s) && Running(s) && t in s.tcb && b < Scheduling.MAX_PRIORITIES
    ensures Enabled(s, SetPriority(t, b))
    ensures var r, c := Step(s, SetPriority(t, b)), s.tcb[t];
            && r.current == s.current && r.mutex == s.mutex && r.attempt == s.attempt
            && ReadyTasks(r) == ReadyTasks(s)
            && r.tcb.Keys == s.tcb.Keys && (forall q :: q in s.tcb && q != t ==> r.tcb[q] == s.tcb[q])
            && r.tcb[t] == Tcb(if c.prio == c.base then b else Max(c.prio, b), b, c.held, r.tcb[t].event, c.eventInUse)
            && r.tcb[t].event == (if c.eventInUse || b == c.base then c.event else EventValue(b))
  {
    hide Inherited, InPlace, IsReady, Waiting, Retune, HeldBy;
    BaseIsBelow(s, t);
    var c := s.tcb[t];
    if c.base != b {
      RetuneEffect(s, t, if c.base == c.prio || b > c.prio then b else c.prio, b, EventValue(b));
    }
  }

  /** uxTaskResetEventItemValue. */
  lemma ResetEffect(s: State)
    requires Inv(s) && Running(s)
    ensures Enabled(s, ResetItem) && s.current in s.tcb
    ensures var r, c := Step(s, ResetItem), s.tcb[s.current];
            && r == s.(tcb := r.tcb) && ReadyTasks(r) == ReadyTasks(s) && r.tcb.Keys == s.tcb.Keys
            && (forall q :: q in s.tcb && q != s.current ==> r.tcb[q] == s.tcb[q])
            && c.prio < Scheduling.MAX_PRIORITIES
            && r.tcb[s.current] == Tcb(c.prio, c.base, c.held, EventValue(c.prio), false)
  {
    hide Inherited, InPlace, IsReady, Waiting, HeldBy;
    SameReady(s, ResetEvent(s));
  }

  // ---------------------------------------------------------------- the highest who waits

  /** What prvGetDisinheritPriorityAfterTimeout reads off the first item is the highest priority of all
  who wait, if the list is in order and the items are those of the priorities. */
  lemma HighestWaitingIs(s: State, m: MutexId)
    requires Sized(s) && m in s.mutex && (forall t :: t in s.mutex[m].waiters ==> t in s.tcb)
    requires Rings.Ascending(EventsOf(s, s.mutex[m].waiters))
    requires forall t :: t in s.mutex[m].waiters ==> s.tcb[t].event == Scheduling.MAX_PRIORITIES - s.tcb[t].prio
    ensures var w, p := s.mutex[m].waiters, HighestWaiting(s, m);
            && (w == [] ==> p == 0)
            && (w != [] ==> exists t :: t in w && s.tcb[t].prio == p)
            && (forall t :: t in w ==> s.tcb[t].prio <= p)
  {
    var w := s.mutex[m].waiters;
    if w != [] {
      assert w[0] in w;
      forall t | t in w ensures s.tcb[t].event >= s.tcb[w[0]].event {
        var i :| 0 <= i < |w| && w[i] == t;
        assert EventsOf(s, w)[0] <= EventsOf(s, w)[i];
      }
    }
  }

  /** It is the highest priority of those who wait. */
  ghost predicate TellsHighest(s: State, m: MutexId)
    requires Sized(s) && m in s.mutex
  {
    var w, p := s.mutex[m].waiters, HighestWaiting(s, m);
    w != [] ==> (exists t :: t in w && s.tcb[t].prio == p) && forall t :: t in w ==> s.tcb[t].prio <= p
  }

  /** If a priority is changed while its task waits, the item changes and the list does not. What is read
  is still right if and only if the task does not wait here, or is not the first and does not rise above
  the first, or is the first and gets just the new priority, which no other is above. */
  lemma LateChangeIsSeen(s: State, m: MutexId, t: Task, b: nat)
    requires Inv(s) && Running(s) && m in s.mutex && t in s.tcb && b < Scheduling.MAX_PRIORITIES
    requires s.mutex[m].waiters != [] && HighestWaiting(s, m) == s.tcb[s.mutex[m].waiters[0]].prio
    requires TellsHighest(s, m)
    ensures Enabled(s, SetPriority(t, b)) && Inv(Step(s, SetPriority(t, b))) && m in Step(s, SetPriority(t, b)).mutex
    ensures var w, c := s.mutex[m].waiters, s.tcb[t];
            var p := if c.prio == c.base then b else Max(c.prio, b);
            TellsHighest(Step(s, SetPriority(t, b)), m) <==>
              || t !in w
              || b == c.base
              || (t != w[0] && p <= s.tcb[w[0]].prio)
              || (t == w[0] && p == b && forall q :: q in w && q != t ==> q in s.tcb && s.tcb[q].prio <= b)
  {
    WaitersKnown(s);
    hide InPlace, Inherited, Waiting, IsReady, Step, ReadyTasks;
    SetPriorityEffect(s, t, b);
    var w, r := s.mutex[m].waiters, Step(s, SetPriority(t, b));
    assert w[0] in w;
    if t in w { assert !s.tcb[t].eventInUse; }
  }

  /** So a task other than the first that is set above the first is not seen. */
  lemma LateChangeIsNotSeen(s: State, m: MutexId, t: Task, b: nat)
    requires Inv(s) && Running(s) && m in s.mutex && t in s.mutex[m].waiters && t != s.mutex[m].waiters[0]
    requires HighestWaiting(s, m) < b < Scheduling.MAX_PRIORITIES
    ensures t in s.tcb && Enabled(s, SetPriority(t, b))
    ensures var r := Step(s, SetPriority(t, b));
            && m in r.mutex && t in r.mutex[m].waiters && t in r.tcb
            && r.tcb[t].prio > HighestWaiting(r, m) == HighestWaiting(s, m)
  {
    WaitersKnown(s);
    hide InPlace, Inherited, Waiting, IsReady, Step, ReadyTasks;
    SetPriorityEffect(s, t, b);
    var w := s.mutex[m].waiters;
    assert w[0] in w;
  }

  // ---------------------------------------------------------------- who takes the steps

  /** The step is one that task t takes itself. */
  predicate OwnStep(s: State, op: Op, t: Task) {
    s.current == t && !op.TimeOut? && !op.WakeUp? && !op.SwitchTo?
  }

  /** Task t takes no step of its own throughout the run. */
  ghost predicate Passive(s: State, ops: seq<Op>, t: Task)
    requires Inv(s) && Legal(s, ops)
    decreases |ops|
  {
    ops == [] || (!OwnStep(s, ops[0], t) && Passive(Step(s, ops[0]), ops[1..], t))
  }

  /** No ready task is above t. */
  ghost predicate Highest(s: State, t: Task)
    requires Sized(s)
  {
    t in s.tcb && forall q :: q in ReadyTasks(s) ==> s.tcb[q].prio <= s.tcb[t].prio
  }

  /** Every switch of the run takes up a ready task of the highest priority, as vTaskSwitchContext
  does. */
  ghost predicate Scheduled(s: State, ops: seq<Op>)
    requires Inv(s) && Legal(s, ops)
    decreases |ops|
  {
    ops == [] || ((ops[0].SwitchTo? ==> Highest(s, ops[0].t)) && Scheduled(Step(s, ops[0]), ops[1..]))
  }

  lemma {:induction false} ScheduledAppends(s: State, a: seq<Op>, b: seq<Op>)
    requires Inv(s) && Legal(s, a) && Scheduled(s, a) && Legal(Run(s, a), b) && Scheduled(Run(s, a), b)
    ensures Legal(s, a + b) && Scheduled(s, a + b)
    decreases |a|
  {
    hide Inv, Enabled, Step, Highest;
    RunAppends(s, a, b);
    if a == [] {
      assert a + b == b;
    } else {
      ScheduledAppends(Step(s, a[0]), a[1..], b);
      assert (a + b)[1..] == a[1..] + b;
    }
  }

  lemma {:induction false} PassiveAppends(s: State, a: seq<Op>, b: seq<Op>, t: Task)
    requires Inv(s) && Legal(s, a) && Passive(s, a, t) && Legal(Run(s, a), b) && Passive(Run(s, a), b, t)
    ensures Legal(s, a + b) && Passive(s, a + b, t)
    decreases |a|
  {
    hide Inv, Enabled, Step, OwnStep;
    RunAppends(s, a, b);
    if a == [] {
      assert a + b == b;
    } else {
      PassiveAppends(Step(s, a[0]), a[1..], b, t);
      assert (a + b)[1..] == a[1..] + b;
    }
  }

  lemma OneStep(s: State, op: Op)
    requires Inv(s) && Enabled(s, op)
    ensures Legal(s, [op]) && Run(s, [op]) == Step(s, op)
    ensures Scheduled(s, [op]) <==> (op.SwitchTo? ==> Highest(s, op.t))
    ensures forall t :: Passive(s, [op], t) <==> !OwnStep(s, op, t)
  {
    hide Inv, Enabled, Step, Highest, OwnStep;
    assert [op][1..] == [];
  }

  /** The run is legal, the scheduler takes part in it, and it ends in r. */
  ghost predicate Leads(s: State, ops: seq<Op>, r: State)
    requires Inv(s)
  {
    Legal(s, ops) && Scheduled(s, ops) && Run(s, ops) == r
  }

  lemma LeadsOn(s: State, ops: seq<Op>, r: State, op: Op)
    requires Inv(s) && Inv(r) && Leads(s, ops, r) && Enabled(r, op) && (op.SwitchTo? ==> Highest(r, op.t))
    ensures Leads(s, ops + [op], Step(r, op))
  {
    hide Inv, Enabled, Step, Legal, Run, Scheduled, Highest;
    OneStep(r, op);
    RunAppends(s, ops, [op]);
    ScheduledAppends(s, ops, [op]);
  }

  lemma LeadsFurther(s: State, a: seq<Op>, m: State, b: seq<Op>, r: State)
    requires Inv(s) && Inv(m) && Leads(s, a, m) && Leads(m, b, r)
    ensures Leads(s, a + b, r)
  {
    hide Inv, Legal, Run, Scheduled;
    RunAppends(s, a, b);
    ScheduledAppends(s, a, b);
  }

  lemma NothingYet(s: State)
    requires Inv(s)
    ensures Leads(s, [], s)
  {}

  lemma RunsReady(s: State)
    requires Inv(s) && Running(s)
    ensures s.current in ReadyTasks(s) && ReadyTasks(s) <= s.tcb.Keys
  {}

  lemma AloneInList(w: seq<Task>, t: Task)
    requires |w| == 1 && t in w
    ensures w == [t]
  {}

  lemma StillRuns(s: State, r: State)
    requires Inv(s) && Inv(r) && Running(s) && r.current == s.current && ReadyTasks(s) <= ReadyTasks(r)
    ensures Running(r)
  {
    RunsReady(s);
  }
}
