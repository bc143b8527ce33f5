/** Priority inheritance as the kernel runs it: task control blocks, ready lists and mutexes updated
in place. Taking, blocking, giving, giving up and setting a priority are each proved to be a step of
module MutexRuns. Where a configASSERT of the source can fail, the method says when.
*/
module MutexKernel {
  import opened Basics
  import opened Rings
  import opened Scheduling
  import opened Mutexes
  import opened MutexRuns

  ghost predicate ListsWellFormed(ready: seq<Ring<Task>>) {
    |ready| == MAX_PRIORITIES && forall p :: 0 <= p < MAX_PRIORITIES ==> ready[p].WellFormed()
  }

  /** The ready lists after `t` has moved from the list of `used`, if it was there, to that of `p`. */
  ghost function Requeued(ready: seq<Ring<Task>>, t: Task, used: nat, p: nat): seq<Ring<Task>>
    requires ListsWellFormed(ready) && used < MAX_PRIORITIES && p < MAX_PRIORITIES
  {
    if t in ready[used].items then
      var left := ready[used := ready[used].RemoveAt(Find(ready[used].items, t))];
      left[p := left[p].InsertEnd(t)]
    else
      ready
  }

  /** What the C code does to a task control block and the ready lists is what Retune says. */
  lemma RequeuedIsRetuned(s: State, r: State, t: Task, p: nat, b: nat, e: nat)
    requires Sized(s) && t in s.tcb && p < MAX_PRIORITIES && b < MAX_PRIORITIES && 1 <= e <= MAX_PRIORITIES
    requires r == s.(tcb := r.tcb, ready := r.ready, top := r.top)
    requires var c := s.tcb[t];
             r.tcb == s.tcb[t := Tcb(p, b, c.held, if c.eventInUse then c.event else e, c.eventInUse)]
    requires r.ready == Requeued(s.ready, t, s.tcb[t].prio, p)
    requires r.top == if t in s.ready[s.tcb[t].prio].items then Max(s.top, p) else s.top
    ensures r == Retune(s, t, p, b, e)
  {
    assert r.tcb == Retune(s, t, p, b, e).tcb;
  }

  /** Disinheriting does not look at the mutexes. */
  lemma DisinheritIgnoresMutexes(s: State, mutex: map<MutexId, Mutex>)
    requires Sized(s) && Sized(s.(mutex := mutex))
    ensures Disinherit(s.(mutex := mutex)) == Disinherit(s).(mutex := mutex)
  {
    hide Sized, Retune;
    CurrentKnown(s);
    var b := s.tcb[s.current].base;
    RetuneIgnoresMutexes(s, mutex, s.current, b, b, EventValue(b));
  }

  lemma RetuneIgnoresMutexes(s: State, mutex: map<MutexId, Mutex>, t: Task, p: nat, b: nat, e: nat)
    requires Sized(s) && Sized(s.(mutex := mutex))
    requires t in s.tcb && p < MAX_PRIORITIES && b < MAX_PRIORITIES && 1 <= e <= MAX_PRIORITIES
    ensures Retune(s.(mutex := mutex), t, p, b, e) == Retune(s, t, p, b, e).(mutex := mutex)
  {
    hide Sized;
  }

  lemma InheritKeepsItem(s: State, h: Task)
    requires Sized(s) && h in s.tcb
    ensures var r := Inherit(s, h);
            s.current in r.tcb && r.tcb[s.current].eventInUse == s.tcb[s.current].eventInUse
            && r.mutex == s.mutex && r.current == s.current
  {}

  class Tasks {
    var tcb: map<Task, Tcb>
    var ready: seq<Ring<Task>>
    var top: nat
    var mutex: map<MutexId, Mutex>
    var current: Task
    var attempt: map<Task, Attempt>

    ghost function Abs(): State
      reads this
    {
      State(tcb, ready, top, mutex, current, attempt)
    }

    /** prvAddTaskToReadyList. */
    method AddToReadyList(t: Task)
      requires ListsWellFormed(ready) && t in tcb && tcb[t].prio < MAX_PRIORITIES
      modifies this`ready, this`top
      ensures ready == old(ready)[tcb[t].prio := old(ready)[tcb[t].prio].InsertEnd(t)]
      ensures top == Max(old(top), tcb[t].prio)
    {
      var p := tcb[t].prio;
      if p > top {
        top := p;
      }
      ready := ready[p := ready[p].InsertEnd(t)];
    }

    /** listSET_LIST_ITEM_VALUE on the event list item, unless it is in use for something else. */
    method SetEventItem(t: Task, p: nat)
      requires t in tcb && p < MAX_PRIORITIES
      modifies this`tcb
      ensures tcb == old(tcb)[t := old(tcb)[t].(event := if old(tcb)[t].eventInUse then old(tcb)[t].event else EventValue(p))]
    {
      if !tcb[t].eventInUse {
        tcb := tcb[t := tcb[t].(event := MAX_PRIORITIES - p)];
      }
    }

    /** Take `t` off the ready list of `used`, if it is there, and put it on the list of its new
    priority. */
    method MoveReady(t: Task, used: nat)
      requires ListsWellFormed(ready) && used < MAX_PRIORITIES && t in tcb && tcb[t].prio < MAX_PRIORITIES
      modifies this`ready, this`top
      ensures ready == Requeued(old(ready), t, used, tcb[t].prio)
      ensures top == if old(t in ready[used].items) then Max(old(top), tcb[t].prio) else old(top)
    {
      if t in ready[used].items {
        ready := ready[used := ready[used].RemoveAt(Find(ready[used].items, t))];
        AddToReadyList(t);
      }
    }

    /** xTaskPriorityInherit. */
    method PriorityInherit(h: Task) returns (occurred: bool)
      requires Sized(Abs()) && h in tcb
      modifies this`tcb, this`ready, this`top
      ensures Abs() == Inherit(old(Abs()), h)
      ensures occurred == InheritOccurs(old(Abs()), h)
    {
      hide Retune, Requeued;
      occurred := false;
      var p := tcb[current].prio;
      if tcb[h].prio < p {
        SetEventItem(h, p);
        var used := tcb[h].prio;
        tcb := tcb[h := tcb[h].(prio := p)];
        MoveReady(h, used);
        RequeuedIsRetuned(old(Abs()), Abs(), h, p, tcb[h].base, EventValue(p));
        occurred := true;
      } else if tcb[h].base < p {
        occurred := true;
      }
    }

    /** xTaskPriorityDisinherit, with its two assertions: the holder is the running task, and its
    held count is not 0. */
    method PriorityDisinherit(holder: Option<Task>) returns (asserted: bool, switch: bool)
      requires Sized(Abs()) && Running(Abs()) && !tcb[current].eventInUse
      requires holder.Some? ==> holder.value in tcb
      modifies this`tcb, this`ready, this`top
      ensures asserted <==> holder.None? || (holder.value == current && old(tcb[current].held) > 0)
      ensures holder.None? || !asserted ==> Abs() == old(Abs()) && !switch
      ensures holder.Some? && asserted ==>
        var s := old(Abs());
        && Abs() == Disinherit(s.(tcb := s.tcb[current := s.tcb[current].(held := s.tcb[current].held - 1)]))
        && switch == (s.tcb[current].prio != s.tcb[current].base && s.tcb[current].held == 1)
    {
      hide Retune, Requeued;
      switch := false;
      if holder.None? {
        return true, false;
      }
      if holder.value != current || tcb[current].held == 0 {
        return false, false;
      }
      asserted := true;
      tcb := tcb[current := tcb[current].(held := tcb[current].held - 1)];
      ghost var s := Abs();
      if tcb[current].prio != tcb[current].base {
        if tcb[current].held == 0 {
          var used, b := tcb[current].prio, tcb[current].base;
          tcb := tcb[current := tcb[current].(prio := b, event := MAX_PRIORITIES - b)];
          MoveReady(current, used);
          RequeuedIsRetuned(s, Abs(), current, b, b, EventValue(b));
          switch := true;
        }
      }
    }

    /** vTaskPriorityDisinheritAfterTimeout, with its two assertions: the holder's held count is not
    0, and a holder that falls back is not the running task. */
    method PriorityDisinheritAfterTimeout(holder: Option<Task>, highest: nat) returns (asserted: bool)
      requires Sized(Abs()) && highest < MAX_PRIORITIES
      requires holder.Some? ==> holder.value in tcb
      modifies this`tcb, this`ready, this`top
      ensures asserted <==> (holder.Some? ==>
        var c := old(tcb[holder.value]);
        c.held > 0 && (c.prio != Max(c.base, highest) && c.held == 1 ==> holder.value != current))
      ensures holder.None? || !asserted ==> Abs() == old(Abs())
      ensures holder.Some? && asserted ==> Abs() == DisinheritAfterTimeout(old(Abs()), holder.value, highest)
    {
      hide Retune, Requeued;
      if holder.None? {
        return true;
      }
      var h := holder.value;
      if tcb[h].held == 0 {
        return false;
      }
      var p := tcb[h].base;
      if tcb[h].base < highest {
        p := highest;
      }
      if tcb[h].prio != p {
        if tcb[h].held == 1 {
          if h == current {
            return false;
          }
          var used := tcb[h].prio;
          tcb := tcb[h := tcb[h].(prio := p)];
          SetEventItem(h, p);
          MoveReady(h, used);
          RequeuedIsRetuned(old(Abs()), Abs(), h, p, tcb[h].base, EventValue(p));
        }
      }
      asserted := true;
    }

    /** vTaskPrioritySet, with the switch that it asks for. */
    method PrioritySet(t: Task, b: nat) returns (yieldRequired: bool)
      requires Sized(Abs()) && t in tcb && b < MAX_PRIORITIES
      modifies this`tcb, this`ready, this`top
      ensures Abs() == Mutexes.PrioritySet(old(Abs()), t, b)
      ensures yieldRequired == SetAsks(old(Abs()), t, b)
    {
      hide Retune, Requeued;
      yieldRequired := false;
      if tcb[t].base != b {
        if b > tcb[t].base {
          if t != current {
            if b > tcb[current].prio {
              yieldRequired := true;
            }
          }
        } else if t == current {
          yieldRequired := true;
        }
        var used := tcb[t].prio;
        if tcb[t].base == tcb[t].prio || b > tcb[t].prio {
          tcb := tcb[t := tcb[t].(prio := b)];
        }
        tcb := tcb[t := tcb[t].(base := b)];
        SetEventItem(t, b);
        MoveReady(t, used);
        RequeuedIsRetuned(old(Abs()), Abs(), t, tcb[t].prio, b, EventValue(b));
      }
    }

    /** The path of xQueueSemaphoreTake on which the mutex is free, with pvTaskIncrementMutexHeldCount. */
    method TakeMutex(m: MutexId)
      requires Sized(Abs()) && m in mutex && mutex[m].count > 0
      modifies this`tcb, this`mutex, this`attempt
      ensures Abs() == Take(old(Abs()), m)
    {
      mutex := mutex[m := mutex[m].(count := mutex[m].count - 1)];
      tcb := tcb[current := tcb[current].(held := tcb[current].held + 1)];
      mutex := mutex[m := mutex[m].(holder := Some(current))];
      attempt := attempt - {current};
      assert mutex == Take(old(Abs()), m).mutex;
    }

    /** xTaskRemoveFromEventList on a waiting list, or the expiry of a waiter's block time. */
    method WakeWaiter(m: MutexId, t: Task)
      requires Sized(Abs()) && m in mutex && t in mutex[m].waiters
      modifies this`mutex, this`ready, this`top
      ensures Abs() == Unwait(old(Abs()), m, t)
    {
      DropTaskMembers(mutex[m].waiters, t);
      mutex := mutex[m := mutex[m].(waiters := DropTask(mutex[m].waiters, t))];
      AddToReadyList(t);
    }

    /** prvCopyDataToQueue for a mutex. */
    method ReleaseMutex(m: MutexId) returns (asserted: bool, switch: bool)
      requires Sized(Abs()) && Running(Abs()) && m in mutex && mutex[m].holder.Some?
      requires tcb[mutex[m].holder.value].held > 0 && !tcb[current].eventInUse
      modifies this`tcb, this`mutex, this`ready, this`top
      ensures asserted <==> old(mutex[m].holder) == Some(current)
      ensures !asserted ==> Abs() == old(Abs())
      ensures asserted ==>
        && Abs() == Release(old(Abs()), m)
        && switch == old(tcb[current].prio != tcb[current].base && tcb[current].held == 1)
    {
      hide Disinherit, Running;
      asserted, switch := PriorityDisinherit(mutex[m].holder);
      if asserted {
        ghost var s := old(Abs());
        ghost var f := s.(tcb := s.tcb[current := s.tcb[current].(held := s.tcb[current].held - 1)]);
        mutex := mutex[m := mutex[m].(holder := None)];
        mutex := mutex[m := mutex[m].(count := mutex[m].count + 1)];
        assert f.(mutex := mutex) == Freed(s, m);
        DisinheritIgnoresMutexes(f, mutex);
      }
    }

    /** Giving a mutex: a free one is refused as a full queue; a held one can be given by its holder
    only, by assertion, and the first waiter is woken. */
    method GiveMutex(m: MutexId) returns (given: bool, asserted: bool, yieldRequired: bool)
      requires Mutexes.Inv(Abs()) && Running(Abs()) && m in mutex && !tcb[current].eventInUse
      modifies this`tcb, this`mutex, this`ready, this`top
      ensures given <==> old(mutex[m].holder) == Some(current)
      ensures asserted <==> given || old(mutex[m].holder).None?
      ensures !given ==> Abs() == old(Abs())
      ensures given ==> Enabled(old(Abs()), HandBack(m)) && Abs() == Step(old(Abs()), HandBack(m))
      ensures given ==> old(tcb[current].held) > 0 && yieldRequired == GiveAsks(old(Abs()), m)
    {
      hide InPlace, Waiting, Inherited, Release, Unwait;
      if mutex[m].count > 0 {
        return false, true, false;
      }
      HolderHolds(Abs(), m);
      var woken := mutex[m].waiters;
      var switch;
      asserted, switch := ReleaseMutex(m);
      given, yieldRequired := asserted, false;
      if given {
        ReleaseKeepsInv(old(Abs()), m);
        if woken != [] {
          assert woken[0] in woken;
          WakeWaiter(m, woken[0]);
          yieldRequired := tcb[woken[0]].prio > tcb[current].prio;
        } else if switch {
          yieldRequired := true;
        }
      }
    }

    /** vTaskPlaceOnEventList on the waiting list of a mutex, for the rest of a blocking take. */
    method WaitFor(m: MutexId, inherited: bool)
      requires Sized(Abs()) && Running(Abs()) && m in mutex && !tcb[current].eventInUse
      modifies this`mutex, this`ready, this`attempt
      ensures Abs() == Wait(old(Abs()), m, inherited)
    {
      var w, p := mutex[m].waiters, tcb[current].prio;
      var values := EventsOf(State(tcb, ready, top, mutex, current, attempt), w);
      var k := InsertPosition(values, tcb[current].event);
      mutex := mutex[m := mutex[m].(waiters := w[..k] + [current] + w[k..])];
      ready := ready[p := ready[p].RemoveAt(Find(ready[p].items, current))];
      attempt := attempt[current := Attempt(m, inherited)];
    }

    /** The paths of xQueueSemaphoreTake up to the point where the task has the mutex or blocks. */
    method Acquire(m: MutexId) returns (taken: bool)
      requires Mutexes.Inv(Abs()) && Running(Abs()) && m in mutex && !tcb[current].eventInUse
      modifies this`tcb, this`mutex, this`ready, this`top, this`attempt
      ensures taken == old(mutex[m].holder).None?
      ensures var op := if taken then Op.Acquire(m) else Await(m);
              Enabled(old(Abs()), op) && Abs() == Step(old(Abs()), op)
    {
      hide InPlace, Waiting, Inherited, Wait, Retune, Running;
      if mutex[m].count > 0 {
        TakeMutex(m);
        return true;
      }
      BlockOnKeepsInv(Abs(), m);
      var inherited := PriorityInherit(mutex[m].holder.value);
      InheritKeepsItem(old(Abs()), mutex[m].holder.value);
      WaitFor(m, inherited);
      taken := false;
    }

    /** prvGetDisinheritPriorityAfterTimeout. */
    method PriorityAfterTimeout(m: MutexId) returns (p: nat)
      requires Sized(Abs()) && m in mutex
      ensures p == HighestWaiting(Abs(), m)
    {
      if |mutex[m].waiters| > 0 {
        var first := mutex[m].waiters[0];
        assert first in mutex[m].waiters;
        p := MAX_PRIORITIES - tcb[first].event;
      } else {
        p := 0;
      }
    }

    /** The end of xQueueSemaphoreTake once the block time has run out: the call gives up exactly if
    that is a step of module MutexRuns, and otherwise trips the assertion. */
    method AbandonTake() returns (asserted: bool)
      requires Mutexes.Inv(Abs()) && Running(Abs()) && current in attempt && attempt[current].mutex in mutex
      modifies this`tcb, this`ready, this`top, this`attempt
      ensures asserted <==> Enabled(old(Abs()), Abandon)
      ensures asserted ==> Abs() == Step(old(Abs()), Abandon)
      ensures !asserted ==> Abs() == old(Abs())
    {
      hide DisinheritAfterTimeout, InPlace, Waiting, Inherited, Running;
      var a := attempt[current];
      var holder := mutex[a.mutex].holder;
      asserted := true;
      if a.inherited {
        var p := PriorityAfterTimeout(a.mutex);
        if holder.Some? { HolderHolds(Abs(), a.mutex); }
        asserted := PriorityDisinheritAfterTimeout(holder, p);
      }
      if asserted {
        attempt := attempt - {current};
      }
    }
  }
}
