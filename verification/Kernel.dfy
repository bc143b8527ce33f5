/** The scheduler of FreeRtos/kernel/tasks.c as it runs: file-level variables updated in place.

Each method is proved to take the state where the functions of module Scheduling take it, so
what module SchedulerRuns proves of every run holds of this code.
*/
module Kernel {
  import opened Basics
  import opened Rings
  import opened Scheduling

  class Scheduler {
    var tick: nat
    var overflows: nat
    var pended: nat
    var suspended: nat
    var delayed: seq<Sleeper>
    var overflow: seq<Sleeper>
    var forever: seq<Task>
    var pending: seq<Task>
    var waiting: set<Task>
    var ready: seq<Ring<Task>>
    var top: nat
    var prio: map<Task, nat>
    var current: Task
    var yieldPending: bool
    var nextUnblock: nat

    ghost function Abs(): Sched
      reads this
    {
      Sched(tick, overflows, pended, suspended, delayed, overflow, forever, pending, waiting,
            ready, top, prio, current, yieldPending, nextUnblock)
    }

    /** prvAddTaskToReadyList. */
    method AddTaskToReadyList(t: Task)
      requires Shape(Abs()) && t in prio
      modifies this`ready, this`top
      ensures Abs() == AddReady(old(Abs()), t)
    {
      var p := prio[t];
      if p > top {
        top := p;
      }
      ready := ready[p := ready[p].InsertEnd(t)];
    }

    /** listREMOVE_ITEM on the state item of `t`, then prvAddTaskToReadyList. */
    method WakeTask(t: Task)
      requires Shape(Abs()) && t in prio
      modifies this`delayed, this`overflow, this`forever, this`ready, this`top
      ensures Abs() == Wake(old(Abs()), t)
    {
      DropMembers(delayed, t);
      DropMembers(overflow, t);
      DropTaskMembers(forever, t);
      delayed, overflow, forever := DropSleeper(delayed, t), DropSleeper(overflow, t), DropTask(forever, t);
      AddTaskToReadyList(t);
    }

    /** prvResetNextTaskUnblockTime. */
    method ResetNextTaskUnblockTime()
      modifies this`nextUnblock
      ensures Abs() == old(Abs()).(nextUnblock := HeadValue(delayed))
    {
      if delayed == [] {
        nextUnblock := MAX_DELAY;
      } else {
        nextUnblock := delayed[0].value;
      }
    }

    /** Advance the tick count, switching the delayed lists if it wraps. */
    method AdvanceTick()
      requires Shape(Abs())
      modifies this`tick, this`delayed, this`overflow, this`overflows, this`nextUnblock
      ensures Abs() == Advance(old(Abs()))
    {
      hide Shape;
      tick := (tick + 1) % TICK_MOD;
      if tick == 0 {
        delayed, overflow := overflow, delayed;
        overflows := overflows + 1;
        ResetNextTaskUnblockTime();
      }
    }

    /** The unblocking loop of xTaskIncrementTick. */
    method UnblockDue() returns (higher: bool)
      requires Shape(Abs())
      modifies this`delayed, this`overflow, this`forever, this`ready, this`top, this`waiting, this`nextUnblock
      ensures Abs() == UnblockExpired(old(Abs()))
      ensures higher == UnblocksHigher(old(Abs()))
    {
      higher := false;
      while delayed != [] && tick >= delayed[0].value
        invariant Shape(Abs())
        invariant UnblockExpired(Abs()) == UnblockExpired(old(Abs()))
        invariant (higher || UnblocksHigher(Abs())) == UnblocksHigher(old(Abs()))
        decreases |delayed|
      {
        ghost var before := Abs();
        var t := delayed[0].task;
        WakeTask(t);
        waiting := waiting - {t};
        assert Abs() == WakeHead(before);
        if prio[t] > prio[current] {
          higher := true;
        }
      }
      ResetNextTaskUnblockTime();
    }

    /** xTaskIncrementTick. */
    method IncrementTickCount() returns (switchRequired: bool)
      requires Shape(Abs())
      modifies this
      ensures old(suspended) == 0 ==> Abs() == IncrementTick(old(Abs())) && switchRequired == TickSwitches(old(Abs()))
      ensures old(suspended) > 0 ==>
                Abs() == old(Abs()).(pended := (old(pended) + 1) % TICK_MOD) && !switchRequired
    {
      switchRequired := false;
      if suspended == 0 {
        AdvanceTick();
        if tick >= nextUnblock {
          switchRequired := UnblockDue();
        }
        if |ready[prio[current]].items| > 1 {
          switchRequired := true;
        }
        if yieldPending {
          switchRequired := true;
        }
      } else {
        pended := (pended + 1) % TICK_MOD;
      }
    }

    /** uxListRemove on the state item of the running task. */
    method UnreadyCurrent()
      requires Shape(Abs()) && current in ready[prio[current]].items
      modifies this`ready
      ensures Abs() == Unready(old(Abs()))
    {
      var p := prio[current];
      ready := ready[p := ready[p].RemoveAt(Find(ready[p].items, current))];
    }

    /** The second half of prvAddCurrentTaskToDelayedList. */
    method EnlistCurrent(ticks: nat, indefinitely: bool)
      requires Shape(Abs())
      modifies this`forever, this`overflow, this`delayed, this`nextUnblock
      ensures Abs() == Enlist(old(Abs()), ticks, indefinitely)
    {
      hide Shape, InsertSleeper;
      if ticks == MAX_DELAY && indefinitely {
        forever := forever + [current];
      } else {
        var timeToWake := WakeTime(tick, ticks);
        if timeToWake < tick {
          overflow := InsertSleeper(overflow, Sleeper(current, timeToWake));
        } else {
          delayed := InsertSleeper(delayed, Sleeper(current, timeToWake));
          if timeToWake < nextUnblock {
            nextUnblock := timeToWake;
          }
        }
      }
    }

    /** prvAddCurrentTaskToDelayedList, with the caller's insertion into an event list if there is one. */
    method BlockCurrent(ticks: nat, indefinitely: bool, onEvent: bool)
      requires Shape(Abs()) && current in ready[prio[current]].items
      modifies this
      ensures Abs() == Block(old(Abs()), ticks, indefinitely, onEvent)
    {
      UnreadyCurrent();
      EnlistCurrent(ticks, indefinitely);
      if onEvent {
        waiting := waiting + {current};
      }
    }

    /** xTaskRemoveFromEventList, for the task at the head of the event list. */
    method RemoveFromEventList(t: Task) returns (switchRequired: bool)
      requires Shape(Abs()) && t in waiting
      modifies this
      ensures Abs() == EventWake(old(Abs()), t)
      ensures switchRequired == (prio[t] > prio[current])
    {
      waiting := waiting - {t};
      if suspended == 0 {
        WakeTask(t);
      } else {
        pending := pending + [t];
      }
      switchRequired := prio[t] > prio[current];
      if switchRequired {
        yieldPending := true;
      }
    }

    /** vTaskSuspendAll. */
    method SuspendAll()
      modifies this`suspended
      ensures Abs() == old(Abs()).(suspended := old(suspended) + 1)
    {
      suspended := suspended + 1;
    }

    /** Ready the task at the head of the pending-ready list. */
    method ReadyFirstPending()
      requires Shape(Abs()) && pending != []
      modifies this
      ensures Abs() == WakePending(old(Abs()))
    {
      var t := pending[0];
      WakeTask(t);
      pending := pending[1..];
      waiting := waiting - {t};
      if prio[t] > prio[current] {
        yieldPending := true;
      }
    }

    /** The loop of xTaskResumeAll that empties the pending-ready list. */
    method ReadyPending()
      requires Shape(Abs())
      modifies this
      ensures Abs() == MovePending(old(Abs()))
    {
      hide Shape, WakePending;
      while pending != []
        invariant Shape(Abs()) && MovePending(Abs()) == MovePending(old(Abs()))
        decreases |pending|
      {
        ReadyFirstPending();
      }
    }

    /** Process one tick, remembering that a switch is due. */
    method ProcessPendedTick()
      requires Shape(Abs()) && suspended == 0
      modifies this
      ensures Abs() == CatchUpOne(old(Abs()))
    {
      hide Shape, IncrementTick, TickSwitches;
      var switchRequired := IncrementTickCount();
      if switchRequired {
        yieldPending := true;
      }
    }

    /** The loop of xTaskResumeAll that processes the ticks missed while suspended. */
    method ProcessPendedTicks()
      requires Shape(Abs()) && suspended == 0
      modifies this
      ensures Abs() == CatchUp(old(Abs()), old(pended)).(pended := 0)
    {
      hide Shape, CatchUpOne;
      var counts := pended;
      while counts > 0
        invariant Shape(Abs()) && suspended == 0 && 0 <= counts <= old(pended)
        invariant CatchUp(Abs(), counts) == CatchUp(old(Abs()), old(pended))
      {
        ProcessPendedTick();
        counts := counts - 1;
      }
      pended := 0;
    }

    /** xTaskResumeAll. */
    method ResumeAll() returns (alreadyYielded: bool)
      requires Shape(Abs()) && suspended > 0
      modifies this
      ensures Abs() == Resume(old(Abs()))
      ensures alreadyYielded == (suspended == 0 && yieldPending)
    {
      suspended := suspended - 1;
      alreadyYielded := false;
      if suspended == 0 {
        var moved := pending != [];
        ReadyPending();
        if moved {
          ResetNextTaskUnblockTime();
        }
        ProcessPendedTicks();
        alreadyYielded := yieldPending;
      }
    }

    /** vTaskSwitchContext. */
    method SwitchTask()
      requires Shape(Abs()) && SomeReady(ready, top)
      modifies this`yieldPending, this`top, this`ready, this`current
      ensures Abs() == SwitchContext(old(Abs()))
    {
      if suspended > 0 {
        yieldPending := true;
      } else {
        yieldPending := false;
        var p := top;
        while ready[p].items == []
          invariant 0 <= p <= top && SomeReady(ready, p) && TopReady(ready, p) == TopReady(ready, top)
          decreases p
        {
          p := p - 1;
        }
        ready := ready[p := ready[p].Next()];
        current := ready[p].Indexed();
        top := p;
      }
    }
  }
}
