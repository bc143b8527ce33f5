/** When giving a mutex and setting a priority ask for a switch, and when they should. */
module MutexSwitches {
  import opened Basics
  import Rings
  import Scheduling
  import opened Mutexes
  import opened MutexRuns
  import opened MutexEffects

  /** vTaskPrioritySet asks for a switch whenever a ready task would otherwise be above the running
  one. */
  lemma SetPriorityIsFair(s: State, t: Task, b: nat)
    requires Inv(s) && Running(s) && t in s.tcb && b < Scheduling.MAX_PRIORITIES && Highest(s, s.current)
    ensures Enabled(s, SetPriority(t, b)) && (SetAsks(s, t, b) || Highest(Step(s, SetPriority(t, b)), s.current))
  {
    hide Inherited, InPlace, IsReady, Waiting, Running, Step, ReadyTasks, Sized;
    SetPriorityEffect(s, t, b);
    BaseIsBelow(s, t);
    ReadyIsKnown(s);
  }

  lemma ReadyIsKnown(s: State)
    requires Inv(s)
    ensures ReadyTasks(s) <= s.tcb.Keys && s.current in s.tcb
  {}

  /** Giving a mutex does not: xTaskPriorityDisinherit is meant to ask for a switch with the last mutex,
  whether a task waits for it or not, but what it returns is dropped if one does. The switch is missed
  if and only if the giver disinherits, the task it wakes is not above its base priority, and another
  ready task is. */
  lemma GiveMissesSwitch(s: State, m: MutexId)
    requires Inv(s) && Running(s) && m in s.mutex && s.mutex[m].holder == Some(s.current) && !s.tcb[s.current].eventInUse
    requires Highest(s, s.current)
    ensures Enabled(s, HandBack(m)) && s.current in s.tcb && s.tcb[s.current].held > 0
    ensures var r, c, w := Step(s, HandBack(m)), s.tcb[s.current], s.mutex[m].waiters;
            !GiveAsks(s, m) && !Highest(r, s.current) <==>
              && w != [] && c.held == 1 && c.base < c.prio && w[0] in s.tcb && s.tcb[w[0]].prio <= c.base
              && exists q :: q in ReadyTasks(s) && q != s.current && q in s.tcb && s.tcb[q].prio > c.base
  {
    hide Inherited, InPlace, IsReady, Waiting, Running, Step, ReadyTasks, Sized, Release;
    GiveEffect(s, m);
    ReleaseEffect(s, m);
    ReadyIsKnown(s);
    BaseIsBelow(s, s.current);
    WaiterIsAnother(s, m);
    var r, c, w := Step(s, HandBack(m)), s.tcb[s.current], s.mutex[m].waiters;
    if !Highest(r, s.current) && w != [] {
      var q :| q in ReadyTasks(r) && r.tcb[q].prio > r.tcb[s.current].prio;
      assert q == w[0] || q in ReadyTasks(s);
    }
    if q :| q in ReadyTasks(s) && q != s.current && q in s.tcb && s.tcb[q].prio > c.base {
      assert q in ReadyTasks(r);
    }
  }

  lemma WaiterIsAnother(s: State, m: MutexId)
    requires Inv(s) && Running(s) && m in s.mutex
    ensures forall q :: q in s.mutex[m].waiters ==> q != s.current && q in s.tcb
  {
    RunningWaitsNowhere(s);
    WaitersKnown(s);
  }

  // ---------------------------------------------------------------- how a switch comes to be missed

  /** Task a runs, at the priority of h, which waits for one of the two mutexes that a holds; b waits
  for the other, and is not above the base priority of a. */
  ghost predicate Entangled(s: State, m: MutexId, n: MutexId, a: Task, b: Task, h: Task) {
    && Inv(s) && Running(s) && s.current == a && Highest(s, a) && m != n && a != h
    && m in s.mutex && s.mutex[m].holder == Some(a) && s.mutex[m].waiters == [b]
    && n in s.mutex && s.mutex[n].holder == Some(a) && s.mutex[n].waiters == [h]
    && a in s.tcb && b in s.tcb && h in s.tcb && s.tcb[a].held == 2 && !s.tcb[a].eventInUse
    && s.tcb[h].prio == s.tcb[a].prio > s.tcb[a].base >= s.tcb[b].prio
  }

  /** Given back in that order, neither mutex asks for a switch, and a task above the giver is ready. */
  lemma TwoGivesMissSwitch(s: State, m: MutexId, n: MutexId, a: Task, b: Task, h: Task)
    requires Entangled(s, m, n, a, b, h)
    ensures Enabled(s, HandBack(n)) && !GiveAsks(s, n)
    ensures var r := Step(s, HandBack(n)); Enabled(r, HandBack(m)) && !GiveAsks(r, m)
    ensures var r := Step(Step(s, HandBack(n)), HandBack(m)); h in ReadyTasks(r) && !Highest(r, r.current)
  {
    hide Inherited, InPlace, IsReady, Waiting, Running, Step, ReadyTasks, Sized, Release;
    GiveEffect(s, n);
    ReleaseEffect(s, n);
    var r := Step(s, HandBack(n));
    StillRuns(s, r);
    ReadyIsKnown(s);
    assert Highest(r, a);
    GiveEffect(r, m);
    GiveMissesSwitch(r, m);
    assert h in ReadyTasks(r) && r.tcb[h].prio > r.tcb[a].base;
  }

  /** The idle task, two tasks of priority 1 and one of priority 2, with two mutexes. */
  function FourTasks(): State {
    State(map[0 := Tcb(0, 0, 0, 31, false), 1 := Tcb(1, 1, 0, 30, false),
              2 := Tcb(1, 1, 0, 30, false), 3 := Tcb(2, 2, 0, 29, false)],
          seq(Scheduling.MAX_PRIORITIES, p => if p == 0 then Rings.Ring([0], 0)
                                              else if p == 1 then Rings.Ring([1, 2], 0)
                                              else if p == 2 then Rings.Ring([3], 0) else Rings.Ring([], 0)),
          2, map[0 := Mutex(1, None, []), 1 := Mutex(1, None, [])], 3, map[])
  }

  lemma FourInLists(p: nat, q: Task)
    requires p < Scheduling.MAX_PRIORITIES
    ensures InReady(FourTasks(), p, q) ==
            Scheduling.One((p == 0 && q == 0) || (p == 1 && (q == 1 || q == 2)) || (p == 2 && q == 3))
  {
    assert multiset([1, 2])[q] == Scheduling.One(q == 1 || q == 2);
  }

  lemma FourInPlace()
    ensures Sized(FourTasks()) && InPlace(FourTasks()) && ReadyTasks(FourTasks()) == {0, 1, 2, 3}
  {
    hide InReady;
    forall p: nat, q | p < Scheduling.MAX_PRIORITIES
      ensures InReady(FourTasks(), p, q) ==
              Scheduling.One((p == 0 && q == 0) || (p == 1 && (q == 1 || q == 2)) || (p == 2 && q == 3))
    {
      FourInLists(p, q);
    }
  }

  lemma FourStart()
    ensures var s := FourTasks();
            Inv(s) && Running(s) && ReadyTasks(s) == {0, 1, 2, 3} && Highest(s, s.current)
  {
    hide InPlace, InReady, ReadyTasks, IsReady;
    FourInPlace();
    StartKeepsInv(FourTasks());
  }

  /** The high task sleeps, a low one takes both mutexes, and the other low one waits for the first. */
  ghost function TakeBoth(): seq<Op> {
    [Sleep(false), SwitchTo(1), Acquire(0), Acquire(1), SwitchTo(2), Await(0), SwitchTo(1)]
  }

  lemma TakesBoth() returns (r: State)
    ensures Inv(FourTasks()) && Leads(FourTasks(), TakeBoth(), r) && Inv(r) && Running(r) && r.current == 1
    ensures r.tcb == FourTasks().tcb[1 := Tcb(1, 1, 2, 30, false)] && ReadyTasks(r) == {0, 1}
    ensures r.mutex == map[0 := Mutex(0, Some(1), [2]), 1 := Mutex(0, Some(1), [])]
  {
    hide Sized, InPlace, Inherited, Waiting, IsReady, Step, Legal, Run, Scheduled, ReadyTasks, Running,
         Scheduling.DropTask;
    var s := FourTasks();
    FourStart();
    SleepEffect(s, false);
    var s1 := Step(s, Sleep(false));
    SwitchEffect(s1, 1);
    var s2 := s1.(current := 1);
    AcquireEffect(s2, 0);
    var s3 := Step(s2, Acquire(0));
    StillRuns(s2, s3);
    AcquireEffect(s3, 1);
    var s4 := Step(s3, Acquire(1));
    SwitchEffect(s4, 2);
    var s5 := s4.(current := 2);
    AwaitEffect(s5, 0, 1);
    var s6 := Step(s5, Await(0));
    AloneInList(s6.mutex[0].waiters, 2);
    SwitchEffect(s6, 1);
    r := s6.(current := 1);
    NothingYet(s);
    var ops: seq<Op> := [];
    LeadsOn(s, ops, s, Sleep(false));
    ops := ops + [Sleep(false)];
    LeadsOn(s, ops, s1, SwitchTo(1));
    ops := ops + [SwitchTo(1)];
    LeadsOn(s, ops, s2, Acquire(0));
    ops := ops + [Acquire(0)];
    LeadsOn(s, ops, s3, Acquire(1));
    ops := ops + [Acquire(1)];
    LeadsOn(s, ops, s4, SwitchTo(2));
    ops := ops + [SwitchTo(2)];
    LeadsOn(s, ops, s5, Await(0));
    ops := ops + [Await(0)];
    LeadsOn(s, ops, s6, SwitchTo(1));
    ops := ops + [SwitchTo(1)];
    assert ops == TakeBoth();
  }

  /** The high task is woken and waits for the second. */
  ghost function WaitHigh(): seq<Op> { [WakeUp(3), SwitchTo(3), Await(1), SwitchTo(1)] }

  /** A run of the scheduler from a start in which no mutex is held leads to a missed switch. */
  lemma MissedSwitchIsReachable() returns (r: State)
    ensures Inv(FourTasks()) && Leads(FourTasks(), TakeBoth() + WaitHigh(), r) && Entangled(r, 0, 1, 1, 2, 3)
  {
    hide Sized, InPlace, Inherited, Waiting, IsReady, Step, Legal, Run, Scheduled, ReadyTasks, Running,
         Scheduling.DropTask;
    hide TakeBoth;
    var s := TakesBoth();
    WakeEffect(s, 3);
    var s1 := Step(s, WakeUp(3));
    SwitchEffect(s1, 3);
    var s2 := s1.(current := 3);
    AwaitEffect(s2, 1, 1);
    var s3 := Step(s2, Await(1));
    AloneInList(s3.mutex[1].waiters, 3);
    SwitchEffect(s3, 1);
    r := s3.(current := 1);
    NothingYet(s);
    var ops: seq<Op> := [];
    LeadsOn(s, ops, s, WakeUp(3));
    ops := ops + [WakeUp(3)];
    LeadsOn(s, ops, s1, SwitchTo(3));
    ops := ops + [SwitchTo(3)];
    LeadsOn(s, ops, s2, Await(1));
    ops := ops + [Await(1)];
    LeadsOn(s, ops, s3, SwitchTo(1));
    ops := ops + [SwitchTo(1)];
    assert ops == WaitHigh();
    LeadsFurther(FourTasks(), TakeBoth(), s, WaitHigh(), r);
  }
}
