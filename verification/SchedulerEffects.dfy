/** What each operation of the scheduler does, told by who is ready, who sleeps until when and who
waits for what, and when it asks for a switch.
*/
module SchedulerEffects {
  import opened Basics
  import opened Rings
  import opened Scheduling
  import opened SchedulerRuns

  /** A task of the list has a value that `now` has reached. */
  ghost predicate DueBy(list: seq<Sleeper>, q: Task, now: nat) {
    exists e :: e in list && e.task == q && e.value <= now
  }

  /** The wake time of the task is not after the true time T. */
  ghost predicate WakesBy(s: Sched, q: Task, T: nat) {
    exists due: nat :: due <= T && SleepsUntil(s, q, due)
  }

  ghost function Timely(s: Sched, T: nat): set<Task> {
    set q | q in s.prio && WakesBy(s, q, T)
  }

  /** From s to r exactly the tasks of w have become ready: they are asleep and blocked no more, and
  nothing has happened to anybody else. */
  ghost predicate Roused(s: Sched, r: Sched, w: set<Task>)
    requires Shape(s) && Shape(r)
  {
    && r.prio == s.prio && r.current == s.current
    && (forall q :: IsReady(r, q) <==> IsReady(s, q) || q in w)
    && (forall q :: Blocked(r, q) <==> Blocked(s, q) && q !in w)
    && (forall q, due: nat :: SleepsUntil(r, q, due) <==> SleepsUntil(s, q, due) && q !in w)
    && (forall q :: q in r.forever <==> q in s.forever && q !in w)
  }

  ghost predicate Outranks(s: Sched, q: Task) {
    q in s.prio && s.current in s.prio && s.prio[q] > s.prio[s.current]
  }

  /** A task has become ready that is above the running one. */
  ghost predicate NewHigher(s: Sched, r: Sched)
    requires Shape(s) && Shape(r)
  {
    exists q :: !IsReady(s, q) && IsReady(r, q) && Outranks(s, q)
  }

  /** The ready tasks of the running task's priority. */
  ghost function Peers(s: Sched): set<Task>
    requires Shape(s)
  {
    set q | q in s.prio && IsReady(s, q) && s.prio[q] == s.prio[s.current]
  }

  /** No ready task is above the running one. */
  ghost predicate Highest(s: Sched)
    requires Shape(s)
  {
    forall q :: IsReady(s, q) ==> !Outranks(s, q)
  }

  // ---------------------------------------------------------------- a ready list is a set of tasks

  lemma {:induction false} OnceEach(items: seq<Task>, tasks: set<Task>)
    requires forall q :: multiset(items)[q] == One(q in tasks)
    ensures |items| == |tasks|
  {
    if items == [] {
      assert forall q :: q in tasks ==> multiset(items)[q] == 1;
      assert tasks == {};
    } else {
      var q := items[0];
      assert items == [q] + items[1..];
      assert multiset(items)[q] >= 1;
      OnceEach(items[1..], tasks - {q});
    }
  }

  lemma ListIsPeers(s: Sched)
    requires Shape(s) && Placed(s)
    ensures |s.ready[s.prio[s.current]].items| == |Peers(s)|
  {
    var p := s.prio[s.current];
    forall q ensures multiset(s.ready[p].items)[q] == One(q in Peers(s)) {
      assert ReadyPlaces(s, p, q) == multiset(s.ready[p].items)[q];
    }
    OnceEach(s.ready[p].items, Peers(s));
  }

  // ---------------------------------------------------------------- the tick

  lemma DueByHead(list: seq<Sleeper>, now: nat)
    requires list != [] && list[0].value <= now
    ensures forall q :: DueBy(list, q, now) <==> q == list[0].task || DueBy(list[1..], q, now)
  {
    assert list == [list[0]] + list[1..];
    forall q ensures DueBy(list, q, now) <==> q == list[0].task || DueBy(list[1..], q, now) {
      assert list[0] in list;
    }
  }

  lemma NobodyDue(list: seq<Sleeper>, now: nat)
    requires Ascending(Values(list)) && (list == [] || now < list[0].value)
    ensures forall e :: e in list ==> now < e.value
    ensures forall q :: !DueBy(list, q, now)
  {
    if list != [] { HeadIsLeast(list); }
  }

  /** The loop of xTaskIncrementTick readies exactly the sleepers whose value has been reached. */
  lemma {:induction false} UnblockEffect(s: Sched)
    requires Shape(s) && Placed(s) && Ascending(Values(s.delayed))
    ensures var r := UnblockExpired(s);
            && (forall q :: IsReady(r, q) <==> IsReady(s, q) || DueBy(s.delayed, q, s.tick))
            && (forall e :: e in r.delayed <==> e in s.delayed && s.tick < e.value)
            && (forall q :: q in r.waiting <==> q in s.waiting && !DueBy(s.delayed, q, s.tick))
    decreases |s.delayed|
  {
    hide IsReady, Placed, DueBy, Ascending, Values;
    if s.delayed == [] || s.tick < s.delayed[0].value {
      NobodyDue(s.delayed, s.tick);
      SamePlaces(s, UnblockExpired(s));
    } else {
      var h := s.delayed[0];
      WakeHeadPlaced(s);
      WakeHeadWaiting(s);
      TailAscending(s.delayed);
      UnblockEffect(WakeHead(s));
      DueByHead(s.delayed, s.tick);
      assert s.delayed == [h] + s.delayed[1..];
    }
  }

  lemma WakeHeadWaiting(s: Sched)
    requires Shape(s) && s.delayed != []
    ensures WakeHead(s).waiting == s.waiting - {s.delayed[0].task}
  {}

  /** It reports exactly whether one of them is above the running task. */
  lemma {:induction false} UnblocksHigherIs(s: Sched)
    requires Shape(s) && Ascending(Values(s.delayed))
    ensures UnblocksHigher(s) <==>
            exists q :: DueBy(s.delayed, q, s.tick) && Outranks(s, q)
    decreases |s.delayed|
  {
    hide DueBy, Ascending, Values;
    if s.delayed == [] || s.tick < s.delayed[0].value {
      NobodyDue(s.delayed, s.tick);
    } else {
      TailAscending(s.delayed);
      UnblocksHigherIs(WakeHead(s));
      DueByHead(s.delayed, s.tick);
      assert s.delayed[0] in s.delayed;
      if UnblocksHigher(s) && s.prio[s.delayed[0].task] > s.prio[s.current] {
        assert DueBy(s.delayed, s.delayed[0].task, s.tick);
      }
    }
  }

  /** Wake times do not change while the tick count advances and the lists are switched. */
  lemma AdvanceKeepsTimes(s: Sched)
    requires Shape(s) && Timed(s)
    ensures forall q, due: nat :: SleepsUntil(Advance(s), q, due) <==> SleepsUntil(s, q, due)
    ensures Advance(s).waiting == s.waiting && Advance(s).forever == s.forever
  {
    NoSleeperAtWrap(s);
  }

  lemma DueNow(s: Sched, q: Task)
    requires Advanced(s)
    ensures DueBy(s.delayed, q, s.tick) <==> SleepsUntil(s, q, Clock(s))
  {
    var start := s.overflows * TICK_MOD;
    if SleepsUntil(s, q, Clock(s)) {
      assert Sleeper(q, Clock(s) - start) in s.delayed;
    }
    if e :| e in s.delayed && e.task == q && e.value <= s.tick {
      assert e == Sleeper(q, Clock(s) - start);
    }
  }

  lemma BlockedIsNotReady(s: Sched)
    requires Shape(s) && Placed(s)
    ensures forall q :: Blocked(s, q) <==> q in s.prio && !IsReady(s, q)
  {}

  lemma SleeperIsBlocked(s: Sched, q: Task, due: nat)
    requires SleepsUntil(s, q, due)
    ensures Blocked(s, q)
  {
    var start := s.overflows * TICK_MOD;
    if due >= start && Sleeper(q, due - start) in s.delayed {
      MemberIsAsleep(s.delayed, Sleeper(q, due - start));
    } else {
      MemberIsAsleep(s.overflow, Sleeper(q, due - start - TICK_MOD));
    }
  }

  /** Sleepers are blocked tasks that there are. */
  lemma SleepersAreBlocked(s: Sched)
    requires Shape(s) && Placed(s)
    ensures forall q, due: nat :: SleepsUntil(s, q, due) ==> q in s.prio && Blocked(s, q) && !IsReady(s, q)
    ensures forall q :: q in s.forever ==> q in s.prio && Blocked(s, q) && !IsReady(s, q)
  {
    BlockedIsNotReady(s);
    forall q, due: nat | SleepsUntil(s, q, due) ensures Blocked(s, q) { SleeperIsBlocked(s, q, due); }
    forall q | q in s.forever ensures Blocked(s, q) { assert multiset(s.forever)[q] > 0; }
  }

  /** The loop, entered or not, in terms of wake times. */
  lemma LoopEffect(s: Sched)
    requires Shape(s) && Placed(s) && Advanced(s)
    ensures var r := if s.tick >= s.nextUnblock then UnblockExpired(s) else s;
            && (forall q :: IsReady(r, q) <==> IsReady(s, q) || SleepsUntil(s, q, Clock(s)))
            && (forall q, due: nat :: SleepsUntil(r, q, due) <==> SleepsUntil(s, q, due) && due > Clock(s))
            && (forall q :: q in r.waiting <==> q in s.waiting && !SleepsUntil(s, q, Clock(s)))
            && r.forever == s.forever
  {
    hide IsReady, Placed, Ascending, Values;
    forall q ensures DueBy(s.delayed, q, s.tick) <==> SleepsUntil(s, q, Clock(s)) { DueNow(s, q); }
    if s.tick >= s.nextUnblock {
      UnblockLists(s);
      UnblockEffect(s);
    }
  }

  lemma TickTimes(s: Sched)
    requires Core(s)
    ensures var r, T := IncrementTick(s), Clock(s) + 1;
            && Clock(r) == T && Placed(r)
            && (forall q :: IsReady(r, q) <==> IsReady(s, q) || SleepsUntil(s, q, T))
            && (forall q, due: nat :: SleepsUntil(r, q, due) <==> SleepsUntil(s, q, due) && due > T)
            && (forall q :: q in r.waiting <==> q in s.waiting && !SleepsUntil(s, q, T))
            && r.forever == s.forever
  {
    hide IsReady, Placed, Ascending, Values, Advance, SleepsUntil, UnblockExpired;
    AdvanceTimed(s);
    AdvancePlaced(s);
    AdvanceKeepsTimes(s);
    LoopEffect(Advance(s));
    TickTimed(s);
    TickPlaced(s);
  }

  /** A task has one wake time, and it is to come. */
  lemma OneWakeTime(s: Sched)
    requires Core(s)
    ensures forall q, due: nat :: SleepsUntil(s, q, due) ==> due > Clock(s)
    ensures forall q, due: nat, other: nat :: SleepsUntil(s, q, due) && SleepsUntil(s, q, other) ==> due == other
  {
    forall q, due: nat | SleepsUntil(s, q, due) ensures due > Clock(s) { TickIsExact(s, q, due); }
    forall q, due: nat, other: nat | SleepsUntil(s, q, due) && SleepsUntil(s, q, other) ensures due == other {
      OneTime(s, q, due, other);
    }
  }

  lemma OneTime(s: Sched, q: Task, due: nat, other: nat)
    requires Shape(s) && Placed(s) && SleepsUntil(s, q, due) && SleepsUntil(s, q, other)
    ensures due == other
  {
    SleeperIsBlocked(s, q, due);
    var start := s.overflows * TICK_MOD;
    assert BlockedPlaces(s, q) == 1;
    var a, b := due - start, other - start;
    if a >= 0 && Sleeper(q, a) in s.delayed {
      if b >= 0 && Sleeper(q, b) in s.delayed {
        OnceAsleep(s.delayed, Sleeper(q, a), Sleeper(q, b));
      } else {
        MemberIsAsleep(s.delayed, Sleeper(q, a));
        MemberIsAsleep(s.overflow, Sleeper(q, b - TICK_MOD));
      }
    } else if b >= 0 && Sleeper(q, b) in s.delayed {
      MemberIsAsleep(s.delayed, Sleeper(q, b));
      MemberIsAsleep(s.overflow, Sleeper(q, a - TICK_MOD));
    } else {
      OnceAsleep(s.overflow, Sleeper(q, a - TICK_MOD), Sleeper(q, b - TICK_MOD));
    }
  }

  lemma {:induction false} OnceAsleep(list: seq<Sleeper>, e: Sleeper, f: Sleeper)
    requires e in list && f in list && e.task == f.task && Asleep(list, e.task) <= 1
    ensures e == f
  {
    if list[0] == e || list[0] == f {
      var other := if list[0] == e then f else e;
      if other in list[1..] { MemberIsAsleep(list[1..], other); }
    } else {
      OnceAsleep(list[1..], e, f);
    }
  }

  lemma ForeverIsNotAsleep(s: Sched)
    requires Shape(s) && Placed(s)
    ensures forall q, due: nat :: SleepsUntil(s, q, due) ==> q !in s.forever
  {
    forall q, due: nat | SleepsUntil(s, q, due) ensures q !in s.forever {
      SleeperIsBlocked(s, q, due);
      var start := s.overflows * TICK_MOD;
      if due >= start && Sleeper(q, due - start) in s.delayed {
        MemberIsAsleep(s.delayed, Sleeper(q, due - start));
      } else {
        MemberIsAsleep(s.overflow, Sleeper(q, due - start - TICK_MOD));
      }
      assert q in s.forever ==> multiset(s.forever)[q] > 0;
    }
  }

  /** A tick: exactly the tasks whose time has come become ready, and leave their event lists. */
  lemma TickEffect(s: Sched)
    requires Core(s)
    ensures var r, T := IncrementTick(s), Clock(s) + 1;
            Clock(r) == T && Roused(s, r, Timely(s, T)) && r.waiting == s.waiting - Timely(s, T)
  {
    hide IsReady, Placed, Timed, Events, IncrementTick, SleepsUntil, Clock, Blocked;
    var r, T := IncrementTick(s), Clock(s) + 1;
    TickTimes(s);
    OneWakeTime(s);
    SleepersAreBlocked(s);
    ForeverIsNotAsleep(s);
    BlockedIsNotReady(s);
    BlockedIsNotReady(r);
    forall q ensures q in Timely(s, T) <==> SleepsUntil(s, q, T) {
      if SleepsUntil(s, q, T) { assert WakesBy(s, q, T); }
    }
  }

  /** What xTaskIncrementTick returns: a switch is asked for if and only if one is pending, or a task
  has become ready that is above the running one, or the running task shares its priority. */
  lemma TickAnswer(s: Sched)
    requires Core(s)
    ensures TickSwitches(s) <==> s.yieldPending || NewHigher(s, IncrementTick(s)) || |Peers(IncrementTick(s))| > 1
  {
    hide IsReady, Placed, Ascending, Values, Advance, SleepsUntil, UnblockExpired, DueBy, Timed;
    var a, r := Advance(s), IncrementTick(s);
    TickTimes(s);
    ListIsPeers(r);
    AdvanceTimed(s);
    AdvancePlaced(s);
    AdvanceKeepsTimes(s);
    UnblocksHigherIs(a);
    AdvanceKeepsRest(s);
    forall q ensures DueBy(a.delayed, q, a.tick) <==> SleepsUntil(s, q, Clock(s) + 1) { DueNow(a, q); }
    HigherIsNew(s, r);
    assert forall q :: Outranks(a, q) == Outranks(s, q);
    if a.tick < a.nextUnblock { NoneBeforeBound(a); }
  }

  lemma AdvanceKeepsRest(s: Sched)
    requires Shape(s)
    ensures Advance(s).prio == s.prio && Advance(s).current == s.current
  {}

  lemma NoneBeforeBound(s: Sched)
    requires Advanced(s) && s.tick < s.nextUnblock
    ensures forall q :: !DueBy(s.delayed, q, s.tick)
  {}

  /** Sleepers are not ready, so all that the tick wakes are new. */
  lemma HigherIsNew(s: Sched, r: Sched)
    requires Core(s) && Shape(r) && r.prio == s.prio
    requires forall q :: IsReady(r, q) <==> IsReady(s, q) || SleepsUntil(s, q, Clock(s) + 1)
    ensures NewHigher(s, r) <==> exists q :: SleepsUntil(s, q, Clock(s) + 1) && Outranks(s, q)
  {
    hide Timed, Events, IsReady, Placed, SleepsUntil;
    SleepersAreBlocked(s);
    if q :| SleepsUntil(s, q, Clock(s) + 1) && Outranks(s, q) {
      assert !IsReady(s, q) && IsReady(r, q);
    }
  }

  /** If no switch is asked for, the running task is still a highest one. */
  lemma QuietTick(s: Sched)
    requires Core(s) && Highest(s) && !TickSwitches(s)
    ensures Highest(IncrementTick(s))
  {
    hide IsReady, Placed, Timed, Events, Shape, IncrementTick, TickSwitches;
    TickAnswer(s);
    AnsweredIsHighest(s, IncrementTick(s));
  }

  lemma AnsweredIsHighest(s: Sched, r: Sched)
    requires Shape(s) && Shape(r) && r.prio == s.prio && r.current == s.current && Highest(s) && !NewHigher(s, r)
    ensures Highest(r)
  {
    hide IsReady, Shape;
    forall q | IsReady(r, q) ensures !Outranks(r, q) { assert Outranks(r, q) == Outranks(s, q); }
  }

  // ---------------------------------------------------------------- one thing after the other

  lemma RousedTwice(s: Sched, m: Sched, r: Sched, v: set<Task>, w: set<Task>)
    requires Shape(s) && Shape(m) && Shape(r) && Roused(s, m, v) && Roused(m, r, w)
    ensures Roused(s, r, v + w)
    ensures NewHigher(s, r) <==> NewHigher(s, m) || NewHigher(m, r)
    ensures |Peers(m)| <= |Peers(r)|
  {
    hide IsReady, Shape, Blocked, SleepsUntil;
    assert Peers(m) <= Peers(r);
    Smaller(Peers(m), Peers(r));
    assert forall q :: Outranks(m, q) == Outranks(s, q);
    if q :| !IsReady(s, q) && IsReady(m, q) && Outranks(s, q) { assert IsReady(r, q); }
    if q :| !IsReady(m, q) && IsReady(r, q) && Outranks(m, q) { assert !IsReady(s, q); }
    if q :| !IsReady(s, q) && IsReady(r, q) && Outranks(s, q) { assert IsReady(m, q) || !IsReady(m, q); }
  }

  lemma Smaller<T>(a: set<T>, b: set<T>)
    requires a <= b
    ensures |a| <= |b|
  {
    assert b == a + (b - a);
  }

  /** The lists and priorities decide. */
  lemma SameLists(s: Sched, t: Sched, r: Sched, w: set<Task>)
    requires Shape(s) && Shape(t) && Placed(t) && Shape(r) && Roused(s, t, w)
    requires r == t.(yieldPending := r.yieldPending, pended := r.pended, suspended := r.suspended,
                     pending := r.pending, waiting := r.waiting, nextUnblock := r.nextUnblock)
    ensures Roused(s, r, w) && Clock(r) == Clock(t)
    ensures (NewHigher(s, r) <==> NewHigher(s, t)) && Peers(r) == Peers(t)
  {
    hide IsReady, Shape, Placed;
    SamePlaces(t, r);
    assert forall q, due: nat :: SleepsUntil(r, q, due) <==> SleepsUntil(t, q, due);
    hide SleepsUntil, BlockedPlaces;
    if q :| !IsReady(s, q) && IsReady(r, q) && Outranks(s, q) { assert IsReady(t, q); }
    if q :| !IsReady(s, q) && IsReady(t, q) && Outranks(s, q) { assert IsReady(r, q); }
  }

  lemma RousedNobody(s: Sched)
    requires Shape(s)
    ensures Roused(s, s, {}) && !NewHigher(s, s)
  {}

  // ---------------------------------------------------------------- catching up

  lemma CatchUpOneEffect(s: Sched)
    requires Core(s) && s.pending == []
    ensures var r, T := CatchUpOne(s), Clock(s) + 1;
            && Core(r) && Clock(r) == T && Roused(s, r, Timely(s, T)) && r.waiting == s.waiting - Timely(s, T)
            && (r.yieldPending <==> s.yieldPending || NewHigher(s, r) || |Peers(r)| > 1)
  {
    hide IsReady, Placed, Timed, Events, Shape, IncrementTick, TickSwitches, NewHigher, Peers, Roused, Timely;
    TickEffect(s);
    TickAnswer(s);
    TickKeepsCore(s);
    CatchUpOneKeepsCore(s);
    SameLists(s, IncrementTick(s), CatchUpOne(s), Timely(s, Clock(s) + 1));
  }

  lemma TimelyLater(s: Sched, m: Sched, T: nat)
    requires Core(s) && Shape(m) && Roused(s, m, Timely(s, Clock(s) + 1)) && T > Clock(s)
    ensures Timely(s, T) == Timely(s, Clock(s) + 1) + Timely(m, T)
  {
    hide IsReady, Placed, Timed, Events, Shape, SleepsUntil, Clock, Blocked;
    OneWakeTime(s);
    forall q ensures q in Timely(s, T) <==> q in Timely(s, Clock(s) + 1) || q in Timely(m, T) {
      if q in Timely(s, T) && q !in Timely(s, Clock(s) + 1) {
        var due: nat :| due <= T && SleepsUntil(s, q, due);
        assert SleepsUntil(m, q, due);
      }
      if q in Timely(m, T) {
        var due: nat :| due <= T && SleepsUntil(m, q, due);
        assert SleepsUntil(s, q, due);
      }
    }
  }

  /** Ticks caught up, n of them: as if they had come one by one. */
  lemma {:induction false} CatchUpEffect(s: Sched, n: nat)
    requires Core(s) && s.pending == []
    ensures var r, T := CatchUp(s, n), Clock(s) + n;
            && Core(r) && Clock(r) == T && Roused(s, r, Timely(s, T)) && r.waiting == s.waiting - Timely(s, T)
            && (r.yieldPending <==> s.yieldPending || NewHigher(s, r) || (n > 0 && |Peers(r)| > 1))
    decreases n
  {
    hide IsReady, Placed, Timed, Events, Shape, CatchUpOne, NewHigher, Peers, Clock, Timely, Roused;
    if n == 0 {
      NobodyYet(s);
      RousedNobody(s);
    } else {
      var m, T := CatchUpOne(s), Clock(s) + n;
      CatchUpOneEffect(s);
      CatchUpEffect(m, n - 1);
      TimelyLater(s, m, T);
      RousedTwice(s, m, CatchUp(s, n), Timely(s, Clock(s) + 1), Timely(m, T));
    }
  }

  lemma NobodyYet(s: Sched)
    requires Core(s)
    ensures Timely(s, Clock(s)) == {}
  {
    OneWakeTime(s);
  }

  // ---------------------------------------------------------------- waking by an event

  lemma WakeEffect(s: Sched, t: Task)
    requires Shape(s) && Placed(s) && t in s.prio && Blocked(s, t)
    ensures Placed(Wake(s, t)) && Roused(s, Wake(s, t), {t}) && Clock(Wake(s, t)) == Clock(s)
  {
    hide Placed, IsReady, Wake;
    var r := Wake(s, t);
    WakePlaced(s, t);
    forall q, due: nat ensures SleepsUntil(r, q, due) <==> SleepsUntil(s, q, due) && q != t {
      DropMembers(s.delayed, t);
      DropMembers(s.overflow, t);
      if q == t && SleepsUntil(r, q, due) { SleeperIsBlocked(r, q, due); }
    }
    forall q ensures q in r.forever <==> q in s.forever && q != t {
      ForeverWoken(s, t, q);
    }
  }

  lemma ForeverWoken(s: Sched, t: Task, q: Task)
    requires Shape(s) && Placed(s) && t in s.prio && Blocked(s, t)
    ensures q in Wake(s, t).forever <==> q in s.forever && q != t
  {
    hide Placed, IsReady, DropSleeper;
    WakePlaced(s, t);
    CountDropTask(s.forever, t, q);
    assert q in Wake(s, t).forever <==> multiset(Wake(s, t).forever)[q] > 0;
    assert q in s.forever <==> multiset(s.forever)[q] > 0;
  }

  /** xTaskRemoveFromEventList: while the scheduler runs the task becomes ready, and otherwise it is
  held back. A switch is asked for if and only if it is above the running task. */
  lemma NotifyEffect(s: Sched, t: Task)
    requires Core(s) && t in s.waiting
    ensures var r := EventWake(s, t);
            && Roused(s, r, if s.suspended == 0 then {t} else {}) && Clock(r) == Clock(s)
            && r.pending == (if s.suspended == 0 then s.pending else s.pending + [t]) && r.waiting == s.waiting - {t}
            && (r.yieldPending <==> s.yieldPending || Outranks(s, t))
  {
    hide Placed, IsReady, Timed, Wake, Roused;
    var r := EventWake(s, t);
    if s.suspended == 0 {
      WakeEffect(s, t);
      SameLists(s, Wake(s, t), r, {t});
    } else {
      RousedNobody(s);
      SameLists(s, s, r, {});
    }
  }

  // ---------------------------------------------------------------- resuming

  lemma WakePendingEffect(s: Sched)
    requires Core(s) && s.pending != []
    ensures var r, t := WakePending(s), s.pending[0];
            && Core(r) && Roused(s, r, {t}) && Clock(r) == Clock(s) && r.waiting == s.waiting
            && (r.yieldPending <==> s.yieldPending || NewHigher(s, r))
  {
    hide Placed, IsReady, Timed, Wake, Roused, Shape;
    var r, t := WakePending(s), s.pending[0];
    HeadOfPending(s);
    PendingKnown(s);
    WakePendingKeepsCore(s);
    WakeEffect(s, t);
    SameLists(s, Wake(s, t), r, {t});
    OneIsNew(s, r, t);
  }

  lemma PendingKnown(s: Sched)
    requires Shape(s)
    ensures forall t :: t in s.pending ==> t in s.prio
    ensures s.current in s.prio
  {}

  lemma OneIsNew(s: Sched, r: Sched, t: Task)
    requires Shape(s) && Placed(s) && Shape(r) && Roused(s, r, {t}) && Blocked(s, t)
    ensures NewHigher(s, r) <==> Outranks(s, t)
  {
    BlockedIsNotReady(s);
    hide Placed, IsReady, Blocked, SleepsUntil, Shape;
    if Outranks(s, t) { assert !IsReady(s, t) && IsReady(r, t); }
  }

  ghost function HeldBack(s: Sched): set<Task> { set q | q in s.pending }

  lemma {:induction false} MovePendingEffect(s: Sched)
    requires Core(s)
    ensures var r, w := MovePending(s), HeldBack(s);
            && Core(r) && Roused(s, r, w) && Clock(r) == Clock(s) && r.waiting == s.waiting
            && (r.yieldPending <==> s.yieldPending || NewHigher(s, r))
    decreases |s.pending|
  {
    hide Placed, IsReady, Timed, Events, Shape, WakePending, Roused, NewHigher, Clock;
    var w := HeldBack(s);
    if s.pending == [] {
      RousedNobody(s);
      assert w == {};
    } else {
      var m := WakePending(s);
      WakePendingEffect(s);
      MovePendingEffect(m);
      var v := HeldBack(m);
      RousedTwice(s, m, MovePending(s), {s.pending[0]}, v);
      assert w == {s.pending[0]} + v;
    }
  }

  lemma ResumedEffect(s: Sched)
    requires Core(s) && s.suspended == 1
    ensures var r, w := Resumed(s), HeldBack(s);
            && Core(r) && Roused(s, r, w) && Clock(r) == Clock(s) && r.waiting == s.waiting
            && (r.yieldPending <==> s.yieldPending || NewHigher(s, r))
  {
    hide Placed, IsReady, Timed, Events, Shape, Roused, NewHigher, Clock, MovePending;
    var s1 := s.(suspended := 0);
    Bounds(s);
    SameCore(s, s1);
    ResumedKeepsCore(s);
    MovePendingEffect(s1);
    var m, w := MovePending(s1), HeldBack(s);
    RousedNobody(s);
    SameLists(s, s, s1, {});
    RousedTwice(s, s1, m, {}, w);
    assert {} + w == w;
    RousedNobody(s);
    SameLists(s, m, Resumed(s), w);
  }

  /** The outermost xTaskResumeAll: exactly the tasks held back and those whose time has come become
  ready, as many ticks on as were missed. A switch is pending if and only if one was, or a task above
  the running one is among them, or ticks were missed and the running task shares its priority. */
  lemma ResumeEffect(s: Sched)
    requires Inv(s) && s.suspended == 1
    ensures var r, T, w := Resume(s), Clock(s) + s.pended, HeldBack(s);
            && Clock(r) == T && r.pended == 0 && r.pending == [] && r.suspended == 0
            && Roused(s, r, w + Timely(s, T)) && r.waiting == s.waiting - Timely(s, T)
            && (r.yieldPending <==> s.yieldPending || NewHigher(s, r) || (s.pended > 0 && |Peers(r)| > 1))
  {
    hide Placed, IsReady, Timed, Events, Shape, Roused, NewHigher, Clock, Resumed, CatchUp, Peers, Timely;
    var m, T, w := Resumed(s), Clock(s) + s.pended, HeldBack(s);
    ResumedEffect(s);
    CatchUpEffect(m, s.pended);
    var c := CatchUp(m, s.pended);
    RousedTwice(s, m, c, w, Timely(m, T));
    TimelyRest(s, m, w, T);
    assert w + Timely(m, T) == w + Timely(s, T);
    SameLists(s, c, Resume(s), w + Timely(m, T));
  }

  /** Those held back are not waiting any more, so taking them out of the timely ones is all the same. */
  lemma TimelyRest(s: Sched, m: Sched, w: set<Task>, T: nat)
    requires Core(s) && Shape(m) && Roused(s, m, w) && forall q :: q in w ==> q in s.pending
    ensures Timely(m, T) == Timely(s, T) - w
    ensures s.waiting - Timely(m, T) == s.waiting - Timely(s, T)
  {
    hide IsReady, Placed, Timed, Shape, SleepsUntil, Blocked;
    forall q ensures q in Timely(m, T) <==> q in Timely(s, T) && q !in w {
      if q in Timely(m, T) {
        var due: nat :| due <= T && SleepsUntil(m, q, due);
        assert SleepsUntil(s, q, due);
      }
      if q in Timely(s, T) && q !in w {
        var due: nat :| due <= T && SleepsUntil(s, q, due);
        assert SleepsUntil(m, q, due);
      }
    }
  }

  // ---------------------------------------------------------------- blocking

  /** prvAddCurrentTaskToDelayedList: the running task is not ready any more. It sleeps for the ticks
  given, or is blocked for ever; nothing happens to anybody else. */
  lemma BlockEffect(s: Sched, ticks: nat, indefinitely: bool, onEvent: bool)
    requires Inv(s) && IsReady(s, s.current) && s.current != IDLE && 1 <= ticks < TICK_MOD
    ensures s.current in s.ready[s.prio[s.current]].items
    ensures var r, t, ever := Block(s, ticks, indefinitely, onEvent), s.current, ticks == MAX_DELAY && indefinitely;
            && Clock(r) == Clock(s)
            && (forall q :: IsReady(r, q) <==> IsReady(s, q) && q != t)
            && (forall q :: Blocked(r, q) <==> Blocked(s, q) || q == t)
            && (forall q, due: nat :: SleepsUntil(r, q, due) <==>
                  SleepsUntil(s, q, due) || (!ever && q == t && due == Clock(s) + ticks))
            && r.forever == (if ever then s.forever + [t] else s.forever)
            && r.waiting == (if onEvent then s.waiting + {t} else s.waiting)
  {
    hide Placed, Shape, Timed, Events, WentToSleep, IsReady, Blocked, Block, SleepsUntil;
    ReadyIsMember(s);
    BlockMoves(s, ticks, indefinitely, onEvent);
    AsleepIsPlaced(s, Block(s, ticks, indefinitely, onEvent));
    BlockTimes(s, ticks, indefinitely, onEvent);
  }

  lemma BlockTimes(s: Sched, ticks: nat, indefinitely: bool, onEvent: bool)
    requires Shape(s) && Timed(s) && s.current in s.ready[s.prio[s.current]].items && 1 <= ticks < TICK_MOD
    ensures var r, t, ever := Block(s, ticks, indefinitely, onEvent), s.current, ticks == MAX_DELAY && indefinitely;
            && (forall q, due: nat :: SleepsUntil(r, q, due) <==>
                  SleepsUntil(s, q, due) || (!ever && q == t && due == Clock(s) + ticks))
            && r.forever == (if ever then s.forever + [t] else s.forever)
            && r.waiting == (if onEvent then s.waiting + {t} else s.waiting)
  {
    hide Shape, Enlist, Ascending, Values;
    EnlistTimes(Unready(s), ticks, indefinitely);
    var m, r := Enlist(Unready(s), ticks, indefinitely), Block(s, ticks, indefinitely, onEvent);
    assert forall q, due: nat :: SleepsUntil(r, q, due) <==> SleepsUntil(m, q, due);
    assert forall q, due: nat :: SleepsUntil(Unready(s), q, due) <==> SleepsUntil(s, q, due);
  }

  lemma EnlistTimes(s: Sched, ticks: nat, indefinitely: bool)
    requires Shape(s) && Timed(s) && 1 <= ticks < TICK_MOD
    ensures var r, t, ever := Enlist(s, ticks, indefinitely), s.current, ticks == MAX_DELAY && indefinitely;
            && (forall q, due: nat :: SleepsUntil(r, q, due) <==>
                  SleepsUntil(s, q, due) || (!ever && q == t && due == Clock(s) + ticks))
            && r.forever == (if ever then s.forever + [t] else s.forever)
  {
    hide Shape, InsertSleeper, Ascending, Values;
    var e := Sleeper(s.current, WakeTime(s.tick, ticks));
    InsertedMembers(s.delayed, e);
    InsertedMembers(s.overflow, e);
  }

  // ---------------------------------------------------------------- switching

  /** vTaskSwitchContext: the task selected is ready, and no ready task is above it. While the
  scheduler is suspended the switch is only remembered. */
  lemma SwitchEffect(s: Sched)
    requires Core(s) && SomeReady(s.ready, s.top)
    ensures var r := SwitchContext(s);
            if s.suspended > 0 then r == s.(yieldPending := true)
            else
              && r == s.(yieldPending := false, top := r.top, ready := r.ready, current := r.current)
              && Shape(r) && IsReady(r, r.current) && Highest(r) && (forall q :: IsReady(r, q) <==> IsReady(s, q))
  {
    hide Placed, Timed, Events, IsReady, Shape;
    if s.suspended == 0 { SwitchedIsPlaced(s); }
  }
}
