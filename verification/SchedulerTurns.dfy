/** Sharing the processor: which tasks consecutive context switches run. */
module SchedulerTurns {
  import opened Basics
  import opened Rings
  import opened Scheduling
  import opened SchedulerRuns

  /** The tasks run by `n` consecutive context switches. */
  ghost function Turns(s: Sched, n: nat): (v: seq<Task>)
    requires Core(s) && s.suspended == 0
    ensures |v| == n
    decreases n
  {
    if n == 0 then []
    else
      IdleIsReady(s);
      SwitchKeepsCore(s);
      [SwitchContext(s).current] + Turns(SwitchContext(s), n - 1)
  }

  /** The ready list that the next switch takes a task from. */
  ghost function TopList(s: Sched): (r: Ring<Task>)
    requires Core(s)
    ensures r.items != [] && r.WellFormed()
  {
    IdleIsReady(s);
    s.ready[TopReady(s.ready, s.top)]
  }

  lemma SwitchAdvancesTopList(s: Sched)
    requires Core(s) && s.suspended == 0 && SomeReady(s.ready, s.top) && Core(SwitchContext(s))
    ensures TopList(SwitchContext(s)) == TopList(s).Next()
    ensures SwitchContext(s).current == TopList(s).Next().Indexed()
  {
    hide Placed, Timed, Events;
  }

  lemma {:induction false} TurnsAreVisits(s: Sched, n: nat)
    requires Core(s) && s.suspended == 0
    ensures Turns(s, n) == Visits(TopList(s), n)
    decreases n
  {
    hide Placed, Timed, Events, Shape, SwitchContext, TopList;
    if n > 0 {
      IdleIsReady(s);
      SwitchKeepsCore(s);
      SwitchAdvancesTopList(s);
      TurnsAreVisits(SwitchContext(s), n - 1);
    }
  }

  /** Over one round of switches every ready task of the highest priority runs exactly once. */
  lemma SwitchingIsFair(s: Sched)
    requires Core(s) && s.suspended == 0
    ensures var tasks := TopList(s).items;
            multiset(Turns(s, |tasks|)) == multiset(tasks)
  {
    hide Core, TopList;
    TurnsAreVisits(s, |TopList(s).items|);
    RoundIsFair(TopList(s));
  }

  // ---------------------------------------------------------------- newcomers

  /** A ring that items have joined one after the other, with vListInsertEnd. */
  function Joined<T>(r: Ring<T>, xs: seq<T>): (q: Ring<T>)
    requires r.index <= |r.items|
    ensures q.index <= |q.items| == |r.items| + |xs|
    decreases |xs|
  {
    if xs == [] then r else Joined(r.InsertEnd(xs[0]), xs[1..])
  }

  lemma {:induction false} JoinedTwice<T>(r: Ring<T>, xs: seq<T>, ys: seq<T>)
    requires r.WellFormed()
    ensures Joined(Joined(r, xs), ys) == Joined(r, xs + ys)
    decreases |xs|
  {
    if xs == [] {
      assert xs + ys == ys;
    } else {
      JoinedTwice(r.InsertEnd(xs[0]), xs[1..], ys);
      assert (xs + ys)[1..] == xs[1..] + ys;
    }
  }

  lemma {:induction false} JoinedIs<T>(r: Ring<T>, xs: seq<T>)
    requires r.WellFormed()
    ensures var k := r.EndPosition();
            Joined(r, xs) == Ring(r.items[..k] + xs + r.items[k..], if r.index == 0 then 0 else r.index + |xs|)
    decreases |xs|
  {
    var k := r.EndPosition();
    if xs == [] {
      assert r.items[..k] + xs + r.items[k..] == r.items;
    } else {
      var q := r.InsertEnd(xs[0]);
      JoinedIs(q, xs[1..]);
      assert xs == [xs[0]] + xs[1..];
      assert q.items[..q.EndPosition()] + xs[1..] + q.items[q.EndPosition()..] == r.items[..k] + xs + r.items[k..];
    }
  }

  /** The items that get their turn before newcomers, and the one that gets it after them. */
  function Ahead<T>(r: Ring<T>): seq<T>
    requires r.index <= |r.items|
  {
    if r.index == 0 then r.items else r.items[r.index..] + r.items[..r.index - 1]
  }

  function Behind<T>(r: Ring<T>): seq<T>
    requires r.index <= |r.items|
  {
    if r.index == 0 then [] else [r.items[r.index - 1]]
  }

  lemma RotationOfJoined<T>(r: Ring<T>, xs: seq<T>)
    requires r.WellFormed()
    ensures var q := Joined(r, xs);
            q.items[q.index..] + q.items[..q.index] == Ahead(r) + xs + Behind(r)
  {
    hide Joined;
    JoinedIs(r, xs);
    var q, k := Joined(r, xs), r.EndPosition();
    if r.index == 0 {
      assert q.items == r.items + xs;
    } else {
      assert q.items[..q.index] == r.items[..k] + xs + [r.items[k]];
      assert q.items[q.index..] == r.items[r.index..];
    }
  }

  lemma NewcomersGoLast<T>(r: Ring<T>, xs: seq<T>)
    requires r.WellFormed()
    ensures Visits(Joined(r, xs), |r.items| + |xs|) == Ahead(r) + xs + Behind(r)
  {
    hide Joined, Visits, Ahead, Behind;
    RotationOfJoined(r, xs);
    RoundVisitsAll(Joined(r, xs));
  }

  lemma JoinedCounts(r: Ring<Task>, xs: seq<Task>, q: Task)
    requires r.WellFormed()
    ensures multiset(Joined(r, xs).items)[q] == multiset(r.items)[q] + multiset(xs)[q]
  {
    hide Joined;
    JoinedIs(r, xs);
    assert r.items == r.items[..r.EndPosition()] + r.items[r.EndPosition()..];
  }

  /** What readying a task does to the ready list of priority p. */
  lemma WakeJoins(s: Sched, t: Task, p: nat)
    requires Shape(s) && t in s.prio && p < MAX_PRIORITIES
    ensures Wake(s, t).ready[p] == Joined(s.ready[p], if s.prio[t] == p then [t] else [])
  {
    var ts := if s.prio[t] == p then [t] else [];
    assert ts == [t] ==> ts[1..] == [];
  }

  lemma {:induction false} UnblockJoins(s: Sched, p: nat) returns (ts: seq<Task>)
    requires Shape(s) && p < MAX_PRIORITIES
    ensures UnblockExpired(s).ready[p] == Joined(s.ready[p], ts)
    decreases |s.delayed|
  {
    hide Wake, Shape, Joined;
    ListsKnown(s, p);
    if s.delayed == [] || s.tick < s.delayed[0].value {
      ts := [];
      JoinedByNobody(s.ready[p]);
    } else {
      var t := HeadTask(s);
      WakeJoins(s, t, p);
      var rest := UnblockJoins(WakeHead(s), p);
      var first := if s.prio[t] == p then [t] else [];
      JoinedTwice(s.ready[p], first, rest);
      ts := first + rest;
    }
  }

  lemma ListsKnown(s: Sched, p: nat)
    requires Shape(s) && p < MAX_PRIORITIES
    ensures |s.ready| == MAX_PRIORITIES && s.ready[p].WellFormed()
  {}

  lemma JoinedByNobody<T>(r: Ring<T>)
    requires r.WellFormed()
    ensures Joined(r, []) == r
  {}

  lemma HeadTask(s: Sched) returns (t: Task)
    requires Shape(s) && s.delayed != []
    ensures t == s.delayed[0].task && t in s.prio
  {
    assert s.delayed[0] in s.delayed;
    t := s.delayed[0].task;
  }

  lemma TickJoins(s: Sched, p: nat) returns (ts: seq<Task>)
    requires Shape(s) && p < MAX_PRIORITIES
    ensures IncrementTick(s).ready[p] == Joined(s.ready[p], ts)
  {
    hide Shape, Joined, UnblockExpired;
    ListsKnown(s, p);
    var s1 := Advance(s);
    if s1.tick >= s1.nextUnblock {
      ts := UnblockJoins(s1, p);
    } else {
      ts := [];
      JoinedByNobody(s.ready[p]);
    }
  }

  lemma {:induction false} PendingJoin(s: Sched, p: nat) returns (ts: seq<Task>)
    requires Shape(s) && p < MAX_PRIORITIES
    ensures MovePending(s).ready[p] == Joined(s.ready[p], ts)
    decreases |s.pending|
  {
    hide Wake, Shape, Joined;
    ListsKnown(s, p);
    if s.pending == [] {
      ts := [];
      JoinedByNobody(s.ready[p]);
    } else {
      var t := FirstPending(s);
      WakeJoins(s, t, p);
      var rest := PendingJoin(WakePending(s), p);
      var first := if s.prio[t] == p then [t] else [];
      JoinedTwice(s.ready[p], first, rest);
      ts := first + rest;
    }
  }

  lemma FirstPending(s: Sched) returns (t: Task)
    requires Shape(s) && s.pending != []
    ensures t == s.pending[0] && t in s.prio
  {
    assert s.pending[0] in s.pending;
    t := s.pending[0];
  }

  lemma {:induction false} CatchUpJoins(s: Sched, n: nat, p: nat) returns (ts: seq<Task>)
    requires Shape(s) && p < MAX_PRIORITIES
    ensures CatchUp(s, n).ready[p] == Joined(s.ready[p], ts)
    decreases n
  {
    hide Shape, Joined, IncrementTick, TickSwitches;
    ListsKnown(s, p);
    if n == 0 {
      ts := [];
      JoinedByNobody(s.ready[p]);
    } else {
      var first := TickJoins(s, p);
      var rest := CatchUpJoins(CatchUpOne(s), n - 1, p);
      JoinedTwice(s.ready[p], first, rest);
      ts := first + rest;
    }
  }

  lemma ResumeJoins(s: Sched, p: nat) returns (ts: seq<Task>)
    requires Shape(s) && s.suspended > 0 && p < MAX_PRIORITIES
    ensures Resume(s).ready[p] == Joined(s.ready[p], ts)
  {
    hide Shape, Joined, MovePending, CatchUp;
    ListsKnown(s, p);
    if s.suspended > 1 {
      ts := [];
      JoinedByNobody(s.ready[p]);
    } else {
      SameShape(s);
      var first := PendingJoin(s.(suspended := 0), p);
      var rest := CatchUpJoins(Resumed(s), s.pended, p);
      JoinedTwice(s.ready[p], first, rest);
      ts := first + rest;
    }
  }

  lemma SameShape(s: Sched)
    requires Shape(s)
    ensures Shape(s.(suspended := 0))
  {}

  /** A step by which tasks may become ready: an interrupt, an event, a suspension or its end. */
  predicate Readies(op: Op) { !op.Delay? && !op.ContextSwitch? && !op.ChangePriority? }

  lemma StepJoins(s: Sched, op: Op, p: nat) returns (ts: seq<Task>)
    requires Inv(s) && Enabled(s, op) && Readies(op) && p < MAX_PRIORITIES
    ensures Shape(Step(s, op)) && Step(s, op).ready[p] == Joined(s.ready[p], ts)
  {
    hide Placed, Timed, Events, Joined, IncrementTick, Resume, Wake;
    JoinedByNobody(s.ready[p]);
    ts := [];
    match op
    case TickInterrupt => if s.suspended == 0 { ts := TickJoins(s, p); }
    case SuspendAll =>
    case ResumeAll => ts := ResumeJoins(s, p);
    case Notify(t) =>
      if s.suspended == 0 {
        WakeJoins(s, t, p);
        ts := if s.prio[t] == p then [t] else [];
      }
  }

  ghost function TopPriority(s: Sched): (p: nat)
    requires Core(s)
    ensures p < MAX_PRIORITIES
  {
    IdleIsReady(s);
    TopReady(s.ready, s.top)
  }

  /** Whatever readies them, tasks that join the ready list of the highest priority run after all the
  other tasks of it, except the one the index is on, which follows them. */
  lemma NewcomersRunLast(s: Sched, op: Op) returns (ts: seq<Task>)
    requires Inv(s) && Enabled(s, op) && Readies(op) && Step(s, op).suspended == 0
    requires TopPriority(Step(s, op)) == TopPriority(s)
    ensures var r, p := Step(s, op), TopPriority(s);
            && Turns(r, |TopList(s).items| + |ts|) == Ahead(TopList(s)) + ts + Behind(TopList(s))
            && forall q :: multiset(ts)[q] == ReadyPlaces(r, p, q) - ReadyPlaces(s, p, q)
  {
    hide Placed, Timed, Events, Joined, Step, Visits, Turns, Ahead, Behind, Enabled, TopReady;
    var r, p := Step(s, op), TopPriority(s);
    ts := StepJoins(s, op, p);
    forall q ensures multiset(ts)[q] == ReadyPlaces(r, p, q) - ReadyPlaces(s, p, q) {
      JoinedCounts(s.ready[p], ts, q);
    }
    TurnsAreVisits(r, |TopList(s).items| + |ts|);
    NewcomersGoLast(TopList(s), ts);
  }
}
