/** Runs of the timer daemon: samples of the time, expiries and commands in any order, over any number
of epochs.
*/
module TimerRuns {
  import opened Basics
  import opened Rings
  import opened Timers

  /** What the loop of prvTimerTask does next, with the true time at which it does it. */
  datatype Event =
    | Poll(now: nat)                                         // prvProcessTimerOrBlockTask
    | Handle(now: nat, t: Id, command: Command, issued: nat) // one command of prvProcessReceivedCommands

  /** The time goes forward in steps of less than 2^32, starts are not as old as that, and commands
  are about timers there are. */
  predicate Orderly(last: nat, events: seq<Event>, timers: set<Id>)
    decreases |events|
  {
    events == [] ||
    (var e := events[0];
     && last <= e.now < last + TICK_MOD && Orderly(e.now, events[1..], timers)
     && (e.Handle? ==>
           && e.t in timers
           && (e.command.Start? ==> e.command.at == Wrap(e.issued) && e.issued <= e.now < e.issued + TICK_MOD)
           && (e.command.ChangePeriod? ==> 1 <= e.command.period < TICK_MOD)))
  }

  /** Timer t, started at C with period p, reloads in phase: it is listed for the expiry after as many
  periods as it has had callbacks since there were n of them, and the last was no sooner than it should. */
  ghost predicate InPhase(a: Snapshot, last: nat, t: Id, C: nat, p: nat, n: nat) {
    && t in a.timer && t in a.due && (t in a.current || t in a.overflow) && a.timer[t].reload && a.timer[t].period == p > 0
    && var k := multiset(a.callbacks)[t] - n;
       && k >= 0 && a.due[t] == Expiry(C, k + 1, p) && Expiry(C, k, p) <= last
  }

  lemma ExpiryAdds(C: nat, i: nat, j: nat, period: nat)
    ensures Expiry(Expiry(C, i, period), j, period) == Expiry(C, i + j, period)
  {
    assert (i + j) * period == i * period + j * period;
  }

  /** After f more callbacks the timer is listed for f periods later. */
  lemma PhaseGoesOn(a: Snapshot, b: Snapshot, last: nat, N: nat, t: Id, C: nat, p: nat, n: nat)
    requires InPhase(a, last, t, C, p, n) && a.due[t] <= N
    requires t in b.timer && t in b.due && (t in b.current || t in b.overflow)
    requires b.timer[t].reload && b.timer[t].period == a.timer[t].period
    requires var f := Fires(a.timer[t], a.due[t], N);
             && multiset(b.callbacks)[t] == multiset(a.callbacks)[t] + f
             && b.due[t] == Expiry(a.due[t], f, a.timer[t].period)
    ensures InPhase(b, N, t, C, p, n)
  {
    hide Expiry, Fires;
    var k, f := multiset(a.callbacks)[t] - n, Fires(a.timer[t], a.due[t], N);
    ExpiryAdds(C, k + 1, f, p);
    ExpiryAdds(C, k + 1, f - 1, p);
    NextIsNear(a.due[t], N, a.timer[t]);
  }

  lemma PhasePasses(a: Snapshot, b: Snapshot, last: nat, N: nat, t: Id, C: nat, p: nat, n: nat)
    requires InPhase(a, last, t, C, p, n) && Passed(a, b, t, last, N) && last <= N
    ensures InPhase(b, N, t, C, p, n)
  {
    hide Expiry, Fires, Epoch, LastOf;
    if Epoch(N) != Epoch(last) && t in a.current {
      var end := LastOf(Epoch(last));
      LastIsBefore(last, N);
      PhaseGoesOn(a, b, last, end, t, C, p, n);
    }
  }

  lemma PhaseFires(a: Snapshot, b: Snapshot, N: nat, t: Id, C: nat, p: nat, n: nat)
    requires InPhase(a, N, t, C, p, n) && HeadProcessed(a, b, N)
    ensures InPhase(b, N, t, C, p, n)
  {
    hide Expiry, Fires, Epoch, Repeat;
    var h := a.current[0];
    RepeatCounts(a.callbacks, h, Fires(a.timer[h], a.due[h], N), t);
    if t == h {
      PhaseGoesOn(a, b, N, N, t, C, p, n);
    } else {
      assert Untouched(a, b, t);
    }
  }

  lemma PhaseStarts(tm: Timer, b: Snapshot, t: Id, command: Command, C: nat, N: nat, n: nat)
    requires tm.period > 0 && tm.reload && command.Start? && C <= N && Obeyed(tm, b, t, command, C, N)
    requires multiset(b.callbacks)[t] == n + Calls(tm, command, C, N)
    ensures InPhase(b, N, t, C, tm.period, n)
  {
    var p, E := tm.period, C + tm.period;
    ExpirySteps(C, 0, N, p);
    hide Expiry, Fires;
    if E <= N {
      var f := Fires(tm, E, N);
      ExpiryAdds(C, 1, f, p);
      ExpiryAdds(C, 1, f - 1, p);
      NextIsNear(E, N, tm);
    }
  }

  /** Caught up, the timer has been called back once for every period gone by since it was started. */
  lemma PhaseCounts(a: Snapshot, N: nat, t: Id, C: nat, p: nat, n: nat)
    requires InPhase(a, N, t, C, p, n) && CaughtUp(a, N)
    ensures C <= N && multiset(a.callbacks)[t] == n + Missed(C, N, p)
  {
    var k := multiset(a.callbacks)[t] - n;
    assert (k + 1) * p == k * p + p;
    QuotientIs(N - C, p, k);
  }

  lemma PhaseLasts(a: Snapshot, last: nat, N: nat, t: Id, C: nat, p: nat, n: nat)
    requires InPhase(a, last, t, C, p, n) && last <= N
    ensures InPhase(a, N, t, C, p, n)
  {}

  /** A round of prvProcessTimerOrBlockTask, by what it is proved to do. */
  lemma PolledInPhase(a: Snapshot, b: Snapshot, last: nat, N: nat, fired: bool, t: Id, C: nat, p: nat, n: nat)
    requires InPhase(a, last, t, C, p, n) && last <= N
    requires Epoch(N) == Epoch(last) ==> if fired then HeadProcessed(a, b, N) else b == a
    requires Epoch(N) != Epoch(last) ==> forall u :: Switched(a, b, u, LastOf(Epoch(last)))
    ensures InPhase(b, N, t, C, p, n) && a.timer.Keys <= b.timer.Keys
  {
    hide InPhase, Epoch, Processed, Expiry, Fires, LastOf;
    if Epoch(N) != Epoch(last) {
      assert Passed(a, b, t, last, N);
      PhasePasses(a, b, last, N, t, C, p, n);
      forall u | u in a.timer ensures u in b.timer { assert Switched(a, b, u, LastOf(Epoch(last))); }
    } else {
      PhaseLasts(a, last, N, t, C, p, n);
      if fired { PhaseFires(a, b, N, t, C, p, n); }
    }
  }

  /** A command on another timer u, by what it is proved to do. */
  lemma HandledInPhase(a: Snapshot, b: Snapshot, last: nat, N: nat, u: Id, t: Id, C: nat, p: nat, n: nat)
    requires InPhase(a, last, t, C, p, n) && last <= N && t != u && u in b.timer
    requires forall v :: v != u ==> Passed(a, b, v, last, N)
    ensures InPhase(b, N, t, C, p, n) && a.timer.Keys <= b.timer.Keys
  {
    hide InPhase, Epoch, Expiry, Fires, LastOf;
    PhasePasses(a, b, last, N, t, C, p, n);
    TimersStay(a, b, u, last, N);
  }

  /** One round, for a timer that it does not name. */
  method Advance(d: Daemon, e: Event, ghost t: Id, ghost C: nat, ghost p: nat, ghost n: nat) returns (pause: Pause)
    requires d.Valid() && Orderly(d.last, [e], d.timer.Keys) && (e.Handle? ==> e.t != t)
    requires InPhase(d.Now(), d.last, t, C, p, n)
    modifies d
    ensures d.Valid() && d.last == e.now && old(d.timer.Keys) <= d.timer.Keys && InPhase(d.Now(), d.last, t, C, p, n)
    ensures !pause.NoPause? ==> CaughtUp(d.Now(), d.last)
  {
    hide InPhase, Passed, HeadProcessed, Switched, CaughtUp, Epoch, Wrap, Near, Expiry, Fires;
    ghost var a, last := d.Now(), d.last;
    pause := NoPause;
    match e {
      case Poll(N) =>
        var fired;
        fired, pause := d.ProcessTimerOrBlock(Wrap(N), N);
        PolledInPhase(a, d.Now(), last, N, fired, t, C, p, n);
      case Handle(N, u, command, issued) =>
        d.ProcessCommand(u, command, Wrap(N), issued, N);
        HandledInPhase(a, d.Now(), last, N, u, t, C, p, n);
    }
  }

  /** Any run of the daemon that does not name timer t keeps it in phase. Whenever the daemon has
  caught up, which it has whenever it pauses, t has been called back once for every period since C. */
  method Serve(d: Daemon, events: seq<Event>, ghost t: Id, ghost C: nat, ghost p: nat, ghost n: nat) returns (pause: Pause)
    requires d.Valid() && Orderly(d.last, events, d.timer.Keys)
    requires forall i :: 0 <= i < |events| && events[i].Handle? ==> events[i].t != t
    requires InPhase(d.Now(), d.last, t, C, p, n)
    modifies d
    ensures d.Valid() && InPhase(d.Now(), d.last, t, C, p, n)
    ensures d.last == if events == [] then old(d.last) else events[|events| - 1].now
    ensures !pause.NoPause? ==> CaughtUp(d.Now(), d.last)
    ensures p > 0 && (CaughtUp(d.Now(), d.last) ==> C <= d.last && multiset(d.callbacks)[t] == n + Missed(C, d.last, p))
  {
    hide InPhase, CaughtUp, Missed;
    pause := NoPause;
    var i := 0;
    while i < |events|
      invariant 0 <= i <= |events| && d.Valid() && Orderly(d.last, events[i..], d.timer.Keys)
      invariant InPhase(d.Now(), d.last, t, C, p, n)
      invariant d.last == if i == 0 then old(d.last) else events[i - 1].now
      invariant !pause.NoPause? ==> CaughtUp(d.Now(), d.last)
    {
      ghost var known := d.timer.Keys;
      OrderlyHead(d.last, events[i..], known);
      pause := Advance(d, events[i], t, C, p, n);
      OrderlyTail(events[i].now, events[i..][1..], known, d.timer.Keys);
      assert events[i..][1..] == events[i + 1..];
      i := i + 1;
    }
    PhaseKnown(d.Now(), d.last, t, C, p, n);
    if CaughtUp(d.Now(), d.last) { PhaseCounts(d.Now(), d.last, t, C, p, n); }
  }

  lemma PhaseKnown(a: Snapshot, last: nat, t: Id, C: nat, p: nat, n: nat)
    requires InPhase(a, last, t, C, p, n)
    ensures t in a.timer && a.timer[t].period == p > 0
  {}

  lemma OrderlyHead(last: nat, events: seq<Event>, timers: set<Id>)
    requires events != [] && Orderly(last, events, timers)
    ensures Orderly(last, [events[0]], timers) && Orderly(events[0].now, events[1..], timers)
  {
    assert [events[0]][1..] == [];
  }

  lemma {:induction false} OrderlyTail(last: nat, events: seq<Event>, timers: set<Id>, more: set<Id>)
    requires Orderly(last, events, timers) && timers <= more
    ensures Orderly(last, events, more)
    decreases |events|
  {
    if events != [] { OrderlyTail(events[0].now, events[1..], timers, more); }
  }

  /** A reloading timer that is started at C, and not named again, has been called back once for every
  period since C whenever the daemon has caught up, whatever else it has been doing. */
  method StartAndServe(d: Daemon, t: Id, at: nat, now: nat, ghost C: nat, ghost N: nat, events: seq<Event>)
    returns (pause: Pause)
    requires d.Valid() && t in d.timer && d.timer[t].reload && d.last <= N < d.last + TICK_MOD && now == Wrap(N)
    requires at == Wrap(C) && C <= N < C + TICK_MOD
    requires Orderly(N, events, d.timer.Keys)
    requires forall i :: 0 <= i < |events| && events[i].Handle? ==> events[i].t != t
    modifies d
    ensures d.Valid() && t in d.timer && d.timer[t].period == old(d.timer)[t].period > 0
    ensures d.last == if events == [] then N else events[|events| - 1].now
    ensures !pause.NoPause? ==> CaughtUp(d.Now(), d.last)
    ensures CaughtUp(d.Now(), d.last) ==>
              C <= d.last && multiset(d.callbacks)[t] == multiset(old(d.callbacks))[t] + Missed(C, d.last, d.timer[t].period)
  {
    hide InPhase, Passed, CaughtUp, Epoch, Near, Obeyed, Calls, Orderly, Missed, Wrap;
    ghost var a, n, p := d.Now(), multiset(d.callbacks)[t], d.timer[t].period;
    PeriodKnown(d, t);
    d.ProcessCommand(t, Start(at), now, C, N);
    PhaseStarts(a.timer[t], d.Now(), t, Start(at), C, N, n);
    PhaseKnown(d.Now(), N, t, C, p, n);
    TimersStay(a, d.Now(), t, old(d.last), N);
    OrderlyTail(N, events, a.timer.Keys, d.timer.Keys);
    pause := Serve(d, events, t, C, p, n);
    PhaseKnown(d.Now(), d.last, t, C, p, n);
  }

  lemma PeriodKnown(d: Daemon, t: Id)
    requires d.Valid() && t in d.timer
    ensures d.timer[t].period > 0
  {}

  lemma TimersStay(a: Snapshot, b: Snapshot, t: Id, last: nat, N: nat)
    requires t in b.timer && forall u :: u != t ==> Passed(a, b, u, last, N)
    ensures a.timer.Keys <= b.timer.Keys
  {
    forall u | u in a.timer ensures u in b.timer { assert u != t ==> Passed(a, b, u, last, N); }
  }
}
