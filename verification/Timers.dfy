/** The software timers of FreeRtos/kernel/timers.c: 32-bit expiry times kept on two lists, one for
the epoch of the tick count the daemon last saw and one for the next.

Times written in capitals in the comments are unbounded; the code sees them modulo 2^32.
*/
module Timers {
  import opened Basics
  import opened Rings
  import Scheduling

  type Id = nat

  datatype Timer = Timer(
    period: nat,   // xTimerPeriodInTicks
    reload: bool,  // tmrSTATUS_IS_AUTORELOAD
    active: bool,  // tmrSTATUS_IS_ACTIVE
    value: nat)    // value of xTimerListItem

  // ---------------------------------------------------------------- the decision, under wraparound

  datatype Verdict = ProcessNow | IntoCurrent | IntoOverflow

  function Sub32(a: nat, b: nat): nat
    requires a < TICK_MOD && b < TICK_MOD
  {
    if a >= b then a - b else a + TICK_MOD - b
  }

  /** prvInsertTimerInActiveList: what it decides from 32-bit times. */
  function Decide(next: nat, now: nat, command: nat, period: nat): Verdict
    requires next < TICK_MOD && now < TICK_MOD && command < TICK_MOD
  {
    if next <= now then
      if Sub32(now, command) >= period then ProcessNow else IntoOverflow
    else
      if now < command && next >= command then ProcessNow else IntoCurrent
  }

  function Epoch(time: nat): nat { time / TICK_MOD }

  function Wrap(time: nat): nat { time % TICK_MOD }

  /** What should be done at N with a timer started at C: process it if its first period is over,
  and otherwise list it by the epoch of its expiry. */
  ghost predicate Right(v: Verdict, C: nat, N: nat, period: nat) {
    && (v.ProcessNow? <==> C + period <= N)
    && (v.IntoCurrent? <==> C + period > N && Epoch(C + period) == Epoch(N))
    && (v.IntoOverflow? <==> C + period > N && Epoch(C + period) == Epoch(N) + 1)
  }

  function Decided(C: nat, N: nat, period: nat): Verdict {
    Decide(Wrap(C + period), Wrap(N), Wrap(C), period)
  }

  /** The decision is right for every true command time C and true time now N less than 2^32 apart. */
  lemma DecideIsExact(C: nat, N: nat, period: nat)
    requires C <= N < C + TICK_MOD && 1 <= period < TICK_MOD
    ensures Right(Decided(C, N, period), C, N, period)
  {
    var c, n, e := C % TICK_MOD, N % TICK_MOD, (C + period) % TICK_MOD;
    assert C == Epoch(C) * TICK_MOD + c && N == Epoch(N) * TICK_MOD + n;
    assert C + period == Epoch(C + period) * TICK_MOD + e;
    assert Sub32(n, c) == N - C;
  }

  lemma WrapsAlike(C: nat, k: nat, x: nat)
    ensures Wrap(C + k * TICK_MOD + x) == Wrap(C + x)
  {}

  /** For command times further back it is right if and only if a whole period has gone by since
  the last time at which the tick count was what it was at C. */
  lemma StaleCommands(C: nat, N: nat, period: nat)
    requires C <= N && 1 <= period < TICK_MOD
    ensures Right(Decided(C, N, period), C, N, period) <==> N - C < TICK_MOD || (N - C) % TICK_MOD >= period
  {
    var k := (N - C) / TICK_MOD;
    var D := C + k * TICK_MOD;
    assert N - D == (N - C) % TICK_MOD;
    WrapsAlike(C, k, period);
    WrapsAlike(C, k, 0);
    assert Decided(C, N, period) == Decided(D, N, period);
    DecideIsExact(D, N, period);
  }

  /** Processed 2^32 ticks late, a start of 5 ticks is listed for an expiry still to come. */
  lemma StaleCommandMisplaced()
    ensures Decided(0, TICK_MOD, 5) == IntoCurrent && !Right(Decided(0, TICK_MOD, 5), 0, TICK_MOD, 5)
  {}

  // ---------------------------------------------------------------- lists of timers

  function ValuesOf(list: seq<Id>, timer: map<Id, Timer>): (v: seq<nat>)
    requires forall t :: t in list ==> t in timer
    ensures |v| == |list|
  {
    seq(|list|, i requires 0 <= i < |list| => timer[list[i]].value)
  }

  /** The list holds timers that expire in the given epoch, in order of expiry. */
  ghost predicate InEpoch(list: seq<Id>, timer: map<Id, Timer>, due: map<Id, nat>, epoch: nat) {
    && Distinct(list)
    && (forall t :: t in list ==> t in timer && t in due && timer[t].value == due[t] % TICK_MOD && Epoch(due[t]) == epoch)
    && Ascending(ValuesOf(list, timer))
  }

  /** vListInsert on a timer list. */
  function Insert(list: seq<Id>, timer: map<Id, Timer>, t: Id): (r: seq<Id>)
    requires t in timer && forall u :: u in list ==> u in timer
    ensures |r| == |list| + 1
  {
    var k := InsertPosition(ValuesOf(list, timer), timer[t].value);
    list[..k] + [t] + list[k..]
  }

  lemma InsertStaysInEpoch(list: seq<Id>, timer: map<Id, Timer>, due: map<Id, nat>, epoch: nat, t: Id)
    requires InEpoch(list, timer, due, epoch) && t !in list
    requires t in timer && t in due && timer[t].value == due[t] % TICK_MOD && Epoch(due[t]) == epoch
    ensures InEpoch(Insert(list, timer, t), timer, due, epoch)
    ensures forall u :: u in Insert(list, timer, t) <==> u in list || u == t
  {
    hide Ascending, Distinct, ValuesOf, Epoch;
    var v := ValuesOf(list, timer);
    var k := InsertPosition(v, timer[t].value);
    SplicedMembers(list, k, t);
    SplicedIsAscending(v, k, timer[t].value);
    SplicedValues(list, timer, k, t);
  }

  lemma SplicedValues(list: seq<Id>, timer: map<Id, Timer>, k: nat, t: Id)
    requires k <= |list| && t in timer && (forall u :: u in list ==> u in timer)
    requires forall u :: u in list[..k] + [t] + list[k..] ==> u in timer
    ensures var v := ValuesOf(list, timer);
            ValuesOf(list[..k] + [t] + list[k..], timer) == v[..k] + [timer[t].value] + v[k..]
  {}

  lemma TailStaysInEpoch(list: seq<Id>, timer: map<Id, Timer>, due: map<Id, nat>, epoch: nat)
    requires InEpoch(list, timer, due, epoch) && list != []
    ensures InEpoch(list[1..], timer, due, epoch)
    ensures forall u :: u in list[1..] <==> u in list && u != list[0]
  {
    assert list == [list[0]] + list[1..];
    assert ValuesOf(list[1..], timer) == ValuesOf(list, timer)[1..];
  }

  /** uxListRemove, if the timer is on this list. */
  function Remove(list: seq<Id>, t: Id): seq<Id> {
    if t in list then var i := Scheduling.Find(list, t); list[..i] + list[i + 1..] else list
  }

  lemma CutAscends(v: seq<nat>, i: nat)
    requires i < |v| && Ascending(v)
    ensures Ascending(v[..i] + v[i + 1..])
  {
    var r := v[..i] + v[i + 1..];
    assert forall j :: 0 <= j < |r| ==> r[j] == v[if j < i then j else j + 1];
  }

  lemma CutValues(list: seq<Id>, timer: map<Id, Timer>, i: nat)
    requires i < |list| && (forall t :: t in list ==> t in timer)
    requires forall t :: t in list[..i] + list[i + 1..] ==> t in timer
    ensures ValuesOf(list[..i] + list[i + 1..], timer) == ValuesOf(list, timer)[..i] + ValuesOf(list, timer)[i + 1..]
  {}

  lemma RemoveStaysInEpoch(list: seq<Id>, timer: map<Id, Timer>, due: map<Id, nat>, epoch: nat, t: Id)
    requires InEpoch(list, timer, due, epoch)
    ensures InEpoch(Remove(list, t), timer, due, epoch)
    ensures forall u :: u in Remove(list, t) <==> u in list && u != t
  {
    hide Ascending, Distinct, Epoch, Scheduling.Find, ValuesOf;
    if t in list {
      var i := Scheduling.Find(list, t);
      CutMembers(list, i);
      CutAscends(ValuesOf(list, timer), i);
      CutValues(list, timer, i);
    }
  }

  /** A list is as good after a change that spares the item values of its members. */
  lemma InEpochKept(list: seq<Id>, timer: map<Id, Timer>, due: map<Id, nat>,
                    timer': map<Id, Timer>, due': map<Id, nat>, epoch: nat)
    requires InEpoch(list, timer, due, epoch)
    requires forall t :: t in list ==> t in timer' && t in due' && timer'[t].value == timer[t].value && due'[t] == due[t]
    ensures InEpoch(list, timer', due', epoch)
  {
    assert ValuesOf(list, timer') == ValuesOf(list, timer);
  }

  lemma Members(list: seq<Id>, timer: map<Id, Timer>, due: map<Id, nat>, epoch: nat)
    requires InEpoch(list, timer, due, epoch)
    ensures forall t :: t in list ==> t in timer && t in due && timer[t].value == due[t] % TICK_MOD && Epoch(due[t]) == epoch
  {}

  // ---------------------------------------------------------------- how often a reload calls back

  function Repeat(t: Id, n: nat): (r: seq<Id>)
    ensures |r| == n
  {
    seq(n, _ => t)
  }

  lemma RepeatMore(t: Id, n: nat)
    ensures Repeat(t, n) + [t] == Repeat(t, n + 1)
  {}

  lemma MulSteps(a: nat, b: nat, c: nat)
    ensures a < b ==> a * c + c <= b * c
  {
    if a < b { assert (a + 1) * c <= b * c; }
  }

  lemma QuotientIs(a: nat, b: nat, q: nat)
    requires b > 0 && q * b <= a < q * b + b
    ensures a / b == q
  {
    MulSteps(a / b, q, b);
    MulSteps(q, a / b, b);
  }

  /** The whole periods between an expiry E and now N. */
  function Missed(E: nat, N: nat, period: nat): nat
    requires E <= N && period > 0
  {
    (N - E) / period
  }

  /** The expiry i periods after E. */
  function Expiry(E: nat, i: nat, period: nat): (x: nat)
    ensures x >= E
  {
    E + i * period
  }

  lemma ExpirySteps(E: nat, i: nat, N: nat, period: nat)
    requires period > 0
    ensures Expiry(E, 0, period) == E && Expiry(E, i + 1, period) == Expiry(E, i, period) + period
    ensures Expiry(E, i, period) <= N < Expiry(E, i, period) + period ==> Missed(E, N, period) == i
  {
    assert (i + 1) * period == i * period + period;
    if i * period <= N - E < i * period + period { QuotientIs(N - E, period, i); }
  }

  lemma AddWraps(a: nat, b: nat)
    ensures Wrap(Wrap(a) + b) == Wrap(a + b)
  {}

  /** The callbacks an expiry at E is worth when it is processed at N. */
  function Fires(tm: Timer, E: nat, N: nat): (n: nat)
    requires E <= N && tm.period > 0
    ensures n > 0
  {
    if tm.reload then Missed(E, N, tm.period) + 1 else 1
  }

  lemma RepeatNone(t: Id)
    ensures Repeat(t, 0) == []
  {}

  lemma SameEpoch(E: nat, N: nat)
    requires Epoch(E) == Epoch(N)
    ensures N < E + TICK_MOD && E < N + TICK_MOD
  {}

  /** The daemon's state as a value, with the true expiry times. */
  datatype Snapshot = Snapshot(
    timer: map<Id, Timer>,
    due: map<Id, nat>,
    current: seq<Id>,
    overflow: seq<Id>,
    callbacks: seq<Id>)

  /** Every timer on the current list has expired by N. */
  ghost predicate Expired(a: Snapshot, N: nat) {
    forall t :: t in a.current ==> t in a.timer && t in a.due && a.due[t] <= N && a.timer[t].period > 0
  }

  ghost predicate SameSettings(a: Snapshot, b: Snapshot) {
    b.timer.Keys == a.timer.Keys
    && forall t :: t in a.timer ==> b.timer[t].period == a.timer[t].period && b.timer[t].reload == a.timer[t].reload
  }

  ghost predicate Untouched(a: Snapshot, b: Snapshot, t: Id) {
    && (t in a.timer ==> t in b.timer && b.timer[t] == a.timer[t])
    && (t in a.due ==> t in b.due && b.due[t] == a.due[t])
    && (t in b.current <==> t in a.current) && (t in b.overflow <==> t in a.overflow)
  }

  /** Timer t of the current list has been processed at N: a one-shot timer is on no list, a
  reloading one is listed for its first expiry after N, in phase with the last. */
  ghost predicate Processed(a: Snapshot, b: Snapshot, t: Id, N: nat)
    requires SameSettings(a, b) && t in a.timer && t in a.due && a.due[t] <= N && a.timer[t].period > 0
  {
    && (a.timer[t].reload <==> t in b.current || t in b.overflow)
    && (a.timer[t].reload ==>
          && t in b.due && b.due[t] > N
          && b.due[t] == Expiry(a.due[t], Fires(a.timer[t], a.due[t], N), a.timer[t].period)
          && (t in b.current <==> Epoch(b.due[t]) == Epoch(N)))
  }

  /** The head of the current list has been processed at N, with the callbacks it is worth. */
  ghost predicate HeadProcessed(a: Snapshot, b: Snapshot, N: nat) {
    && a.current != [] && SameSettings(a, b)
    && var t := a.current[0];
       && t in a.timer && t in a.due && a.due[t] <= N && a.timer[t].period > 0
       && Processed(a, b, t, N)
       && b.callbacks == a.callbacks + Repeat(t, Fires(a.timer[t], a.due[t], N))
       && (forall u :: u != t ==> Untouched(a, b, u))
       && (t in b.current || |b.current| == |a.current| - 1)
  }

  lemma HeadIsProcessed(a: Snapshot, b: Snapshot, N: nat)
    requires a.current != []
    requires var t := a.current[0];
             && t in a.timer && t in a.due && a.due[t] <= N && a.timer[t].period > 0
             && t in b.timer && b.timer == a.timer[t := a.timer[t].(value := b.timer[t].value, active := b.timer[t].active)]
             && t in b.due && b.due == a.due[t := b.due[t]]
             && (forall u :: u != t ==> (u in b.current <==> u in a.current) && (u in b.overflow <==> u in a.overflow))
             && (t in b.current || |b.current| == |a.current| - 1)
             && b.callbacks == a.callbacks + Repeat(t, Fires(a.timer[t], a.due[t], N))
             && (a.timer[t].reload <==> t in b.current || t in b.overflow)
             && (a.timer[t].reload ==>
                   && b.due[t] > N
                   && b.due[t] == Expiry(a.due[t], Fires(a.timer[t], a.due[t], N), a.timer[t].period)
                   && (t in b.current <==> Epoch(b.due[t]) == Epoch(N)))
    ensures HeadProcessed(a, b, N)
  {
    hide Epoch, Expiry, Missed, Repeat;
  }

  /** From a to b, timer t has been processed at N, with the callbacks it is worth, if it left the
  current list; otherwise nothing about it has changed. */
  ghost predicate DrainedOne(a: Snapshot, b: Snapshot, t: Id, N: nat)
    requires Expired(a, N) && SameSettings(a, b)
  {
    && (t in b.current ==> t in a.current)
    && (if t in a.current && t !in b.current then Processed(a, b, t, N) else Untouched(a, b, t))
    && multiset(b.callbacks)[t] == multiset(a.callbacks)[t]
         + if t in a.current && t !in b.current then Fires(a.timer[t], a.due[t], N) else 0
  }

  ghost predicate Drained(a: Snapshot, b: Snapshot, N: nat) {
    Expired(a, N) && SameSettings(a, b) && forall t :: DrainedOne(a, b, t, N)
  }

  /** Processed at the last tick of an epoch, a timer leaves the current list for good. */
  lemma DrainsAtEndOfEpoch(a: Snapshot, b: Snapshot, c: Snapshot, N: nat)
    requires Drained(a, b, N) && HeadProcessed(b, c, N) && N % TICK_MOD == TICK_MOD - 1
    ensures Drained(a, c, N) && b.current[0] !in c.current
  {
    HeadLeaves(b, c, N);
    hide HeadProcessed, DrainedOne;
    SettingsCarry(a, b, c, N);
    forall u ensures DrainedOne(a, c, u, N) {
      DrainsOne(a, b, c, u, N);
    }
  }

  lemma SettingsCarry(a: Snapshot, b: Snapshot, c: Snapshot, N: nat)
    requires SameSettings(a, b) && HeadProcessed(b, c, N)
    ensures SameSettings(a, c)
  {}

  lemma HeadLeaves(b: Snapshot, c: Snapshot, N: nat)
    requires HeadProcessed(b, c, N) && N % TICK_MOD == TICK_MOD - 1
    ensures b.current[0] !in c.current
  {
    hide Expiry, Repeat, Missed;
    LeavesEpoch(N);
  }

  lemma DrainsOne(a: Snapshot, b: Snapshot, c: Snapshot, u: Id, N: nat)
    requires Drained(a, b, N) && HeadProcessed(b, c, N) && SameSettings(a, c) && b.current[0] !in c.current
    ensures DrainedOne(a, c, u, N)
  {
    hide Expiry, Repeat, Missed, Epoch;
    var t := b.current[0];
    assert t in b.current && DrainedOne(a, b, t, N) && DrainedOne(a, b, u, N);
    RepeatCounts(b.callbacks, t, Fires(b.timer[t], b.due[t], N), u);
    if u != t { assert Untouched(b, c, u); }
  }

  lemma LeavesEpoch(N: nat)
    requires N % TICK_MOD == TICK_MOD - 1
    ensures forall x: nat {:trigger Epoch(x)} :: x > N ==> Epoch(x) != Epoch(N)
  {}

  lemma {:induction false} RepeatCounts(calls: seq<Id>, t: Id, n: nat, u: Id)
    ensures multiset(calls + Repeat(t, n))[u] == multiset(calls)[u] + if u == t then n else 0
  {
    if n == 0 {
      assert calls + Repeat(t, 0) == calls;
    } else {
      RepeatCounts(calls, t, n - 1, u);
      assert calls + Repeat(t, n) == (calls + Repeat(t, n - 1)) + [t];
    }
  }

  /** The last tick of an epoch. */
  function LastOf(epoch: nat): nat { epoch * TICK_MOD + TICK_MOD - 1 }

  lemma EndOfEpoch(epoch: nat)
    ensures Epoch(LastOf(epoch)) == epoch && LastOf(epoch) % TICK_MOD == MAX_DELAY
  {}

  lemma EndsWithin(E: nat, epoch: nat)
    requires Epoch(E) == epoch
    ensures E <= LastOf(epoch)
  {}

  lemma DrainedAtFirst(a: Snapshot, epoch: nat)
    requires InEpoch(a.current, a.timer, a.due, epoch) && forall t :: t in a.timer ==> a.timer[t].period > 0
    ensures Drained(a, a, LastOf(epoch))
  {
    forall t | t in a.current ensures a.due[t] <= LastOf(epoch) { EndsWithin(a.due[t], epoch); }
  }

  /** If any timer of the current list has expired, then the first has, and the code can tell. */
  lemma FirstIsEarliest(list: seq<Id>, timer: map<Id, Timer>, due: map<Id, nat>, N: nat)
    requires InEpoch(list, timer, due, Epoch(N))
    ensures list != [] ==> (timer[list[0]].value <= N % TICK_MOD <==> due[list[0]] <= N)
    ensures (exists t :: t in list && due[t] <= N) <==> list != [] && timer[list[0]].value <= N % TICK_MOD
  {
    forall t | t in list ensures timer[t].value <= N % TICK_MOD <==> due[t] <= N {}
    if t :| t in list && due[t] <= N {
      var i :| 0 <= i < |list| && list[i] == t;
      assert ValuesOf(list, timer)[0] <= ValuesOf(list, timer)[i];
    }
  }

  // ---------------------------------------------------------------- the other timers

  /** Nothing about the timer has changed, and it has not been called back. */
  ghost predicate Kept(a: Snapshot, b: Snapshot, u: Id) {
    Untouched(a, b, u) && multiset(b.callbacks)[u] == multiset(a.callbacks)[u]
  }

  /** The lists have been switched at N, the last tick of an epoch. A timer of the old current list
  has been called back as often as it is worth, and is listed for its next expiry if it reloads;
  one of the old overflow list is on the current list; nothing else has happened. */
  ghost predicate Switched(a: Snapshot, b: Snapshot, u: Id, N: nat) {
    if u in a.current then
      && u in a.timer && u in a.due && a.due[u] <= N && a.timer[u].period > 0
      && u in b.timer && b.timer[u].period == a.timer[u].period && b.timer[u].reload == a.timer[u].reload
      && u !in b.overflow && (u in b.current <==> a.timer[u].reload)
      && (u in b.current ==>
            u in b.due && b.due[u] == Expiry(a.due[u], Fires(a.timer[u], a.due[u], N), a.timer[u].period) > N)
      && multiset(b.callbacks)[u] == multiset(a.callbacks)[u] + Fires(a.timer[u], a.due[u], N)
    else
      && (u in a.timer ==> u in b.timer && b.timer[u] == a.timer[u])
      && (u in a.due ==> u in b.due && b.due[u] == a.due[u])
      && u !in b.overflow && (u in b.current <==> u in a.overflow)
      && multiset(b.callbacks)[u] == multiset(a.callbacks)[u]
  }

  /** What the time going on from `last` to N does to a timer no command is about. */
  ghost predicate Passed(a: Snapshot, b: Snapshot, u: Id, last: nat, N: nat) {
    if Epoch(N) == Epoch(last) then Kept(a, b, u) else Switched(a, b, u, LastOf(Epoch(last)))
  }

  lemma DrainedIsSwitched(a: Snapshot, b: Snapshot, N: nat, u: Id)
    requires Drained(a, b.(current := [], overflow := b.current), N) && b.overflow == []
    ensures Switched(a, b, u, N)
  {
    hide Expiry, Missed, Epoch;
    assert DrainedOne(a, b.(current := [], overflow := b.current), u, N);
  }

  /** A timer that is on no list is left alone. */
  lemma PassedOver(a: Snapshot, b: Snapshot, t: Id, last: nat, N: nat)
    requires Passed(a, b, t, last, N) && t in a.timer && t !in a.current && t !in a.overflow
    ensures t in b.timer && b.timer[t] == a.timer[t] && multiset(b.callbacks)[t] == multiset(a.callbacks)[t]
  {}

  /** Before the time is sampled, timers other than u may leave their lists. */
  lemma RemovedThenPassed(a: Snapshot, m: Snapshot, b: Snapshot, u: Id, last: nat, N: nat)
    requires m == a.(current := m.current, overflow := m.overflow)
    requires (u in m.current <==> u in a.current) && (u in m.overflow <==> u in a.overflow)
    requires Passed(m, b, u, last, N)
    ensures Passed(a, b, u, last, N)
  {
    hide Expiry, Fires, Epoch;
  }

  lemma PassedThenKept(a: Snapshot, m: Snapshot, b: Snapshot, u: Id, last: nat, N: nat)
    requires Passed(a, m, u, last, N) && Kept(m, b, u)
    ensures Passed(a, b, u, last, N)
  {
    hide Expiry, Fires, Epoch;
  }

  /** A change to timer t and its callbacks keeps the others. */
  lemma OthersKept(a: Snapshot, b: Snapshot, t: Id, n: nat)
    requires t in b.timer && b.timer == a.timer[t := b.timer[t]]
    requires b.due == a.due || (t in b.due && b.due == a.due[t := b.due[t]])
    requires forall u :: u != t ==> (u in b.current <==> u in a.current) && (u in b.overflow <==> u in a.overflow)
    requires b.callbacks == a.callbacks + Repeat(t, n)
    ensures forall u :: u != t ==> Kept(a, b, u)
  {
    forall u | u != t ensures Kept(a, b, u) { RepeatCounts(a.callbacks, t, n, u); }
  }

  // ---------------------------------------------------------------- how far off an expiry may be

  /** No listed timer expires later than a period from N. */
  ghost predicate Near(a: Snapshot, N: nat) {
    forall t :: t in a.current || t in a.overflow ==> t in a.timer && t in a.due && a.due[t] <= N + a.timer[t].period
  }

  /** Every listed timer expires after N. */
  ghost predicate CaughtUp(a: Snapshot, N: nat) {
    forall t :: t in a.current || t in a.overflow ==> t in a.due && a.due[t] > N
  }

  lemma NextIsNear(E: nat, N: nat, tm: Timer)
    requires E <= N && tm.period > 0 && tm.reload
    ensures Expiry(E, Fires(tm, E, N) - 1, tm.period) <= N < Expiry(E, Fires(tm, E, N), tm.period)
    ensures Expiry(E, Fires(tm, E, N), tm.period) == Expiry(E, Fires(tm, E, N) - 1, tm.period) + tm.period
  {
    var q := (N - E) / tm.period;
    assert N - E == q * tm.period + (N - E) % tm.period;
    assert (q + 1) * tm.period == q * tm.period + tm.period;
  }

  lemma NearOnceProcessed(a: Snapshot, b: Snapshot, N: nat)
    requires HeadProcessed(a, b, N) && Near(a, N)
    ensures Near(b, N)
  {
    hide Expiry, Fires, Epoch, Repeat;
    var t := a.current[0];
    if a.timer[t].reload { NextIsNear(a.due[t], N, a.timer[t]); }
    forall u | (u in b.current || u in b.overflow) && u != t
      ensures u in b.timer && u in b.due && b.due[u] <= N + b.timer[u].period
    {
      assert Untouched(a, b, u);
    }
  }

  lemma LastIsBefore(last: nat, N: nat)
    requires last <= N && Epoch(last) != Epoch(N)
    ensures LastOf(Epoch(last)) < N
  {}

  lemma NearOncePassed(a: Snapshot, b: Snapshot, u: Id, last: nat, N: nat)
    requires Near(a, last) && Passed(a, b, u, last, N) && last <= N && (u in b.current || u in b.overflow)
    ensures u in b.timer && u in b.due && b.due[u] <= N + b.timer[u].period
  {
    hide Expiry, Fires, Epoch, LastOf;
    if Epoch(N) != Epoch(last) {
      LastIsBefore(last, N);
      if u in a.current { NextIsNear(a.due[u], LastOf(Epoch(last)), a.timer[u]); }
    }
  }

  /** If one timer changes and stays near, all do. */
  lemma NearWithOne(a: Snapshot, b: Snapshot, t: Id, N: nat)
    requires Near(a, N) && (forall u :: u != t ==> Kept(a, b, u))
    requires t in b.current || t in b.overflow ==> t in b.timer && t in b.due && b.due[t] <= N + b.timer[t].period
    ensures Near(b, N)
  {
    forall u | (u in b.current || u in b.overflow) && u != t
      ensures u in b.timer && u in b.due && b.due[u] <= N + b.timer[u].period
    {
      assert Kept(a, b, u);
    }
  }

  /** What the daemon does until the next expiry. */
  datatype Pause = NoPause | PauseFor(ticks: nat) | PauseForever

  /** If no timer has expired, the block time that prvProcessTimerOrBlockTask computes from 32-bit
  times is at least a tick. It ends at the first expiry of this epoch or, if there is none, when the
  next epoch begins, before any timer is due. */
  lemma PauseIsRight(a: Snapshot, N: nat, next: nat)
    requires InEpoch(a.current, a.timer, a.due, Epoch(N)) && InEpoch(a.overflow, a.timer, a.due, Epoch(N) + 1)
    requires Near(a, N) && (forall t :: t in a.timer ==> a.timer[t].period < TICK_MOD)
    requires a.current != [] || a.overflow != []
    requires a.current != [] ==> next == a.timer[a.current[0]].value > N % TICK_MOD
    requires a.current == [] ==> next == 0
    ensures var ticks := Sub32(next, N % TICK_MOD);
            && 1 <= ticks < TICK_MOD
            && (forall t :: t in a.current || t in a.overflow ==> t in a.due && N + ticks <= a.due[t])
            && (a.current != [] ==> N + ticks == a.due[a.current[0]])
            && (a.current == [] ==> N + ticks == LastOf(Epoch(N)) + 1)
  {
    if a.current == [] {
      assert a.overflow[0] in a.overflow;
    } else {
      assert a.current[0] in a.current;
      forall t | t in a.current ensures a.due[a.current[0]] <= a.due[t] {
        var i :| 0 <= i < |a.current| && a.current[i] == t;
        assert ValuesOf(a.current, a.timer)[0] <= ValuesOf(a.current, a.timer)[i];
      }
    }
  }

  lemma HeadGone(a: Snapshot, b: Snapshot, N: nat)
    requires HeadProcessed(a, b, N) && a.current[0] !in b.current
    ensures |b.current| < |a.current|
  {}

  lemma EmptyInEpoch(timer: map<Id, Timer>, due: map<Id, nat>, epoch: nat)
    ensures InEpoch([], timer, due, epoch)
  {}

  lemma NextEpochIsLater(N: nat)
    ensures forall E: nat {:trigger Epoch(E)} :: Epoch(E) == Epoch(N) + 1 ==> E > N
  {}

  /** The tick count has wrapped exactly when it is less than it was. */
  lemma WrapIsSeen(last: nat, N: nat)
    requires last <= N < last + TICK_MOD
    ensures N % TICK_MOD < last % TICK_MOD <==> Epoch(N) == Epoch(last) + 1
    ensures !(N % TICK_MOD < last % TICK_MOD) <==> Epoch(N) == Epoch(last)
  {}

  datatype Command =
    | Start(at: nat)           // tmrCOMMAND_START and tmrCOMMAND_RESET, and both from an interrupt
    | Stop                     // tmrCOMMAND_STOP
    | ChangePeriod(period: nat)
    | Delete

  /** The callbacks that carrying out a command at N is worth to its timer. */
  function Calls(tm: Timer, command: Command, C: nat, N: nat): nat
    requires tm.period > 0
  {
    if command.Start? && C + tm.period <= N then Fires(tm, C + tm.period, N) else 0
  }

  /** Timer t, which was tm, is as the command calls for that has been carried out at N. A start
  issued at C lists the timer for a period later or, if that is over by then, for its first expiry
  after N if it reloads. */
  ghost predicate Obeyed(tm: Timer, b: Snapshot, t: Id, command: Command, C: nat, N: nat)
    requires tm.period > 0
  {
    && t in b.timer && b.timer[t].reload == tm.reload
    && b.timer[t].period == (if command.ChangePeriod? then command.period else tm.period)
    && var listed, E := t in b.current || t in b.overflow, C + tm.period;
       match command
       case Start(_) =>
         if E > N then listed && t in b.due && b.due[t] == E
         else
           && (listed <==> tm.reload)
           && (listed ==> t in b.due && b.due[t] == Expiry(E, Fires(tm, E, N), tm.period) > N)
       case ChangePeriod(p) => listed && t in b.due && b.due[t] == N + p
       case _ => !listed
  }

  lemma FiresAlike(a: Timer, b: Timer, E: nat, N: nat)
    requires E <= N && a.period == b.period > 0 && a.reload == b.reload
    ensures Fires(a, E, N) == Fires(b, E, N)
  {}

  lemma ObeyedIsNear(tm: Timer, b: Snapshot, t: Id, command: Command, C: nat, N: nat)
    requires tm.period > 0 && Obeyed(tm, b, t, command, C, N) && (command.Start? ==> C <= N)
    requires t in b.current || t in b.overflow
    ensures t in b.timer && t in b.due && b.due[t] <= N + b.timer[t].period
  {
    hide Expiry, Fires;
    var E := C + tm.period;
    if command.Start? && E <= N { NextIsNear(E, N, tm); }
  }

  // ---------------------------------------------------------------- the daemon

  class Daemon {
    var timer: map<Id, Timer>
    var current: seq<Id>      // pxCurrentTimerList
    var overflow: seq<Id>     // pxOverflowTimerList
    var lastTime: nat         // xLastTime
    var callbacks: seq<Id>    // the callbacks made, in order
    ghost var last: nat       // the true time of the last sample
    ghost var due: map<Id, nat>  // the true expiry times behind the item values

    ghost function Now(): Snapshot
      reads this
    {
      Snapshot(timer, due, current, overflow, callbacks)
    }

    /** The current list holds expiries of this epoch, the overflow list expiries of the next. */
    ghost predicate Lists(epoch: nat)
      reads this`timer, this`due, this`current, this`overflow
    {
      && InEpoch(current, timer, due, epoch) && InEpoch(overflow, timer, due, epoch + 1)
      && forall t :: t in timer ==> 1 <= timer[t].period < TICK_MOD
    }

    predicate OnList(t: Id)
      reads this`current, this`overflow
    {
      t in current || t in overflow
    }

    ghost predicate Flags(except: set<Id>)
      reads this`timer, this`current, this`overflow
    {
      forall t :: t in timer && t !in except ==> (timer[t].active <==> OnList(t))
    }

    /** Between commands: a timer is flagged active if and only if it is on a list. */
    ghost predicate Valid()
      reads this
    {
      Lists(Epoch(last)) && Flags({}) && lastTime == Wrap(last) && Near(Now(), last)
    }

    /** Both lists empty, no timer started, and the time not sampled yet. */
    constructor (timers: map<Id, Timer>)
      requires forall t :: t in timers ==> 1 <= timers[t].period < TICK_MOD && !timers[t].active
      ensures Valid() && timer == timers && callbacks == [] && last == 0
    {
      timer, current, overflow, lastTime, callbacks := timers, [], [], 0, [];
      last, due := 0, map[];
    }

    /** prvInsertTimerInActiveList. */
    method InsertInActiveList(t: Id, next: nat, now: nat, command: nat, ghost C: nat, ghost N: nat)
      returns (processNow: bool)
      requires Lists(Epoch(N)) && t in timer && !OnList(t) && C <= N < C + TICK_MOD
      requires next == Wrap(C + timer[t].period) && now == Wrap(N) && command == Wrap(C)
      modifies this`timer, this`due, this`current, this`overflow
      ensures Lists(Epoch(N))
      ensures timer == old(timer)[t := old(timer)[t].(value := next)]
      ensures due == old(due)[t := C + old(timer)[t].period]
      ensures processNow <==> due[t] <= N
      ensures processNow ==> current == old(current) && overflow == old(overflow)
      ensures !processNow ==> OnList(t) && (t in current <==> Epoch(due[t]) == Epoch(N))
      ensures forall u :: u != t ==> (u in current <==> u in old(current)) && (u in overflow <==> u in old(overflow))
      ensures t in current || |current| == |old(current)|
    {
      hide InEpoch, Insert;
      processNow := false;
      DecideIsExact(C, N, timer[t].period);
      Members(current, timer, due, Epoch(N));
      Members(overflow, timer, due, Epoch(N) + 1);
      timer := timer[t := timer[t].(value := next)];
      due := due[t := C + timer[t].period];
      InEpochKept(current, old(timer), old(due), timer, due, Epoch(N));
      InEpochKept(overflow, old(timer), old(due), timer, due, Epoch(N) + 1);
      if next <= now {
        if Sub32(now, command) >= timer[t].period {
          processNow := true;
        } else {
          InsertStaysInEpoch(overflow, timer, due, Epoch(N) + 1, t);
          overflow := Insert(overflow, timer, t);
        }
      } else {
        if now < command && next >= command {
          processNow := true;
        } else {
          InsertStaysInEpoch(current, timer, due, Epoch(N), t);
          current := Insert(current, timer, t);
        }
      }
    }

    lemma PeriodBounds(t: Id, epoch: nat)
      requires Lists(epoch) && t in timer
      ensures 1 <= timer[t].period < TICK_MOD
    {}

    /** prvReloadTimer: one callback for every whole period that has gone by since the expiry, and
    the timer is listed for the first expiry after now, in phase. */
    method ReloadTimer(t: Id, expired: nat, now: nat, ghost E: nat, ghost N: nat)
      requires Lists(Epoch(N)) && t in timer && !OnList(t) && E <= N < E + TICK_MOD
      requires expired == Wrap(E) && now == Wrap(N)
      modifies this`timer, this`due, this`current, this`overflow, this`callbacks
      ensures Lists(Epoch(N)) && OnList(t) && (t in current <==> Epoch(due[t]) == Epoch(N))
      ensures forall u :: u != t ==> (u in current <==> u in old(current)) && (u in overflow <==> u in old(overflow))
      ensures t in current || |current| == |old(current)|
      ensures timer == old(timer)[t := old(timer)[t].(value := Wrap(due[t]))]
      ensures var p := old(timer)[t].period;
              && callbacks == old(callbacks) + Repeat(t, Missed(E, N, p))
              && due == old(due)[t := Expiry(E, Missed(E, N, p) + 1, p)] && due[t] > N
    {
      hide Lists, InEpoch, Repeat, Epoch, Missed, Expiry, Wrap;
      PeriodBounds(t, Epoch(N));
      var p, xExpired := timer[t].period, expired;
      ghost var i, X := 0, E;
      AddWraps(X, p);
      ExpirySteps(E, i, N, p);
      var again := InsertInActiveList(t, Wrap(xExpired + p), now, xExpired, X, N);
      while again
        invariant Lists(Epoch(N)) && X == Expiry(E, i, p) && X <= N && xExpired == Wrap(X)
        invariant callbacks == old(callbacks) + Repeat(t, i)
        invariant t in timer && timer == old(timer)[t := old(timer)[t].(value := Wrap(X + p))]
        invariant due == old(due)[t := X + p]
        invariant again <==> X + p <= N
        invariant again ==> !OnList(t)
        invariant !again ==> OnList(t) && (t in current <==> Epoch(due[t]) == Epoch(N))
        invariant forall u :: u != t ==> (u in current <==> u in old(current)) && (u in overflow <==> u in old(overflow))
        invariant t in current || |current| == |old(current)|
        decreases N - X
      {
        AddWraps(X, p);
        RepeatMore(t, i);
        ExpirySteps(E, i, N, p);
        xExpired := Wrap(xExpired + p);
        i, X := i + 1, X + p;
        callbacks := callbacks + [t];
        AddWraps(X, p);
        again := InsertInActiveList(t, Wrap(xExpired + p), now, xExpired, X, N);
      }
      ExpirySteps(E, i, N, p);
    }

    /** Set or clear tmrSTATUS_IS_ACTIVE of a timer that is on no list. */
    method SetActive(t: Id, active: bool, ghost epoch: nat)
      requires Lists(epoch) && t in timer && !OnList(t)
      modifies this`timer
      ensures Lists(epoch) && timer == old(timer)[t := old(timer)[t].(active := active)]
    {
      hide InEpoch;
      timer := timer[t := timer[t].(active := active)];
      Members(current, old(timer), due, epoch);
      Members(overflow, old(timer), due, epoch + 1);
      InEpochKept(current, old(timer), due, timer, due, epoch);
      InEpochKept(overflow, old(timer), due, timer, due, epoch + 1);
    }

    /** What an expiry at E is worth at N: prvReloadTimer if it reloads, and a last callback. */
    method Fire(t: Id, expired: nat, now: nat, ghost E: nat, ghost N: nat)
      requires Lists(Epoch(N)) && t in timer && !OnList(t) && E <= N < E + TICK_MOD
      requires expired == Wrap(E) && now == Wrap(N)
      modifies this`timer, this`due, this`current, this`overflow, this`callbacks
      ensures Lists(Epoch(N)) && t in timer
      ensures timer == old(timer)[t := old(timer)[t].(value := timer[t].value, active := old(timer)[t].active && OnList(t))]
      ensures forall u :: u != t ==> (u in current <==> u in old(current)) && (u in overflow <==> u in old(overflow))
      ensures t in current || |current| == |old(current)|
      ensures OnList(t) <==> old(timer)[t].reload
      ensures !OnList(t) ==> due == old(due)
      ensures var tm := old(timer)[t];
              && callbacks == old(callbacks) + Repeat(t, Fires(tm, E, N))
              && (OnList(t) ==>
                    && due == old(due)[t := Expiry(E, Fires(tm, E, N), tm.period)] && N < due[t] <= N + tm.period
                    && (t in current <==> Epoch(due[t]) == Epoch(N)))
    {
      hide InEpoch, Epoch, Expiry, Missed, Repeat;
      PeriodBounds(t, Epoch(N));
      if timer[t].reload {
        NextIsNear(E, N, timer[t]);
        ReloadTimer(t, expired, now, E, N);
      } else {
        SetActive(t, false, Epoch(N));
      }
      callbacks := callbacks + [t];
      RepeatNone(t);
      RepeatMore(t, Fires(old(timer)[t], E, N) - 1);
    }

    /** prvProcessExpiredTimer, on the head of the current list. */
    method ProcessExpiredTimer(next: nat, now: nat, ghost N: nat, ghost except: set<Id>)
      requires Lists(Epoch(N)) && Flags(except) && forall u :: u in except ==> !OnList(u)
      requires current != [] && next == timer[current[0]].value && now == Wrap(N) && due[current[0]] <= N
      modifies this`timer, this`due, this`current, this`overflow, this`callbacks
      ensures Lists(Epoch(N)) && Flags(except) && forall u :: u in except ==> !OnList(u)
      ensures HeadProcessed(old(Now()), Now(), N)
    {
      hide InEpoch, Epoch, Expiry, Missed, Repeat, HeadProcessed;
      var t := current[0];
      Members(current, timer, due, Epoch(N));
      Members(overflow, timer, due, Epoch(N) + 1);
      SameEpoch(due[t], N);
      TailStaysInEpoch(current, timer, due, Epoch(N));
      current := current[1..];
      Fire(t, next, now, due[t], N);
      HeadIsProcessed(old(Now()), Now(), N);
    }

    /** prvSwitchTimerLists: everything on the current list expires, by the end of its epoch. The
    loop ends because what is reloaded then goes to the overflow list. */
    method SwitchTimerLists(ghost epoch: nat, ghost except: set<Id>)
      requires Lists(epoch) && Flags(except) && forall u :: u in except ==> !OnList(u)
      modifies this`timer, this`due, this`current, this`overflow, this`callbacks
      ensures Lists(epoch + 1) && Flags(except) && forall u :: u in except ==> !OnList(u)
      ensures overflow == []
      ensures Drained(old(Now()), Now().(current := [], overflow := current), LastOf(epoch))
    {
      hide InEpoch, HeadProcessed, Drained, Epoch;
      ghost var N := LastOf(epoch);
      EndOfEpoch(epoch);
      DrainedAtFirst(Now(), epoch);
      while current != []
        invariant Lists(epoch) && Flags(except) && forall u :: u in except ==> !OnList(u)
        invariant Drained(old(Now()), Now(), N)
        decreases |current|
      {
        ghost var before := Now();
        Members(current, timer, due, epoch);
        EndsWithin(due[current[0]], epoch);
        ProcessExpiredTimer(timer[current[0]].value, MAX_DELAY, N, except);
        DrainsAtEndOfEpoch(old(Now()), before, Now(), N);
        HeadGone(before, Now(), N);
      }
      EmptyInEpoch(timer, due, epoch + 2);
      current, overflow := overflow, current;
    }

    /** prvSampleTimeNow. */
    method SampleTimeNow(now: nat, ghost N: nat, ghost except: set<Id>) returns (switched: bool)
      requires Lists(Epoch(last)) && lastTime == Wrap(last)
      requires Flags(except) && forall u :: u in except ==> !OnList(u)
      requires last <= N < last + TICK_MOD && now == Wrap(N)
      modifies this
      ensures Lists(Epoch(N)) && last == N && lastTime == now
      ensures Flags(except) && forall u :: u in except ==> !OnList(u)
      ensures switched <==> Epoch(N) == Epoch(old(last)) + 1
      ensures !switched ==> Now() == old(Now())
      ensures forall u :: Passed(old(Now()), Now(), u, old(last), N)
    {
      hide InEpoch, Drained, Epoch, Switched;
      WrapIsSeen(last, N);
      switched := now < lastTime;
      if switched {
        SwitchTimerLists(Epoch(last), except);
      }
      lastTime := now;
      last := N;
      forall u ensures Passed(old(Now()), Now(), u, old(last), N) {
        if switched { DrainedIsSwitched(old(Now()), Now(), LastOf(Epoch(old(last))), u); }
      }
    }

    /** prvProcessTimerOrBlockTask with prvGetNextExpireTime: fire the first timer of the current list
    if it has expired, and otherwise block for as long as no timer expires. */
    method ProcessTimerOrBlock(now: nat, ghost N: nat) returns (fired: bool, pause: Pause)
      requires Valid() && last <= N < last + TICK_MOD && now == Wrap(N)
      modifies this
      ensures Valid() && last == N
      ensures Epoch(N) == Epoch(old(last)) ==>
                (fired <==> old(exists t :: t in current && due[t] <= N))
                && if fired then HeadProcessed(old(Now()), Now(), N) else Now() == old(Now()) && CaughtUp(Now(), N)
      ensures Epoch(N) != Epoch(old(last)) ==>
                !fired && forall u :: Switched(old(Now()), Now(), u, LastOf(Epoch(old(last))))
      ensures pause.NoPause? <==> fired || Epoch(N) != Epoch(old(last))
      ensures !pause.NoPause? ==> (pause.PauseForever? <==> current == [] && overflow == [])
      ensures pause.PauseFor? ==>
                && 1 <= pause.ticks < TICK_MOD && (forall t :: OnList(t) ==> N + pause.ticks <= due[t])
                && N + pause.ticks == if current != [] then due[current[0]] else LastOf(Epoch(N)) + 1
    {
      hide InEpoch, HeadProcessed, Epoch, Switched, Near, LastOf;
      var empty := current == [];
      var next := 0;
      if !empty {
        Members(current, timer, due, Epoch(last));
        next := timer[current[0]].value;
      }
      WrapIsSeen(last, N);
      var switched := SampleTimeNow(now, N, {});
      assert switched ==> forall u ::
        Passed(old(Now()), Now(), u, old(last), N) ==> Switched(old(Now()), Now(), u, LastOf(Epoch(old(last))));
      StaysNear(old(Now()), old(last), N);
      fired, pause := false, NoPause;
      if !switched {
        FirstIsEarliest(current, timer, due, N);
        if !empty && next <= now {
          ghost var before := Now();
          ProcessExpiredTimer(next, now, N, {});
          NearOnceProcessed(before, Now(), N);
          fired := true;
        } else {
          Members(current, timer, due, Epoch(N));
          Members(overflow, timer, due, Epoch(N) + 1);
          NextEpochIsLater(N);
          var none := empty;
          if none {
            none := overflow == [];
          }
          pause := if none then PauseForever else PauseFor(Sub32(next, now));
          if !none { PauseIsRight(Now(), N, next); }
        }
      }
    }

    /** Nothing gets further off while the time goes on. */
    lemma StaysNear(a: Snapshot, last: nat, N: nat)
      requires Near(a, last) && last <= N && forall u :: Passed(a, Now(), u, last, N)
      ensures Near(Now(), N)
    {
      hide Passed;
      forall u | u in current || u in overflow ensures u in timer && u in due && due[u] <= N + timer[u].period {
        assert Passed(a, Now(), u, last, N);
        NearOncePassed(a, Now(), u, last, N);
      }
    }

    /** What every command does first: take the timer off whatever list it is on, and sample the
    time, which may switch the lists. */
    method Detach(t: Id, now: nat, ghost N: nat)
      requires Valid() && t in timer && last <= N < last + TICK_MOD && now == Wrap(N)
      modifies this
      ensures Lists(Epoch(N)) && Flags({t}) && !OnList(t) && last == N && lastTime == now
      ensures t in timer && timer[t] == old(timer)[t] && multiset(callbacks)[t] == multiset(old(callbacks))[t]
      ensures forall u :: u != t ==> Passed(old(Now()), Now(), u, old(last), N)
      ensures Near(Now(), N)
    {
      hide InEpoch, Epoch, Remove, Passed;
      RemoveStaysInEpoch(current, timer, due, Epoch(last), t);
      RemoveStaysInEpoch(overflow, timer, due, Epoch(last) + 1, t);
      current, overflow := Remove(current, t), Remove(overflow, t);
      ghost var before, was := Now(), last;
      var _ := SampleTimeNow(now, N, {t});
      PassedOver(before, Now(), t, was, N);
      StaysNear(before, was, N);
      forall u | u != t ensures Passed(old(Now()), Now(), u, was, N) {
        RemovedThenPassed(old(Now()), before, Now(), u, was, N);
      }
    }

    /** tmrCOMMAND_START and tmrCOMMAND_RESET, issued at C and processed at N. A timer whose first
    period is over by then is called back at once, once for every period gone by. */
    method StartTimer(t: Id, at: nat, now: nat, ghost C: nat, ghost N: nat)
      requires Lists(Epoch(N)) && t in timer && !OnList(t) && Flags({t})
      requires C <= N < C + TICK_MOD && at == Wrap(C) && now == Wrap(N)
      modifies this`timer, this`due, this`current, this`overflow, this`callbacks
      ensures Lists(Epoch(N)) && Flags({}) && Obeyed(old(timer)[t], Now(), t, Start(at), C, N)
      ensures callbacks == old(callbacks) + Repeat(t, Calls(old(timer)[t], Start(at), C, N))
      ensures forall u :: u != t ==> Kept(old(Now()), Now(), u)
    {
      hide InEpoch, Epoch, Expiry, Repeat, Kept, Fires, Wrap;
      PeriodBounds(t, Epoch(N));
      var p := timer[t].period;
      AddWraps(C, p);
      SetActive(t, true, Epoch(N));
      var expired := InsertInActiveList(t, Wrap(at + p), now, at, C, N);
      RepeatNone(t);
      if expired {
        FiresAlike(old(timer)[t], timer[t], C + p, N);
        Fire(t, Wrap(at + p), now, C + p, N);
      }
      OthersKept(old(Now()), Now(), t, Calls(old(timer)[t], Start(at), C, N));
    }

    /** The switch of prvProcessReceivedCommands, on a timer that is on no list. */
    method Obey(t: Id, command: Command, now: nat, ghost C: nat, ghost N: nat)
      requires Lists(Epoch(N)) && t in timer && !OnList(t) && Flags({t}) && now == Wrap(N)
      requires command.Start? ==> command.at == Wrap(C) && C <= N < C + TICK_MOD
      requires command.ChangePeriod? ==> 1 <= command.period < TICK_MOD
      modifies this`timer, this`due, this`current, this`overflow, this`callbacks
      ensures Lists(Epoch(N)) && Flags({}) && Obeyed(old(timer)[t], Now(), t, command, C, N)
      ensures callbacks == old(callbacks) + Repeat(t, Calls(old(timer)[t], command, C, N))
      ensures forall u :: u != t ==> Kept(old(Now()), Now(), u)
    {
      hide InEpoch, Epoch, Expiry, Repeat, Kept, Fires, Wrap;
      PeriodBounds(t, Epoch(N));
      RepeatNone(t);
      match command {
        case Start(at) =>
          StartTimer(t, at, now, C, N);
        case Stop =>
          SetActive(t, false, Epoch(N));
          OthersKept(old(Now()), Now(), t, 0);
        case ChangePeriod(p) =>
          SetPeriod(t, p, Epoch(N));
          AddWraps(N, p);
          var _ := InsertInActiveList(t, Wrap(now + p), now, now, N, N);
          OthersKept(old(Now()), Now(), t, 0);
        case Delete =>
          SetActive(t, false, Epoch(N));
          OthersKept(old(Now()), Now(), t, 0);
      }
    }

    /** One round of the loop of prvProcessReceivedCommands. */
    method ProcessCommand(t: Id, command: Command, now: nat, ghost C: nat, ghost N: nat)
      requires Valid() && t in timer && last <= N < last + TICK_MOD && now == Wrap(N)
      requires command.Start? ==> command.at == Wrap(C) && C <= N < C + TICK_MOD
      requires command.ChangePeriod? ==> 1 <= command.period < TICK_MOD
      modifies this
      ensures Valid() && last == N && Obeyed(old(timer)[t], Now(), t, command, C, N)
      ensures multiset(callbacks)[t] == multiset(old(callbacks))[t] + Calls(old(timer)[t], command, C, N)
      ensures forall u :: u != t ==> Passed(old(Now()), Now(), u, old(last), N)
    {
      hide InEpoch, Epoch, Repeat, Calls, Wrap, Passed, Kept, Near, Obeyed;
      PeriodBounds(t, Epoch(last));
      Detach(t, now, N);
      ghost var detached := Now();
      Obey(t, command, now, C, N);
      RepeatCounts(detached.callbacks, t, Calls(old(timer)[t], command, C, N), t);
      forall u | u != t ensures Passed(old(Now()), Now(), u, old(last), N) {
        PassedThenKept(old(Now()), detached, Now(), u, old(last), N);
      }
      if OnList(t) { ObeyedIsNear(old(timer)[t], Now(), t, command, C, N); }
      NearWithOne(detached, Now(), t, N);
    }

    method SetPeriod(t: Id, period: nat, ghost epoch: nat)
      requires Lists(epoch) && t in timer && !OnList(t) && 1 <= period < TICK_MOD
      modifies this`timer
      ensures Lists(epoch) && timer == old(timer)[t := old(timer)[t].(active := true, period := period)]
    {
      hide InEpoch;
      timer := timer[t := timer[t].(active := true, period := period)];
      Members(current, old(timer), due, epoch);
      Members(overflow, old(timer), due, epoch + 1);
      InEpochKept(current, old(timer), due, timer, due, epoch);
      InEpochKept(overflow, old(timer), due, timer, due, epoch + 1);
    }
  }
}
