/** Block times of blocking calls: vTaskSetTimeOutState and xTaskCheckForTimeOut of
FreeRtos/kernel/tasks.c.

The true time is unbounded. The code sees its remainder modulo 2^32, the tick count, and its
quotient, the number of overflows, which is taken as unbounded.
*/
module TimeOut {
  import opened Basics
  import opened Rings

  /** A TimeOut_t, with the ticks its call still has to wait. */
  datatype Wait = Wait(overflows: nat, entered: nat, ticks: nat)

  datatype Outcome = Outcome(expired: bool, next: Wait)

  function Tick(time: nat): nat { time % TICK_MOD }

  function Overflows(time: nat): nat { time / TICK_MOD }

  /** vTaskSetTimeOutState. */
  function Enter(time: nat, ticks: nat): Wait {
    Wait(Overflows(time), Tick(time), ticks)
  }

  function Elapsed(tick: nat, entered: nat): nat
    requires tick < TICK_MOD && entered < TICK_MOD
  {
    if tick >= entered then tick - entered else tick + TICK_MOD - entered
  }

  /** xTaskCheckForTimeOut. */
  function Check(w: Wait, tick: nat, overflows: nat): Outcome
    requires tick < TICK_MOD && w.entered < TICK_MOD
  {
    if w.ticks == MAX_DELAY then
      Outcome(false, w)
    else if overflows != w.overflows && tick >= w.entered then
      Outcome(true, w.(ticks := 0))
    else if Elapsed(tick, w.entered) < w.ticks then
      Outcome(false, Wait(overflows, tick, w.ticks - Elapsed(tick, w.entered)))
    else
      Outcome(true, w.(ticks := 0))
  }

  /** The check made at a true time. */
  function CheckAt(w: Wait, time: nat): Outcome
    requires w.entered < TICK_MOD
  {
    Check(w, Tick(time), Overflows(time))
  }

  /** One check. It never reports a time out early, and it takes off what has elapsed, less any
  whole epochs it cannot see. */
  lemma CheckIsSafe(entered: nat, now: nat, ticks: nat)
    requires entered <= now && ticks < MAX_DELAY
    ensures var c := CheckAt(Enter(entered, ticks), now);
            && (c.expired ==> now - entered >= ticks)
            && (!c.expired ==> c.next == Enter(now, c.next.ticks) && 0 < c.next.ticks <= ticks)
            && (!c.expired ==> c.next.ticks >= ticks - (now - entered))
  {
    ElapsedIsRemainder(entered, now);
  }

  lemma ElapsedIsRemainder(entered: nat, now: nat)
    requires entered <= now
    ensures Elapsed(Tick(now), Tick(entered)) == (now - entered) % TICK_MOD
    ensures Overflows(entered) == Overflows(now) ==> now - entered < TICK_MOD && Tick(entered) <= Tick(now)
    ensures now - entered < TICK_MOD ==> Elapsed(Tick(now), Tick(entered)) == now - entered
  {
    var q, n := Overflows(now) - Overflows(entered), Tick(now) - Tick(entered);
    assert now - entered == q * TICK_MOD + n;
  }

  /** Exactly when the check is right: it misses a time out if and only if a whole epoch has gone by
  since it entered, the tick count is below where it entered, and what is left over the epochs is
  less than the block time. */
  lemma CheckIsExact(entered: nat, now: nat, ticks: nat)
    requires entered <= now && ticks < MAX_DELAY
    ensures var c := CheckAt(Enter(entered, ticks), now);
            (c.expired <==> now - entered >= ticks) <==>
            !(now - entered >= TICK_MOD && Tick(now) < Tick(entered) && (now - entered) % TICK_MOD < ticks)
  {
    ElapsedIsRemainder(entered, now);
  }

  /** Checks less than 2^32 ticks apart are exact, and what remains is what has not elapsed. */
  lemma FrequentCheckIsExact(entered: nat, now: nat, ticks: nat)
    requires entered <= now < entered + TICK_MOD && ticks < MAX_DELAY
    ensures var c := CheckAt(Enter(entered, ticks), now);
            && (c.expired <==> now - entered >= ticks)
            && (!c.expired ==> c.next == Enter(now, ticks - (now - entered)))
  {
    ElapsedIsRemainder(entered, now);
  }

  /** A check that misses a time out, a tick more than an epoch after it entered. */
  lemma LateCheckMisses()
    ensures !CheckAt(Enter(MAX_DELAY, 5), 2 * TICK_MOD).expired && 2 * TICK_MOD - MAX_DELAY > 5
  {}

  // ---------------------------------------------------------------- waiting until a time

  /** xTaskDelayUntil: the ticks to block for, if it should block, from 32-bit times. */
  function DelayUntil(previous: nat, now: nat, increment: nat): Option<nat>
    requires previous < TICK_MOD && now < TICK_MOD
  {
    var wake := (previous + increment) % TICK_MOD;
    var delay := if now < previous then wake < previous && wake > now else wake < previous || wake > now;
    if delay then Some(Elapsed(wake, now)) else None
  }

  /** For every true previous wake time L and true time now N: it blocks until L + increment, and for
  at least a tick, exactly if that is to come; if and only if less than 2^32 ticks have gone by since L,
  or else at least an increment since the tick count was last what it was at L. */
  lemma DelayUntilIsExact(L: nat, N: nat, increment: nat)
    requires L <= N && 1 <= increment < TICK_MOD
    ensures (match DelayUntil(Tick(L), Tick(N), increment)
             case Some(ticks) => ticks > 0 && N + ticks == L + increment
             case None => L + increment <= N) <==>
            N - L < TICK_MOD || (N - L) % TICK_MOD >= increment
  {
    ElapsedIsRemainder(L, N);
    var k := (N - L) / TICK_MOD;
    var M := L + k * TICK_MOD;
    assert N - M == (N - L) % TICK_MOD && Tick(M) == Tick(L);
    RecentWake(M, N, increment);
  }

  lemma RecentWake(L: nat, N: nat, increment: nat)
    requires L <= N < L + TICK_MOD && 1 <= increment < TICK_MOD
    ensures DelayUntil(Tick(L), Tick(N), increment) == if L + increment > N then Some(L + increment - N) else None
  {
    var l, n, w := Tick(L), Tick(N), (Tick(L) + increment) % TICK_MOD;
    assert L == Overflows(L) * TICK_MOD + l && N == Overflows(N) * TICK_MOD + n;
    assert w == if l + increment < TICK_MOD then l + increment else l + increment - TICK_MOD;
    assert Overflows(N) == Overflows(L) || Overflows(N) == Overflows(L) + 1;
  }

  // ---------------------------------------------------------------- a whole blocking call

  /** The checks at these times follow one another, and none reports a time out. */
  ghost predicate Survives(w: Wait, times: seq<nat>)
    requires w.entered < TICK_MOD
    decreases |times|
  {
    times == [] || (var c := CheckAt(w, times[0]); !c.expired && Survives(c.next, times[1..]))
  }

  ghost function After(w: Wait, times: seq<nat>): (r: Wait)
    requires w.entered < TICK_MOD
    ensures r.entered < TICK_MOD
    decreases |times|
  {
    if times == [] then w else After(CheckAt(w, times[0]).next, times[1..])
  }

  /** The times run forward from `start` to `now`; `apart` bounds the steps if it is not 0. */
  ghost predicate Forward(start: nat, times: seq<nat>, now: nat, apart: nat)
    decreases |times|
  {
    if times == [] then start <= now && (apart > 0 ==> now < start + apart)
    else start <= times[0] && (apart > 0 ==> times[0] < start + apart) && Forward(times[0], times[1..], now, apart)
  }

  /** However the checks of a call fall, a time out is not reported before its time. */
  lemma {:induction false} NeverEarly(start: nat, ticks: nat, times: seq<nat>, now: nat)
    requires ticks < MAX_DELAY && Forward(start, times, now, 0) && Survives(Enter(start, ticks), times)
    ensures CheckAt(After(Enter(start, ticks), times), now).expired ==> now - start >= ticks
    decreases |times|
  {
    if times == [] {
      CheckIsSafe(start, now, ticks);
    } else {
      CheckIsSafe(start, times[0], ticks);
      NeverEarly(times[0], CheckAt(Enter(start, ticks), times[0]).next.ticks, times[1..], now);
    }
  }

  /** Checked at least once in 2^32 ticks, a call times out exactly when its ticks have elapsed, and
  until then the ticks remaining and the ticks elapsed add up to the block time. */
  lemma {:induction false} ExactWhenCheckedOften(start: nat, ticks: nat, times: seq<nat>, now: nat)
    requires ticks < MAX_DELAY && Forward(start, times, now, TICK_MOD) && Survives(Enter(start, ticks), times)
    ensures var c := CheckAt(After(Enter(start, ticks), times), now);
            && (c.expired <==> now - start >= ticks)
            && (!c.expired ==> c.next.ticks + (now - start) == ticks)
    decreases |times|
  {
    if times == [] {
      FrequentCheckIsExact(start, now, ticks);
    } else {
      FrequentCheckIsExact(start, times[0], ticks);
      ExactWhenCheckedOften(times[0], ticks - (times[0] - start), times[1..], now);
    }
  }

  /** portMAX_DELAY never times out. */
  lemma {:induction false} ForeverIsForever(start: nat, times: seq<nat>)
    ensures var w := Enter(start, MAX_DELAY);
            Survives(w, times) && After(w, times) == w
    decreases |times|
  {
    if times != [] { ForeverIsForever(start, times[1..]); }
  }

  // ---------------------------------------------------------------- in place

  class TimeOutState {
    var overflowCount: nat  // xOverflowCount
    var timeOnEntering: nat // xTimeOnEntering
    var ticksToWait: nat    // *pxTicksToWait

    ghost function Abs(): Wait
      reads this
    {
      Wait(overflowCount, timeOnEntering, ticksToWait)
    }

    /** vTaskSetTimeOutState, at the start of a blocking call. */
    constructor (tick: nat, overflows: nat, ticks: nat)
      ensures Abs() == Wait(overflows, tick, ticks)
    {
      overflowCount, timeOnEntering, ticksToWait := overflows, tick, ticks;
    }

    /** xTaskCheckForTimeOut. */
    method CheckForTimeOut(tick: nat, overflows: nat) returns (expired: bool)
      requires tick < TICK_MOD && timeOnEntering < TICK_MOD
      modifies this
      ensures Outcome(expired, Abs()) == Check(old(Abs()), tick, overflows)
    {
      var elapsed := Elapsed(tick, timeOnEntering);
      if ticksToWait == MAX_DELAY {
        expired := false;
      } else if overflows != overflowCount && tick >= timeOnEntering {
        expired := true;
        ticksToWait := 0;
      } else if elapsed < ticksToWait {
        ticksToWait := ticksToWait - elapsed;
        overflowCount, timeOnEntering := overflows, tick;
        expired := false;
      } else {
        ticksToWait := 0;
        expired := true;
      }
    }
  }
}
