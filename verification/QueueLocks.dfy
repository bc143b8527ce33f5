/** The wake-up protocol of FreeRtos/kernel/queue.c: tasks that block on a queue, interrupts that
find it locked and defer the wake-ups they owe, and the unlocking that pays them back.

The steps are the critical sections of the source. A task that has locked the queue also has
suspended the scheduler, so until it has unlocked the queue only it and interrupts take steps.
*/
module QueueLocks {
  import opened Basics

  const UNLOCKED := -1         // queueUNLOCKED
  const LOCKED_UNMODIFIED := 0 // queueLOCKED_UNMODIFIED
  const INT8_MAX := 127        // queueINT8_MAX

  // ---------------------------------------------------------------- one waiting list and its lock

  /** One event list of the queue: the tasks on it, the tasks taken off it that have not run since,
  and the lock that counts wake-ups owed (cTxLock for receivers, cRxLock for senders). */
  datatype Side = Side(waiting: seq<Task>, woken: set<Task>, lock: int)

  /** Wake the first waiting task, if there is one. */
  function WakeFirst(d: Side): Side {
    if d.waiting == [] then d else Side(d.waiting[1..], d.woken + {d.waiting[0]}, d.lock)
  }

  /** What an interrupt does after adding an item or a free slot: wake a task, or count a wake-up
  owed. The count stops at the number of tasks. */
  function Notify(d: Side, tasks: nat): Side {
    if d.lock == UNLOCKED then WakeFirst(d)
    else if d.lock < tasks then d.(lock := d.lock + 1)
    else d
  }

  /** One half of prvUnlockQueue: wake a task for every wake-up owed, while tasks are waiting. */
  function Drain(d: Side): Side
    decreases d.lock
  {
    if d.lock > LOCKED_UNMODIFIED && d.waiting != [] then
      Drain(WakeFirst(d).(lock := d.lock - 1))
    else
      d.(lock := UNLOCKED)
  }

  /** vTaskPlaceOnEventList, at the position the priority of the task calls for. */
  function Enqueue(d: Side, t: Task, k: nat): Side
    requires k <= |d.waiting|
  {
    d.(waiting := d.waiting[..k] + [t] + d.waiting[k..])
  }

  /** The block time of a waiting task runs out. */
  function Leave(d: Side, i: nat): Side
    requires i < |d.waiting|
  {
    d.(waiting := d.waiting[..i] + d.waiting[i + 1..])
  }

  ghost predicate Sound(d: Side, tasks: set<Task>) {
    && Distinct(d.waiting)
    && (forall t :: t in d.waiting ==> t in tasks && t !in d.woken)
    && UNLOCKED <= d.lock <= |tasks|
  }

  /** No wake-up is lost: if tasks are waiting, then every unit (item or free slot) has a task that
  was woken for it or a wake-up owed, or the wake-ups owed are enough for everybody who waits.
  `arriving` is 1 when one more task has decided to wait but is not yet on the list. */
  ghost predicate Covered(d: Side, units: int, arriving: nat) {
    |d.waiting| + arriving > 0 ==>
      units <= |d.woken| + (if d.lock > 0 then d.lock else 0) || d.lock >= |d.waiting| + arriving
  }

  lemma {:induction false} DistinctFits(w: seq<Task>, tasks: set<Task>)
    requires Distinct(w) && forall t :: t in w ==> t in tasks
    ensures |w| <= |tasks|
  {
    if w != [] {
      assert w[0] in tasks;
      forall t | t in w[1..] ensures t in tasks - {w[0]} {}
      DistinctFits(w[1..], tasks - {w[0]});
    }
  }

  lemma WakeFirstSound(d: Side, tasks: set<Task>)
    requires Sound(d, tasks)
    ensures Sound(WakeFirst(d), tasks)
    ensures d.waiting != [] ==> |WakeFirst(d).woken| == |d.woken| + 1
  {}

  /** A new unit is covered by the wake-up, or the wake-up owed, that goes with it. */
  lemma NotifyCovers(d: Side, units: int, arriving: nat, tasks: set<Task>)
    requires Sound(d, tasks) && Covered(d, units, arriving)
    requires |d.waiting| + arriving <= |tasks| && (arriving > 0 ==> d.lock != UNLOCKED)
    ensures Sound(Notify(d, |tasks|), tasks) && Covered(Notify(d, |tasks|), units + 1, arriving)
  {
    WakeFirstSound(d, tasks);
  }

  /** Unlocking pays back every wake-up owed, or leaves nobody waiting. */
  lemma {:induction false} DrainCovers(d: Side, units: int, tasks: set<Task>)
    requires Sound(d, tasks) && Covered(d, units, 0) && d.lock >= LOCKED_UNMODIFIED
    ensures Sound(Drain(d), tasks) && Covered(Drain(d), units, 0) && Drain(d).lock == UNLOCKED
    ensures forall t :: (t in Drain(d).waiting || t in Drain(d).woken) <==> (t in d.waiting || t in d.woken)
    decreases d.lock
  {
    if d.lock > LOCKED_UNMODIFIED && d.waiting != [] {
      WakeFirstSound(d, tasks);
      var e := WakeFirst(d).(lock := d.lock - 1);
      assert d.waiting == [d.waiting[0]] + d.waiting[1..];
      DrainCovers(e, units, tasks);
    }
  }

  /** The tasks that unlocking wakes: one for each wake-up owed, or all of them. */
  function Payable(d: Side): (k: nat)
    ensures k <= |d.waiting|
  {
    if d.lock <= 0 then 0 else if d.lock < |d.waiting| then d.lock else |d.waiting|
  }

  /** Unlocking wakes them in list order. */
  lemma {:induction false} DrainWakesInOrder(d: Side)
    ensures Drain(d).waiting == d.waiting[Payable(d)..]
    ensures forall t :: t in Drain(d).woken <==> t in d.woken || t in d.waiting[..Payable(d)]
    decreases d.lock
  {
    if d.lock > LOCKED_UNMODIFIED && d.waiting != [] {
      var e := WakeFirst(d).(lock := d.lock - 1);
      DrainWakesInOrder(e);
      FirstAndRest(d.waiting, Payable(d));
      assert Payable(e) == Payable(d) - 1;
    }
  }

  lemma FirstAndRest(w: seq<Task>, k: nat)
    requires 0 < k <= |w|
    ensures w[1..][k - 1..] == w[k..] && w[..k] == [w[0]] + w[1..][..k - 1]
  {}

  lemma EnqueueSound(d: Side, t: Task, k: nat, tasks: set<Task>)
    requires Sound(d, tasks) && k <= |d.waiting| && t in tasks && t !in d.waiting && t !in d.woken
    ensures Sound(Enqueue(d, t, k), tasks)
    ensures forall q :: q in Enqueue(d, t, k).waiting <==> q in d.waiting || q == t
  {
    SplicedMembers(d.waiting, k, t);
  }

  lemma LeaveSound(d: Side, i: nat, tasks: set<Task>)
    requires Sound(d, tasks) && i < |d.waiting|
    ensures Sound(Leave(d, i), tasks)
    ensures forall q :: q in Leave(d, i).waiting <==> q in d.waiting && q != d.waiting[i]
  {
    CutMembers(d.waiting, i);
  }
}
