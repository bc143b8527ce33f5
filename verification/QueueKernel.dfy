/** The event lists and locks of a queue as FreeRtos/kernel/queue.c updates them in place, with the
loops of prvUnlockQueue. The steps that tasks take are in module QueueRuns only.
*/
module QueueKernel {
  import opened Basics
  import opened QueueLocks

  class Queue {
    const length: nat
    const sized: bool               // uxItemSize is not 0
    const tasks: nat                // uxTaskGetNumberOfTasks()
    var items: nat                  // uxMessagesWaiting
    var waitingToReceive: seq<Task>
    var waitingToSend: seq<Task>
    var txLock: int                 // cTxLock
    var rxLock: int                 // cRxLock
    ghost var wokenToReceive: set<Task>
    ghost var wokenToSend: set<Task>

    ghost function Receivers(): Side
      reads this
    {
      Side(waitingToReceive, wokenToReceive, txLock)
    }

    ghost function Senders(): Side
      reads this
    {
      Side(waitingToSend, wokenToSend, rxLock)
    }

    constructor (n: nat, sized: bool, tasks: nat)
      ensures length == n && this.sized == sized && this.tasks == tasks && items == 0
      ensures Receivers() == Side([], {}, UNLOCKED) && Senders() == Side([], {}, UNLOCKED)
    {
      length, this.sized, this.tasks, items := n, sized, tasks, 0;
      waitingToReceive, waitingToSend, wokenToReceive, wokenToSend := [], [], {}, {};
      txLock, rxLock := UNLOCKED, UNLOCKED;
    }

    /** xTaskRemoveFromEventList on xTasksWaitingToReceive, if it is not empty. */
    method WakeReceiver()
      modifies this`waitingToReceive, this`wokenToReceive
      ensures Receivers() == WakeFirst(old(Receivers()))
    {
      if waitingToReceive != [] {
        wokenToReceive := wokenToReceive + {waitingToReceive[0]};
        waitingToReceive := waitingToReceive[1..];
      }
    }

    method WakeSender()
      modifies this`waitingToSend, this`wokenToSend
      ensures Senders() == WakeFirst(old(Senders()))
    {
      if waitingToSend != [] {
        wokenToSend := wokenToSend + {waitingToSend[0]};
        waitingToSend := waitingToSend[1..];
      }
    }

    /** prvIncrementQueueTxLock, with its assertion. */
    method IncrementTxLock()
      requires tasks <= INT8_MAX && txLock != UNLOCKED
      modifies this`txLock
      ensures txLock == if old(txLock) < tasks then old(txLock) + 1 else old(txLock)
    {
      if txLock < tasks {
        assert txLock != INT8_MAX;
        txLock := txLock + 1;
      }
    }

    /** prvIncrementQueueRxLock, with its assertion. */
    method IncrementRxLock()
      requires tasks <= INT8_MAX && rxLock != UNLOCKED
      modifies this`rxLock
      ensures rxLock == if old(rxLock) < tasks then old(rxLock) + 1 else old(rxLock)
    {
      if rxLock < tasks {
        assert rxLock != INT8_MAX;
        rxLock := rxLock + 1;
      }
    }

    /** xQueueGenericSendFromISR, the data apart. */
    method SendFromIsr(overwrite: bool) returns (sent: bool)
      requires tasks <= INT8_MAX
      modifies this`items, this`waitingToReceive, this`wokenToReceive, this`txLock
      ensures sent == (old(items) < length || overwrite)
      ensures items == if !sent || (overwrite && sized && old(items) > 0) then old(items) else old(items) + 1
      ensures Receivers() == if sent then Notify(old(Receivers()), tasks) else old(Receivers())
    {
      sent := items < length || overwrite;
      if sent {
        if !(overwrite && sized && items > 0) {
          items := items + 1;
        }
        if txLock == UNLOCKED {
          WakeReceiver();
        } else {
          IncrementTxLock();
        }
      }
    }

    /** xQueueReceiveFromISR, the data apart. */
    method ReceiveFromIsr() returns (received: bool)
      requires tasks <= INT8_MAX
      modifies this`items, this`waitingToSend, this`wokenToSend, this`rxLock
      ensures received == (old(items) > 0)
      ensures items == if received then old(items) - 1 else old(items)
      ensures Senders() == if received then Notify(old(Senders()), tasks) else old(Senders())
    {
      received := items > 0;
      if received {
        items := items - 1;
        if rxLock == UNLOCKED {
          WakeSender();
        } else {
          IncrementRxLock();
        }
      }
    }

    /** prvLockQueue. */
    method LockQueue()
      modifies this`rxLock, this`txLock
      ensures txLock == if old(txLock) == UNLOCKED then LOCKED_UNMODIFIED else old(txLock)
      ensures rxLock == if old(rxLock) == UNLOCKED then LOCKED_UNMODIFIED else old(rxLock)
    {
      if rxLock == UNLOCKED {
        rxLock := LOCKED_UNMODIFIED;
      }
      if txLock == UNLOCKED {
        txLock := LOCKED_UNMODIFIED;
      }
    }

    /** The first critical section of prvUnlockQueue. */
    method UnlockReceivers()
      modifies this`waitingToReceive, this`wokenToReceive, this`txLock
      ensures Receivers() == Drain(old(Receivers()))
    {
      var owed := txLock;
      while owed > LOCKED_UNMODIFIED
        invariant Drain(Receivers().(lock := owed)) == Drain(old(Receivers()))
        decreases owed
      {
        if waitingToReceive == [] {
          break;
        }
        WakeReceiver();
        owed := owed - 1;
      }
      txLock := UNLOCKED;
    }

    /** The second critical section of prvUnlockQueue. */
    method UnlockSenders()
      modifies this`waitingToSend, this`wokenToSend, this`rxLock
      ensures Senders() == Drain(old(Senders()))
    {
      var owed := rxLock;
      while owed > LOCKED_UNMODIFIED
        invariant Drain(Senders().(lock := owed)) == Drain(old(Senders()))
        decreases owed
      {
        if waitingToSend == [] {
          break;
        }
        WakeSender();
        owed := owed - 1;
      }
      rxLock := UNLOCKED;
    }
  }
}
