/** The queue structure of queue.c with its message storage, its waiting lists and its locks, and
    the critical sections that work on it.  Each is proved to do to the control part what the
    function of the same name in QueueControl does, and to the messages what the operation in
    QueueModel does. */
module KernelQueue {
  import opened QueueModel
  import opened QueueStorage
  import C = QueueControl

  /** A waiting list after an event has taken the first task off it, if there is one. */
  function WithoutFirst(waiting: seq<C.Task>): seq<C.Task> {
    if waiting == [] then [] else waiting[1..]
  }

  class Queue {
    const storage: Storage
    var txLock: int
    var rxLock: int
    var receivers: seq<C.Task>
    var senders: seq<C.Task>
    ghost var wokenReceivers: set<C.Task>
    ghost var wokenSenders: set<C.Task>

    ghost predicate Valid()
      reads this, storage, storage.buffer
    {
      storage.Valid()
    }

    ghost function Control(): C.Control
      reads this, storage
    {
      C.Control(storage.length, storage.itemSize, storage.messagesWaiting, txLock, rxLock, receivers, senders,
                wokenReceivers, wokenSenders)
    }

    ghost function Contents(): QueueModel.Queue
      requires Valid()
      reads this, storage, storage.buffer
    {
      storage.Contents()
    }

    /** xQueueGenericCreate, given memory */
    constructor (length: nat, itemSize: nat)
      requires 0 < length
      ensures Valid() && fresh(storage) && fresh(storage.buffer)
      ensures Contents() == New(length, itemSize)
      ensures Control() == C.Control(length, itemSize, 0, C.UNLOCKED, C.UNLOCKED, [], [], {}, {})
    {
      storage := new Storage(length, itemSize);
      txLock, rxLock, receivers, senders := C.UNLOCKED, C.UNLOCKED, [], [];
      wokenReceivers, wokenSenders := {}, {};
    }

    /** xTaskRemoveFromEventList on xTasksWaitingToReceive, if it is not empty */
    method WakeReceiver()
      modifies this`receivers, this`wokenReceivers
      ensures Control() == C.WakeReceiver(old(Control()))
    {
      if receivers != [] {
        wokenReceivers := wokenReceivers + {receivers[0]};
        receivers := receivers[1..];
      }
    }

    method WakeSender()
      modifies this`senders, this`wokenSenders
      ensures Control() == C.WakeSender(old(Control()))
    {
      if senders != [] {
        wokenSenders := wokenSenders + {senders[0]};
        senders := senders[1..];
      }
    }

    ghost method Looks(t: C.Task)
      modifies this`wokenReceivers, this`wokenSenders
      ensures Control() == C.Looks(old(Control()), t)
    {
      wokenReceivers := wokenReceivers - {t};
      wokenSenders := wokenSenders - {t};
    }

    /** The critical section of xQueueGenericSend, for the calling task `t` */
    method TrySend(ghost t: C.Task, m: Message, position: Position) returns (sent: bool)
      requires Valid() && |m| == storage.itemSize && (position == Overwrite ==> storage.length == 1)
      modifies this, storage, storage.buffer
      ensures Valid() && sent == Accepts(old(Contents()), position)
      ensures Contents() == Send(old(Contents()), m, position)
      ensures if sent then Placed(old(Contents()).items, Contents().items, storage.itemSize, m, position)
              else Contents() == old(Contents())
      ensures Control() == C.TrySend(old(Control()), t, position == Overwrite)
      ensures receivers == (if sent then WithoutFirst(old(receivers)) else old(receivers)) && senders == old(senders)
      ensures txLock == old(txLock) && rxLock == old(rxLock)
    {
      hide Send, Placed, Messages;
      Looks(t);
      sent := storage.Put(m, position);
      if sent {
        WakeReceiver();
      }
    }

    /** The critical section of xQueueGenericReceive */
    method TryReceive(ghost t: C.Task, peek: bool) returns (received: bool, m: Message)
      requires Valid()
      modifies this, storage
      ensures Valid() && received == (old(Contents()).items != [])
      ensures received ==> m == old(Contents()).items[0]
      ensures Contents() == if peek then old(Contents()) else Receive(old(Contents()))
      ensures Control() == C.TryReceive(old(Control()), t, peek)
      ensures receivers == (if received && peek then WithoutFirst(old(receivers)) else old(receivers))
      ensures senders == (if received && !peek then WithoutFirst(old(senders)) else old(senders))
      ensures txLock == old(txLock) && rxLock == old(rxLock)
    {
      Looks(t);
      if peek {
        received, m := storage.Peek();
        if received {
          WakeReceiver();
        }
      } else {
        received, m := storage.Take();
        if received {
          WakeSender();
        }
      }
    }

    /** xQueueGenericSendFromISR */
    method SendFromISR(m: Message, position: Position) returns (sent: bool)
      requires Valid() && |m| == storage.itemSize && (position == Overwrite ==> storage.length == 1)
      modifies this, storage, storage.buffer
      ensures Valid() && sent == Accepts(old(Contents()), position)
      ensures Contents() == Send(old(Contents()), m, position)
      ensures if sent then Placed(old(Contents()).items, Contents().items, storage.itemSize, m, position)
              else Contents() == old(Contents())
      ensures Control() == C.SendFromISR(old(Control()), position == Overwrite)
      ensures var wakes := sent && old(txLock) == C.UNLOCKED;
              && receivers == (if wakes then WithoutFirst(old(receivers)) else old(receivers))
              && txLock == (if sent && !wakes then old(txLock) + 1 else old(txLock))
              && senders == old(senders) && rxLock == old(rxLock)
    {
      hide Send, Placed, Messages;
      sent := storage.Put(m, position);
      if sent {
        if txLock == C.UNLOCKED {
          WakeReceiver();
        } else {
          txLock := txLock + 1;
        }
      }
    }

    /** xQueueReceiveFromISR */
    method ReceiveFromISR() returns (received: bool, m: Message)
      requires Valid()
      modifies this, storage
      ensures Valid() && received == (old(Contents()).items != [])
      ensures received ==> m == old(Contents()).items[0]
      ensures Contents() == Receive(old(Contents()))
      ensures Control() == C.ReceiveFromISR(old(Control()))
      ensures var wakes := received && old(rxLock) == C.UNLOCKED;
              && senders == (if wakes then WithoutFirst(old(senders)) else old(senders))
              && rxLock == (if received && !wakes then old(rxLock) + 1 else old(rxLock))
              && receivers == old(receivers) && txLock == old(txLock)
    {
      received, m := storage.Take();
      if received {
        if rxLock == C.UNLOCKED {
          WakeSender();
        } else {
          rxLock := rxLock + 1;
        }
      }
    }

    /** xQueuePeekFromISR wakes nobody. */
    method PeekFromISR() returns (received: bool, m: Message)
      requires Valid()
      modifies storage
      ensures Valid() && received == (Contents().items != [])
      ensures received ==> m == Contents().items[0]
      ensures Contents() == old(Contents()) && Control() == old(Control())
    {
      received, m := storage.Peek();
    }

    /** prvLockQueue.  Locking loses nothing, not even what a queue that is locked already has counted.
        From then on an interrupt that sends or receives leaves both waiting lists alone and counts
        instead, and if nothing is counted unlocking wakes nobody. */
    method Lock()
      modifies this`rxLock, this`txLock
      ensures Control() == C.Lock(old(Control()))
      ensures txLock != C.UNLOCKED && C.Positive(txLock) == C.Positive(old(txLock))
      ensures rxLock != C.UNLOCKED && C.Positive(rxLock) == C.Positive(old(rxLock))
      ensures old(C.WellFormed(Control()) && C.NothingLost(Control())) ==>
                C.WellFormed(Control()) && C.NothingLost(Control())
      ensures forall overwrite :: C.OnlyCounts(Control(), C.SendFromISR(Control(), overwrite))
      ensures C.OnlyCounts(Control(), C.ReceiveFromISR(Control()))
      ensures old(txLock) <= C.LOCKED_UNMODIFIED ==> C.UnlockTx(Control()) == Control().(txLock := C.UNLOCKED)
      ensures old(rxLock) <= C.LOCKED_UNMODIFIED ==> C.UnlockRx(Control()) == Control().(rxLock := C.UNLOCKED)
    {
      if rxLock == C.UNLOCKED {
        rxLock := C.LOCKED_UNMODIFIED;
      }
      if txLock == C.UNLOCKED {
        txLock := C.LOCKED_UNMODIFIED;
      }
    }

    /** The first critical section of prvUnlockQueue */
    method UnlockTx()
      modifies this`txLock, this`receivers, this`wokenReceivers
      ensures Control() == C.UnlockTx(old(Control()))
    {
      while txLock > C.LOCKED_UNMODIFIED
        invariant C.UnlockTx(Control()) == C.UnlockTx(old(Control()))
      {
        if receivers == [] {
          break;
        }
        WakeReceiver();
        txLock := txLock - 1;
      }
      txLock := C.UNLOCKED;
    }

    /** The second critical section of prvUnlockQueue */
    method UnlockRx()
      modifies this`rxLock, this`senders, this`wokenSenders
      ensures Control() == C.UnlockRx(old(Control()))
    {
      while rxLock > C.LOCKED_UNMODIFIED
        invariant C.UnlockRx(Control()) == C.UnlockRx(old(Control()))
      {
        if senders == [] {
          break;
        }
        WakeSender();
        rxLock := rxLock - 1;
      }
      rxLock := C.UNLOCKED;
    }

    /** prvUnlockQueue, if no interrupt comes between its two critical sections: each list loses
        as many tasks as its lock count says, or all it has; exactly these are woken, and the messages
        stay. */
    method Unlock()
      modifies this
      ensures txLock == C.UNLOCKED && rxLock == C.UNLOCKED
      ensures var n := C.Min(C.Positive(old(txLock)), |old(receivers)|);
              && receivers == old(receivers)[n..]
              && wokenReceivers == old(wokenReceivers) + C.Members(old(receivers)[..n])
      ensures var n := C.Min(C.Positive(old(rxLock)), |old(senders)|);
              && senders == old(senders)[n..]
              && wokenSenders == old(wokenSenders) + C.Members(old(senders)[..n])
      ensures Control().count == old(Control()).count && old(Valid()) == Valid()
      ensures old(Valid()) ==> Contents() == old(Contents())
    {
      C.UnlockTxWakes(Control());
      UnlockTx();
      C.UnlockRxWakes(Control());
      UnlockRx();
    }

    /** xQueueGenericReset of a queue in use */
    method Reset()
      requires Valid()
      modifies this, storage
      ensures Valid() && Contents() == New(storage.length, storage.itemSize)
      ensures Control() == C.Reset(old(Control()))
      ensures senders == WithoutFirst(old(senders)) && receivers == old(receivers)
      ensures txLock == C.UNLOCKED && rxLock == C.UNLOCKED
    {
      storage.Reset();
      rxLock, txLock := C.UNLOCKED, C.UNLOCKED;
      WakeSender();
    }
  }
}
