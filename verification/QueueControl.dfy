/** The control part of a queue (queue.c): how many messages there are, which tasks wait, and the
    lock counts that stand in for wake-ups while the queue is locked. */
module QueueControl {
  import opened RingList

  type Task = nat

  const UNLOCKED: int := -1
  const LOCKED_UNMODIFIED: int := 0

  /** `wokenReceivers` and `wokenSenders` are the tasks an event has taken off a waiting list and
      that have not yet looked at the queue again; the code keeps no such sets. */
  datatype Control = Control(
    length: nat,
    itemSize: nat,
    count: nat,                      // uxMessagesWaiting
    txLock: int,
    rxLock: int,
    receivers: seq<Task>,            // xTasksWaitingToReceive
    senders: seq<Task>,              // xTasksWaitingToSend
    wokenReceivers: set<Task>,
    wokenSenders: set<Task>)

  function Positive(x: int): nat {
    if x > 0 then x else 0
  }

  // ---- What the critical sections do ----

  /** xTaskRemoveFromEventList on the receivers, if there are any */
  function WakeReceiver(c: Control): Control {
    if c.receivers == [] then c
    else c.(receivers := c.receivers[1..], wokenReceivers := c.wokenReceivers + {c.receivers[0]})
  }

  function WakeSender(c: Control): Control {
    if c.senders == [] then c
    else c.(senders := c.senders[1..], wokenSenders := c.wokenSenders + {c.senders[0]})
  }

  /** Task `t` looks at the queue: if it had been woken, that wake-up is now used. */
  function Looks(c: Control, t: Task): Control {
    c.(wokenReceivers := c.wokenReceivers - {t}, wokenSenders := c.wokenSenders - {t})
  }

  predicate CanSend(c: Control, overwrite: bool) {
    c.count < c.length || overwrite
  }

  /** The count after prvCopyDataToQueue */
  function CountAfterCopy(c: Control, overwrite: bool): nat {
    if overwrite && c.itemSize > 0 && c.count > 0 then c.count else c.count + 1
  }

  /** The critical section of xQueueGenericSend */
  function TrySend(c: Control, t: Task, overwrite: bool): Control {
    if !CanSend(c, overwrite) then Looks(c, t)
    else WakeReceiver(Looks(c, t).(count := CountAfterCopy(c, overwrite)))
  }

  /** The critical section of xQueueGenericReceive */
  function TryReceive(c: Control, t: Task, peek: bool): Control {
    if c.count == 0 then Looks(c, t)
    else if peek then WakeReceiver(Looks(c, t))
    else WakeSender(Looks(c, t).(count := c.count - 1))
  }

  /** xQueueGenericSendFromISR: a locked queue only counts what was sent. */
  function SendFromISR(c: Control, overwrite: bool): Control {
    if !CanSend(c, overwrite) then c
    else
      var c1 := c.(count := CountAfterCopy(c, overwrite));
      if c.txLock == UNLOCKED then WakeReceiver(c1) else c1.(txLock := c.txLock + 1)
  }

  /** xQueueReceiveFromISR */
  function ReceiveFromISR(c: Control): Control {
    if c.count == 0 then c
    else
      var c1 := c.(count := c.count - 1);
      if c.rxLock == UNLOCKED then WakeSender(c1) else c1.(rxLock := c.rxLock + 1)
  }

  /** prvLockQueue */
  function Lock(c: Control): Control {
    c.(rxLock := if c.rxLock == UNLOCKED then LOCKED_UNMODIFIED else c.rxLock,
       txLock := if c.txLock == UNLOCKED then LOCKED_UNMODIFIED else c.txLock)
  }

  /** The first half of prvUnlockQueue: a wake-up for each message sent while locked, as long as
      there is somebody to wake. */
  function UnlockTx(c: Control): Control
    decreases Positive(c.txLock)
  {
    if c.txLock > LOCKED_UNMODIFIED && c.receivers != [] then UnlockTx(WakeReceiver(c).(txLock := c.txLock - 1))
    else c.(txLock := UNLOCKED)
  }

  /** The second half */
  function UnlockRx(c: Control): Control
    decreases Positive(c.rxLock)
  {
    if c.rxLock > LOCKED_UNMODIFIED && c.senders != [] then UnlockRx(WakeSender(c).(rxLock := c.rxLock - 1))
    else c.(rxLock := UNLOCKED)
  }

  /** vTaskPlaceOnEventList; the place is the one its priority gives the task. */
  function PlaceReceiver(c: Control, t: Task, k: nat): Control
    requires k <= |c.receivers|
  {
    c.(receivers := c.receivers[..k] + [t] + c.receivers[k..])
  }

  function PlaceSender(c: Control, t: Task, k: nat): Control
    requires k <= |c.senders|
  {
    c.(senders := c.senders[..k] + [t] + c.senders[k..])
  }

  function Without(s: seq<Task>, t: Task): seq<Task> {
    if t in s then Remove(Ring(s, 0), t).items else s
  }

  /** A tick takes the task off the list it waits on. */
  function TimesOut(c: Control, t: Task): Control {
    c.(receivers := Without(c.receivers, t), senders := Without(c.senders, t))
  }

  /** xQueueGenericReset of a queue that is not new */
  function Reset(c: Control): Control {
    WakeSender(c.(count := 0, rxLock := UNLOCKED, txLock := UNLOCKED))
  }

  // ---- No wake-up is lost ----

  /** For every message there is somebody on the way to take it, or a lock count that will wake
      somebody. */
  ghost predicate ReceiversCovered(c: Control) {
    c.count <= |c.wokenReceivers| + Positive(c.txLock)
  }

  /** The same for every free slot. */
  ghost predicate SendersCovered(c: Control) {
    c.length - c.count <= |c.wokenSenders| + Positive(c.rxLock)
  }

  ghost predicate NothingLost(c: Control) {
    && (c.receivers != [] ==> ReceiversCovered(c))
    && (c.senders != [] ==> SendersCovered(c))
  }

  /** Nobody waits twice, or waits although woken. */
  ghost predicate WellFormed(c: Control) {
    && NoDup(c.receivers) && NoDup(c.senders)
    && (forall t <- c.receivers :: t !in c.wokenReceivers)
    && (forall t <- c.senders :: t !in c.wokenSenders)
  }

  ghost predicate AsReceiver(c: Control, t: Task) {
    t in c.receivers || t in c.wokenReceivers
  }

  ghost predicate AsSender(c: Control, t: Task) {
    t in c.senders || t in c.wokenSenders
  }

  /** An interrupt has left both waiting lists alone: if it sent or took a message, a lock count
      has gone up by one. */
  ghost predicate OnlyCounts(c: Control, c1: Control) {
    || c1 == c
    || c1 == c.(count := c1.count, txLock := c.txLock + 1)
    || c1 == c.(count := c1.count, rxLock := c.rxLock + 1)
  }

  /** Nobody has come to wait. */
  ghost predicate NobodyNew(c: Control, c1: Control) {
    && (forall t :: AsReceiver(c1, t) ==> AsReceiver(c, t))
    && (forall t :: AsSender(c1, t) ==> AsSender(c, t))
  }

  lemma WakeReceiverKeeps(c: Control)
    requires WellFormed(c)
    ensures WellFormed(WakeReceiver(c)) && NobodyNew(c, WakeReceiver(c))
    ensures c.receivers != [] ==> |WakeReceiver(c).wokenReceivers| == |c.wokenReceivers| + 1
  {
    if c.receivers != [] {
      assert c.receivers[0] in c.receivers;
      var rest := c.receivers[1..];
      forall t | t in rest
        ensures t in c.receivers && t != c.receivers[0]
      {
        var i := IndexOf(rest, t);
        assert c.receivers[i + 1] == t;
      }
    }
  }

  lemma WakeSenderKeeps(c: Control)
    requires WellFormed(c)
    ensures WellFormed(WakeSender(c)) && NobodyNew(c, WakeSender(c))
    ensures c.senders != [] ==> |WakeSender(c).wokenSenders| == |c.wokenSenders| + 1
  {
    if c.senders != [] {
      assert c.senders[0] in c.senders;
      var rest := c.senders[1..];
      forall t | t in rest
        ensures t in c.senders && t != c.senders[0]
      {
        var i := IndexOf(rest, t);
        assert c.senders[i + 1] == t;
      }
    }
  }

  lemma LooksCounts(c: Control, t: Task)
    ensures |Looks(c, t).wokenReceivers| == |c.wokenReceivers| - (if t in c.wokenReceivers then 1 else 0)
    ensures |Looks(c, t).wokenSenders| == |c.wokenSenders| - (if t in c.wokenSenders then 1 else 0)
  {
  }

  /** A sender uses up at most its own wake-up, and passes one on to a receiver. */
  lemma TrySendKeeps(c: Control, t: Task, overwrite: bool)
    requires WellFormed(c) && NothingLost(c)
    requires t !in c.wokenReceivers && (overwrite ==> t !in c.wokenSenders)
    ensures WellFormed(TrySend(c, t, overwrite)) && NothingLost(TrySend(c, t, overwrite))
    ensures NobodyNew(c, TrySend(c, t, overwrite))
    ensures t !in c.receivers && t !in c.senders ==>
              !AsReceiver(TrySend(c, t, overwrite), t) && !AsSender(TrySend(c, t, overwrite), t)
  {
    LooksCounts(c, t);
    if CanSend(c, overwrite) {
      WakeReceiverKeeps(Looks(c, t).(count := CountAfterCopy(c, overwrite)));
    }
  }

  /** Waking one receiver touches nothing else. */
  lemma WokenReceiverCovers(c: Control)
    ensures var c1 := WakeReceiver(c);
            && c1 == c.(receivers := c1.receivers, wokenReceivers := c1.wokenReceivers)
            && (c.receivers == [] ==> c1 == c)
  {
  }

  lemma WokenSenderCovers(c: Control)
    ensures var c1 := WakeSender(c);
            && c1 == c.(senders := c1.senders, wokenSenders := c1.wokenSenders)
            && (c.senders == [] ==> c1 == c)
  {
  }

  lemma TryReceiveKeeps(c: Control, t: Task, peek: bool)
    requires WellFormed(c) && NothingLost(c)
    requires t !in c.wokenSenders
    ensures WellFormed(TryReceive(c, t, peek)) && NothingLost(TryReceive(c, t, peek))
    ensures NobodyNew(c, TryReceive(c, t, peek))
    ensures t !in c.receivers && t !in c.senders ==>
              !AsReceiver(TryReceive(c, t, peek), t) && !AsSender(TryReceive(c, t, peek), t)
  {
    hide WakeReceiver, WakeSender, WellFormed, NobodyNew, AsReceiver, AsSender;
    LooksCounts(c, t);
    LooksKeeps(c, t);
    if c.count > 0 {
      if peek {
        PeekKeeps(c, t);
      } else {
        TakeKeeps(c, t);
      }
    }
  }

  lemma LooksKeeps(c: Control, t: Task)
    requires WellFormed(c)
    ensures var c1 := Looks(c, t);
            && WellFormed(c1) && NobodyNew(c, c1)
            && (t !in c.receivers && t !in c.senders ==> !AsReceiver(c1, t) && !AsSender(c1, t))
  {
    hide NoDup;
  }

  /** Whoever comes to be waiting or woken after two steps was so before. */
  lemma NobodyNewTwice(c: Control, c1: Control, c2: Control, t: Task)
    requires NobodyNew(c, c1) && NobodyNew(c1, c2)
    ensures NobodyNew(c, c2)
    ensures !AsReceiver(c1, t) && !AsSender(c1, t) ==> !AsReceiver(c2, t) && !AsSender(c2, t)
  {
    hide AsReceiver, AsSender;
  }

  lemma SameMembers(c: Control, n: nat)
    ensures var c1 := c.(count := n); (WellFormed(c) <==> WellFormed(c1)) && NobodyNew(c, c1) && NobodyNew(c1, c)
  {
    hide NoDup;
  }

  lemma PeekKeeps(c: Control, t: Task)
    requires WellFormed(c) && NothingLost(c) && t !in c.wokenSenders
    ensures var c1 := WakeReceiver(Looks(c, t));
            && WellFormed(c1) && NothingLost(c1) && NobodyNew(c, c1)
            && (t !in c.receivers && t !in c.senders ==> !AsReceiver(c1, t) && !AsSender(c1, t))
  {
    hide WakeReceiver, WellFormed, NobodyNew, AsReceiver, AsSender;
    var c0 := Looks(c, t);
    LooksCounts(c, t);
    LooksKeeps(c, t);
    WakeReceiverKeeps(c0);
    WokenReceiverCovers(c0);
    NobodyNewTwice(c, c0, WakeReceiver(c0), t);
  }

  lemma TakeKeeps(c: Control, t: Task)
    requires WellFormed(c) && NothingLost(c) && t !in c.wokenSenders && c.count > 0
    ensures var c1 := WakeSender(Looks(c, t).(count := c.count - 1));
            && WellFormed(c1) && NothingLost(c1) && NobodyNew(c, c1)
            && (t !in c.receivers && t !in c.senders ==> !AsReceiver(c1, t) && !AsSender(c1, t))
  {
    hide WakeSender, WellFormed, NobodyNew, AsReceiver, AsSender;
    var c0 := Looks(c, t);
    var c2 := c0.(count := c.count - 1);
    LooksCounts(c, t);
    LooksKeeps(c, t);
    SameMembers(c0, c.count - 1);
    NobodyNewTwice(c, c0, c2, t);
    WakeSenderKeeps(c2);
    WokenSenderCovers(c2);
    NobodyNewTwice(c, c2, WakeSender(c2), t);
  }

  /** An interrupt keeps what holds on each side, waiting tasks or not, while the queue is locked. */
  lemma SendFromISRKeeps(c: Control, overwrite: bool)
    requires WellFormed(c) && NothingLost(c) && c.txLock >= UNLOCKED
    ensures var c1 := SendFromISR(c, overwrite);
            && WellFormed(c1) && NothingLost(c1) && NobodyNew(c, c1) && c1.rxLock == c.rxLock
            && (if c.txLock == UNLOCKED then c1.txLock == UNLOCKED else c1.txLock >= c.txLock)
            && (c.txLock >= LOCKED_UNMODIFIED && ReceiversCovered(c) ==> ReceiversCovered(c1))
            && (SendersCovered(c) ==> SendersCovered(c1))
  {
    if CanSend(c, overwrite) {
      WakeReceiverKeeps(c.(count := CountAfterCopy(c, overwrite)));
    }
  }

  lemma ReceiveFromISRKeeps(c: Control)
    requires WellFormed(c) && NothingLost(c) && c.rxLock >= UNLOCKED
    ensures var c1 := ReceiveFromISR(c);
            && WellFormed(c1) && NothingLost(c1) && NobodyNew(c, c1) && c1.txLock == c.txLock
            && (if c.rxLock == UNLOCKED then c1.rxLock == UNLOCKED else c1.rxLock >= c.rxLock)
            && (c.rxLock >= LOCKED_UNMODIFIED && SendersCovered(c) ==> SendersCovered(c1))
            && (ReceiversCovered(c) ==> ReceiversCovered(c1))
  {
    if c.count > 0 {
      WakeSenderKeeps(c.(count := c.count - 1));
    }
  }

  lemma PlaceReceiverKeeps(c: Control, t: Task, k: nat)
    requires WellFormed(c) && NothingLost(c) && ReceiversCovered(c)
    requires k <= |c.receivers| && t !in c.receivers && t !in c.wokenReceivers
    ensures WellFormed(PlaceReceiver(c, t, k)) && NothingLost(PlaceReceiver(c, t, k))
    ensures forall u :: u in PlaceReceiver(c, t, k).receivers <==> u == t || u in c.receivers
  {
    InsertAtMembers(Ring(c.receivers, 0), k, t);
  }

  lemma PlaceSenderKeeps(c: Control, t: Task, k: nat)
    requires WellFormed(c) && NothingLost(c) && SendersCovered(c)
    requires k <= |c.senders| && t !in c.senders && t !in c.wokenSenders
    ensures WellFormed(PlaceSender(c, t, k)) && NothingLost(PlaceSender(c, t, k))
    ensures forall u :: u in PlaceSender(c, t, k).senders <==> u == t || u in c.senders
  {
    InsertAtMembers(Ring(c.senders, 0), k, t);
  }

  lemma WithoutMembers(s: seq<Task>, t: Task)
    requires NoDup(s)
    ensures NoDup(Without(s, t))
    ensures forall u :: u in Without(s, t) <==> u != t && u in s
  {
    if t in s {
      RemoveAtMembers(Ring(s, 0), IndexOf(s, t));
    }
  }

  lemma TimesOutKeeps(c: Control, t: Task)
    requires WellFormed(c) && NothingLost(c)
    ensures WellFormed(TimesOut(c, t)) && NothingLost(TimesOut(c, t)) && NobodyNew(c, TimesOut(c, t))
  {
    WithoutMembers(c.receivers, t);
    WithoutMembers(c.senders, t);
  }

  function Members(s: seq<Task>): set<Task> {
    set t <- s
  }

  lemma FirstMembers(woken: set<Task>, s: seq<Task>, n: nat)
    requires n < |s|
    ensures s[1..][n..] == s[n + 1..]
    ensures woken + {s[0]} + Members(s[1..][..n]) == woken + Members(s[..n + 1])
  {
    assert s[..n + 1] == [s[0]] + s[1..][..n];
  }

  lemma NoMembers(woken: set<Task>, s: seq<Task>)
    ensures s[0..] == s && woken + Members(s[..0]) == woken
  {
  }

  function Min(a: nat, b: nat): nat {
    if a < b then a else b
  }

  /** Unlocking wakes exactly as many receivers as messages were sent while the queue was locked,
      or all of them if there are fewer, in the order of the list. */
  lemma {:induction false} UnlockTxWakes(c: Control)
    ensures var n := Min(Positive(c.txLock), |c.receivers|);
            var c1 := UnlockTx(c);
            && c1.receivers == c.receivers[n..]
            && c1.wokenReceivers == c.wokenReceivers + Members(c.receivers[..n])
            && c1 == c.(receivers := c1.receivers, wokenReceivers := c1.wokenReceivers, txLock := UNLOCKED)
    decreases Positive(c.txLock)
  {
    hide Members;
    if c.txLock > LOCKED_UNMODIFIED && c.receivers != [] {
      var c1 := WakeReceiver(c).(txLock := c.txLock - 1);
      UnlockTxWakes(c1);
      FirstMembers(c.wokenReceivers, c.receivers, Min(Positive(c1.txLock), |c1.receivers|));
    } else {
      NoMembers(c.wokenReceivers, c.receivers);
    }
  }

  lemma {:induction false} UnlockRxWakes(c: Control)
    ensures var n := Min(Positive(c.rxLock), |c.senders|);
            var c1 := UnlockRx(c);
            && c1.senders == c.senders[n..]
            && c1.wokenSenders == c.wokenSenders + Members(c.senders[..n])
            && c1 == c.(senders := c1.senders, wokenSenders := c1.wokenSenders, rxLock := UNLOCKED)
    decreases Positive(c.rxLock)
  {
    hide Members;
    if c.rxLock > LOCKED_UNMODIFIED && c.senders != [] {
      var c1 := WakeSender(c).(rxLock := c.rxLock - 1);
      UnlockRxWakes(c1);
      FirstMembers(c.wokenSenders, c.senders, Min(Positive(c1.rxLock), |c1.senders|));
    } else {
      NoMembers(c.wokenSenders, c.senders);
    }
  }

  lemma {:induction false} UnlockTxKeeps(c: Control)
    requires WellFormed(c) && NothingLost(c)
    ensures WellFormed(UnlockTx(c)) && NothingLost(UnlockTx(c)) && NobodyNew(c, UnlockTx(c))
    ensures UnlockTx(c).txLock == UNLOCKED && UnlockTx(c).rxLock == c.rxLock
    decreases Positive(c.txLock)
  {
    if c.txLock > LOCKED_UNMODIFIED && c.receivers != [] {
      WakeReceiverKeeps(c);
      UnlockTxKeeps(WakeReceiver(c).(txLock := c.txLock - 1));
    }
  }

  lemma {:induction false} UnlockRxKeeps(c: Control)
    requires WellFormed(c) && NothingLost(c)
    ensures WellFormed(UnlockRx(c)) && NothingLost(UnlockRx(c)) && NobodyNew(c, UnlockRx(c))
    ensures UnlockRx(c).rxLock == UNLOCKED && UnlockRx(c).txLock == c.txLock
    decreases Positive(c.rxLock)
  {
    if c.rxLock > LOCKED_UNMODIFIED && c.senders != [] {
      WakeSenderKeeps(c);
      UnlockRxKeeps(WakeSender(c).(rxLock := c.rxLock - 1));
    }
  }

  /** A reset frees every slot but wakes one sender at most: it loses wake-ups exactly when two
      senders wait and there is room for more than those that have been woken. */
  lemma ResetKeepsExactlyWhen(c: Control)
    requires WellFormed(c) && NothingLost(c)
    ensures NothingLost(Reset(c)) <==> |c.senders| <= 1 || c.length <= |c.wokenSenders| + 1
  {
    WakeSenderKeeps(c.(count := 0, rxLock := UNLOCKED, txLock := UNLOCKED));
  }

  /** Here two senders wait for a full queue of length two, and after a reset one still waits
      although a slot is free for it. */
  lemma ResetCanStrandASender()
    ensures var c := Control(2, 1, 2, UNLOCKED, UNLOCKED, [], [7, 8], {}, {});
            WellFormed(c) && NothingLost(c) && !NothingLost(Reset(c))
  {
    var c := Control(2, 1, 2, UNLOCKED, UNLOCKED, [], [7, 8], {}, {});
    ResetKeepsExactlyWhen(c);
  }

  /** vTaskDelete of a task inside a call: it leaves both lists, and a wake-up that it has not used yet
      goes with it. */
  function Deleted(c: Control, t: Task): Control {
    TimesOut(c, t).(wokenReceivers := c.wokenReceivers - {t}, wokenSenders := c.wokenSenders - {t})
  }

  /** A deletion loses a wake-up exactly when the task has been woken and has still to look, others wait
      on its list, and there is no wake-up to spare. */
  lemma DeletionKeepsExactlyWhen(c: Control, t: Task)
    requires WellFormed(c) && NothingLost(c)
    ensures NothingLost(Deleted(c, t)) <==>
              && (t in c.wokenReceivers && c.receivers != [] ==> c.count < |c.wokenReceivers| + Positive(c.txLock))
              && (t in c.wokenSenders && c.senders != [] ==> c.length - c.count < |c.wokenSenders| + Positive(c.rxLock))
  {
    LooksCounts(c, t);
    LeavesOthers(c.receivers, t);
    LeavesOthers(c.senders, t);
  }

  lemma LeavesOthers(s: seq<Task>, t: Task)
    requires NoDup(s)
    ensures t !in s ==> Without(s, t) == s
    ensures Without(s, t) != [] ==> s != []
  {
    WithoutMembers(s, t);
    assert Without(s, t) != [] ==> Without(s, t)[0] in s;
  }
}
