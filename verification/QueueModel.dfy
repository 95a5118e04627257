/** The bounded queue of messages that a queue's byte buffer stands for. */
module QueueModel {
  newtype Byte = x: int | 0 <= x < 256

  type Message = seq<Byte>

  /** queueSEND_TO_BACK, queueSEND_TO_FRONT, queueOVERWRITE */
  datatype Position = ToBack | ToFront | Overwrite

  datatype Queue = Queue(length: nat, itemSize: nat, items: seq<Message>)

  function New(length: nat, itemSize: nat): Queue {
    Queue(length, itemSize, [])
  }

  /** There is room, or room is not asked for. */
  predicate Accepts(q: Queue, position: Position) {
    |q.items| < q.length || position == Overwrite
  }

  function Send(q: Queue, m: Message, position: Position): Queue {
    if !Accepts(q, position) then q
    else
      q.(items := match position
        case ToBack => q.items + [m]
        case ToFront => [m] + q.items
        case Overwrite => if q.itemSize == 0 || q.items == [] then q.items + [m] else q.items[..|q.items| - 1] + [m])
  }

  function Receive(q: Queue): Queue {
    if q.items == [] then q else q.(items := q.items[1..])
  }

  predicate Bounded(q: Queue) {
    |q.items| <= q.length
  }

  /** Sending keeps a queue within its length, with one exception: overwriting counts one message
      too many when the messages have no bytes, as a full semaphore's do. */
  lemma SendKeepsBounded(q: Queue, m: Message, position: Position)
    requires Bounded(q) && (position == Overwrite ==> q.length == 1)
    ensures Bounded(Send(q, m, position)) <==> !(position == Overwrite && q.itemSize == 0 && q.items != [])
  {
  }

  /** Here a full queue of one message without bytes is overwritten, and then counts two. */
  lemma OverwriteCanOverflow()
    ensures var q := Queue(1, 0, [[]]);
            && Bounded(q) && |q.items| == q.length
            && Send(q, [], Overwrite).items == [[], []] && !Bounded(Send(q, [], Overwrite))
  {
    var q := Queue(1, 0, [[]]);
    assert Send(q, [], Overwrite).items == q.items + [[]];
  }

  /** Where an accepted message goes: behind all others, before them, or in the place of the only one; but
      a message without bytes replaces none. */
  predicate Placed(items: seq<Message>, now: seq<Message>, itemSize: nat, m: Message, position: Position) {
    match position
    case ToBack => now == items + [m]
    case ToFront => now == [m] + items
    case Overwrite => now == if itemSize > 0 then [m] else items + [m]
  }

  lemma SendIsPlaced(q: Queue, m: Message, position: Position)
    requires Accepts(q, position)
    requires position == Overwrite ==> q.length == 1 && (q.itemSize > 0 ==> Bounded(q))
    ensures Placed(q.items, Send(q, m, position).items, q.itemSize, m, position)
  {
  }

  /** A message that overwrites is the next one received, and nothing is behind it. */
  lemma OverwriteIsNext(q: Queue, m: Message)
    requires q.length == 1 && Bounded(q) && q.itemSize > 0
    ensures var q1 := Send(q, m, Overwrite); q1.items != [] && q1.items[0] == m && Receive(q1).items == []
  {
    SendIsPlaced(q, m, Overwrite);
  }

  // ---- Order ----

  datatype Operation = Put(message: Message, position: Position) | Get

  /** A queue with its history: `received` are all messages received from it; `accepted` those that
      were sent to the back or overwrote another, except those that were overwritten; and `served` those
      of them that have been received.  The first `fronts` messages in the queue were sent to the front. */
  datatype Trace = Trace(queue: Queue, fronts: nat, accepted: seq<Message>, served: seq<Message>,
                         received: seq<Message>)

  function DropLast(s: seq<Message>): seq<Message> {
    if s == [] then [] else s[..|s| - 1]
  }

  /** The history after an overwrite: with bytes, the message that was in the queue is as if it had never
      been sent. */
  function Overwritten(t: Trace, m: Message): Trace {
    var t1 := t.(queue := Send(t.queue, m, Overwrite));
    if t.queue.itemSize == 0 || t.queue.items == [] then t1.(accepted := t.accepted + [m])
    else if t.fronts == |t.queue.items| then t1.(fronts := t.fronts - 1, accepted := t.accepted + [m])
    else t1.(accepted := DropLast(t.accepted) + [m])
  }

  function Do(t: Trace, operation: Operation): Trace
    requires t.fronts <= |t.queue.items|
  {
    match operation
    case Put(m, Overwrite) => Overwritten(t, m)
    case Put(m, position) =>
      if |t.queue.items| >= t.queue.length then t.(queue := Send(t.queue, m, position))
      else if position == ToFront then t.(queue := Send(t.queue, m, ToFront), fronts := t.fronts + 1)
      else t.(queue := Send(t.queue, m, ToBack), accepted := t.accepted + [m])
    case Get =>
      if t.queue.items == [] then t.(queue := Receive(t.queue))
      else
        var m := t.queue.items[0];
        var t1 := t.(queue := Receive(t.queue), received := t.received + [m]);
        if t.fronts > 0 then t1.(fronts := t.fronts - 1) else t1.(served := t.served + [m])
  }

  /** The queue of a history is what the operations make of it, and what is received is the first message. */
  lemma DoesTheOperation(t: Trace, operation: Operation)
    requires t.fronts <= |t.queue.items|
    ensures var t1 := Do(t, operation);
            match operation
            case Put(m, position) => t1.queue == Send(t.queue, m, position) && t1.received == t.received
            case Get =>
              && t1.queue == Receive(t.queue)
              && t1.received == (if t.queue.items == [] then t.received else t.received + [t.queue.items[0]])
  {
  }

  /** The messages sent to the back that have been received, followed by those still in the queue, are
      those that were accepted, in that order. */
  predicate Fair(t: Trace) {
    t.fronts <= |t.queue.items| && t.served + t.queue.items[t.fronts..] == t.accepted
  }

  /** Only a queue of one message is overwritten. */
  predicate MayDo(q: Queue, operation: Operation) {
    operation.Put? && operation.position == Overwrite ==> q.length == 1
  }

  lemma OverwriteIsFair(t: Trace, m: Message)
    requires Fair(t)
    ensures Fair(Overwritten(t, m))
  {
    var items := t.queue.items;
    assert (items + [m])[t.fronts..] == items[t.fronts..] + [m];
    assert t.served + (items[t.fronts..] + [m]) == t.accepted + [m];
    if items != [] {
      var now := DropLast(items) + [m];
      if t.fronts == |items| {
        assert now[t.fronts - 1..] == [m];
      } else {
        assert now[t.fronts..] == items[t.fronts..|items| - 1] + [m];
        assert DropLast(t.accepted) == t.served + items[t.fronts..|items| - 1];
      }
    }
  }

  lemma DoIsFair(t: Trace, operation: Operation)
    requires Fair(t)
    ensures Fair(Do(t, operation))
    ensures t.fronts == 0 && t.received == t.served && operation != Get && operation.position != ToFront ==>
              Do(t, operation).fronts == 0 && Do(t, operation).received == Do(t, operation).served
    ensures t.fronts == 0 && t.received == t.served && operation == Get ==>
              Do(t, operation).fronts == 0 && Do(t, operation).received == Do(t, operation).served
  {
    var items := t.queue.items;
    match operation
    case Put(m, Overwrite) => OverwriteIsFair(t, m);
    case Put(m, _) =>
      assert (items + [m])[t.fronts..] == items[t.fronts..] + [m];
      assert ([m] + items)[t.fronts + 1..] == items[t.fronts..];
      assert t.served + (items[t.fronts..] + [m]) == t.accepted + [m];
    case Get =>
      if items != [] && t.fronts > 0 {
        assert items[1..][t.fronts - 1..] == items[t.fronts..];
      } else if items != [] {
        assert (t.served + [items[0]]) + items[1..] == t.served + items;
      }
  }

  function DoAll(t: Trace, operations: seq<Operation>): Trace
    requires Fair(t)
    decreases |operations|
  {
    if operations == [] then t
    else
      DoIsFair(t, operations[0]);
      DoAll(Do(t, operations[0]), operations[1..])
  }

  /** First in, first out: over any history, with sends to either end and overwriting, the messages sent
      to the back come out in the order in which they were accepted; none of them is lost, doubled or
      overtaken by another, except those that were overwritten.  If no message is sent to the front these
      are all the messages there are. */
  lemma {:induction false} FirstInFirstOut(t: Trace, operations: seq<Operation>)
    requires Fair(t)
    ensures Fair(DoAll(t, operations))
    ensures t.fronts == 0 && t.received == t.served
            && (forall o <- operations :: o.Put? ==> o.position != ToFront) ==>
              DoAll(t, operations).received + DoAll(t, operations).queue.items == DoAll(t, operations).accepted
    decreases |operations|
  {
    hide Do;
    if operations == [] {
      assert t.queue.items[0..] == t.queue.items;
    } else {
      DoIsFair(t, operations[0]);
      FirstInFirstOut(Do(t, operations[0]), operations[1..]);
    }
  }

  /** Every history keeps the queue within its length, if messages have bytes or none overwrites. */
  lemma {:induction false} HistoryKeepsBounded(t: Trace, operations: seq<Operation>)
    requires Fair(t) && Bounded(t.queue) && forall o <- operations :: MayDo(t.queue, o)
    requires t.queue.itemSize > 0 || forall o <- operations :: o.Put? ==> o.position != Overwrite
    ensures Bounded(DoAll(t, operations).queue) && DoAll(t, operations).queue.length == t.queue.length
    decreases |operations|
  {
    if operations != [] {
      DoIsFair(t, operations[0]);
      DoKeepsBounded(t, operations[0]);
      hide Do;
      forall o | o in operations[1..]
        ensures MayDo(Do(t, operations[0]).queue, o)
      {
        assert o in operations && MayDo(t.queue, o);
      }
      HistoryKeepsBounded(Do(t, operations[0]), operations[1..]);
    }
  }

  lemma DoKeepsBounded(t: Trace, operation: Operation)
    requires Fair(t) && Bounded(t.queue) && MayDo(t.queue, operation)
    requires t.queue.itemSize > 0 || (operation.Put? ==> operation.position != Overwrite)
    ensures var q := Do(t, operation).queue;
            Bounded(q) && q.length == t.queue.length && q.itemSize == t.queue.itemSize
  {
    if operation.Put? {
      SendKeepsBounded(t.queue, operation.message, operation.position);
    }
  }

  /** Last in, first out at the front: a message sent there is the next one received, and what was to be
      received before is still so after it. */
  lemma FrontIsNext(t: Trace, m: Message)
    requires Fair(t) && |t.queue.items| < t.queue.length
    ensures Fair(Do(t, Put(m, ToFront)))
    ensures var t1 := Do(Do(t, Put(m, ToFront)), Get);
            t1.received == t.received + [m] && t1.queue == t.queue && t1.served == t.served && t1.fronts == t.fronts
  {
    DoIsFair(t, Put(m, ToFront));
    assert ([m] + t.queue.items)[1..] == t.queue.items;
  }
}
