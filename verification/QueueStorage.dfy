/** The byte ring buffer of queue.c: items are copied in and out of one block of bytes, at a write
    position and behind a read position that go round it.  Every operation is proved to do what
    the operation of the same name does to a bounded sequence of messages. */
module QueueStorage {
  import opened QueueModel

  // ---- Slots ----

  /** Slot numbers go round; `x` is less than two rounds ahead. */
  function Round(x: nat, length: nat): nat {
    if x < length then x else if x < 2 * length then x - length else 0
  }

  lemma RoundIsModulo(x: nat, length: nat)
    requires 0 < length && x <= 2 * length
    ensures Round(x, length) == x % length
  {
    if length <= x < 2 * length {
      assert x == 1 * length + (x - length);
    }
  }

  lemma SlotFits(slot: nat, length: nat, size: nat)
    requires slot < length
    ensures slot * size + size == (slot + 1) * size <= length * size
  {
    assert (length - slot - 1) * size >= 0;
    assert (length - slot - 1) * size == length * size - (slot + 1) * size;
  }

  lemma SlotsApart(a: nat, b: nat, size: nat)
    requires a < b
    ensures a * size + size <= b * size
  {
    SlotFits(a, b, size);
  }

  /** The bytes of one slot. */
  function SlotBytes(bytes: seq<Byte>, slot: nat, length: nat, size: nat): (m: Message)
    requires slot < length && length * size <= |bytes|
    ensures |m| == size
  {
    SlotFits(slot, length, size);
    bytes[slot * size..slot * size + size]
  }

  /** The message at place `i` behind the read slot. */
  function MessageAt(bytes: seq<Byte>, read: nat, i: nat, length: nat, size: nat): Message
    requires 0 < length && length * size <= |bytes|
    requires read < length && i < length
  {
    SlotBytes(bytes, Round(read + 1 + i, length), length, size)
  }

  /** The `count` messages behind the read slot. */
  function Messages(bytes: seq<Byte>, read: nat, count: nat, length: nat, size: nat): (items: seq<Message>)
    requires 0 < length && length * size <= |bytes|
    requires read < length && count <= length
    ensures |items| == count
    ensures forall i :: 0 <= i < count ==> items[i] == MessageAt(bytes, read, i, length, size)
  {
    seq(count, i requires 0 <= i < count => MessageAt(bytes, read, i, length, size))
  }

  /** Bytes with an item copied to a position. */
  function Copied(bytes: seq<Byte>, at: nat, m: Message): (copied: seq<Byte>)
    requires at + |m| <= |bytes|
    ensures |copied| == |bytes|
  {
    bytes[..at] + m + bytes[at + |m|..]
  }

  lemma CopyAt(bytes: seq<Byte>, at: nat, m: Message, other: nat)
    requires at + |m| <= |bytes| && other + |m| <= |bytes|
    requires other == at || other + |m| <= at || at + |m| <= other
    ensures Copied(bytes, at, m)[other..other + |m|] == if other == at then m else bytes[other..other + |m|]
  {
  }

  /** Copying to one slot changes the message there and no other. */
  lemma CopyToSlot(bytes: seq<Byte>, slot: nat, m: Message, other: nat, length: nat)
    requires slot < length && other < length && length * |m| <= |bytes|
    ensures slot * |m| + |m| <= |bytes|
    ensures SlotBytes(Copied(bytes, slot * |m|, m), other, length, |m|)
            == if other == slot then m else SlotBytes(bytes, other, length, |m|)
  {
    SlotFits(slot, length, |m|);
    SlotFits(other, length, |m|);
    hide Copied;
    if other < slot {
      SlotsApart(other, slot, |m|);
    } else if slot < other {
      SlotsApart(slot, other, |m|);
    }
    CopyAt(bytes, slot * |m|, m, other * |m|);
  }

  // ---- Sending and receiving, on bytes ----

  lemma AppendedAt(bytes: seq<Byte>, read: nat, count: nat, length: nat, m: Message, i: nat)
    requires length * |m| <= |bytes| && read < length && i <= count < length
    ensures var slot := Round(read + 1 + count, length);
            && slot < length && slot * |m| + |m| <= |bytes|
            && MessageAt(Copied(bytes, slot * |m|, m), read, i, length, |m|)
               == if i == count then m else MessageAt(bytes, read, i, length, |m|)
  {
    hide Copied, SlotBytes;
    var slot := Round(read + 1 + count, length);
    CopyToSlot(bytes, slot, m, Round(read + 1 + i, length), length);
  }

  lemma AppendsMessage(bytes: seq<Byte>, read: nat, count: nat, length: nat, m: Message)
    requires 0 < length && length * |m| <= |bytes|
    requires read < length && count < length
    ensures var slot := Round(read + 1 + count, length);
            && slot < length && slot * |m| + |m| <= |bytes|
            && Messages(Copied(bytes, slot * |m|, m), read, count + 1, length, |m|)
               == Messages(bytes, read, count, length, |m|) + [m]
  {
    hide MessageAt, Copied, Round;
    AppendedAt(bytes, read, count, length, m, count);
    forall i | 0 <= i <= count
      ensures MessageAt(Copied(bytes, Round(read + 1 + count, length) * |m|, m), read, i, length, |m|)
              == if i == count then m else MessageAt(bytes, read, i, length, |m|)
    {
      AppendedAt(bytes, read, count, length, m, i);
    }
  }

  function Back(slot: nat, length: nat): (back: nat)
    requires slot < length
    ensures back < length
  {
    if slot == 0 then length - 1 else slot - 1
  }

  lemma PrependedAt(bytes: seq<Byte>, read: nat, count: nat, length: nat, m: Message, i: nat)
    requires length * |m| <= |bytes| && read < length && i <= count < length
    ensures read * |m| + |m| <= |bytes|
    ensures MessageAt(Copied(bytes, read * |m|, m), Back(read, length), i, length, |m|)
            == if i == 0 then m else MessageAt(bytes, read, i - 1, length, |m|)
  {
    hide Copied, SlotBytes;
    CopyToSlot(bytes, read, m, Round(Back(read, length) + 1 + i, length), length);
  }

  lemma PrependsMessage(bytes: seq<Byte>, read: nat, count: nat, length: nat, m: Message)
    requires 0 < length && length * |m| <= |bytes|
    requires read < length && count < length
    ensures read * |m| + |m| <= |bytes|
    ensures Messages(Copied(bytes, read * |m|, m), Back(read, length), count + 1, length, |m|)
            == [m] + Messages(bytes, read, count, length, |m|)
  {
    hide MessageAt, Copied, Back;
    PrependedAt(bytes, read, count, length, m, 0);
    forall i | 0 <= i <= count
      ensures MessageAt(Copied(bytes, read * |m|, m), Back(read, length), i, length, |m|)
              == if i == 0 then m else MessageAt(bytes, read, i - 1, length, |m|)
    {
      PrependedAt(bytes, read, count, length, m, i);
    }
  }

  lemma FirstMessage(bytes: seq<Byte>, read: nat, count: nat, length: nat, size: nat)
    requires 0 < length && length * size <= |bytes|
    requires read < length && 0 < count <= length
    ensures var slot := Round(read + 1, length);
            && slot < length && slot * size + size <= |bytes|
            && Messages(bytes, read, count, length, size)[0] == bytes[slot * size..slot * size + size]
  {
    SlotFits(Round(read + 1, length), length, size);
  }

  lemma DropsFirst(bytes: seq<Byte>, read: nat, count: nat, length: nat, size: nat)
    requires 0 < length && length * size <= |bytes|
    requires read < length && 0 < count <= length
    ensures Messages(bytes, read, count, length, size)[1..]
            == Messages(bytes, Round(read + 1, length), count - 1, length, size)
    ensures Round(read + 1 + count, length) == Round(Round(read + 1, length) + count, length)
  {
  }

  lemma DropsEmpty(count: nat)
    requires 0 < count
    ensures seq(count - 1, _ => []) == seq<Message>(count, _ => [])[1..]
  {
  }

  lemma SlotMovesOn(slot: nat, length: nat, size: nat)
    requires slot < length && 0 < size
    ensures slot * size + size >= length * size <==> slot + 1 == length
    ensures (if slot + 1 == length then 0 else slot * size + size) == Round(slot + 1, length) * size
  {
    SlotFits(slot, length, size);
    if slot + 1 < length {
      SlotsApart(slot + 1, length, size);
    }
  }

  lemma SlotMovesBack(slot: nat, length: nat, size: nat)
    requires slot < length && 0 < size
    ensures slot * size < size <==> slot == 0
    ensures (if slot == 0 then length * size - size else slot * size - size) == Back(slot, length) * size
  {
    if slot > 0 {
      SlotsApart(0, slot, size);
      SlotFits(slot - 1, length, size);
    } else {
      SlotFits(length - 1, length, size);
    }
  }

  lemma SameEmpty(count: nat, m: Message)
    requires |m| == 0
    ensures seq(count + 1, _ => []) == seq(count, _ => []) + [m]
  {
  }

  // ---- The queue structure ----

  class Storage {
    const length: nat
    const itemSize: nat
    const buffer: array<Byte>        // from pcHead
    const tail: nat                  // pcTail, as all positions counted from pcHead
    var writeTo: nat
    var readFrom: nat
    var messagesWaiting: nat
    ghost var readSlot: nat

    /** The write position is one slot behind the last message, the messages start one slot behind
        the read position, and slots go round. */
    ghost predicate Valid()
      reads this, buffer
    {
      && 0 < length && buffer.Length == length * itemSize + 1 && tail == length * itemSize
      && readSlot < length && readFrom == readSlot * itemSize
      && (itemSize > 0 ==>
            && messagesWaiting <= length
            && writeTo == Round(readSlot + 1 + messagesWaiting, length) * itemSize)
    }

    /** The bounded queue this storage stands for. */
    ghost function Contents(): (q: Queue)
      requires Valid()
      reads this, buffer
      ensures |q.items| == messagesWaiting
    {
      Queue(length, itemSize,
            if itemSize == 0 then seq(messagesWaiting, _ => [])
            else Messages(buffer[..], readSlot, messagesWaiting, length, itemSize))
    }

    /** The write position is always the read position, one on, and the messages on, modulo the
        length. */
    lemma PositionsAgree()
      requires Valid() && 0 < itemSize
      ensures writeTo == (readSlot + 1 + messagesWaiting) % length * itemSize
      ensures readFrom == readSlot * itemSize && readSlot < length && messagesWaiting <= length
    {
      RoundIsModulo(readSlot + 1 + messagesWaiting, length);
    }

    /** xQueueGenericCreate */
    constructor (length: nat, itemSize: nat)
      requires 0 < length
      ensures Valid() && fresh(this) && fresh(buffer)
      ensures Contents() == New(length, itemSize)
    {
      this.length, this.itemSize := length, itemSize;
      buffer := new Byte[length * itemSize + 1];
      tail := length * itemSize;
      new;
      Reset();
    }

    /** xQueueGenericReset, on the storage */
    method Reset()
      requires 0 < length && buffer.Length == length * itemSize + 1 && tail == length * itemSize
      modifies this
      ensures Valid() && Contents() == New(length, itemSize)
    {
      messagesWaiting := 0;
      writeTo := 0;
      readFrom := (length - 1) * itemSize;
      readSlot := length - 1;
      assert Round(length, length) == 0;
    }

    /** memcpy into the buffer */
    method CopyIn(at: nat, m: Message)
      requires at + |m| <= buffer.Length
      modifies buffer
      ensures buffer[..] == Copied(old(buffer[..]), at, m)
    {
      for i := 0 to |m|
        invariant buffer[..at] == old(buffer[..at]) && buffer[at..at + i] == m[..i]
        invariant buffer[at + i..] == old(buffer[at + i..])
      {
        buffer[at + i] := m[i];
      }
    }

    /** memcpy out of the buffer */
    method CopyOut(at: nat) returns (m: Message)
      requires at + itemSize <= buffer.Length
      ensures m == buffer[at..at + itemSize]
    {
      m := [];
      for i := 0 to itemSize
        invariant m == buffer[at..at + i]
      {
        m := m + [buffer[at + i]];
      }
    }

    /** Copies an item to the write position, which moves on, and round the tail. */
    method StoreAtBack(m: Message)
      requires Valid() && |m| == itemSize && 0 < itemSize && messagesWaiting < length
      modifies this`writeTo, buffer
      ensures Messages(buffer[..], readSlot, messagesWaiting + 1, length, itemSize)
              == Messages(old(buffer[..]), readSlot, messagesWaiting, length, itemSize) + [m]
      ensures writeTo == Round(readSlot + 2 + messagesWaiting, length) * itemSize
    {
      ghost var slot := Round(readSlot + 1 + messagesWaiting, length);
      AppendsMessage(buffer[..], readSlot, messagesWaiting, length, m);
      SlotMovesOn(slot, length, itemSize);
      hide Messages;
      CopyIn(writeTo, m);
      writeTo := writeTo + itemSize;
      if writeTo >= tail {
        writeTo := 0;
      }
    }

    /** Copies an item to the read position, which moves back, and round the head.  The `kept`
        messages that were first are now behind it. */
    method StoreAtFront(m: Message, ghost kept: nat)
      requires Valid() && |m| == itemSize && 0 < itemSize && kept < length && kept <= messagesWaiting
      modifies this`readFrom, this`readSlot, buffer
      ensures readSlot == Back(old(readSlot), length) && readFrom == readSlot * itemSize
      ensures Messages(buffer[..], readSlot, kept + 1, length, itemSize)
              == [m] + Messages(old(buffer[..]), old(readSlot), kept, length, itemSize)
    {
      PrependsMessage(buffer[..], readSlot, kept, length, m);
      SlotMovesBack(readSlot, length, itemSize);
      hide Messages;
      CopyIn(readFrom, m);
      if readFrom < itemSize {
        readFrom := tail - itemSize;
      } else {
        readFrom := readFrom - itemSize;
      }
      readSlot := Back(readSlot, length);
    }

    /** prvCopyDataToQueue */
    method CopyDataToQueue(m: Message, position: Position)
      requires Valid() && |m| == itemSize
      requires Accepts(Contents(), position) && (position == Overwrite ==> length == 1)
      modifies this, buffer
      ensures Valid() && Contents() == Send(old(Contents()), m, position)
      ensures Placed(old(Contents()).items, Contents().items, itemSize, m, position)
    {
      hide Messages, Copied, Placed;
      SendIsPlaced(Contents(), m, position);
      if itemSize == 0 {
        SameEmpty(messagesWaiting, m);
      } else if position == ToBack {
        StoreAtBack(m);
      } else {
        StoreAtFront(m, if messagesWaiting < length then messagesWaiting else 0);
        if position == Overwrite && messagesWaiting > 0 {
          messagesWaiting := messagesWaiting - 1;
        }
      }
      messagesWaiting := messagesWaiting + 1;
    }

    /** prvCopyDataFromQueue: the read position moves on to the first message, which is copied out;
        nothing is copied when the messages have no bytes. */
    method CopyDataFromQueue() returns (m: Message)
      requires Valid() && messagesWaiting > 0
      modifies this`readFrom, this`readSlot
      ensures m == old(Contents()).items[0]
      ensures readSlot == (if itemSize == 0 then old(readSlot) else Round(old(readSlot) + 1, length))
      ensures readFrom == readSlot * itemSize && readSlot < length
    {
      hide Messages;
      m := [];
      if itemSize > 0 {
        FirstMessage(buffer[..], readSlot, messagesWaiting, length, itemSize);
        SlotMovesOn(readSlot, length, itemSize);
        readFrom := readFrom + itemSize;
        if readFrom >= tail {
          readFrom := 0;
        }
        readSlot := Round(readSlot + 1, length);
        m := CopyOut(readFrom);
      }
    }

    /** The critical section of a send, up to the waking of a waiting task */
    method Put(m: Message, position: Position) returns (sent: bool)
      requires Valid() && |m| == itemSize && (position == Overwrite ==> length == 1)
      modifies this, buffer
      ensures Valid() && sent == Accepts(old(Contents()), position)
      ensures Contents() == Send(old(Contents()), m, position)
      ensures if sent then Placed(old(Contents()).items, Contents().items, itemSize, m, position)
              else Contents() == old(Contents())
      ensures messagesWaiting ==
                if !sent || (position == Overwrite && itemSize > 0 && old(messagesWaiting) > 0)
                then old(messagesWaiting) else old(messagesWaiting) + 1
    {
      hide Placed;
      sent := messagesWaiting < length || position == Overwrite;
      if sent {
        CopyDataToQueue(m, position);
      }
    }

    /** The critical section of a receive */
    method Take() returns (received: bool, m: Message)
      requires Valid()
      modifies this
      ensures Valid() && received == (old(Contents()).items != [])
      ensures received ==> m == old(Contents()).items[0]
      ensures Contents() == Receive(old(Contents()))
    {
      hide Messages;
      received, m := messagesWaiting > 0, [];
      if received {
        if itemSize > 0 {
          DropsFirst(buffer[..], readSlot, messagesWaiting, length, itemSize);
        } else {
          DropsEmpty(messagesWaiting);
        }
        m := CopyDataFromQueue();
        messagesWaiting := messagesWaiting - 1;
      }
    }

    /** The critical section of a peek: the read position is put back. */
    method Peek() returns (received: bool, m: Message)
      requires Valid()
      modifies this`readFrom, this`readSlot
      ensures Valid() && received == (Contents().items != [])
      ensures received ==> m == Contents().items[0]
      ensures readFrom == old(readFrom) && Contents() == old(Contents())
    {
      received, m := messagesWaiting > 0, [];
      if received {
        var original := readFrom;
        ghost var slot := readSlot;
        m := CopyDataFromQueue();
        readFrom := original;
        readSlot := slot;
      }
    }
  }
}
