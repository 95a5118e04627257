/** Lists ordered by 32-bit wake times, two of which cover this turn of the tick and the next: the
    timer service and the co-routine scheduler both keep their items on such lists. */
module TimedLists {
  import opened RingList
  import opened Ticks

  /** An item on a list of wake times: whose it is, its value, and the unbounded time it stands for. */
  datatype Entry = Entry(owner: nat, value: nat, due: nat)

  function ValuesOf(entries: seq<Entry>): (v: seq<nat>)
    ensures |v| == |entries|
    ensures forall i :: 0 <= i < |v| ==> v[i] == entries[i].value
  {
    seq(|entries|, i requires 0 <= i < |entries| => entries[i].value)
  }

  /** vListInsert */
  function Inserted(entries: seq<Entry>, e: Entry): seq<Entry> {
    var k := InsertPosition(ValuesOf(entries), e.value);
    entries[..k] + [e] + entries[k..]
  }

  function Without(entries: seq<Entry>, t: nat): seq<Entry> {
    if entries == [] then []
    else if entries[0].owner == t then Without(entries[1..], t)
    else [entries[0]] + Without(entries[1..], t)
  }

  // ---- Lists of one turn of the tick ----

  ghost predicate EntryOk(e: Entry, epoch: nat) {
    e.value == Wrap(e.due) && Epoch(e.due) == epoch
  }

  /** Sorted, and every entry falls in the given turn of the tick. */
  ghost predicate ListOk(entries: seq<Entry>, epoch: nat) {
    Sorted(ValuesOf(entries)) && forall e <- entries :: EntryOk(e, epoch)
  }

  lemma InsertedOk(entries: seq<Entry>, e: Entry, epoch: nat)
    requires ListOk(entries, epoch) && EntryOk(e, epoch)
    ensures ListOk(Inserted(entries, e), epoch)
  {
    hide EntryOk;
    var v := ValuesOf(entries);
    var k := InsertPosition(v, e.value);
    SortedInsert(v, e.value);
    assert ValuesOf(Inserted(entries, e)) == v[..k] + [e.value] + v[k..];
    forall f | f in Inserted(entries, e)
      ensures EntryOk(f, epoch)
    {
      assert f == e || f in entries;
    }
  }

  lemma IsInserted(entries: seq<Entry>, e: Entry)
    ensures e in Inserted(entries, e)
  {
    assert Inserted(entries, e)[InsertPosition(ValuesOf(entries), e.value)] == e;
  }

  lemma TailOk(entries: seq<Entry>, epoch: nat)
    requires ListOk(entries, epoch) && entries != []
    ensures ListOk(entries[1..], epoch) && EntryOk(entries[0], epoch)
    ensures forall e <- entries :: entries[0].value <= e.value
  {
    var v := ValuesOf(entries);
    assert ValuesOf(entries[1..]) == v[1..];
    forall e | e in entries
      ensures entries[0].value <= e.value
    {
      var i := IndexOf(entries, e);
      assert v[0] <= v[i];
    }
  }

  lemma PrependOk(e: Entry, rest: seq<Entry>, epoch: nat)
    requires ListOk(rest, epoch) && EntryOk(e, epoch) && forall f <- rest :: e.value <= f.value
    ensures ListOk([e] + rest, epoch)
  {
    hide EntryOk;
    var v, w := ValuesOf([e] + rest), ValuesOf(rest);
    forall i, j | 0 <= i < j < |v|
      ensures v[i] <= v[j]
    {
      if i == 0 { assert rest[j - 1] in rest; } else { assert w[i - 1] <= w[j - 1]; }
    }
  }

  lemma {:induction false} WithoutOk(entries: seq<Entry>, t: nat, epoch: nat)
    requires ListOk(entries, epoch)
    ensures ListOk(Without(entries, t), epoch)
    ensures forall e :: e in Without(entries, t) <==> e in entries && e.owner != t
  {
    hide EntryOk, ListOk;
    if entries != [] {
      TailOk(entries, epoch);
      WithoutOk(entries[1..], t, epoch);
      if entries[0].owner != t {
        PrependOk(entries[0], Without(entries[1..], t), epoch);
      }
    }
  }

  lemma NothingListed(epoch: nat)
    ensures ListOk([], epoch)
  {
  }

  // ---- What concerns one owner ----

  function Of(entries: seq<Entry>, t: nat): seq<Entry> {
    if entries == [] then []
    else if entries[0].owner == t then [entries[0]] + Of(entries[1..], t)
    else Of(entries[1..], t)
  }

  lemma {:induction false} OfConcat(a: seq<Entry>, b: seq<Entry>, t: nat)
    ensures Of(a + b, t) == Of(a, t) + Of(b, t)
  {
    if a == [] {
      assert a + b == b;
    } else {
      assert (a + b)[1..] == a[1..] + b;
      OfConcat(a[1..], b, t);
    }
  }

  lemma OneEntry(e: Entry, t: nat)
    ensures Of([e], t) == if e.owner == t then [e] else []
  {
    assert [e][1..] == [];
  }

  lemma OfInserted(entries: seq<Entry>, e: Entry, t: nat)
    ensures e.owner != t ==> Of(Inserted(entries, e), t) == Of(entries, t)
    ensures e.owner == t && Of(entries, t) == [] ==> Of(Inserted(entries, e), t) == [e]
  {
    hide Of;
    var k := InsertPosition(ValuesOf(entries), e.value);
    OfConcat(entries[..k] + [e], entries[k..], t);
    OfConcat(entries[..k], [e], t);
    OfConcat(entries[..k], entries[k..], t);
    OneEntry(e, t);
    assert entries == entries[..k] + entries[k..];
  }

  lemma {:induction false} OfWithout(entries: seq<Entry>, u: nat, t: nat)
    ensures Of(Without(entries, u), t) == if t == u then [] else Of(entries, t)
  {
    if entries != [] {
      OfWithout(entries[1..], u, t);
      if entries[0].owner != u {
        OfConcat([entries[0]], Without(entries[1..], u), t);
        OneEntry(entries[0], t);
      }
    }
  }

  lemma {:induction false} OfIsIn(entries: seq<Entry>, t: nat, e: Entry)
    requires e in Of(entries, t)
    ensures e in entries
  {
    if entries[0] != e {
      OfIsIn(entries[1..], t, e);
    }
  }

  lemma OnlyOne<T>(first: T, rest: seq<T>, more: seq<T>, one: T)
    requires [first] + rest + more == [one]
    ensures first == one && rest == [] && more == []
  {
    assert |[first] + rest + more| == 1 + |rest| + |more|;
    assert ([first] + rest + more)[0] == first;
  }

  // ---- Times ----

  lemma SmallWrap(d: nat)
    requires d < TICKS
    ensures Wrap(d) == d
  {
  }

  /** The wrapped sum of a time in one turn and a period: still in that turn exactly if it is larger. */
  lemma ReloadStays(due: nat, period: nat)
    requires 0 < period < TICKS
    ensures Wrap(Wrap(due) + period) == Wrap(due + period)
    ensures if Wrap(due + period) > Wrap(due) then Epoch(due + period) == Epoch(due)
            else Epoch(due + period) == Epoch(due) + 1
  {
    WrapSum(due, period);
    WrapDifference(due, due + period);
    SmallWrap(period);
    hide Wrap, Epoch;
  }

  lemma EarlierTurn(due: nat, now: nat)
    requires Epoch(due) < Epoch(now)
    ensures due < now
  {
    EpochAndTick(due);
    EpochAndTick(now);
  }

  lemma WrapsDown(due: nat, period: nat)
    ensures Wrap(Wrap(due) + period) == Wrap(due + period)
  {
    WrapSum(due, period);
  }

  lemma ReachedInTurn(due: nat, now: nat)
    requires Epoch(due) == Epoch(now)
    ensures due <= now <==> Wrap(due) <= Wrap(now)
    ensures now < due + TICKS
  {
    EpochAndTick(due);
    EpochAndTick(now);
  }

  lemma LaterTurn(a: nat, b: nat)
    requires Epoch(b) == Epoch(a) + 1
    ensures a < b
  {
    EpochAndTick(a);
    EpochAndTick(b);
  }
}
