/** All list items of the kernel, and which list each of them is on.  Every task owns two items:
    the generic one, which places it on a state list, and the event one. */
module ItemStore {
  import opened RingList

  type Task = nat

  datatype Item = Generic(task: Task) | Event(task: Task)

  datatype ListId =
    | Ready(priority: nat)
    | Delayed(first: bool)          // xDelayedTaskList1 and xDelayedTaskList2
    | Suspended
    | Termination
    | PendingReady
    | EventList(id: nat)            // the waiting lists of queues and event groups

  /** pvContainer */
  datatype Place = Nowhere | On(list: ListId)

  datatype Store = Store(lists: map<ListId, GoodRing<Item>>, places: map<Item, Place>, values: map<Item, nat>)

  predicate IsStateList(l: ListId) {
    !l.PendingReady? && !l.EventList?
  }

  function At(st: Store, l: ListId): GoodRing<Item> {
    if l in st.lists then st.lists[l] else Empty()
  }

  function PlaceOf(st: Store, i: Item): Place {
    if i in st.places then st.places[i] else Nowhere
  }

  /** xItemValue */
  function Value(st: Store, i: Item): nat {
    if i in st.values then st.values[i] else 0
  }

  function Values(st: Store, items: seq<Item>): (v: seq<nat>)
    ensures |v| == |items|
    ensures forall k :: 0 <= k < |items| ==> v[k] == Value(st, items[k])
  {
    seq(|items|, k requires 0 <= k < |items| => Value(st, items[k]))
  }

  predicate Member(st: Store, i: Item, l: ListId) {
    i in At(st, l).items
  }

  /** An item is on a list exactly when its container says so, at most once, and the two kinds
      of item keep to their kinds of list. */
  ghost predicate Consistent(st: Store) {
    && (forall l :: Valid(At(st, l)))
    && (forall l, i {:trigger Member(st, i, l)} :: Member(st, i, l) <==> PlaceOf(st, i) == On(l))
    && (forall i :: PlaceOf(st, i).On? ==> (i.Generic? <==> IsStateList(PlaceOf(st, i).list)))
  }

  function SetValue(st: Store, i: Item, v: nat): Store {
    st.(values := st.values[i := v])
  }

  /** uxListRemove.  In a consistent store the item of a container is on that container's list. */
  function Detach(st: Store, i: Item): Store {
    var place := PlaceOf(st, i);
    if place.On? && i in At(st, place.list).items then
      Store(st.lists[place.list := Remove(At(st, place.list), i)], st.places[i := Nowhere], st.values)
    else
      st
  }

  function AttachAt(st: Store, i: Item, l: ListId, k: nat): Store
    requires k <= |At(st, l).items|
  {
    Store(st.lists[l := InsertAt(At(st, l), k, i)], st.places[i := On(l)], st.values)
  }

  /** vListInsertEnd */
  function AttachEnd(st: Store, i: Item, l: ListId): Store {
    AttachAt(st, i, l, EndPosition(At(st, l)))
  }

  function SortedPosition(st: Store, i: Item, l: ListId): (k: nat)
    ensures k <= |At(st, l).items|
  {
    InsertPosition(Values(st, At(st, l).items), Value(st, i))
  }

  /** vListInsert */
  function AttachSorted(st: Store, i: Item, l: ListId): Store {
    AttachAt(st, i, l, SortedPosition(st, i, l))
  }

  function MoveIndex(st: Store, l: ListId): Store
    requires 0 < |At(st, l).items|
  {
    st.(lists := st.lists[l := Advance(At(st, l))])
  }

  lemma DetachKeeps(st: Store, i: Item)
    requires Consistent(st) && PlaceOf(st, i).On?
    ensures Member(st, i, PlaceOf(st, i).list)
    ensures Consistent(Detach(st, i))
    ensures forall j :: PlaceOf(Detach(st, i), j) == if j == i then Nowhere else PlaceOf(st, j)
    ensures forall m :: At(Detach(st, i), m) == if m == PlaceOf(st, i).list then Remove(At(st, m), i) else At(st, m)
  {
    var l := PlaceOf(st, i).list;
    assert Member(st, i, l);
    var r := At(st, l);
    RemoveAtMembers(r, IndexOf(r.items, i));
    var st' := Detach(st, i);
    forall m
      ensures Valid(At(st', m))
    {
      assert Valid(At(st, m));
    }
    forall m, j
      ensures Member(st', j, m) <==> PlaceOf(st', j) == On(m)
    {
      assert Member(st, j, m) <==> PlaceOf(st, j) == On(m);
    }
  }

  lemma AttachKeeps(st: Store, i: Item, l: ListId, k: nat)
    requires Consistent(st) && PlaceOf(st, i) == Nowhere
    requires k <= |At(st, l).items|
    requires i.Generic? <==> IsStateList(l)
    ensures Consistent(AttachAt(st, i, l, k))
    ensures forall j :: PlaceOf(AttachAt(st, i, l, k), j) == if j == i then On(l) else PlaceOf(st, j)
    ensures forall m :: At(AttachAt(st, i, l, k), m) == if m == l then InsertAt(At(st, m), k, i) else At(st, m)
  {
    assert !Member(st, i, l);
    InsertAtMembers(At(st, l), k, i);
    var st' := AttachAt(st, i, l, k);
    forall m
      ensures Valid(At(st', m))
    {
      assert Valid(At(st, m));
    }
    forall m, j
      ensures Member(st', j, m) <==> PlaceOf(st', j) == On(m)
    {
      assert Member(st, j, m) <==> PlaceOf(st, j) == On(m);
    }
  }

  // ---- Sorted lists ----

  ghost predicate SortedList(st: Store, l: ListId) {
    Sorted(Values(st, At(st, l).items))
  }

  lemma DetachKeepsSorted(st: Store, i: Item, l: ListId)
    requires SortedList(st, l)
    ensures SortedList(Detach(st, i), l)
  {
    hide Sorted;
    var place, v := PlaceOf(st, i), Values(st, At(st, l).items);
    if place == On(l) && i in At(st, l).items {
      SortedWithout(v, IndexOf(At(st, l).items, i));
      RemovedValues(st, i, l);
    } else {
      assert At(Detach(st, i), l) == At(st, l);
      assert Values(Detach(st, i), At(st, l).items) == v;
    }
  }

  lemma RemovedValues(st: Store, i: Item, l: ListId)
    requires PlaceOf(st, i) == On(l) && i in At(st, l).items
    ensures var st', v, k := Detach(st, i), Values(st, At(st, l).items), IndexOf(At(st, l).items, i);
            Values(st', At(st', l).items) == v[..k] + v[k + 1..]
  {
    hide IndexOf;
    var st', items, k := Detach(st, i), At(st, l).items, IndexOf(At(st, l).items, i);
    assert At(st', l).items == items[..k] + items[k + 1..];
  }

  lemma AttachSortedKeepsSorted(st: Store, i: Item, l: ListId, m: ListId)
    requires SortedList(st, l)
    ensures SortedList(AttachSorted(st, i, m), l)
  {
    hide Sorted, InsertPosition;
    if l == m {
      var items := At(st, l).items;
      var v := Values(st, items);
      SortedInsert(v, Value(st, i));
      InsertedValues(st, i, l);
    } else {
      assert Values(AttachSorted(st, i, m), At(st, l).items) == Values(st, At(st, l).items);
    }
  }

  lemma InsertedValues(st: Store, i: Item, l: ListId)
    ensures var st', v, k := AttachSorted(st, i, l), Values(st, At(st, l).items), SortedPosition(st, i, l);
            Values(st', At(st', l).items) == v[..k] + [Value(st, i)] + v[k..]
  {
    hide InsertPosition;
    var st', items, k := AttachSorted(st, i, l), At(st, l).items, SortedPosition(st, i, l);
    assert At(st', l).items == items[..k] + [i] + items[k..];
  }

  lemma AttachEndKeepsSorted(st: Store, i: Item, l: ListId, m: ListId)
    requires SortedList(st, m) && l != m
    ensures SortedList(AttachEnd(st, i, l), m)
  {
    assert Values(AttachEnd(st, i, l), At(st, m).items) == Values(st, At(st, m).items);
  }

  lemma SetValueKeeps(st: Store, i: Item, v: nat)
    requires Consistent(st)
    ensures Consistent(SetValue(st, i, v))
  {
    var st' := SetValue(st, i, v);
    forall l
      ensures Valid(At(st', l))
    {
      assert At(st', l) == At(st, l) && Valid(At(st, l));
    }
    forall l, j
      ensures Member(st', j, l) <==> PlaceOf(st', j) == On(l)
    {
      assert Member(st, j, l) <==> PlaceOf(st, j) == On(l);
    }
  }

  lemma SetValueKeepsSorted(st: Store, i: Item, v: nat, l: ListId)
    requires Consistent(st) && PlaceOf(st, i) != On(l)
    requires SortedList(st, l)
    ensures SortedList(SetValue(st, i, v), l)
  {
    var items := At(st, l).items;
    assert !Member(st, i, l);
    assert Values(SetValue(st, i, v), items) == Values(st, items);
  }
}
