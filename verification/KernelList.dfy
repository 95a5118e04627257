/** The intrusive circular doubly linked lists of list.c.  Each operation rewrites the links in
    place and is proved to do what the function of the same name does in RingList. */
module KernelList {
  import opened RingList
  import opened Ticks

  class ListItem {
    var itemValue: nat
    var next: ListItem?
    var previous: ListItem?
    var owner: nat
    var container: List?

    constructor (value: nat, owner: nat)
      ensures itemValue == value && this.owner == owner && container == null
    {
      itemValue, this.owner := value, owner;
      next, previous, container := null, null, null;
    }
  }

  // ---- Circles ----

  function After(i: nat, n: nat): nat {
    if i + 1 == n then 0 else i + 1
  }

  function Before(i: nat, n: nat): nat {
    if i == 0 then if n == 0 then 0 else n - 1 else i - 1
  }

  /** The nodes form one circle, in this order, in both directions. */
  ghost predicate Circle(nodes: seq<ListItem>)
    reads nodes`next, nodes`previous
  {
    && (forall i {:trigger nodes[i].next} :: 0 <= i < |nodes| ==> nodes[i].next == nodes[After(i, |nodes|)])
    && (forall i {:trigger nodes[i].previous} :: 0 <= i < |nodes| ==> nodes[i].previous == nodes[Before(i, |nodes|)])
  }

  function PutBehind<T>(nodes: seq<T>, k: nat, item: T): (nodes': seq<T>)
    requires k < |nodes|
    ensures |nodes'| == |nodes| + 1
  {
    nodes[..k + 1] + [item] + nodes[k + 1..]
  }

  function TakeOut<T>(nodes: seq<T>, k: nat): (nodes': seq<T>)
    requires k < |nodes|
    ensures |nodes'| == |nodes| - 1
  {
    nodes[..k] + nodes[k + 1..]
  }

  /** Pointing node `k` at `item`, and `item` at the node after, keeps every successor right. */
  lemma SuccessorsAfterPut(nodes: seq<ListItem>, k: nat, item: ListItem)
    requires k < |nodes|
    requires forall i :: 0 <= i < |nodes| && i != k ==> nodes[i].next == nodes[After(i, |nodes|)]
    requires nodes[k].next == item && item.next == nodes[After(k, |nodes|)]
    ensures var now := PutBehind(nodes, k, item);
            forall i {:trigger now[i].next} :: 0 <= i < |now| ==> now[i].next == now[After(i, |now|)]
  {
    var now := PutBehind(nodes, k, item);
    forall i | 0 <= i < |now|
      ensures now[i].next == now[After(i, |now|)]
    {
      if i <= k { assert now[i] == nodes[i]; } else if i > k + 1 { assert now[i] == nodes[i - 1]; }
    }
  }

  lemma PredecessorsAfterPut(nodes: seq<ListItem>, k: nat, item: ListItem)
    requires k < |nodes|
    requires forall i :: 0 <= i < |nodes| && i != After(k, |nodes|) ==> nodes[i].previous == nodes[Before(i, |nodes|)]
    requires nodes[After(k, |nodes|)].previous == item && item.previous == nodes[k]
    ensures var now := PutBehind(nodes, k, item);
            forall i {:trigger now[i].previous} :: 0 <= i < |now| ==> now[i].previous == now[Before(i, |now|)]
  {
    var now := PutBehind(nodes, k, item);
    forall i | 0 <= i < |now|
      ensures now[i].previous == now[Before(i, |now|)]
    {
      if i <= k { assert now[i] == nodes[i]; } else if i > k + 1 { assert now[i] == nodes[i - 1]; }
    }
  }

  lemma OnlyAt(nodes: seq<ListItem>, k: nat)
    requires NoDup(nodes) && 0 < k < |nodes|
    ensures forall i :: 0 <= i < |nodes| && i != k ==> nodes[i] != nodes[k]
    ensures nodes[k] !in TakeOut(nodes, k)
  {
  }

  lemma CircleAfterTakeOut(nodes: seq<ListItem>, k: nat)
    requires 0 < k < |nodes|
    requires forall i :: 0 <= i < |nodes| && i != k && i != k - 1 ==> nodes[i].next == nodes[After(i, |nodes|)]
    requires forall i :: 0 <= i < |nodes| && i != k && i != After(k, |nodes|)
               ==> nodes[i].previous == nodes[Before(i, |nodes|)]
    requires nodes[k - 1].next == nodes[After(k, |nodes|)] && nodes[After(k, |nodes|)].previous == nodes[k - 1]
    ensures Circle(TakeOut(nodes, k))
  {
    var now := TakeOut(nodes, k);
    forall i | 0 <= i < |now|
      ensures now[i].next == now[After(i, |now|)]
    {
      assert now[i] == nodes[if i < k then i else i + 1];
    }
    forall i | 0 <= i < |now|
      ensures now[i].previous == now[Before(i, |now|)]
    {
      assert now[i] == nodes[if i < k then i else i + 1];
    }
  }

  /** Every item behind the end marker says it is on `list`. */
  ghost predicate AllOn(nodes: seq<ListItem>, list: List)
    reads nodes
  {
    forall i {:trigger nodes[i]} :: 1 <= i < |nodes| ==> nodes[i].container == list && nodes[i].itemValue <= MAX_DELAY
  }

  lemma PutKeepsItems(nodes: seq<ListItem>, k: nat, item: ListItem, list: List)
    requires k < |nodes| && NoDup(nodes) && item !in nodes
    requires AllOn(nodes, list) && item.container == list && item.itemValue <= MAX_DELAY
    ensures NoDup(PutBehind(nodes, k, item)) && AllOn(PutBehind(nodes, k, item), list)
    ensures PutBehind(nodes, k, item)[1..] == InsertAt(Ring(nodes[1..], 0), k, item).items
  {
    assert nodes[1..][..k] == nodes[1..k + 1];
    assert nodes[1..][k..] == nodes[k + 1..];
    InsertAtMembers(Ring(nodes, 0), k + 1, item);
    var now := PutBehind(nodes, k, item);
    forall i | 1 <= i < |now|
      ensures now[i].container == list && now[i].itemValue <= MAX_DELAY
    {
      if i <= k { assert now[i] == nodes[i]; } else if i > k + 1 { assert now[i] == nodes[i - 1]; }
    }
  }

  lemma TakeKeepsItems(nodes: seq<ListItem>, k: nat, list: List)
    requires 0 < k < |nodes| && NoDup(nodes)
    requires forall i {:trigger nodes[i]} :: 1 <= i < |nodes| && i != k ==>
               nodes[i].container == list && nodes[i].itemValue <= MAX_DELAY
    ensures NoDup(TakeOut(nodes, k)) && AllOn(TakeOut(nodes, k), list)
    ensures TakeOut(nodes, k)[1..] == RemoveAt(Ring(nodes[1..], 0), k - 1).items
  {
    assert nodes[1..][..k - 1] == nodes[1..k];
    assert nodes[1..][k..] == nodes[k + 1..];
    RemoveAtMembers(Ring(nodes, 0), k);
    var now := TakeOut(nodes, k);
    forall i | 1 <= i < |now|
      ensures now[i].container == list && now[i].itemValue <= MAX_DELAY
    {
      assert now[i] == nodes[if i < k then i else i + 1];
    }
  }

  class List {
    var numberOfItems: nat
    var index: ListItem
    const end: ListItem
    ghost var nodes: seq<ListItem>       // the end marker, then the items
    ghost var indexPosition: nat

    ghost predicate Valid()
      reads this, nodes
    {
      && nodes != [] && nodes[0] == end
      && NoDup(nodes)
      && Circle(nodes)
      && numberOfItems == |nodes| - 1
      && indexPosition < |nodes| && index == nodes[indexPosition]
      && end.itemValue == MAX_DELAY && end.container == null
      && AllOn(nodes, this)
    }

    /** The abstract ring this list stands for. */
    ghost function Contents(): Ring<ListItem>
      reads this
      requires nodes != []
    {
      Ring(nodes[1..], indexPosition)
    }

    ghost function Values(): (v: seq<nat>)
      reads this, nodes
      requires nodes != []
      ensures |v| == |nodes| - 1
      ensures forall i :: 0 <= i < |v| ==> v[i] == nodes[i + 1].itemValue
    {
      seq(|nodes| - 1, i requires 0 <= i < |nodes| - 1 reads this, nodes => nodes[i + 1].itemValue)
    }

    constructor ()
      ensures Valid() && fresh(this) && fresh(end) && Contents() == Empty()
    {
      end := new ListItem(MAX_DELAY, 0);
      index := end;
      numberOfItems := 0;
      nodes, indexPosition := [end], 0;
      new;
      end.next, end.previous := end, end;
    }

    ghost predicate CanTake(item: ListItem)
      reads this, item
    {
      item.container == null && item != end && item.itemValue <= MAX_DELAY
    }

    /** The ghost half of an insertion, once the links, the container and the count are in place. */
    ghost method Enlist(item: ListItem, k: nat)
      requires k < |nodes| && NoDup(nodes) && item !in nodes
      requires nodes[0] == end && end.itemValue == MAX_DELAY && end.container == null
      requires indexPosition < |nodes| && index == nodes[indexPosition]
      requires AllOn(nodes, this) && item.container == this && item.itemValue <= MAX_DELAY
      requires Circle(PutBehind(nodes, k, item))
      requires numberOfItems == |nodes|
      modifies this`nodes, this`indexPosition
      ensures Valid()
      ensures Contents() == InsertAt(old(Contents()), k, item)
    {
      hide AllOn;
      PutKeepsItems(nodes, k, item, this);
      nodes := PutBehind(nodes, k, item);
      indexPosition := if indexPosition > k then indexPosition + 1 else indexPosition;
    }

    ghost function PlaceOf(item: ListItem): (k: nat)
      requires Valid() && item in nodes && item != end
      reads this, nodes
      ensures 0 < k < |nodes| && nodes[k] == item
      ensures k == IndexOf(nodes[1..], item) + 1
    {
      assert item in nodes[1..];
      IndexOf(nodes[1..], item) + 1
    }

    /** The ghost half of a removal, once the links, the container, the index and the count are in place. */
    ghost method Delist(item: ListItem, k: nat)
      requires 0 < k < |nodes| && NoDup(nodes) && nodes[k] == item
      requires nodes[0] == end && end.itemValue == MAX_DELAY && end.container == null
      requires indexPosition < |nodes| && index == nodes[if indexPosition == k then k - 1 else indexPosition]
      requires forall i {:trigger nodes[i]} :: 1 <= i < |nodes| && i != k ==>
                 nodes[i].container == this && nodes[i].itemValue <= MAX_DELAY
      requires Circle(TakeOut(nodes, k))
      requires numberOfItems == |nodes| - 2
      modifies this`nodes, this`indexPosition
      ensures Valid()
      ensures Contents() == RemoveAt(old(Contents()), k - 1)
    {
      hide AllOn;
      TakeKeepsItems(nodes, k, this);
      nodes := TakeOut(nodes, k);
      indexPosition := if indexPosition >= k then indexPosition - 1 else indexPosition;
    }

    method Unlink(item: ListItem, ghost k: nat)
      requires 0 < k < |nodes| && NoDup(nodes) && Circle(nodes) && nodes[k] == item
      modifies nodes`next, nodes`previous
      ensures Circle(TakeOut(nodes, k))
      ensures item.previous == nodes[k - 1]
    {
      item.next.previous := item.previous;
      item.previous.next := item.next;
      CircleAfterTakeOut(nodes, k);
    }

    method Release(item: ListItem) returns (remaining: nat)
      requires Valid() && item in nodes && item.container == this
      modifies this, item`container, nodes`next, nodes`previous
      ensures Valid() && Contents() == Remove(old(Contents()), item)
      ensures item.container == null
      ensures remaining == |Contents().items|
    {
      hide Circle, NoDup, TakeOut;
      ghost var k := PlaceOf(item);
      OnlyAt(nodes, k);
      Unlink(item, k);
      if index == item {
        index := item.previous;
      }
      item.container := null;
      numberOfItems := numberOfItems - 1;
      remaining := numberOfItems;
      Delist(item, k);
    }

    method InsertEnd(item: ListItem)
      requires Valid() && CanTake(item)
      modifies this`numberOfItems, this`nodes, this`indexPosition
      modifies item`next, item`previous, item`container, nodes`next, nodes`previous
      ensures Valid()
      ensures Contents() == RingList.InsertEnd(old(Contents()), item)
      ensures index == old(index)
    {
      hide Circle;
      ghost var k := EndPosition(Contents());
      LinkBefore(index, item, k);
      numberOfItems := numberOfItems + 1;
      Enlist(item, k);
    }

    method LinkBefore(at: ListItem, item: ListItem, ghost k: nat)
      requires k < |nodes| && NoDup(nodes) && Circle(nodes) && item !in nodes
      requires at == nodes[After(k, |nodes|)]
      modifies item`next, item`previous, item`container, nodes`next, nodes`previous
      ensures Circle(PutBehind(nodes, k, item)) && item.container == this
    {
      assert at.previous == nodes[k];
      item.next := at;
      item.previous := at.previous;
      at.previous.next := item;
      at.previous := item;
      item.container := this;
      SuccessorsAfterPut(nodes, k, item);
      PredecessorsAfterPut(nodes, k, item);
    }

    method LinkAfter(at: ListItem, item: ListItem, ghost k: nat)
      requires k < |nodes| && NoDup(nodes) && Circle(nodes) && item !in nodes
      requires at == nodes[k]
      modifies item`next, item`previous, item`container, nodes`next, nodes`previous
      ensures Circle(PutBehind(nodes, k, item)) && item.container == this
    {
      item.next := at.next;
      item.next.previous := item;
      item.previous := at;
      at.next := item;
      item.container := this;
      SuccessorsAfterPut(nodes, k, item);
      PredecessorsAfterPut(nodes, k, item);
    }

    /** The search of vListInsert: the node behind which a new item of this value belongs. */
    method FindPlace(value: nat) returns (at: ListItem, ghost k: nat)
      requires Valid() && value <= MAX_DELAY
      ensures k < |nodes| && at == nodes[k] && k == InsertPosition(Values(), value)
    {
      if value == MAX_DELAY {
        at := end.previous;
        k := |nodes| - 1;
      } else {
        at := end;
        k := 0;
        while at.next.itemValue <= value
          invariant 0 <= k < |nodes| && at == nodes[k]
          invariant forall i :: 1 <= i <= k ==> nodes[i].itemValue <= value
          decreases |nodes| - k
        {
          at := at.next;
          k := k + 1;
        }
      }
      PositionIs(Values(), value, k);
    }

    method Insert(item: ListItem)
      requires Valid() && CanTake(item)
      modifies this`numberOfItems, this`nodes, this`indexPosition
      modifies item`next, item`previous, item`container, nodes`next, nodes`previous
      ensures Valid()
      ensures Contents() == InsertAt(old(Contents()), InsertPosition(old(Values()), item.itemValue), item)
    {
      hide Circle, InsertPosition;
      var at, k := FindPlace(item.itemValue);
      LinkAfter(at, item, k);
      numberOfItems := numberOfItems + 1;
      Enlist(item, k);
    }

    /** listGET_OWNER_OF_NEXT_ENTRY: moves the index on, stepping over the end marker. */
    method GetOwnerOfNextEntry() returns (owner: nat)
      requires Valid() && numberOfItems > 0
      modifies this`index, this`indexPosition
      ensures Valid()
      ensures Contents() == Advance(old(Contents()))
      ensures index == Current(Contents()) && owner == index.owner
    {
      index := index.next;
      indexPosition := After(indexPosition, |nodes|);
      if index == end {
        index := index.next;
        indexPosition := 1;
      }
      owner := index.owner;
    }
  }

  ghost function Owners(items: seq<ListItem>): (owners: seq<nat>)
    reads items
    ensures |owners| == |items|
    ensures forall i :: 0 <= i < |items| ==> owners[i] == items[i].owner
  {
    seq(|items|, i requires 0 <= i < |items| reads items => items[i].owner)
  }

  ghost predicate Collected(list: List, start: Ring<ListItem>, owners: seq<nat>)
    requires 0 < start.index <= |start.items|
    reads list, list.nodes, Walk(start, |owners|)
  {
    && list.Valid() && list.numberOfItems > 0
    && start.items == list.nodes[1..]
    && list.Contents() == AdvanceBy(start, |owners|)
    && owners == Owners(Walk(start, |owners|))
  }

  method CollectNext(list: List, ghost start: Ring<ListItem>, owners: seq<nat>) returns (next: nat, more: seq<nat>)
    requires 0 < start.index <= |start.items|
    requires Collected(list, start, owners) && |owners| < list.numberOfItems
    modifies list`index, list`indexPosition
    ensures Collected(list, start, more) && |more| == |owners| + 1
    ensures 0 < list.indexPosition && next == list.nodes[list.indexPosition].owner
    ensures list.indexPosition == start.index <==> |more| == list.numberOfItems
  {
    hide Walk, AdvanceBy, NoDup, Circle;
    ghost var seen := Walk(start, |owners|);
    assert forall i :: 0 <= i < |owners| ==> owners[i] == seen[i].owner;
    WalkStaysInside(start, |owners|);
    WalkOneMore(start, |owners|);
    BackAfterAll(start, |owners| + 1);
    next := list.GetOwnerOfNextEntry();
    more := owners + [next];
    assert forall i :: 0 <= i < |owners| ==> owners[i] == seen[i].owner;
  }

  /** prvListTaskWithinSingleList: walks the list until it is back at the owner it started with.
      It returns the owner of each item once, and leaves the index one item further on. */
  method CollectOwners(list: List) returns (owners: seq<nat>)
    requires list.Valid() && list.numberOfItems > 0
    requires forall i, j :: 1 <= i < j < |list.nodes| ==> list.nodes[i].owner != list.nodes[j].owner
    modifies list`index, list`indexPosition
    ensures list.Valid()
    ensures list.Contents() == Advance(old(list.Contents()))
    ensures owners == Owners(Walk(Advance(old(list.Contents())), old(list.numberOfItems)))
  {
    var first := list.GetOwnerOfNextEntry();
    ghost var start, n := list.Contents(), list.numberOfItems;
    assert first == list.nodes[start.index].owner;
    var next;
    next, owners := CollectNext(list, start, []);
    while next != first
      invariant list.numberOfItems == n && list.nodes == old(list.nodes)
      invariant Collected(list, start, owners) && 1 <= |owners| <= n
      invariant 0 < list.indexPosition && next == list.nodes[list.indexPosition].owner
      invariant list.indexPosition == start.index <==> |owners| == n
      decreases n - |owners|
    {
      next, owners := CollectNext(list, start, owners);
    }
    AdvanceAll(start);
  }

  lemma PositionIs(values: seq<nat>, v: nat, k: nat)
    requires k <= |values|
    requires forall i :: 0 <= i < k ==> values[i] <= v
    requires k < |values| ==> values[k] > v
    ensures k == InsertPosition(values, v)
  {
  }

  /** uxListRemove: the item finds the list it is on through its container. */
  method ListRemove(item: ListItem) returns (remaining: nat)
    requires item.container != null && item.container.Valid() && item in item.container.nodes
    modifies item.container, item`container, item.container.nodes`next, item.container.nodes`previous
    ensures var list := old(item.container);
            list.Valid() && list.Contents() == Remove(old(list.Contents()), item)
            && remaining == |list.Contents().items|
    ensures item.container == null
  {
    remaining := item.container.Release(item);
  }
}
