/** event_groups.c as it runs: the bits, and the list of waiting tasks' event items, which
    xEventGroupSetBits walks while it takes items off it. */
module KernelEventGroup {
  import opened RingList
  import opened Words
  import opened EventGroups
  import KernelList

  type Item = KernelList.ListItem

  /** The tasks of the items. */
  ghost function Tasks(items: seq<Item>): seq<Task>
    reads items
  {
    KernelList.Owners(items)
  }

  class EventGroup {
    var bits: Word                           // uxEventBits
    const waiting: KernelList.List           // xTasksWaitingForBits
    var values: map<Task, Word>              // the values of the tasks' event items
    var woken: seq<Task>

    ghost predicate Valid()
      reads this, waiting, waiting.nodes
    {
      waiting.Valid() && waiting.indexPosition == 0 && NoDup(Snapshot().waiting)
    }

    ghost function Snapshot(): Group
      reads this, waiting, waiting.nodes
    {
      Group(bits, if waiting.nodes == [] then [] else Tasks(waiting.nodes[1..]), values, woken)
    }

    /** xEventGroupCreate */
    constructor ()
      ensures Valid() && fresh(waiting) && fresh(waiting.end) && waiting.nodes == [waiting.end]
      ensures Snapshot() == Group({}, [], map[], [])
    {
      bits, values, woken := {}, map[], [];
      waiting := new KernelList.List();
    }

    /** xTaskRemoveFromUnorderedEventList: the value is handed over, and the task made ready. */
    method Unblock(item: Item, value: Word)
      requires waiting.Valid() && item in waiting.nodes && item.container == waiting
      modifies this`values, this`woken, waiting, item`container, waiting.nodes`next, waiting.nodes`previous
      ensures waiting.Valid() && waiting.Contents() == Remove(old(waiting.Contents()), item)
      ensures values == old(values)[item.owner := value + {IN_USE}] && woken == old(woken) + [item.owner]
    {
      values := values[item.owner := value + {IN_USE}];
      var _ := waiting.Release(item);
      woken := woken + [item.owner];
    }

    /** The state of the walk: the items before `item` have been seen and those that stay are
        `kept`; the items from `item` on are `rest`. */
    ghost predicate Walking(item: Item, kept: seq<Item>, rest: seq<Item>)
      reads this, waiting, waiting.nodes, rest
    {
      && waiting.Valid() && waiting.indexPosition == 0
      && waiting.nodes == [waiting.end] + kept + rest
      && item == if rest == [] then waiting.end else rest[0]
    }

    /** What one turn of the loop does, apart from moving on: an item that matches is unblocked. */
    method Visit(item: Item, clear: Word, ghost kept: seq<Item>, ghost rest: seq<Item>) returns (clear': Word)
      requires Walking(item, kept, rest) && rest != []
      modifies this`values, this`woken, waiting, waiting.nodes`container, waiting.nodes`next, waiting.nodes`previous
      ensures var value := old(ValueOf(values, item.owner));
              if Satisfied(bits, value) then
                && waiting.Valid() && waiting.indexPosition == 0
                && waiting.nodes == [waiting.end] + kept + rest[1..]
                && values == old(values)[item.owner := Notice(bits)] && woken == old(woken) + [item.owner]
                && clear' == clear + ToClear(value)
              else waiting.Valid() && waiting.indexPosition == 0 && waiting.nodes == old(waiting.nodes)
                   && values == old(values) && woken == old(woken) && clear' == clear
    {
      var value := ValueOf(values, item.owner);
      var control, mask := value * CONTROL, value - CONTROL;
      clear' := clear;
      var matches := false;
      if WAIT_FOR_ALL !in control {
        if mask * bits != {} {
          matches := true;
        }
      } else if mask * bits == mask {
        matches := true;
      }
      if matches {
        if CLEAR_ON_EXIT in control {
          clear' := clear + mask;
        }
        assert waiting.nodes[1 + |kept|] == item;
        ghost var nodes := waiting.nodes;
        assert bits + {UNBLOCKED} + {IN_USE} == Notice(bits);
        Unblock(item, bits + {UNBLOCKED});
        TakenOut(nodes, waiting.nodes, kept, rest, waiting.end);
      }
    }

    /** The item after one that is walked over */
    lemma NextInWalk(item: Item, kept: seq<Item>, rest: seq<Item>)
      requires Walking(item, kept, rest) && rest != []
      ensures item.next == if |rest| == 1 then waiting.end else rest[1]
      ensures item != waiting.end
    {
      var nodes := waiting.nodes;
      assert nodes[1 + |kept|] == item && nodes[0] == waiting.end;
      assert item.next == nodes[KernelList.After(1 + |kept|, |nodes|)];
    }

    lemma StartOfWalk() returns (first: Item)
      requires Valid()
      ensures waiting.end.next == first && Walking(first, [], waiting.nodes[1..])
      ensures AreTasks(waiting.nodes[1..], Snapshot().waiting)
    {
      var nodes := waiting.nodes;
      assert waiting.end.next == nodes[KernelList.After(0, |nodes|)];
      first := nodes[KernelList.After(0, |nodes|)];
      assert nodes == [waiting.end] + [] + nodes[1..];
    }

    /** What holds in the loop of xEventGroupSetBits, where `g` is the group before it. */
    ghost predicate InLoop(g: Group, all: Word, item: Item, clear: Word, kept: seq<Item>, rest: seq<Item>,
                           keptTasks: seq<Task>, restTasks: seq<Task>)
      reads this, waiting, waiting.nodes, kept, rest
    {
      && Walking(item, kept, rest) && bits == all
      && AreTasks(kept, keptTasks) && AreTasks(rest, restTasks) && NoDup(restTasks)
      && Remaining(g, all, keptTasks, restTasks, values, clear, woken)
    }

    /** One turn of the loop */
    method WalkOn(item: Item, clear: Word, ghost g: Group, ghost all: Word, ghost kept: seq<Item>,
                  ghost rest: seq<Item>, ghost keptTasks: seq<Task>, ghost restTasks: seq<Task>)
      returns (next: Item, clear': Word, ghost stays: bool)
      requires InLoop(g, all, item, clear, kept, rest, keptTasks, restTasks) && rest != []
      modifies this`values, this`woken, waiting, waiting.nodes`container, waiting.nodes`next, waiting.nodes`previous
      ensures InLoop(g, all, next, clear', if stays then kept + [rest[0]] else kept, rest[1..],
                     if stays then keptTasks + [restTasks[0]] else keptTasks, restTasks[1..])
      ensures forall i :: 0 <= i < |waiting.nodes| ==> waiting.nodes[i] in old(waiting.nodes)
    {
      hide Satisfied, ToClear, Notice, Remaining, NoDup, KernelList.Circle, KernelList.AllOn;
      NextInWalk(item, kept, rest);
      next := item.next;
      RemainingStep(g, all, keptTasks, restTasks, values, clear, woken);
      TailNoDup(restTasks);
      stays := !Satisfied(bits, ValueOf(values, item.owner));
      clear' := Visit(item, clear, kept, rest);
      assert [waiting.end] + kept + rest == [waiting.end] + (kept + [rest[0]]) + rest[1..];
    }

    lemma EndOfWalk(g: Group, all: Word, item: Item, clear: Word, kept: seq<Item>, keptTasks: seq<Task>)
      requires InLoop(g, all, item, clear, kept, [], keptTasks, []) && NoDup(g.waiting)
      ensures && keptTasks == Kept(g.waiting, g.values, all) && NoDup(keptTasks)
              && clear == Clears(g.waiting, g.values, all)
              && woken == g.woken + Unblocks(g.waiting, g.values, all)
              && values == Marked(g.values, Unblocks(g.waiting, g.values, all), Notice(all))
              && waiting.Valid() && waiting.indexPosition == 0 && waiting.nodes != []
              && waiting.nodes[1..] == kept && AreTasks(kept, keptTasks)
    {
      KeptExactly(g.waiting, g.values, all);
      assert Kept([], values, all) == [] && Unblocks([], values, all) == [];
      assert waiting.nodes == [waiting.end] + kept + [];
    }

    lemma NotAtEnd(g: Group, all: Word, item: Item, clear: Word, kept: seq<Item>, rest: seq<Item>,
                   keptTasks: seq<Task>, restTasks: seq<Task>)
      requires InLoop(g, all, item, clear, kept, rest, keptTasks, restTasks)
      ensures item != waiting.end ==> rest != [] && restTasks != []
      ensures item == waiting.end ==> rest == [] && restTasks == []
    {
      if rest != [] { NextInWalk(item, kept, rest); }
    }

    /** The loop of xEventGroupSetBits, from the head of the list to its end marker */
    method Walk(first: Item, ghost g: Group) returns (clear: Word)
      requires waiting.nodes != [] && NoDup(g.waiting)
      requires InLoop(g, bits, first, {}, [], waiting.nodes[1..], [], g.waiting)
      modifies this`values, this`woken, waiting, waiting.nodes`container, waiting.nodes`next, waiting.nodes`previous
      ensures Valid()
      ensures clear == Clears(g.waiting, g.values, bits)
      ensures Snapshot() == Group(bits, Kept(g.waiting, g.values, bits),
                                  Marked(g.values, Unblocks(g.waiting, g.values, bits), Notice(bits)),
                                  g.woken + Unblocks(g.waiting, g.values, bits))
      ensures forall i :: 0 <= i < |waiting.nodes| ==> waiting.nodes[i] in old(waiting.nodes)
    {
      hide InLoop, Walking;
      var item := first;
      clear := {};
      ghost var all := bits;
      ghost var kept: seq<Item>, rest := [], waiting.nodes[1..];
      ghost var keptTasks, restTasks := [], g.waiting;
      while item != waiting.end
        invariant InLoop(g, all, item, clear, kept, rest, keptTasks, restTasks)
        invariant forall i :: 0 <= i < |waiting.nodes| ==> waiting.nodes[i] in old(waiting.nodes)
        decreases |rest|
      {
        NotAtEnd(g, all, item, clear, kept, rest, keptTasks, restTasks);
        ghost var stays;
        item, clear, stays := WalkOn(item, clear, g, all, kept, rest, keptTasks, restTasks);
        if stays {
          kept, keptTasks := kept + [rest[0]], keptTasks + [restTasks[0]];
        }
        rest, restTasks := rest[1..], restTasks[1..];
      }
      NotAtEnd(g, all, item, clear, kept, rest, keptTasks, restTasks);
      EndOfWalk(g, all, item, clear, kept, keptTasks);
      TasksAre(keptTasks);
    }

    lemma AtStart(g: Group)
      requires Valid() && g == Snapshot().(bits := g.bits)
      ensures waiting.end.next != null && waiting.nodes != []
      ensures InLoop(g, bits, waiting.end.next, {}, [], waiting.nodes[1..], [], g.waiting)
    {
      var first := StartOfWalk();
      NothingDone(g, bits);
    }

    lemma TasksAre(tasks: seq<Task>)
      requires waiting.nodes != [] && AreTasks(waiting.nodes[1..], tasks)
      ensures Tasks(waiting.nodes[1..]) == tasks
    {
    }

    /** xEventGroupSetBits */
    method SetBits(set_: Word) returns (now: Word)
      requires Valid()
      modifies this, waiting, waiting.nodes`container, waiting.nodes`next, waiting.nodes`previous
      ensures Valid()
      ensures Snapshot() == EventGroups.SetBits(old(Snapshot()), set_)
      ensures now == bits && forall t <- Snapshot().waiting :: t in old(Snapshot()).waiting
      ensures forall t <- old(Snapshot()).waiting ::
                var mask, all := old(ValueOf(values, t)) - CONTROL, old(bits) + set_;
                t in Snapshot().waiting <==>
                  if WAIT_FOR_ALL in old(ValueOf(values, t)) then !(mask <= all) else mask * all == {}
      ensures forall i :: 0 <= i < |waiting.nodes| ==> waiting.nodes[i] in old(waiting.nodes)
    {
      hide InLoop, Walking, AreTasks, Kept, Clears, Unblocks, Marked, Notice, KernelList.List.Valid, NoDup;
      ghost var g := Snapshot();
      SetBitsByValue(g, set_);
      bits := bits + set_;
      AtStart(g);
      var clear := Walk(waiting.end.next, g);
      bits := bits - clear;
      now := bits;
    }

    /** xEventGroupClearBits: returns the bits as they were. */
    method ClearBits(clear: Word) returns (before: Word)
      requires Valid()
      modifies this`bits
      ensures Valid() && before == old(bits)
      ensures Snapshot() == EventGroups.ClearBits(old(Snapshot()), clear)
    {
      before := bits;
      bits := bits - clear;
    }

    /** vTaskPlaceOnUnorderedEventList, for the event item of the calling task */
    method PlaceOnEventList(item: Item, mask: Word, clear: bool, all: bool)
      requires Valid() && waiting.CanTake(item) && item.owner !in Snapshot().waiting
      modifies this`values, waiting, item, waiting.nodes`next, waiting.nodes`previous
      ensures Valid() && Snapshot() == Block(old(Snapshot()), item.owner, mask, clear, all)
    {
      hide KernelList.Circle, Encode;
      ghost var g, nodes := Snapshot(), waiting.nodes;
      values := values[item.owner := Encode(mask, clear, all)];
      waiting.InsertEnd(item);
      assert waiting.nodes[1..] == nodes[1..] + [item];
      TasksAre(g.waiting + [item.owner]);
    }

    /** The part of xEventGroupWaitBits with the scheduler suspended: whether the call is over, and
        with what value */
    method WaitBits(item: Item, mask: Word, clear: bool, all: bool, patient: bool) returns (over: bool, value: Word)
      requires Valid() && waiting.CanTake(item) && item.owner !in Snapshot().waiting
      modifies this, waiting, item, waiting.nodes`next, waiting.nodes`previous
      ensures Valid() && value == old(bits)
      ensures over <==> !patient || if all then mask <= old(bits) else mask * old(bits) != {}
      ensures Snapshot() ==
                if !over then Block(old(Snapshot()), item.owner, mask, clear, all)
                else if clear && (if all then mask <= old(bits) else mask * old(bits) != {}) then
                  old(Snapshot()).(bits := old(bits) - mask)
                else old(Snapshot())
    {
      value := bits;
      over := true;
      if WaitConditionMet(bits, mask, all) {
        if clear {
          bits := bits - mask;
        }
      } else if patient {
        PlaceOnEventList(item, mask, clear, all);
        over := false;
      }
    }

    /** The part of xEventGroupSync with the scheduler suspended */
    method Sync(item: Item, set_: Word, mask: Word, patient: bool) returns (over: bool, value: Word)
      requires Valid() && waiting.CanTake(item) && item.owner !in Snapshot().waiting && item !in waiting.nodes
      modifies this, waiting, item, waiting.nodes`container, waiting.nodes`next, waiting.nodes`previous
      ensures Valid() && over == (mask <= old(bits) + set_ || !patient)
      ensures var g := EventGroups.SetBits(old(Snapshot()), set_);
              if mask <= old(bits) + set_ then
                Snapshot() == EventGroups.ClearBits(g, mask) && value == old(bits) + set_
              else if patient then Snapshot() == Block(g, item.owner, mask, true, true)
              else Snapshot() == g && value == g.bits
    {
      hide EventGroups.SetBits, KernelList.Circle, KernelList.AllOn;
      ghost var g0, owner := Snapshot(), item.owner;
      var original := bits;
      var now := SetBits(set_);
      over, value := true, now;
      if mask <= original + set_ {
        value := original + set_;
        bits := bits - mask;
      } else if patient {
        StillOutside(g0, set_, owner);
        PlaceOnEventList(item, mask, true, true);
        over := false;
      }
    }

    /** The end of xEventGroupWaitBits and of xEventGroupSync, when the task has blocked and runs again */
    method FinishWait(t: Task, mask: Word, clear: bool, all: bool) returns (value: Word)
      requires Valid()
      modifies this`bits
      ensures Valid()
      ensures var s1 := DoFinish(State(old(Snapshot()), map[t := Call(mask, clear, all)], map[], false), t);
              Snapshot() == s1.group && value == s1.returned[t]
      ensures var given := old(ValueOf(values, t));
              var met := if all then mask <= old(bits) else mask * old(bits) != {};
              && value == (if UNBLOCKED in given then given else old(bits)) - CONTROL
              && bits == if UNBLOCKED !in given && met && clear then old(bits) - mask else old(bits)
    {
      value := if t in values then values[t] else {};
      if UNBLOCKED !in value {
        value := bits;
        if WaitConditionMet(value, mask, all) {
          if clear {
            bits := bits - mask;
          }
        }
      }
      value := value - CONTROL;
    }

    lemma StillOutside(g: Group, set_: Word, t: Task)
      requires t !in g.waiting
      ensures t !in EventGroups.SetBits(g, set_).waiting
    {
      KeptExactly(g.waiting, g.values, g.bits + set_);
    }

    /** One turn of the loop of vEventGroupDelete */
    method UnblockHead()
      requires Valid() && waiting.numberOfItems > 0
      modifies this, waiting, waiting.nodes`container, waiting.nodes`next, waiting.nodes`previous
      ensures Valid() && |Snapshot().waiting| == |old(Snapshot()).waiting| - 1
      ensures Snapshot() == UnblockedFirst(old(Snapshot()))
      ensures forall i :: 0 <= i < |waiting.nodes| ==> waiting.nodes[i] in old(waiting.nodes)
    {
      hide KernelList.List.Valid, NoDup, Notice, AreTasks;
      ghost var nodes, g := waiting.nodes, Snapshot();
      HeadFacts();
      TailNoDup(g.waiting);
      UnblockHeadItem(waiting.end.next);
      assert waiting.nodes[1..] == nodes[2..];
      TasksAre(g.waiting[1..]);
    }

    method UnblockHeadItem(item: Item)
      requires waiting.Valid() && |waiting.nodes| > 1 && item == waiting.nodes[1] && item.container == waiting
               && NoDup(waiting.nodes)
      modifies this`values, this`woken, waiting, item`container, waiting.nodes`next, waiting.nodes`previous
      ensures waiting.Valid() && waiting.nodes == [waiting.end] + old(waiting.nodes)[2..]
      ensures values == old(values)[item.owner := Notice({})] && woken == old(woken) + [item.owner]
      ensures waiting.indexPosition == if old(waiting.indexPosition) > 0 then old(waiting.indexPosition) - 1 else 0
    {
      hide NoDup, KernelList.List.Valid, Remove;
      ghost var r := waiting.Contents();
      BeginsAtEnd(waiting);
      assert {UNBLOCKED} + {IN_USE} == Notice({});
      RemoveFirst(r, item);
      Unblock(item, {UNBLOCKED});
      BeginsAtEnd(waiting);
      assert waiting.nodes == [waiting.end] + waiting.nodes[1..];
    }

    /** The head of the list */
    lemma HeadFacts()
      requires Valid() && waiting.numberOfItems > 0
      ensures |waiting.nodes| > 1 && NoDup(waiting.nodes) && waiting.end.next == waiting.nodes[1]
      ensures waiting.nodes[0] == waiting.end && waiting.nodes[1].container == waiting
      ensures Snapshot().waiting != [] && Snapshot().waiting[0] == waiting.nodes[1].owner && NoDup(Snapshot().waiting)
      ensures AreTasks(waiting.nodes[2..], Snapshot().waiting[1..])
    {
      assert waiting.end.next == waiting.nodes[KernelList.After(0, |waiting.nodes|)];
    }

    lemma CountWaiting()
      requires Valid()
      ensures |Snapshot().waiting| == waiting.numberOfItems
    {
    }

    /** vEventGroupDelete, up to freeing the memory */
    method Delete()
      requires Valid()
      modifies this, waiting, waiting.nodes`container, waiting.nodes`next, waiting.nodes`previous
      ensures Valid() && Snapshot() == Deleted(old(Snapshot()))
    {
      hide Notice, KernelList.List.Valid, NoDup, Deleted, Marked, UnblockedFirst;
      CountWaiting();
      while waiting.numberOfItems > 0
        invariant Valid() && |Snapshot().waiting| == waiting.numberOfItems
        invariant Deleted(Snapshot()) == Deleted(old(Snapshot()))
        invariant forall i :: 0 <= i < |waiting.nodes| ==> waiting.nodes[i] in old(waiting.nodes)
        decreases |Snapshot().waiting|
      {
        DeletedStep(Snapshot());
        UnblockHead();
        CountWaiting();
      }
      DeletedAll(Snapshot());
    }
  }

  lemma BeginsAtEnd(list: KernelList.List)
    requires list.Valid()
    ensures list.nodes != [] && list.nodes[0] == list.end
  {
  }

  lemma RemoveFirst<T>(r: Ring<T>, x: T)
    requires r.items != [] && r.items[0] == x
    ensures Remove(r, x) == Ring(r.items[1..], if r.index > 0 then r.index - 1 else 0)
  {
  }

  /** Taking the first of the rest off the list leaves the others. */
  lemma TakenOut(nodes: seq<Item>, now: seq<Item>, kept: seq<Item>, rest: seq<Item>, end: Item)
    requires rest != [] && nodes == [end] + kept + rest && NoDup(nodes)
    requires now != [] && now[0] == end && rest[0] in nodes[1..]
             && now[1..] == Remove(Ring(nodes[1..], 0), rest[0]).items
    ensures now == [end] + kept + rest[1..]
  {
    hide Remove;
    var first := rest[0];
    assert nodes[1 + |kept|] == first;
    forall i | 0 <= i < |kept|
      ensures kept[i] != first
    {
      assert nodes[1 + i] == kept[i];
    }
    assert nodes[1..] == kept + [first] + rest[1..];
    RemoveBetween(kept, first, rest[1..]);
    assert now == [end] + now[1..];
    assert [end] + (kept + rest[1..]) == [end] + kept + rest[1..];
  }

  ghost predicate AreTasks(items: seq<Item>, tasks: seq<Task>)
    reads items
  {
    |items| == |tasks| && forall i :: 0 <= i < |items| ==> items[i].owner == tasks[i]
  }

  /** What has been done and what is still to be done for the tasks of `rest` make up the whole. */
  ghost predicate Remaining(g: Group, all: Word, kept: seq<Task>, rest: seq<Task>,
                            values: map<Task, Word>, clear: Word, woken: seq<Task>) {
    && kept + Kept(rest, values, all) == Kept(g.waiting, g.values, all)
    && clear + Clears(rest, values, all) == Clears(g.waiting, g.values, all)
    && woken + Unblocks(rest, values, all) == g.woken + Unblocks(g.waiting, g.values, all)
    && Marked(values, Unblocks(rest, values, all), Notice(all)) ==
         Marked(g.values, Unblocks(g.waiting, g.values, all), Notice(all))
  }

  lemma {:induction false} SameValues(tasks: seq<Task>, v: map<Task, Word>, w: map<Task, Word>, bits: Word)
    requires forall t <- tasks :: ValueOf(v, t) == ValueOf(w, t)
    ensures Kept(tasks, v, bits) == Kept(tasks, w, bits)
    ensures Unblocks(tasks, v, bits) == Unblocks(tasks, w, bits)
    ensures Clears(tasks, v, bits) == Clears(tasks, w, bits)
  {
    hide Satisfied, ToClear;
    if tasks != [] {
      assert tasks[0] in tasks;
      SameValues(tasks[1..], v, w, bits);
    }
  }

  lemma RemainingStep(g: Group, all: Word, kept: seq<Task>, rest: seq<Task>, values: map<Task, Word>, clear: Word,
                      woken: seq<Task>)
    requires rest != [] && NoDup(rest) && Remaining(g, all, kept, rest, values, clear, woken)
    ensures var t := rest[0];
            if Satisfied(all, ValueOf(values, t)) then
              Remaining(g, all, kept, rest[1..], values[t := Notice(all)], clear + ToClear(ValueOf(values, t)),
                        woken + [t])
            else Remaining(g, all, kept + [t], rest[1..], values, clear, woken)
  {
    hide Satisfied, ToClear, Notice, Kept, Unblocks, Clears, Marked;
    var t := rest[0];
    SameValues(rest[1..], values, values[t := Notice(all)], all);
    FirstOf(rest, values, all);
    if Satisfied(all, ValueOf(values, t)) {
      assert woken + ([t] + Unblocks(rest[1..], values, all)) == woken + [t] + Unblocks(rest[1..], values, all);
    } else {
      assert kept + ([t] + Kept(rest[1..], values, all)) == kept + [t] + Kept(rest[1..], values, all);
    }
  }

  /** What one task contributes. */
  lemma FirstOf(rest: seq<Task>, values: map<Task, Word>, all: Word)
    requires rest != []
    ensures var t, more := rest[0], rest[1..];
            if Satisfied(all, ValueOf(values, t)) then
              && Kept(rest, values, all) == Kept(more, values, all)
              && Unblocks(rest, values, all) == [t] + Unblocks(more, values, all)
              && Clears(rest, values, all) == ToClear(ValueOf(values, t)) + Clears(more, values, all)
              && Marked(values, Unblocks(rest, values, all), Notice(all))
                 == Marked(values[t := Notice(all)], Unblocks(more, values, all), Notice(all))
            else
              && Kept(rest, values, all) == [t] + Kept(more, values, all)
              && Unblocks(rest, values, all) == Unblocks(more, values, all)
              && Clears(rest, values, all) == Clears(more, values, all)
  {
    hide Satisfied, ToClear, Notice;
  }

  lemma TailNoDup(tasks: seq<Task>)
    requires tasks != [] && NoDup(tasks)
    ensures NoDup(tasks[1..])
  {
  }

  lemma NothingDone(g: Group, all: Word)
    ensures Remaining(g, all, [], g.waiting, g.values, {}, g.woken)
  {
  }

  ghost function UnblockedFirst(g: Group): Group {
    if g.waiting == [] then g
    else g.(waiting := g.waiting[1..], values := g.values[g.waiting[0] := Notice({})],
            woken := g.woken + [g.waiting[0]])
  }

  lemma DeletedStep(g: Group)
    requires g.waiting != []
    ensures Deleted(UnblockedFirst(g)) == Deleted(g)
  {
    hide Notice;
    assert [g.waiting[0]] + g.waiting[1..] == g.waiting;
  }

  lemma DeletedAll(g: Group)
    requires g.waiting == []
    ensures Deleted(g) == g
  {
    hide Notice;
  }
}
