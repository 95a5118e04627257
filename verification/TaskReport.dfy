/** uxTaskGetSystemState: the report of all tasks, put together by walking every state list. */
module TaskReport {
  import opened RingList
  import opened ItemStore
  import opened TaskState

  datatype Status = TaskReady | TaskBlocked | TaskSuspended | TaskDeleted

  /** One TaskStatus_t */
  datatype Entry = Entry(task: Task, status: Status, priority: nat, basePriority: nat)

  /** What is reported of a task found on list `l`: a task that is suspended but waiting for an
      event is blocked without a timeout. */
  function Describe(tcbs: map<Task, Tcb>, waits: Place, l: ListId, t: Task): Entry {
    var status := match l
      case Ready(_) => TaskReady
      case Delayed(_) => TaskBlocked
      case Termination => TaskDeleted
      case _ => if waits.On? then TaskBlocked else TaskSuspended;
    if t in tcbs then Entry(t, status, tcbs[t].priority, tcbs[t].basePriority) else Entry(t, status, 0, 0)
  }

  function EntryFor(s: State, l: ListId, t: Task): Entry {
    Describe(s.tcbs, WaitOf(s, t), l, t)
  }

  /** prvListTaskWithinSingleList: the walk starts one item further on than the index. */
  function OfList(s: State, l: ListId): (entries: seq<Entry>) {
    var r := At(s.store, l);
    if r.items == [] then []
    else
      var w := Walk(Advance(r), |r.items|);
      seq(|w|, k requires 0 <= k < |w| => EntryFor(s, l, w[k].task))
  }

  function OfLists(s: State, lists: seq<ListId>): seq<Entry> {
    if lists == [] then [] else OfList(s, lists[0]) + OfLists(s, lists[1..])
  }

  function ReadyLists(p: nat): (lists: seq<ListId>)
    ensures |lists| == p
    ensures forall i :: 0 <= i < p ==> lists[i] == Ready(p - 1 - i)
  {
    if p == 0 then [] else [Ready(p - 1)] + ReadyLists(p - 1)
  }

  /** The lists in the order they are visited. */
  function Visited(s: State): seq<ListId> {
    ReadyLists(PRIORITIES) + [CurrentDelayed(s), OverflowDelayed(s), Termination, Suspended]
  }

  /** The entries written to an array with room for `size` of them. */
  function SystemState(s: State, size: nat): seq<Entry> {
    if size >= s.numberOfTasks then OfLists(s, Visited(s)) else []
  }

  // ---- The report is complete, without repetition, and right ----

  ghost predicate TasksDiffer(entries: seq<Entry>) {
    forall i, j :: 0 <= i < j < |entries| ==> entries[i].task != entries[j].task
  }

  ghost predicate Reports(entries: seq<Entry>, t: Task) {
    exists i :: 0 <= i < |entries| && entries[i].task == t
  }

  lemma OfListIsExact(s: State, l: ListId)
    requires Consistent(s.store) && IsStateList(l)
    ensures TasksDiffer(OfList(s, l))
    ensures forall i :: 0 <= i < |OfList(s, l)| ==>
              StateOf(s, OfList(s, l)[i].task) == On(l) && OfList(s, l)[i] == EntryFor(s, l, OfList(s, l)[i].task)
    ensures forall t :: StateOf(s, t) == On(l) ==> Reports(OfList(s, l), t)
  {
    var r, entries := At(s.store, l), OfList(s, l);
    assert Valid(r);
    if r.items != [] {
      WalkOnceEach(Advance(r));
      var w := Walk(Advance(r), |r.items|);
      hide Walk;
      forall i | 0 <= i < |w|
        ensures w[i] == Generic(entries[i].task) && PlaceOf(s.store, w[i]) == On(l)
      {
        assert Member(s.store, w[i], l);
      }
      forall t | StateOf(s, t) == On(l)
        ensures Reports(entries, t)
      {
        assert Member(s.store, Generic(t), l);
        assert entries[IndexOf(w, Generic(t))].task == t;
      }
    } else {
      forall t
        ensures StateOf(s, t) != On(l)
      {
        assert !Member(s.store, Generic(t), l);
      }
    }
  }

  /** Every entry is about a task on one of the lists, and says what is to be said of it. */
  ghost predicate EntriesRight(s: State, lists: seq<ListId>, entries: seq<Entry>) {
    forall i :: 0 <= i < |entries| ==>
      StateOf(s, entries[i].task).On? && StateOf(s, entries[i].task).list in lists
      && entries[i] == EntryFor(s, StateOf(s, entries[i].task).list, entries[i].task)
  }

  lemma {:induction false} OfListsIsExact(s: State, lists: seq<ListId>)
    requires Consistent(s.store) && NoDup(lists) && forall l <- lists :: IsStateList(l)
    ensures TasksDiffer(OfLists(s, lists)) && EntriesRight(s, lists, OfLists(s, lists))
    ensures forall t :: StateOf(s, t).On? && StateOf(s, t).list in lists ==> Reports(OfLists(s, lists), t)
  {
    hide Consistent, EntryFor, OfList, TasksDiffer, EntriesRight, Reports;
    if lists != [] {
      var first, rest := OfList(s, lists[0]), OfLists(s, lists[1..]);
      OfListIsExact(s, lists[0]);
      OfListsIsExact(s, lists[1..]);
      JoinedDiffer(s, lists, first, rest);
      forall t | StateOf(s, t).On? && StateOf(s, t).list in lists
        ensures Reports(first + rest, t)
      {
        JoinedReports(first, rest, t);
      }
    } else {
      EmptyReport(s);
    }
  }

  lemma EmptyReport(s: State)
    ensures TasksDiffer([]) && EntriesRight(s, [], [])
  {
  }

  lemma JoinedDiffer(s: State, lists: seq<ListId>, first: seq<Entry>, rest: seq<Entry>)
    requires lists != [] && NoDup(lists) && TasksDiffer(first) && TasksDiffer(rest)
    requires forall i :: 0 <= i < |first| ==>
               StateOf(s, first[i].task) == On(lists[0]) && first[i] == EntryFor(s, lists[0], first[i].task)
    requires EntriesRight(s, lists[1..], rest)
    ensures TasksDiffer(first + rest) && EntriesRight(s, lists, first + rest)
  {
    hide EntryFor;
    assert lists[0] !in lists[1..];
    assert forall i :: 0 <= i < |first + rest| ==>
                         (first + rest)[i] == if i < |first| then first[i] else rest[i - |first|];
  }

  lemma JoinedReports(first: seq<Entry>, rest: seq<Entry>, t: Task)
    requires Reports(first, t) || Reports(rest, t)
    ensures Reports(first + rest, t)
  {
    if Reports(first, t) {
      var i :| 0 <= i < |first| && first[i].task == t;
      assert (first + rest)[i].task == t;
    } else {
      var i :| 0 <= i < |rest| && rest[i].task == t;
      assert (first + rest)[|first| + i].task == t;
    }
  }

  function TaskSet(entries: seq<Entry>): set<Task> {
    set e <- entries :: e.task
  }

  lemma {:induction false} CountsTasks(entries: seq<Entry>)
    requires TasksDiffer(entries)
    ensures |TaskSet(entries)| == |entries|
  {
    if entries != [] {
      CountsTasks(entries[1..]);
      assert TaskSet(entries) == {entries[0].task} + TaskSet(entries[1..]);
      assert entries[0].task !in TaskSet(entries[1..]);
    }
  }

  lemma ListIsVisited(s: State, l: ListId)
    requires IsStateList(l) && (l.Ready? ==> l.priority < PRIORITIES)
    ensures l in Visited(s)
  {
    var v := Visited(s);
    match l
    case Ready(p) => assert v[PRIORITIES - 1 - p] == l;
    case Delayed(first) => assert v[PRIORITIES + if first == s.firstIsCurrent then 0 else 1] == l;
    case Termination => assert v[PRIORITIES + 2] == l;
    case Suspended => assert v[PRIORITIES + 3] == l;
  }

  lemma VisitedOnce(s: State)
    ensures NoDup(Visited(s)) && forall l <- Visited(s) :: IsStateList(l)
  {
  }

  lemma PlaceIsVisited(s: State, t: Task)
    requires Inv(s) && StateOf(s, t).On?
    ensures StateOf(s, t).list in Visited(s)
  {
    assert IsStateList(StateOf(s, t).list);
    hide Consistent, SortedList, TimeAt, Visited;
    ListIsVisited(s, StateOf(s, t).list);
  }

  /** An entry tells what priority the task runs at and what its own is, and where it is: ready if it is on
      a ready list, deleted if it is on the termination list, suspended if it is on the suspended list and
      its event item is on no list, and otherwise blocked. */
  ghost predicate Tells(s: State, e: Entry) {
    && e.task in s.tcbs
    && e.priority == s.tcbs[e.task].priority && e.basePriority == s.tcbs[e.task].basePriority
    && (e.status == TaskReady <==> exists p: nat :: StateOf(s, e.task) == On(Ready(p)))
    && (e.status == TaskDeleted <==> StateOf(s, e.task) == On(Termination))
    && (e.status == TaskSuspended <==> StateOf(s, e.task) == On(Suspended) && WaitOf(s, e.task) == Nowhere)
  }

  lemma DescribesRight(s: State, t: Task)
    requires t in s.tcbs && StateOf(s, t).On? && IsStateList(StateOf(s, t).list)
    ensures EntryFor(s, StateOf(s, t).list, t).task == t && Tells(s, EntryFor(s, StateOf(s, t).list, t))
  {
    var l := StateOf(s, t).list;
    if l.Ready? {
      assert StateOf(s, t) == On(Ready(l.priority));
    }
  }

  lemma EntryTells(s: State, r: seq<Entry>, i: nat)
    requires Inv(s) && i < |r| && EntriesRight(s, Visited(s), r)
    ensures Tells(s, r[i])
  {
    VisitedOnce(s);
    hide Core, Counted, TicksAccounted, Visited, EntryFor, Tells;
    assert WellPlaced(s, r[i].task);
    DescribesRight(s, r[i].task);
  }

  /** Given room for all tasks, the report has one entry for every task that has not been freed, and no
      other; each tells the task's priorities and where it is; and there are uxCurrentNumberOfTasks of
      them.  Given less room, nothing is reported. */
  lemma SystemStateIsComplete(s: State, size: nat)
    requires Inv(s)
    ensures var r := SystemState(s, size);
            if size >= s.numberOfTasks then
              && |r| == s.numberOfTasks && TasksDiffer(r)
              && (forall t :: t in s.tcbs <==> Reports(r, t))
              && (forall i :: 0 <= i < |r| ==> Tells(s, r[i]))
            else r == []
  {
    hide Consistent, SortedList, ReadyOk, TimeAt, EntryFor, OfLists, Visited, Tells;
    if size >= s.numberOfTasks {
      VisitedOnce(s);
      var r := OfLists(s, Visited(s));
      OfListsIsExact(s, Visited(s));
      forall i | 0 <= i < |r|
        ensures Tells(s, r[i])
      {
        EntryTells(s, r, i);
      }
      forall t
        ensures t in s.tcbs <==> Reports(r, t)
      {
        assert WellPlaced(s, t);
        if t in s.tcbs { PlaceIsVisited(s, t); }
        if Reports(r, t) {
          var i :| 0 <= i < |r| && r[i].task == t;
        }
      }
      CountsTasks(r);
      assert TaskSet(r) == s.tcbs.Keys by {
        forall t
          ensures t in TaskSet(r) <==> t in s.tcbs
        {
          assert t in s.tcbs <==> Reports(r, t);
          if t in s.tcbs { var i :| 0 <= i < |r| && r[i].task == t; assert r[i] in r; }
        }
      }
    }
  }
}
