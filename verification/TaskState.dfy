/** The state of the scheduler (tasks.c): task control blocks, the state lists and event lists
    their items are on, the 32-bit tick with its two delayed lists, and the ready priorities in
    both the scan form (`top`) and the bitmap form (`bits`). */
module TaskState {
  import opened RingList
  import opened Ticks
  import opened ItemStore
  import opened Words

  const PRIORITIES: nat := 8                 // configMAX_PRIORITIES
  const IN_USE: nat := 0x8000_0000           // taskEVENT_LIST_ITEM_VALUE_IN_USE

  datatype Tcb = Tcb(priority: nat, basePriority: nat, mutexesHeld: nat)

  /** `clock` and `interrupts` are unbounded counts of processed ticks and of tick interrupts;
      no step reads them. */
  datatype State = State(
    tcbs: map<Task, Tcb>,
    store: Store,
    firstIsCurrent: bool,       // pxDelayedTaskList points at xDelayedTaskList1
    tick: nat,                  // xTickCount
    clock: nat,
    interrupts: nat,
    pendedTicks: nat,           // uxPendedTicks
    suspensions: nat,           // uxSchedulerSuspended
    overflows: nat,             // xNumOfOverflows
    nextUnblock: nat,           // xNextTaskUnblockTime
    current: Task,              // pxCurrentTCB
    numberOfTasks: nat,         // uxCurrentNumberOfTasks
    tasksDeleted: nat,          // uxTasksDeleted
    top: nat,                   // uxTopReadyPriority, scan form
    bits: Word)                 // uxTopReadyPriority, bitmap form

  function CurrentDelayed(s: State): ListId {
    Delayed(s.firstIsCurrent)
  }

  function OverflowDelayed(s: State): ListId {
    Delayed(!s.firstIsCurrent)
  }

  function Items(s: State, l: ListId): seq<Item> {
    At(s.store, l).items
  }

  /** The list the task's generic item is on. */
  function StateOf(s: State, t: Task): Place {
    PlaceOf(s.store, Generic(t))
  }

  /** The list the task's event item is on. */
  function WaitOf(s: State, t: Task): Place {
    PlaceOf(s.store, Event(t))
  }

  function PriorityOf(s: State, t: Task): nat {
    if t in s.tcbs then s.tcbs[t].priority else 0
  }

  /** The event item value of a task that is not using it for anything else. */
  function NormalEventValue(priority: nat): nat {
    if priority <= PRIORITIES then PRIORITIES - priority else 0
  }

  // ---- What holds in every state, whatever task is on the move ----

  /** Bit p is set exactly when ready list p holds a task, and no ready task is above `top`. */
  ghost predicate MarksOk(s: State) {
    && s.top < PRIORITIES
    && (forall p: nat :: p in s.bits <==> Items(s, Ready(p)) != [])
    && (forall p: nat :: p in s.bits ==> p <= s.top)
  }

  /** A ready task is on the list of its priority. */
  ghost predicate ReadyOk(s: State) {
    && MarksOk(s)
    && (forall t :: t in s.tcbs ==> s.tcbs[t].priority < PRIORITIES && s.tcbs[t].basePriority < PRIORITIES)
    && (forall t, p: nat :: StateOf(s, t) == On(Ready(p)) ==> t in s.tcbs && s.tcbs[t].priority == p)
  }

  ghost predicate DelayedAfter(s: State, bound: int) {
    forall i :: PlaceOf(s.store, i) == On(CurrentDelayed(s)) ==> bound < Value(s.store, i) <= MAX_DELAY
  }

  /** The current delayed list holds this epoch's wake times, sorted; the overflow list the next
      epoch's; and the next unblock time is not later than any of this epoch's.  This epoch's are
      all later than `bound`. */
  ghost predicate TimeAt(s: State, bound: int) {
    && s.tick == Wrap(s.clock) && s.overflows == Epoch(s.clock)
    && SortedList(s.store, CurrentDelayed(s)) && SortedList(s.store, OverflowDelayed(s))
    && DelayedAfter(s, bound)
    && (forall i :: PlaceOf(s.store, i) == On(OverflowDelayed(s)) ==> Value(s.store, i) < s.tick)
    && s.nextUnblock <= MAX_DELAY
    && (forall i :: PlaceOf(s.store, i) == On(CurrentDelayed(s)) ==> s.nextUnblock <= Value(s.store, i))
  }

  ghost predicate CoreAt(s: State, bound: int) {
    Consistent(s.store) && ReadyOk(s) && TimeAt(s, bound)
  }

  /** Between ticks every wake time of this epoch is still ahead. */
  ghost predicate Core(s: State) {
    CoreAt(s, s.tick)
  }

  /** Where a task may be between steps: a live task's generic item is on a state list, and its
      event item is on a list only while it is delayed or suspended. */
  ghost predicate WellPlaced(s: State, t: Task) {
    && (t in s.tcbs <==> StateOf(s, t).On?)
    && (WaitOf(s, t).On? ==> StateOf(s, t).On? && (StateOf(s, t).list.Delayed? || StateOf(s, t).list.Suspended?))
    && (WaitOf(s, t) == On(PendingReady) ==> s.suspensions > 0)
  }

  ghost predicate AllPlaced(s: State) {
    forall t {:trigger WellPlaced(s, t)} {:trigger StateOf(s, t)} {:trigger WaitOf(s, t)} :: WellPlaced(s, t)
  }

  ghost predicate Counted(s: State) {
    && |s.tcbs| == s.numberOfTasks
    && |Items(s, Termination)| == s.tasksDeleted
    && s.current in s.tcbs
  }

  /** No tick interrupt is lost: the processed and the pended ticks are all there have been. */
  ghost predicate TicksAccounted(s: State) {
    s.pendedTicks < TICKS && Wrap(s.tick + s.pendedTicks) == Wrap(s.interrupts)
  }

  ghost predicate Inv(s: State) {
    Core(s) && AllPlaced(s) && Counted(s) && TicksAccounted(s)
  }

  // ---- Moving one item ----

  /** uxListRemove on a generic item, with the reset of the ready bit that follows when the list
      it was on is now empty. */
  function Leave(s: State, t: Task): State {
    var place := StateOf(s, t);
    var s1 := s.(store := Detach(s.store, Generic(t)));
    if place.On? && Items(s1, place.list) == [] && Items(s1, Ready(PriorityOf(s, t))) == [] then
      s1.(bits := s1.bits - {PriorityOf(s, t)})
    else
      s1
  }

  /** uxListRemove on a generic item that is on no ready list. */
  function TakeOff(s: State, t: Task): State {
    s.(store := Detach(s.store, Generic(t)))
  }

  /** prvAddTaskToReadyList */
  function AddToReady(s: State, t: Task): State {
    var p := PriorityOf(s, t);
    s.(top := if p > s.top then p else s.top,
       bits := s.bits + {p},
       store := AttachEnd(s.store, Generic(t), Ready(p)))
  }

  function PutAtEnd(s: State, t: Task, l: ListId): State {
    s.(store := AttachEnd(s.store, Generic(t), l))
  }

  /** prvAddCurrentTaskToDelayedList */
  function AddToDelayed(s: State, t: Task, wake: nat): State {
    var s1 := s.(store := SetValue(s.store, Generic(t), wake));
    if wake < s.tick then
      s1.(store := AttachSorted(s1.store, Generic(t), OverflowDelayed(s)))
    else
      s1.(store := AttachSorted(s1.store, Generic(t), CurrentDelayed(s)),
          nextUnblock := if wake < s.nextUnblock then wake else s.nextUnblock)
  }

  function DropEvent(s: State, t: Task): State {
    s.(store := Detach(s.store, Event(t)))
  }

  /** Only the generic item of `t` has moved between `s` and `s1`. */
  ghost predicate OnlyMoved(s: State, s1: State, t: Task, place: Place) {
    && s1.tcbs == s.tcbs
    && s1 == s.(store := s1.store, bits := s1.bits, top := s1.top, nextUnblock := s1.nextUnblock)
    && (forall i :: PlaceOf(s1.store, i) == if i == Generic(t) then place else PlaceOf(s.store, i))
    && (forall i :: i != Generic(t) ==> Value(s1.store, i) == Value(s.store, i))
    && (forall l :: On(l) != StateOf(s, t) && On(l) != place ==> Items(s1, l) == Items(s, l))
  }

  ghost predicate SameClock(s: State, s1: State) {
    && s1.firstIsCurrent == s.firstIsCurrent
    && s1.tick == s.tick && s1.clock == s.clock && s1.overflows == s.overflows
  }

  /** Nothing has come onto a delayed list, and what is there still wakes at the same time. */
  lemma TimeFrame(s: State, s1: State, bound: int)
    requires TimeAt(s, bound) && SameClock(s, s1) && s1.nextUnblock == s.nextUnblock
    requires SortedList(s1.store, CurrentDelayed(s)) && SortedList(s1.store, OverflowDelayed(s))
    requires forall i :: PlaceOf(s1.store, i).On? && PlaceOf(s1.store, i).list.Delayed?
                         ==> PlaceOf(s.store, i) == PlaceOf(s1.store, i) && Value(s1.store, i) == Value(s.store, i)
    ensures TimeAt(s1, bound)
  {
  }

  /** The ready lists are as they were. */
  lemma MarksFrame(s: State, s1: State)
    requires MarksOk(s) && s1.top == s.top && s1.bits == s.bits
    requires forall p: nat :: Items(s1, Ready(p)) == Items(s, Ready(p))
    ensures MarksOk(s1)
  {
  }

  lemma LeaveMarks(s: State, t: Task)
    requires Consistent(s.store) && ReadyOk(s) && StateOf(s, t).On?
    ensures MarksOk(Leave(s, t))
  {
    hide Consistent;
    var s1, p := Leave(s, t), PriorityOf(s, t);
    DetachKeeps(s.store, Generic(t));
    if StateOf(s, t).list.Ready? {
      assert StateOf(s, t) == On(Ready(p));
      assert forall q: nat :: q != p ==> Items(s1, Ready(q)) == Items(s, Ready(q));
      assert s1.bits == if Items(s1, Ready(p)) == [] then s.bits - {p} else s.bits;
    } else {
      assert forall q: nat :: Items(s1, Ready(q)) == Items(s, Ready(q));
      assert s1.bits == s.bits;
    }
  }

  lemma LeaveMoves(s: State, t: Task)
    requires Consistent(s.store) && StateOf(s, t).On?
    ensures Consistent(Leave(s, t).store)
    ensures OnlyMoved(s, Leave(s, t), t, Nowhere)
    ensures Leave(s, t).nextUnblock == s.nextUnblock
    ensures forall l :: SortedList(s.store, l) ==> SortedList(Leave(s, t).store, l)
  {
    hide Consistent, SortedList;
    DetachKeeps(s.store, Generic(t));
    forall l | SortedList(s.store, l)
      ensures SortedList(Leave(s, t).store, l)
    {
      DetachKeepsSorted(s.store, Generic(t), l);
    }
  }

  lemma LeaveKeeps(s: State, t: Task, bound: int)
    requires CoreAt(s, bound) && StateOf(s, t).On?
    ensures CoreAt(Leave(s, t), bound)
    ensures OnlyMoved(s, Leave(s, t), t, Nowhere)
  {
    hide Consistent, SortedList, Leave;
    LeaveMarks(s, t);
    LeaveMoves(s, t);
    TimeFrame(s, Leave(s, t), bound);
  }

  lemma AddToReadyMoves(s: State, t: Task)
    requires Consistent(s.store) && StateOf(s, t) == Nowhere
    ensures Consistent(AddToReady(s, t).store)
    ensures OnlyMoved(s, AddToReady(s, t), t, On(Ready(PriorityOf(s, t))))
    ensures AddToReady(s, t).nextUnblock == s.nextUnblock
    ensures forall l: ListId :: l.Delayed? && SortedList(s.store, l) ==> SortedList(AddToReady(s, t).store, l)
    ensures forall q: nat :: q != PriorityOf(s, t) ==> Items(AddToReady(s, t), Ready(q)) == Items(s, Ready(q))
    ensures Items(AddToReady(s, t), Ready(PriorityOf(s, t))) != []
  {
    hide Consistent, SortedList;
    var l := Ready(PriorityOf(s, t));
    AttachKeeps(s.store, Generic(t), l, EndPosition(At(s.store, l)));
    forall m: ListId | m.Delayed? && SortedList(s.store, m)
      ensures SortedList(AddToReady(s, t).store, m)
    {
      AttachEndKeepsSorted(s.store, Generic(t), l, m);
    }
  }

  lemma AddToReadyKeeps(s: State, t: Task, bound: int)
    requires CoreAt(s, bound) && StateOf(s, t) == Nowhere && t in s.tcbs
    ensures CoreAt(AddToReady(s, t), bound)
    ensures OnlyMoved(s, AddToReady(s, t), t, On(Ready(PriorityOf(s, t))))
    ensures AddToReady(s, t).nextUnblock == s.nextUnblock
  {
    hide Consistent, SortedList, AttachEnd, Items;
    AddToReadyMoves(s, t);
    TimeFrame(s, AddToReady(s, t), bound);
  }

  lemma ReadiedIsReady(s: State, t: Task)
    requires Core(s) && StateOf(s, t) == Nowhere && t in s.tcbs
    ensures var s1 := AddToReady(s, t);
            && Core(s1) && OnlyMoved(s, s1, t, On(Ready(PriorityOf(s, t))))
            && PriorityOf(s, t) in s1.bits && s.top <= s1.top && forall q <- s1.bits :: q <= s1.top
  {
    hide Consistent, SortedList, TimeAt, OnlyMoved;
    AddToReadyKeeps(s, t, s.tick);
  }

  lemma PutAtEndKeeps(s: State, t: Task, l: ListId, bound: int)
    requires CoreAt(s, bound) && StateOf(s, t) == Nowhere
    requires l == Suspended || l == Termination
    ensures CoreAt(PutAtEnd(s, t, l), bound)
    ensures OnlyMoved(s, PutAtEnd(s, t, l), t, On(l))
    ensures PutAtEnd(s, t, l).nextUnblock == s.nextUnblock
    ensures |Items(PutAtEnd(s, t, l), l)| == |Items(s, l)| + 1
  {
    hide Consistent, SortedList;
    var s1 := PutAtEnd(s, t, l);
    AttachKeeps(s.store, Generic(t), l, EndPosition(At(s.store, l)));
    MarksFrame(s, s1);
    AttachEndKeepsSorted(s.store, Generic(t), l, CurrentDelayed(s));
    AttachEndKeepsSorted(s.store, Generic(t), l, OverflowDelayed(s));
    TimeFrame(s, s1, bound);
  }

  function DelayedListFor(s: State, wake: nat): ListId {
    if wake < s.tick then OverflowDelayed(s) else CurrentDelayed(s)
  }

  lemma AddToDelayedMoves(s: State, t: Task, wake: nat)
    requires Consistent(s.store) && StateOf(s, t) == Nowhere
    requires SortedList(s.store, CurrentDelayed(s)) && SortedList(s.store, OverflowDelayed(s))
    ensures Consistent(AddToDelayed(s, t, wake).store)
    ensures OnlyMoved(s, AddToDelayed(s, t, wake), t, On(DelayedListFor(s, wake)))
    ensures Value(AddToDelayed(s, t, wake).store, Generic(t)) == wake
    ensures SortedList(AddToDelayed(s, t, wake).store, CurrentDelayed(s))
    ensures SortedList(AddToDelayed(s, t, wake).store, OverflowDelayed(s))
    ensures forall l :: l != DelayedListFor(s, wake) ==> Items(AddToDelayed(s, t, wake), l) == Items(s, l)
  {
    hide Consistent, SortedList;
    var i, s1, l := Generic(t), AddToDelayed(s, t, wake), DelayedListFor(s, wake);
    var st := SetValue(s.store, i, wake);
    SetValueKeeps(s.store, i, wake);
    AttachKeeps(st, i, l, SortedPosition(st, i, l));
    forall m | m == CurrentDelayed(s) || m == OverflowDelayed(s)
      ensures SortedList(s1.store, m)
    {
      SetValueKeepsSorted(s.store, i, wake, m);
      AttachSortedKeepsSorted(st, i, m, l);
    }
  }

  lemma AddToDelayedKeeps(s: State, t: Task, wake: nat)
    requires Core(s) && StateOf(s, t) == Nowhere
    requires wake <= MAX_DELAY && wake != s.tick
    ensures Core(AddToDelayed(s, t, wake))
    ensures OnlyMoved(s, AddToDelayed(s, t, wake), t, On(DelayedListFor(s, wake)))
    ensures Value(AddToDelayed(s, t, wake).store, Generic(t)) == wake
  {
    hide Consistent, SortedList, AttachSorted;
    AddToDelayedMoves(s, t, wake);
    MarksFrame(s, AddToDelayed(s, t, wake));
  }

  lemma DropEventKeeps(s: State, t: Task, bound: int)
    requires CoreAt(s, bound)
    ensures CoreAt(DropEvent(s, t), bound)
    ensures DropEvent(s, t) == s.(store := DropEvent(s, t).store)
    ensures forall i :: Value(DropEvent(s, t).store, i) == Value(s.store, i)
    ensures forall i :: PlaceOf(DropEvent(s, t).store, i) == if i == Event(t) then Nowhere else PlaceOf(s.store, i)
    ensures forall l :: IsStateList(l) ==> At(DropEvent(s, t).store, l) == At(s.store, l)
  {
    var s1 := DropEvent(s, t);
    assert WaitOf(s, t).On? ==> !IsStateList(WaitOf(s, t).list);
    hide Consistent, SortedList;
    if WaitOf(s, t).On? {
      DetachKeeps(s.store, Event(t));
      DetachKeepsSorted(s.store, Event(t), CurrentDelayed(s));
      DetachKeepsSorted(s.store, Event(t), OverflowDelayed(s));
      MarksFrame(s, s1);
      TimeFrame(s, s1, bound);
    }
  }

  lemma TakeOffKeeps(s: State, t: Task, bound: int)
    requires CoreAt(s, bound) && StateOf(s, t).On? && !StateOf(s, t).list.Ready?
    ensures CoreAt(TakeOff(s, t), bound)
    ensures OnlyMoved(s, TakeOff(s, t), t, Nowhere)
    ensures TakeOff(s, t).nextUnblock == s.nextUnblock
    ensures |Items(TakeOff(s, t), StateOf(s, t).list)| == |Items(s, StateOf(s, t).list)| - 1
  {
    hide Consistent, SortedList;
    var s1 := TakeOff(s, t);
    DetachKeeps(s.store, Generic(t));
    DetachKeepsSorted(s.store, Generic(t), CurrentDelayed(s));
    DetachKeepsSorted(s.store, Generic(t), OverflowDelayed(s));
    MarksFrame(s, s1);
    TimeFrame(s, s1, bound);
  }

  // ---- Event items and priorities ----

  function PutEvent(s: State, t: Task, l: ListId, k: nat): State
    requires k <= |Items(s, l)|
  {
    s.(store := AttachAt(s.store, Event(t), l, k))
  }

  function SetEventValue(s: State, t: Task, v: nat): State {
    s.(store := SetValue(s.store, Event(t), v))
  }

  lemma PutEventKeeps(s: State, t: Task, l: ListId, k: nat, bound: int)
    requires CoreAt(s, bound) && WaitOf(s, t) == Nowhere
    requires !IsStateList(l) && k <= |Items(s, l)|
    ensures CoreAt(PutEvent(s, t, l, k), bound)
    ensures PutEvent(s, t, l, k) == s.(store := PutEvent(s, t, l, k).store)
    ensures forall i :: PlaceOf(PutEvent(s, t, l, k).store, i) == if i == Event(t) then On(l) else PlaceOf(s.store, i)
    ensures forall i :: Value(PutEvent(s, t, l, k).store, i) == Value(s.store, i)
    ensures forall m :: m != l ==> Items(PutEvent(s, t, l, k), m) == Items(s, m)
  {
    hide Consistent, SortedList, TimeAt;
    var s1 := PutEvent(s, t, l, k);
    AttachKeeps(s.store, Event(t), l, k);
    MarksFrame(s, s1);
    PutEventTime(s, s1, bound);
  }

  /** What is on the delayed lists has stayed as it was. */
  lemma PutEventTime(s: State, s1: State, bound: int)
    requires TimeAt(s, bound) && s1 == s.(store := s1.store)
    requires forall m: ListId :: m.Delayed? ==> At(s1.store, m) == At(s.store, m)
    requires forall i :: Value(s1.store, i) == Value(s.store, i)
    requires forall i, m: ListId :: m.Delayed? ==> (PlaceOf(s1.store, i) == On(m) <==> PlaceOf(s.store, i) == On(m))
    ensures TimeAt(s1, bound)
  {
    hide SortedList;
    SameSorted(s.store, s1.store);
    TimeFrame(s, s1, bound);
  }

  lemma SameSorted(st: Store, st': Store)
    requires forall m: ListId :: m.Delayed? ==> Values(st', At(st', m).items) == Values(st, At(st, m).items)
    ensures forall m: ListId :: m.Delayed? ==> SortedList(st', m) == SortedList(st, m)
  {
  }

  lemma SetEventValueKeeps(s: State, t: Task, v: nat, bound: int)
    requires CoreAt(s, bound)
    ensures CoreAt(SetEventValue(s, t, v), bound)
    ensures SetEventValue(s, t, v) == s.(store := SetEventValue(s, t, v).store)
    ensures forall i :: PlaceOf(SetEventValue(s, t, v).store, i) == PlaceOf(s.store, i)
    ensures forall i :: i != Event(t) ==> Value(SetEventValue(s, t, v).store, i) == Value(s.store, i)
    ensures forall l :: Items(SetEventValue(s, t, v), l) == Items(s, l)
  {
    var s1 := SetEventValue(s, t, v);
    assert forall l: ListId :: l.Delayed? ==> PlaceOf(s.store, Event(t)) != On(l);
    hide Consistent, SortedList;
    SetValueKeeps(s.store, Event(t), v);
    MarksFrame(s, s1);
    SetValueKeepsSorted(s.store, Event(t), v, CurrentDelayed(s));
    SetValueKeepsSorted(s.store, Event(t), v, OverflowDelayed(s));
    TimeFrame(s, s1, bound);
  }

  /** A priority may change while the task is on no ready list. */
  lemma SetTcbKeeps(s: State, t: Task, tcb: Tcb, bound: int)
    requires CoreAt(s, bound) && t in s.tcbs
    requires tcb.priority < PRIORITIES && tcb.basePriority < PRIORITIES
    requires tcb.priority == s.tcbs[t].priority || (StateOf(s, t).On? ==> !StateOf(s, t).list.Ready?)
    ensures CoreAt(s.(tcbs := s.tcbs[t := tcb]), bound)
  {
    hide Consistent, SortedList;
  }
}
