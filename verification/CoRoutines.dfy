/** The co-routine scheduler of croutine.c: ready lists, two lists of delayed co-routines, event
    lists, and a tick of its own that catches up with the kernel's whenever the scheduler runs. */
module CoRoutines {
  import opened RingList
  import opened Ticks
  import opened TimedLists

  const PRIORITIES: nat := 2               // configMAX_CO_ROUTINE_PRIORITIES

  type CoRoutine = nat
  type EventList = nat
  type Priority = p: nat | p < PRIORITIES
  type ReadyLists = r: seq<GoodRing<CoRoutine>> | |r| == PRIORITIES
    witness NoneReady()

  function NoneReady(): (r: seq<GoodRing<CoRoutine>>) {
    var none: GoodRing<CoRoutine> := Ring([], 0);
    seq(PRIORITIES, _ => none)
  }

  /** `clock` is the unbounded number of ticks processed; no decision reads it. */
  datatype State = State(
    priorities: map<CoRoutine, Priority>,
    ready: ReadyLists,                       // pxReadyCoRoutineLists
    delayed: seq<Entry>,                     // pxDelayedCoRoutineList
    overflow: seq<Entry>,                    // pxOverflowDelayedCoRoutineList
    pending: seq<CoRoutine>,                 // xPendingReadyCoRoutineList
    events: map<EventList, seq<CoRoutine>>,
    tick: nat,                               // xCoRoutineTickCount
    clock: nat,
    lastTick: nat,                           // xLastTickCount
    top: Priority,                           // uxTopCoRoutineReadyPriority
    current: CoRoutine)                      // pxCurrentCoRoutine

  function PriorityOf(s: State, c: CoRoutine): Priority {
    if c in s.priorities then s.priorities[c] else 0
  }

  predicate IsReady(s: State, c: CoRoutine) {
    c in s.ready[PriorityOf(s, c)].items
  }

  function Waiters(s: State, e: EventList): seq<CoRoutine> {
    if e in s.events then s.events[e] else []
  }

  function Minus(l: seq<CoRoutine>, c: CoRoutine): (r: seq<CoRoutine>)
    ensures |r| <= |l|
    ensures forall d :: d in r <==> d in l && d != c
    ensures c in l ==> |r| < |l|
  {
    if l == [] then [] else (if l[0] == c then [] else [l[0]]) + Minus(l[1..], c)
  }

  // ---- Moving one co-routine ----

  /** prvAddCoRoutineToReadyQueue */
  function AddReady(s: State, c: CoRoutine): State {
    var p := PriorityOf(s, c);
    s.(top := if p > s.top then p else s.top, ready := s.ready[p := InsertEnd(s.ready[p], c)])
  }

  /** uxListRemove on the generic item */
  function Unlist(s: State, c: CoRoutine): State {
    var p := PriorityOf(s, c);
    s.(delayed := Without(s.delayed, c), overflow := Without(s.overflow, c),
       ready := if c in s.ready[p].items then s.ready[p := Remove(s.ready[p], c)] else s.ready)
  }

  /** uxListRemove on the event item */
  function Forget(s: State, c: CoRoutine): State {
    s.(pending := Minus(s.pending, c), events := map e <- s.events :: Minus(s.events[e], c))
  }

  /** The event item values of the waiters: most urgent first. */
  function EventValues(s: State, waiters: seq<CoRoutine>): (v: seq<nat>)
    ensures |v| == |waiters|
    ensures forall i :: 0 <= i < |v| ==> v[i] == PRIORITIES - PriorityOf(s, waiters[i])
  {
    seq(|waiters|, i requires 0 <= i < |waiters| => PRIORITIES - PriorityOf(s, waiters[i]))
  }

  function Await(s: State, c: CoRoutine, e: EventList): State {
    var w := Waiters(s, e);
    var k := InsertPosition(EventValues(s, w), PRIORITIES - PriorityOf(s, c));
    s.(events := s.events[e := w[..k] + [c] + w[k..]])
  }

  // ---- The operations ----

  function CreateAs(s: State, c: CoRoutine, priority: nat): State {
    var p: Priority := if priority >= PRIORITIES then PRIORITIES - 1 else priority;
    AddReady(s.(priorities := s.priorities[c := p], current := if s.priorities == map[] then c else s.current), c)
  }

  datatype Waiting = NoEvent | For(event: EventList)

  /** vCoRoutineAddToDelayedList, up to the event */
  function Sleep(s: State, d: nat): State {
    var wake := Wrap(s.tick + d);
    var s1 := Unlist(s, s.current);
    var entry := Entry(s.current, wake, s.clock + d);
    if wake < s.tick then s1.(overflow := Inserted(s1.overflow, entry)) else s1.(delayed := Inserted(s1.delayed, entry))
  }

  /** vCoRoutineAddToDelayedList */
  function Delay(s: State, d: nat, what: Waiting): State {
    var s1 := Sleep(s, d);
    if what.For? then Await(s1, s.current, what.event) else s1
  }

  /** xCoRoutineRemoveFromEventList: the state, and whether the one readied is as urgent as the caller */
  function Signal(s: State, e: EventList): (State, bool)
    requires Waiters(s, e) != []
  {
    var c := Waiters(s, e)[0];
    var s1 := Forget(s, c);
    (s1.(pending := s1.pending + [c]), PriorityOf(s, c) >= PriorityOf(s, s.current))
  }

  function MovePending(s: State): State
    requires s.pending != []
  {
    var c := s.pending[0];
    AddReady(Unlist(Forget(s, c), c), c)
  }

  /** prvCheckPendingReadyList */
  function CheckPending(s: State): State
    decreases |s.pending|
  {
    if s.pending == [] then s else CheckPending(MovePending(s))
  }

  function WakeHead(s: State): State
    requires s.delayed != []
  {
    var c := s.delayed[0].owner;
    AddReady(Forget(s.(delayed := s.delayed[1..]), c), c)
  }

  function WakeDue(s: State): State
    decreases |s.delayed|
  {
    if s.delayed == [] || s.tick < s.delayed[0].value then s else WakeDue(WakeHead(s))
  }

  /** The tick goes up, and the delayed lists are swapped when it wraps. */
  function Advanced(s: State): State {
    var s1 := s.(tick := Wrap(s.tick + 1), clock := s.clock + 1);
    if s1.tick == 0 then s1.(delayed := s1.overflow, overflow := s1.delayed) else s1
  }

  /** One turn of the loop of prvCheckDelayedList */
  function Tick(s: State): State {
    WakeDue(Advanced(s))
  }

  function CatchUp(s: State, n: nat): State
    decreases n
  {
    if n == 0 then s else Tick(CatchUp(s, n - 1))
  }

  /** prvCheckDelayedList at the unbounded kernel time `now` */
  function CheckDelayed(s: State, now: nat): State {
    var s1 := CatchUp(s, Wrap(Wrap(now) - s.lastTick));
    s1.(lastTick := s1.tick)
  }

  /** The scan for the highest priority with a ready co-routine */
  function Lowered(ready: ReadyLists, top: Priority): (t: Priority)
    ensures t <= top
    ensures ready[t].items != [] || t == 0
    ensures forall p :: t < p <= top ==> ready[p].items == []
  {
    if ready[top].items != [] || top == 0 then top else Lowered(ready, top - 1)
  }

  function Select(s: State): State {
    var t := Lowered(s.ready, s.top);
    if s.ready[t].items == [] then s.(top := t)
    else
      var r := Advance(s.ready[t]);
      s.(top := t, ready := s.ready[t := r], current := RingList.Current(r))
  }

  /** vCoRoutineSchedule, up to the call of the co-routine */
  function Schedule(s: State, now: nat): State {
    Select(CheckDelayed(CheckPending(s), now))
  }

  datatype Step =
    | Create(routine: CoRoutine, priority: nat)
    | DelaySelf(ticks: nat, what: Waiting)      // by the co-routine that runs
    | SignalEvent(event: EventList)             // by an interrupt or the co-routine that runs
    | RunScheduler(now: nat)

  /** A co-routine delays itself while it runs, by at least a tick and less than a turn of the
      tick; an event is signalled only to a list that is not empty; and the scheduler is called at
      least once every turn of the tick. */
  predicate Allowed(s: State, step: Step) {
    match step
    case Create(c, _) => c !in s.priorities
    case DelaySelf(d, _) => 0 < d < TICKS && s.current in s.priorities && IsReady(s, s.current)
    case SignalEvent(e) => Waiters(s, e) != []
    case RunScheduler(now) => s.clock <= now < s.clock + TICKS
  }

  function Apply(s: State, step: Step): State
    requires Allowed(s, step)
  {
    match step
    case Create(c, p) => CreateAs(s, c, p)
    case DelaySelf(d, what) => Delay(s, d, what)
    case SignalEvent(e) => Signal(s, e).0
    case RunScheduler(now) => Schedule(s, now)
  }

  function Initial(): State {
    State(map[], NoneReady(), [], [], [], map[], 0, 0, 0, 0, 0)
  }
}
