/** Event groups (event_groups.c): bits that tasks set, clear and wait for.  What a task waits for
    is kept in the value of its event list item, with control bits in the top byte. */
module EventGroups {
  import opened RingList
  import opened Words

  type Task = nat

  const CLEAR_ON_EXIT: nat := 24                       // eventCLEAR_EVENTS_ON_EXIT_BIT
  const UNBLOCKED: nat := 25                           // eventUNBLOCKED_DUE_TO_BIT_SET
  const WAIT_FOR_ALL: nat := 26                        // eventWAIT_FOR_ALL_BITS
  const IN_USE: nat := 31                              // taskEVENT_LIST_ITEM_VALUE_IN_USE
  const CONTROL: Word := {24, 25, 26, 27, 28, 29, 30, 31}   // eventEVENT_BITS_CONTROL_BYTES

  /** `woken` are the tasks that have been made ready, in order; nothing reads it. */
  datatype Group = Group(bits: Word, waiting: seq<Task>, values: map<Task, Word>, woken: seq<Task>)

  function ValueOf(values: map<Task, Word>, t: Task): Word {
    if t in values then values[t] else {}
  }

  /** prvTestWaitCondition */
  predicate WaitConditionMet(bits: Word, mask: Word, all: bool) {
    if all then mask <= bits else mask * bits != {}
  }

  /** Whether the bits meet what an item value asks for. */
  predicate Satisfied(bits: Word, value: Word) {
    WaitConditionMet(bits, value - CONTROL, WAIT_FOR_ALL in value)
  }

  /** The item value of a task that blocks. */
  function Encode(mask: Word, clear: bool, all: bool): Word {
    mask + (if clear then {CLEAR_ON_EXIT} else {}) + (if all then {WAIT_FOR_ALL} else {}) + {IN_USE}
  }

  /** The item value of a task that has been unblocked. */
  function Notice(bits: Word): Word {
    bits + {UNBLOCKED, IN_USE}
  }

  function Kept(waiting: seq<Task>, values: map<Task, Word>, bits: Word): seq<Task> {
    if waiting == [] then []
    else if Satisfied(bits, ValueOf(values, waiting[0])) then Kept(waiting[1..], values, bits)
    else [waiting[0]] + Kept(waiting[1..], values, bits)
  }

  function Unblocks(waiting: seq<Task>, values: map<Task, Word>, bits: Word): seq<Task> {
    if waiting == [] then []
    else if Satisfied(bits, ValueOf(values, waiting[0])) then [waiting[0]] + Unblocks(waiting[1..], values, bits)
    else Unblocks(waiting[1..], values, bits)
  }

  /** The bits that one unblocked task wants cleared. */
  function ToClear(value: Word): Word {
    if CLEAR_ON_EXIT in value then value - CONTROL else {}
  }

  function Clears(waiting: seq<Task>, values: map<Task, Word>, bits: Word): Word {
    if waiting == [] then {}
    else (if Satisfied(bits, ValueOf(values, waiting[0])) then ToClear(ValueOf(values, waiting[0])) else {})
         + Clears(waiting[1..], values, bits)
  }

  function Marked(values: map<Task, Word>, tasks: seq<Task>, value: Word): map<Task, Word>
    decreases |tasks|
  {
    if tasks == [] then values else Marked(values[tasks[0] := value], tasks[1..], value)
  }

  /** xEventGroupSetBits */
  function SetBits(g: Group, set_: Word): Group {
    var bits := g.bits + set_;
    var unblocked := Unblocks(g.waiting, g.values, bits);
    Group(bits - Clears(g.waiting, g.values, bits), Kept(g.waiting, g.values, bits),
          Marked(g.values, unblocked, Notice(bits)), g.woken + unblocked)
  }

  /** xEventGroupClearBits */
  function ClearBits(g: Group, clear: Word): Group {
    g.(bits := g.bits - clear)
  }

  /** vEventGroupDelete: every waiting task is unblocked, and handed no bits. */
  function Deleted(g: Group): Group {
    Group(g.bits, [], Marked(g.values, g.waiting, Notice({})), g.woken + g.waiting)
  }

  /** vTaskPlaceOnUnorderedEventList: to the end of the list, when the walking index is at its end marker */
  function Block(g: Group, t: Task, mask: Word, clear: bool, all: bool): Group {
    g.(waiting := g.waiting + [t], values := g.values[t := Encode(mask, clear, all)])
  }

  // ---- What setting bits does ----

  lemma {:induction false} KeptExactly(waiting: seq<Task>, values: map<Task, Word>, bits: Word)
    ensures forall t :: t in Kept(waiting, values, bits) <==> t in waiting && !Satisfied(bits, ValueOf(values, t))
    ensures forall t :: t in Unblocks(waiting, values, bits) <==> t in waiting && Satisfied(bits, ValueOf(values, t))
    ensures NoDup(waiting) ==> NoDup(Kept(waiting, values, bits)) && NoDup(Unblocks(waiting, values, bits))
    ensures |Kept(waiting, values, bits)| + |Unblocks(waiting, values, bits)| == |waiting|
  {
    hide Satisfied;
    if waiting != [] {
      KeptExactly(waiting[1..], values, bits);
      assert NoDup(waiting) ==> NoDup(waiting[1..]) && waiting[0] !in waiting[1..];
    }
  }

  lemma {:induction false} MarkedValues(values: map<Task, Word>, tasks: seq<Task>, value: Word)
    ensures forall t :: ValueOf(Marked(values, tasks, value), t) == if t in tasks then value else ValueOf(values, t)
    ensures forall t :: t in Marked(values, tasks, value) <==> t in tasks || t in values
    decreases |tasks|
  {
    if tasks != [] {
      MarkedValues(values[tasks[0] := value], tasks[1..], value);
    }
  }

  /** The union of the masks of the unblocked tasks that clear on exit. */
  lemma {:induction false} ClearsExactly(waiting: seq<Task>, values: map<Task, Word>, bits: Word)
    ensures forall p :: p in Clears(waiting, values, bits) <==>
              exists t :: t in waiting && Satisfied(bits, ValueOf(values, t)) && p in ToClear(ValueOf(values, t))
  {
    hide Satisfied, ToClear;
    if waiting != [] {
      ClearsExactly(waiting[1..], values, bits);
      forall p
        ensures p in Clears(waiting, values, bits) <==>
                  exists t :: t in waiting && Satisfied(bits, ValueOf(values, t)) && p in ToClear(ValueOf(values, t))
      {
        assert forall t :: t in waiting <==> t == waiting[0] || t in waiting[1..];
      }
    }
  }

  /** Setting bits unblocks exactly the tasks that are satisfied by the old and new bits together, in the
      order of the list, and hands each of them that same value; the others stay; and the bits left are
      those together, minus the masks of the unblocked tasks that clear on exit. */
  lemma SetBitsLists(g: Group, set_: Word)
    requires NoDup(g.waiting)
    ensures var g1, bits := SetBits(g, set_), g.bits + set_;
            && (forall t :: t in g1.waiting <==> t in g.waiting && !Satisfied(bits, ValueOf(g.values, t)))
            && (forall t <- g.waiting :: ValueOf(g1.values, t) ==
                  if Satisfied(bits, ValueOf(g.values, t)) then Notice(bits) else ValueOf(g.values, t))
            && (forall t :: t !in g.waiting ==> ValueOf(g1.values, t) == ValueOf(g.values, t))
            && (forall p :: p in g1.bits <==>
                  (p in bits && !exists t ::
                                   t in g.waiting && Satisfied(bits, ValueOf(g.values, t))
                                   && p in ToClear(ValueOf(g.values, t))))
            && |g1.woken| == |g.woken| + |g.waiting| - |g1.waiting|
  {
    hide Satisfied, ToClear;
    var bits := g.bits + set_;
    KeptExactly(g.waiting, g.values, bits);
    MarkedValues(g.values, Unblocks(g.waiting, g.values, bits), Notice(bits));
    ClearsExactly(g.waiting, g.values, bits);
  }

  /** The same by what the item values say: the low bits are the mask, and a control bit tells whether one
      of them is enough. */
  lemma SetBitsByValue(g: Group, set_: Word)
    requires NoDup(g.waiting)
    ensures forall t <- g.waiting ::
              var mask, all := ValueOf(g.values, t) - CONTROL, g.bits + set_;
              t in SetBits(g, set_).waiting <==>
                if WAIT_FOR_ALL in ValueOf(g.values, t) then !(mask <= all) else mask * all == {}
    ensures forall t :: t in SetBits(g, set_).waiting ==> t in g.waiting
  {
    hide SetBits;
    SetBitsLists(g, set_);
  }

  /** `a` comes before `b`. */
  predicate Before(tasks: seq<Task>, a: Task, b: Task) {
    exists i, j :: 0 <= i < j < |tasks| && tasks[i] == a && tasks[j] == b
  }

  lemma BeforeRest(tasks: seq<Task>, a: Task, b: Task)
    requires tasks != []
    ensures Before(tasks, a, b) <==> (a == tasks[0] && b in tasks[1..]) || Before(tasks[1..], a, b)
  {
    var rest := tasks[1..];
    if Before(tasks, a, b) {
      var i, j :| 0 <= i < j < |tasks| && tasks[i] == a && tasks[j] == b;
      assert rest[j - 1] == b;
      assert i > 0 ==> rest[i - 1] == a;
    }
    if Before(rest, a, b) {
      var i, j :| 0 <= i < j < |rest| && rest[i] == a && rest[j] == b;
      assert tasks[i + 1] == a && tasks[j + 1] == b;
    }
    if a == tasks[0] && b in rest {
      var j := IndexOf(rest, b);
      assert tasks[j + 1] == b;
    }
  }

  /** Both those who stay and those who are unblocked keep their order. */
  lemma {:induction false} OrderKept(waiting: seq<Task>, values: map<Task, Word>, bits: Word, a: Task, b: Task)
    ensures Before(Kept(waiting, values, bits), a, b) ==> Before(waiting, a, b)
    ensures Before(Unblocks(waiting, values, bits), a, b) ==> Before(waiting, a, b)
  {
    hide Satisfied, Before;
    if waiting == [] {
      assert !Before([], a, b) by { NothingBefore(a, b); }
    } else {
      var t, rest := waiting[0], waiting[1..];
      OrderKept(rest, values, bits, a, b);
      KeptExactly(rest, values, bits);
      BeforeRest(waiting, a, b);
      var kept, unblocked := Kept(rest, values, bits), Unblocks(rest, values, bits);
      BeforeRest([t] + kept, a, b);
      BeforeRest([t] + unblocked, a, b);
      assert ([t] + kept)[1..] == kept && ([t] + unblocked)[1..] == unblocked;
    }
  }

  lemma NothingBefore(a: Task, b: Task)
    ensures !Before([], a, b)
  {
  }

  /** A task whose condition is not met by some bits is not satisfied by fewer. */
  lemma FewerBits(more: Word, fewer: Word, value: Word)
    requires fewer <= more && !Satisfied(more, value)
    ensures !Satisfied(fewer, value)
  {
  }

  // ---- Calls in progress ----

  /** What a blocked call waits for: xEventGroupSync waits for all of its bits and clears them. */
  datatype Call = Call(mask: Word, clear: bool, all: bool)

  /** `calls` are the tasks inside a blocking call, `returned` what calls have returned; `deleted` is
      whether the group has been deleted.  The code keeps none of these. */
  datatype State = State(group: Group, calls: map<Task, Call>, returned: map<Task, Word>, deleted: bool)

  datatype Step =
    | Set(set_: Word)
    | Clear(bits: Word)
    | WaitBits(task: Task, mask: Word, clear: bool, all: bool, patient: bool)
    | Sync(task: Task, set_: Word, mask: Word, patient: bool)
    | Expire(task: Task)       // a waiting task times out
    | Finish(task: Task)       // a task that has blocked runs again
    | Delete

  predicate NoControl(w: Word) {
    w !! CONTROL
  }

  /** What each operation asks of its caller.  Nobody may use a group that has been deleted: what is
      left are the tasks that the deletion, or bits set before it, have unblocked. */
  predicate Allowed(s: State, step: Step) {
    match step
    case Set(set_) => NoControl(set_) && !s.deleted
    case Clear(clear) => NoControl(clear) && !s.deleted
    case WaitBits(t, mask, _, _, _) => NoControl(mask) && mask != {} && t !in s.calls && !s.deleted
    case Sync(t, set_, mask, _) => NoControl(set_) && NoControl(mask) && mask != {} && t !in s.calls && !s.deleted
    case Expire(t) => t in s.group.waiting
    case Finish(t) => t in s.calls && t !in s.group.waiting && (s.deleted ==> UNBLOCKED in ValueOf(s.group.values, t))
    case Delete => !s.deleted
  }

  function Return(s: State, t: Task, value: Word): State {
    s.(calls := s.calls - {t}, returned := s.returned[t := value])
  }

  function DoWaitBits(s: State, t: Task, call: Call, patient: bool): State {
    var g := s.group;
    if WaitConditionMet(g.bits, call.mask, call.all) then
      Return(s.(group := if call.clear then ClearBits(g, call.mask) else g), t, g.bits)
    else if !patient then Return(s, t, g.bits)
    else s.(group := Block(g, t, call.mask, call.clear, call.all), calls := s.calls[t := call])
  }

  function DoSync(s: State, t: Task, set_: Word, mask: Word, patient: bool): State {
    var original := s.group.bits;
    var g := SetBits(s.group, set_);
    if mask <= original + set_ then Return(s.(group := ClearBits(g, mask)), t, original + set_)
    else if !patient then Return(s.(group := g), t, g.bits)
    else s.(group := Block(g, t, mask, true, true), calls := s.calls[t := Call(mask, true, true)])
  }

  /** The item is reset to its normal value, which is of no concern here. */
  function DoFinish(s: State, t: Task): State
    requires t in s.calls
  {
    var call, value, bits := s.calls[t], ValueOf(s.group.values, t), s.group.bits;
    if UNBLOCKED in value then Return(s, t, value - CONTROL)
    else if WaitConditionMet(bits, call.mask, call.all) && call.clear then
      Return(s.(group := ClearBits(s.group, call.mask)), t, bits - CONTROL)
    else Return(s, t, bits - CONTROL)
  }

  function Leaves(waiting: seq<Task>, t: Task): seq<Task> {
    if t in waiting then Remove(Ring(waiting, 0), t).items else waiting
  }

  function Apply(s: State, step: Step): State
    requires Allowed(s, step)
  {
    match step
    case Set(set_) => s.(group := SetBits(s.group, set_))
    case Clear(clear) => s.(group := ClearBits(s.group, clear))
    case WaitBits(t, mask, clear, all, patient) => DoWaitBits(s, t, Call(mask, clear, all), patient)
    case Sync(t, set_, mask, patient) => DoSync(s, t, set_, mask, patient)
    case Expire(t) => s.(group := s.group.(waiting := Leaves(s.group.waiting, t)))
    case Finish(t) => DoFinish(s, t)
    case Delete => s.(group := Deleted(s.group), deleted := true)
  }

  // ---- The invariant ----

  /** A waiting task is inside a call, its item value says what it waits for, and the bits do not
      give it that. */
  ghost predicate WaiterOk(s: State, t: Task) {
    && t in s.calls && NoControl(s.calls[t].mask)
    && ValueOf(s.group.values, t) == Encode(s.calls[t].mask, s.calls[t].clear, s.calls[t].all)
    && !Satisfied(s.group.bits, ValueOf(s.group.values, t))
  }

  ghost predicate Good(s: State) {
    && NoDup(s.group.waiting) && NoControl(s.group.bits)
    && forall t <- s.group.waiting :: WaiterOk(s, t)
  }

  /** What is put into an item value, bit by bit, and what is read back from it.  Bit 31 keeps the scheduler
      from changing the value with the task's priority. */
  lemma EncodeDecodes(mask: Word, clear: bool, all: bool)
    requires NoControl(mask)
    ensures Encode(mask, clear, all) == mask + (if clear then {24} else {}) + (if all then {26} else {}) + {31}
    ensures Encode(mask, clear, all) - CONTROL == mask
    ensures WAIT_FOR_ALL in Encode(mask, clear, all) <==> all
    ensures CLEAR_ON_EXIT in Encode(mask, clear, all) <==> clear
    ensures UNBLOCKED !in Encode(mask, clear, all)
    ensures forall bits ::
              Satisfied(bits, Encode(mask, clear, all)) <==> if all then mask <= bits else mask * bits != {}
  {
    assert (mask + {IN_USE}) - CONTROL == mask;
    assert Encode(mask, clear, all) - CONTROL == mask;
  }

  lemma NoticeDecodes(bits: Word)
    requires NoControl(bits)
    ensures Notice(bits) - CONTROL == bits && UNBLOCKED in Notice(bits) && Notice(bits) == bits + {25, 31}
  {
  }

  /** Fewer bits keep everybody waiting who waits. */
  lemma FewerKeeps(s: State, fewer: Word)
    requires Good(s) && fewer <= s.group.bits
    ensures Good(s.(group := s.group.(bits := fewer)))
  {
    hide Satisfied, NoDup;
    forall t | t in s.group.waiting
      ensures WaiterOk(s.(group := s.group.(bits := fewer)), t)
    {
      assert WaiterOk(s, t);
      FewerBits(s.group.bits, fewer, ValueOf(s.group.values, t));
    }
  }

  lemma SetKeeps(s: State, set_: Word)
    requires Good(s) && NoControl(set_)
    ensures Good(s.(group := SetBits(s.group, set_)))
    ensures SetBits(s.group, set_).bits <= s.group.bits + set_
  {
    hide Satisfied, NoDup, SetBits;
    SetBitsLists(s.group, set_);
    SetBitsFewer(s.group, set_);
    var g := SetBits(s.group, set_);
    forall t | t in g.waiting
      ensures WaiterOk(s.(group := g), t)
    {
      assert WaiterOk(s, t);
      FewerBits(s.group.bits + set_, g.bits, ValueOf(s.group.values, t));
    }
  }

  lemma SetBitsFewer(g: Group, set_: Word)
    requires NoDup(g.waiting)
    ensures NoDup(SetBits(g, set_).waiting) && SetBits(g, set_).bits <= g.bits + set_
  {
    KeptExactly(g.waiting, g.values, g.bits + set_);
  }

  lemma BlockKeeps(s: State, t: Task, call: Call)
    requires Good(s) && t !in s.group.waiting && NoControl(call.mask)
    requires !WaitConditionMet(s.group.bits, call.mask, call.all)
    ensures Good(s.(group := Block(s.group, t, call.mask, call.clear, call.all), calls := s.calls[t := call]))
  {
    EncodeDecodes(call.mask, call.clear, call.all);
    hide Satisfied, WaitConditionMet, Encode;
    var s1 := s.(group := Block(s.group, t, call.mask, call.clear, call.all), calls := s.calls[t := call]);
    forall u | u in s1.group.waiting
      ensures WaiterOk(s1, u)
    {
      if u != t { assert WaiterOk(s, u); }
    }
  }

  lemma ReturnKeeps(s: State, t: Task, value: Word)
    requires Good(s) && t !in s.group.waiting
    ensures Good(Return(s, t, value))
  {
    hide Satisfied, NoDup;
    forall u | u in s.group.waiting
      ensures WaiterOk(Return(s, t, value), u)
    {
      assert WaiterOk(s, u);
    }
  }

  /** A task outside any call does not wait. */
  lemma OutsideDoesNotWait(s: State, t: Task)
    requires Good(s) && t !in s.calls
    ensures t !in s.group.waiting && t !in SetBits(s.group, {}).waiting
  {
    KeptExactly(s.group.waiting, s.group.values, s.group.bits + {});
    assert forall u <- s.group.waiting :: WaiterOk(s, u);
  }

  lemma WaitKeeps(s: State, t: Task, call: Call, patient: bool)
    requires Good(s) && t !in s.calls && NoControl(call.mask)
    ensures Good(DoWaitBits(s, t, call, patient))
  {
    hide Good, WaitConditionMet;
    OutsideDoesNotWait(s, t);
    if WaitConditionMet(s.group.bits, call.mask, call.all) {
      FewerKeeps(s, s.group.bits - call.mask);
      ReturnKeeps(s.(group := ClearBits(s.group, call.mask)), t, s.group.bits);
      ReturnKeeps(s, t, s.group.bits);
    } else if patient {
      BlockKeeps(s, t, call);
    } else {
      ReturnKeeps(s, t, s.group.bits);
    }
  }

  lemma SyncKeeps(s: State, t: Task, set_: Word, mask: Word, patient: bool)
    requires Good(s) && t !in s.calls && NoControl(set_) && NoControl(mask)
    ensures Good(DoSync(s, t, set_, mask, patient))
  {
    hide Good, SetBits;
    SetKeeps(s, set_);
    var s1 := s.(group := SetBits(s.group, set_));
    OutsideDoesNotWait(s1, t);
    if mask <= s.group.bits + set_ {
      FewerKeeps(s1, s1.group.bits - mask);
      ReturnKeeps(s1.(group := ClearBits(s1.group, mask)), t, s.group.bits + set_);
    } else if patient {
      BlockKeeps(s1, t, Call(mask, true, true));
    } else {
      ReturnKeeps(s1, t, s1.group.bits);
    }
  }

  lemma ExpireKeeps(s: State, t: Task)
    requires Good(s) && t in s.group.waiting
    ensures Good(s.(group := s.group.(waiting := Leaves(s.group.waiting, t))))
    ensures t !in Leaves(s.group.waiting, t)
  {
    hide Satisfied;
    RemoveAtMembers(Ring(s.group.waiting, 0), IndexOf(s.group.waiting, t));
    var s1 := s.(group := s.group.(waiting := Leaves(s.group.waiting, t)));
    forall u | u in s1.group.waiting
      ensures WaiterOk(s1, u)
    {
      assert WaiterOk(s, u);
    }
  }

  lemma FinishKeeps(s: State, t: Task)
    requires Good(s) && t in s.calls && t !in s.group.waiting
    ensures Good(DoFinish(s, t))
  {
    hide Good;
    var call := s.calls[t];
    FewerKeeps(s, s.group.bits - call.mask);
    ReturnKeeps(s, t, ValueOf(s.group.values, t) - CONTROL);
    ReturnKeeps(s, t, s.group.bits - CONTROL);
    ReturnKeeps(s.(group := ClearBits(s.group, call.mask)), t, s.group.bits - CONTROL);
  }

  lemma StepKeeps(s: State, step: Step)
    requires Good(s) && Allowed(s, step)
    ensures Good(Apply(s, step))
  {
    hide WaiterOk, SetBits, DoWaitBits, DoSync, DoFinish, Leaves, Marked;
    match step
    case Set(set_) => SetKeeps(s, set_);
    case Clear(clear) => FewerKeeps(s, s.group.bits - clear);
    case WaitBits(t, mask, clear, all, patient) => WaitKeeps(s, t, Call(mask, clear, all), patient);
    case Sync(t, set_, mask, patient) => SyncKeeps(s, t, set_, mask, patient);
    case Expire(t) => ExpireKeeps(s, t);
    case Finish(t) => FinishKeeps(s, t);
    case Delete =>
  }

  // ---- Runs ----

  predicate Permitted(s: State, steps: seq<Step>)
    decreases |steps|
  {
    steps == [] || (Allowed(s, steps[0]) && Permitted(Apply(s, steps[0]), steps[1..]))
  }

  function Run(s: State, steps: seq<Step>): State
    requires Permitted(s, steps)
    decreases |steps|
  {
    if steps == [] then s else Run(Apply(s, steps[0]), steps[1..])
  }

  function Initial(): State {
    State(Group({}, [], map[], []), map[], map[], false)
  }

  lemma {:induction false} RunKeeps(s: State, steps: seq<Step>)
    requires Good(s) && Permitted(s, steps)
    ensures Good(Run(s, steps))
    decreases |steps|
  {
    hide Good, Apply, Allowed;
    if steps != [] {
      StepKeeps(s, steps[0]);
      RunKeeps(Apply(s, steps[0]), steps[1..]);
    }
  }

  /** What a task on the list waits for, and that the bits do not give it: not all of its bits are set, or
      none of them is. */
  lemma WaitsInVain(s: State, t: Task)
    requires Good(s) && t in s.group.waiting
    ensures t in s.calls
    ensures if s.calls[t].all then !(s.calls[t].mask <= s.group.bits) else s.calls[t].mask * s.group.bits == {}
  {
    hide Encode;
    assert WaiterOk(s, t);
    EncodeDecodes(s.calls[t].mask, s.calls[t].clear, s.calls[t].all);
  }

  /** After every operation, in any history, a task that waits for all of its bits lacks one of them, and
      a task that waits for any of its bits has none. */
  lemma NobodyWaitsForWhatIsSet(steps: seq<Step>)
    requires Permitted(Initial(), steps)
    ensures var s := Run(Initial(), steps);
            forall t <- s.group.waiting ::
              && t in s.calls
              && if s.calls[t].all then !(s.calls[t].mask <= s.group.bits) else s.calls[t].mask * s.group.bits == {}
  {
    hide Run, Permitted, Good, Satisfied;
    InitialIsGood();
    RunKeeps(Initial(), steps);
    var s := Run(Initial(), steps);
    forall t | t in s.group.waiting
      ensures t in s.calls
      ensures if s.calls[t].all then !(s.calls[t].mask <= s.group.bits) else s.calls[t].mask * s.group.bits == {}
    {
      WaitsInVain(s, t);
    }
  }

  lemma InitialIsGood()
    ensures Good(Initial())
  {
  }

  // ---- What the calls do ----

  /** One waiting task, when bits are set. */
  lemma SetForOne(s: State, set_: Word, t: Task)
    requires Good(s) && t in s.group.waiting
    ensures var s1, all, call := s.(group := SetBits(s.group, set_)), s.group.bits + set_, s.calls[t];
            var met := if call.all then call.mask <= all else call.mask * all != {};
            && (Satisfied(all, ValueOf(s.group.values, t)) <==> met)
            && (t in s1.group.waiting <==> !met)
            && (met ==> ValueOf(s1.group.values, t) == Notice(all))
            && (!met ==> ValueOf(s1.group.values, t) == ValueOf(s.group.values, t))
            && (met ==> ToClear(ValueOf(s.group.values, t)) == if call.clear then call.mask else {})
    ensures t in s.calls
  {
    hide Encode, SetBits, NoDup, Notice;
    assert WaiterOk(s, t);
    EncodeDecodes(s.calls[t].mask, s.calls[t].clear, s.calls[t].all);
    SetBitsLists(s.group, set_);
  }

  /** Setting bits takes a task off the list exactly when it waits for all of its bits and all are set
      now, or waits for any of them and one is; each is handed all bits as they then are, before any is
      cleared; tasks that stay and tasks that are unblocked keep their order; and of the old and new
      bits those are cleared that an unblocked task asked to clear. */
  lemma SetBitsExactly(s: State, set_: Word)
    requires Good(s) && Allowed(s, Set(set_))
    ensures forall t <- s.group.waiting :: t in s.calls
    ensures var g, g1, all := s.group, Apply(s, Set(set_)).group, s.group.bits + set_;
            && Apply(s, Set(set_)) == s.(group := g1)
            && (forall t <- g.waiting :: t in g1.waiting <==>
                  if s.calls[t].all then !(s.calls[t].mask <= all) else s.calls[t].mask * all == {})
            && (forall t <- g1.waiting :: t in g.waiting && ValueOf(g1.values, t) == ValueOf(g.values, t))
            && (forall t <- g.waiting :: t !in g1.waiting ==>
                  UNBLOCKED in ValueOf(g1.values, t) && ValueOf(g1.values, t) - CONTROL == all)
            && (forall t :: t !in g.waiting ==> ValueOf(g1.values, t) == ValueOf(g.values, t))
            && (forall p :: p in g1.bits <==>
                  p in all && !exists t ::
                                 t in g.waiting && t !in g1.waiting && s.calls[t].clear && p in s.calls[t].mask)
            && (forall a, b :: Before(g1.waiting, a, b) ==> Before(g.waiting, a, b))
            && g.woken <= g1.woken
            && (forall t :: t in g1.woken[|g.woken|..] <==> t in g.waiting && t !in g1.waiting)
            && (forall a, b :: Before(g1.woken[|g.woken|..], a, b) ==> Before(g.waiting, a, b))
            && |g1.woken| == |g.woken| + |g.waiting| - |g1.waiting|
  {
    hide SetBits, Satisfied, ToClear, Notice, NoDup, WaiterOk, Before;
    var g, g1, all := s.group, SetBits(s.group, set_), s.group.bits + set_;
    SetBitsLists(g, set_);
    NoticeDecodes(all);
    forall t | t in g.waiting
      ensures t in s.calls
      ensures t in g1.waiting <==>
                if s.calls[t].all then !(s.calls[t].mask <= all) else s.calls[t].mask * all == {}
      ensures t !in g1.waiting ==> UNBLOCKED in ValueOf(g1.values, t) && ValueOf(g1.values, t) - CONTROL == all
      ensures t !in g1.waiting ==>
                ToClear(ValueOf(g.values, t)) == if s.calls[t].clear then s.calls[t].mask else {}
    {
      SetForOne(s, set_, t);
    }
    WokenNow(g, set_);
    forall a, b
      ensures Before(g1.waiting, a, b) || Before(g1.woken[|g.woken|..], a, b) ==> Before(g.waiting, a, b)
    {
      InOrder(g, set_, a, b);
    }
  }

  lemma WokenNow(g: Group, set_: Word)
    requires NoDup(g.waiting)
    ensures var g1 := SetBits(g, set_);
            && g.woken <= g1.woken
            && forall t :: t in g1.woken[|g.woken|..] <==> t in g.waiting && t !in g1.waiting
  {
    hide Satisfied, NoDup;
    KeptExactly(g.waiting, g.values, g.bits + set_);
    assert SetBits(g, set_).woken[|g.woken|..] == Unblocks(g.waiting, g.values, g.bits + set_);
  }

  lemma InOrder(g: Group, set_: Word, a: Task, b: Task)
    ensures var g1 := SetBits(g, set_);
            && |g.woken| <= |g1.woken|
            && (Before(g1.waiting, a, b) || Before(g1.woken[|g.woken|..], a, b) ==> Before(g.waiting, a, b))
  {
    hide Before;
    OrderKept(g.waiting, g.values, g.bits + set_, a, b);
    assert SetBits(g, set_).woken[|g.woken|..] == Unblocks(g.waiting, g.values, g.bits + set_);
  }

  /** A call waits exactly when it is willing to and the bits do not give it what it asks for: all of its
      bits, or any.  Otherwise it returns the bits as they are, and clears its own if it asked for that
      and got what it wanted. */
  lemma WaitsExactlyWhen(s: State, t: Task, mask: Word, clear: bool, all: bool, patient: bool)
    requires Good(s) && Allowed(s, WaitBits(t, mask, clear, all, patient))
    ensures var s1, bits := Apply(s, WaitBits(t, mask, clear, all, patient)), s.group.bits;
            var met := if all then mask <= bits else mask * bits != {};
            if met || !patient then
              && s1.returned == s.returned[t := bits] && s1.calls == s.calls
              && s1.group == s.group.(bits := if met && clear then bits - mask else bits)
            else
              && s1.returned == s.returned && s1.calls == s.calls[t := Call(mask, clear, all)]
              && s1.group.waiting == s.group.waiting + [t] && s1.group.bits == bits
              && s1.group.woken == s.group.woken
              && forall u :: u != t ==> ValueOf(s1.group.values, u) == ValueOf(s.group.values, u)
  {
    assert s.calls - {t} == s.calls;
  }

  /** A synchronising task first sets its bits, as any task would.  It goes on at once exactly when all
      bits of the mask are then set: it returns them all, and the mask is cleared.  Otherwise it waits for
      all of them, or if it will not wait returns what is left. */
  lemma SyncsExactlyWhen(s: State, t: Task, set_: Word, mask: Word, patient: bool)
    requires Good(s) && Allowed(s, Sync(t, set_, mask, patient))
    ensures var s1, g, all := Apply(s, Sync(t, set_, mask, patient)), Apply(s, Set(set_)).group, s.group.bits + set_;
            if mask <= all then
              s1.returned == s.returned[t := all] && s1.calls == s.calls && s1.group == g.(bits := g.bits - mask)
            else if !patient then
              s1.returned == s.returned[t := g.bits] && s1.calls == s.calls && s1.group == g
            else
              && s1.returned == s.returned && s1.calls == s.calls[t := Call(mask, true, true)]
              && s1.group.waiting == g.waiting + [t] && s1.group.bits == g.bits && s1.group.woken == g.woken
              && forall u :: u != t ==> ValueOf(s1.group.values, u) == ValueOf(g.values, u)
  {
    hide SetBits;
    assert s.calls - {t} == s.calls;
  }

  /** Clearing takes the bits away and unblocks nobody; a task that times out leaves the list, and the others
      keep their order; a task that has blocked and runs again returns the bits it was handed, or if it was
      handed none the bits as they are, and then clears its own if it was to and they have come; and deleting
      the group unblocks everybody, and hands them no bits. */
  lemma OtherStepsExactly(s: State, step: Step, a: Task, b: Task)
    requires Good(s) && Allowed(s, step)
    ensures match step
            case Clear(bits) => Apply(s, step) == s.(group := s.group.(bits := s.group.bits - bits))
            case Expire(t) =>
              var s1 := Apply(s, step);
              && s1 == s.(group := s.group.(waiting := s1.group.waiting))
              && (a in s1.group.waiting <==> a in s.group.waiting && a != t)
              && (Before(s1.group.waiting, a, b) ==> Before(s.group.waiting, a, b))
            case Finish(t) =>
              var value, call, bits := ValueOf(s.group.values, t), s.calls[t], s.group.bits;
              var met := if call.all then call.mask <= bits else call.mask * bits != {};
              Apply(s, step) ==
              State(s.group.(bits := if UNBLOCKED !in value && met && call.clear then bits - call.mask else bits),
                    s.calls - {t}, s.returned[t := (if UNBLOCKED in value then value else bits) - CONTROL], s.deleted)
            case Delete =>
              var s1 := Apply(s, step);
              && s1.deleted && s1.calls == s.calls && s1.returned == s.returned && s1.group.waiting == []
              && s1.group.bits == s.group.bits && s1.group.woken == s.group.woken + s.group.waiting
              && (if a in s.group.waiting
                  then UNBLOCKED in ValueOf(s1.group.values, a) && ValueOf(s1.group.values, a) - CONTROL == {}
                  else ValueOf(s1.group.values, a) == ValueOf(s.group.values, a))
            case _ => true
  {
    match step
    case Expire(t) => LeftInOrder(s.group.waiting, t, a, b);
    case Delete => MarkedValues(s.group.values, s.group.waiting, Notice({}));
    case _ =>
  }

  lemma LeftInOrder(waiting: seq<Task>, t: Task, a: Task, b: Task)
    requires NoDup(waiting) && t in waiting
    ensures a in Leaves(waiting, t) <==> a in waiting && a != t
    ensures Before(Leaves(waiting, t), a, b) ==> Before(waiting, a, b)
  {
    hide Before, NoDup, IndexOf;
    var k := IndexOf(waiting, t);
    RemoveAtMembers(Ring(waiting, 0), k);
    BeforeCut(waiting, k, a, b);
  }

  lemma BeforeCut(tasks: seq<Task>, k: nat, a: Task, b: Task)
    requires k < |tasks|
    ensures Before(tasks[..k] + tasks[k + 1..], a, b) ==> Before(tasks, a, b)
  {
    var left := tasks[..k] + tasks[k + 1..];
    assert forall i :: 0 <= i < |left| ==> left[i] == tasks[if i < k then i else i + 1];
  }
}
