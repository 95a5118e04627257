/** What blocking calls on an event group return: a task that has been unblocked returns a value in
    which what it waited for is set, one that has timed out the bits as they then are, and one whose
    group has been deleted no bits. */
module EventReturns {
  import opened RingList
  import opened Words
  import opened EventGroups

  /** The item value of a task that has been unblocked by bits that meet its condition. */
  ghost predicate Granted(value: Word, call: Call) {
    exists bits :: NoControl(bits) && value == Notice(bits) && WaitConditionMet(bits, call.mask, call.all)
  }

  /** A task inside a call that waits no longer has timed out, has been granted its bits, or has lost
      its group. */
  ghost predicate Answered(s: State, t: Task) {
    t in s.calls && t !in s.group.waiting ==>
      var value, call := ValueOf(s.group.values, t), s.calls[t];
      value == Encode(call.mask, call.clear, call.all) || Granted(value, call) || (s.deleted && value == Notice({}))
  }

  ghost predicate AllAnswered(s: State) {
    && Good(s)
    && (forall t :: Answered(s, t))
    && (forall t <- s.calls :: NoControl(s.calls[t].mask))
  }

  lemma SetAnswers(s: State, set_: Word)
    requires AllAnswered(s) && NoControl(set_)
    ensures AllAnswered(s.(group := SetBits(s.group, set_)))
  {
    hide Satisfied, WaitConditionMet, Encode, Notice, SetBits, NoDup, Granted;
    SetKeeps(s, set_);
    SetBitsLists(s.group, set_);
    var s1 := s.(group := SetBits(s.group, set_));
    forall t
      ensures Answered(s1, t)
    {
      assert Answered(s, t);
      if t in s.group.waiting {
        assert WaiterOk(s, t);
        EncodeDecodes(s.calls[t].mask, s.calls[t].clear, s.calls[t].all);
        if t !in s1.group.waiting {
          Grants(s.group.bits + set_, s.calls[t]);
        }
      }
    }
  }

  lemma Grants(bits: Word, call: Call)
    requires NoControl(bits) && WaitConditionMet(bits, call.mask, call.all)
    ensures Granted(Notice(bits), call)
  {
  }

  /** The bits alone have changed, or a task has come or gone that did not wait. */
  lemma OthersAnswered(s: State, s1: State, t: Task)
    requires AllAnswered(s) && Good(s1) && s1.group.waiting == s.group.waiting && s1.group.values == s.group.values
    requires s1.deleted == s.deleted
    requires t !in s1.calls && forall u :: u != t ==>
               (u in s1.calls <==> u in s.calls) && (u in s.calls ==> s1.calls[u] == s.calls[u])
    ensures AllAnswered(s1)
  {
    hide Granted, Good, Encode;
    forall u
      ensures Answered(s1, u)
    {
      assert Answered(s, u);
    }
  }

  lemma ClearAnswers(s: State, fewer: Word)
    requires AllAnswered(s) && fewer <= s.group.bits
    ensures AllAnswered(s.(group := s.group.(bits := fewer)))
  {
    FewerKeeps(s, fewer);
    hide Granted, Good, Encode;
    forall u
      ensures Answered(s.(group := s.group.(bits := fewer)), u)
    {
      assert Answered(s, u);
    }
  }

  lemma BlockAnswers(s: State, t: Task, call: Call)
    requires AllAnswered(s) && t !in s.calls && NoControl(call.mask)
    requires !WaitConditionMet(s.group.bits, call.mask, call.all)
    ensures AllAnswered(s.(group := Block(s.group, t, call.mask, call.clear, call.all), calls := s.calls[t := call]))
  {
    OutsideDoesNotWait(s, t);
    BlockKeeps(s, t, call);
    hide Granted, Good, Encode;
    var s1 := s.(group := Block(s.group, t, call.mask, call.clear, call.all), calls := s.calls[t := call]);
    assert s1.group.waiting[|s.group.waiting|] == t;
    forall u
      ensures Answered(s1, u)
    {
      assert Answered(s, u);
    }
  }

  lemma ExpireAnswers(s: State, t: Task)
    requires AllAnswered(s) && t in s.group.waiting
    ensures AllAnswered(s.(group := s.group.(waiting := Leaves(s.group.waiting, t))))
  {
    ExpireKeeps(s, t);
    ExpireMembers(s, t);
    hide Granted, Encode, Satisfied, Leaves;
    var s1 := s.(group := s.group.(waiting := Leaves(s.group.waiting, t)));
    assert WaiterOk(s, t);
    forall u
      ensures Answered(s1, u)
    {
      assert Answered(s, u);
    }
  }

  lemma ExpireMembers(s: State, t: Task)
    requires Good(s) && t in s.group.waiting
    ensures forall u :: u in Leaves(s.group.waiting, t) <==> u in s.group.waiting && u != t
  {
    hide Satisfied;
    RemoveAtMembers(Ring(s.group.waiting, 0), IndexOf(s.group.waiting, t));
  }

  lemma ReturnAnswers(s: State, t: Task, value: Word)
    requires AllAnswered(s) && t !in s.group.waiting
    ensures AllAnswered(Return(s, t, value))
  {
    ReturnKeeps(s, t, value);
    OthersAnswered(s, Return(s, t, value), t);
  }

  lemma WaitAnswers(s: State, t: Task, call: Call, patient: bool)
    requires AllAnswered(s) && t !in s.calls && NoControl(call.mask)
    ensures AllAnswered(DoWaitBits(s, t, call, patient))
  {
    hide AllAnswered, WaitConditionMet, Encode;
    AnsweredIsGood(s);
    OutsideDoesNotWait(s, t);
    if WaitConditionMet(s.group.bits, call.mask, call.all) {
      ClearAnswers(s, s.group.bits - call.mask);
      ReturnAnswers(s.(group := ClearBits(s.group, call.mask)), t, s.group.bits);
      ReturnAnswers(s, t, s.group.bits);
    } else if patient {
      BlockAnswers(s, t, call);
    } else {
      ReturnAnswers(s, t, s.group.bits);
    }
  }

  lemma AnsweredIsGood(s: State)
    requires AllAnswered(s)
    ensures Good(s)
  {
  }

  lemma SyncAnswers(s: State, t: Task, set_: Word, mask: Word, patient: bool)
    requires AllAnswered(s) && t !in s.calls && NoControl(set_) && NoControl(mask)
    ensures AllAnswered(DoSync(s, t, set_, mask, patient))
  {
    hide AllAnswered, SetBits, Encode;
    AnsweredIsGood(s);
    SetAnswers(s, set_);
    SetKeeps(s, set_);
    var s1 := s.(group := SetBits(s.group, set_));
    OutsideDoesNotWait(s1, t);
    if mask <= s.group.bits + set_ {
      ClearAnswers(s1, s1.group.bits - mask);
      ReturnAnswers(s1.(group := ClearBits(s1.group, mask)), t, s.group.bits + set_);
    } else if patient {
      BlockAnswers(s1, t, Call(mask, true, true));
    } else {
      ReturnAnswers(s1, t, s1.group.bits);
    }
  }

  lemma FinishAnswers(s: State, t: Task)
    requires AllAnswered(s) && t in s.calls && t !in s.group.waiting
    ensures AllAnswered(DoFinish(s, t))
  {
    hide AllAnswered, WaitConditionMet;
    var call := s.calls[t];
    ClearAnswers(s, s.group.bits - call.mask);
    ReturnAnswers(s, t, ValueOf(s.group.values, t) - CONTROL);
    ReturnAnswers(s, t, s.group.bits - CONTROL);
    ReturnAnswers(s.(group := ClearBits(s.group, call.mask)), t, s.group.bits - CONTROL);
  }

  lemma DeleteAnswers(s: State)
    requires AllAnswered(s)
    ensures AllAnswered(s.(group := Deleted(s.group), deleted := true))
  {
    hide Granted, Encode, Notice, Satisfied, NoDup;
    MarkedValues(s.group.values, s.group.waiting, Notice({}));
    var s1 := s.(group := Deleted(s.group), deleted := true);
    forall t
      ensures Answered(s1, t)
    {
      assert Answered(s, t);
    }
    assert NoDup(s1.group.waiting) by { NobodyTwice(); }
  }

  lemma NobodyTwice()
    ensures NoDup<Task>([])
  {
  }

  lemma StepAnswers(s: State, step: Step)
    requires AllAnswered(s) && Allowed(s, step)
    ensures AllAnswered(Apply(s, step))
  {
    hide AllAnswered, SetBits, DoWaitBits, DoSync, DoFinish, Leaves;
    match step
    case Set(set_) => SetAnswers(s, set_);
    case Clear(clear) => ClearAnswers(s, s.group.bits - clear);
    case WaitBits(t, mask, clear, all, patient) => WaitAnswers(s, t, Call(mask, clear, all), patient);
    case Sync(t, set_, mask, patient) => SyncAnswers(s, t, set_, mask, patient);
    case Expire(t) => ExpireAnswers(s, t);
    case Finish(t) => FinishAnswers(s, t);
    case Delete => DeleteAnswers(s);
  }

  lemma {:induction false} RunAnswers(s: State, steps: seq<Step>)
    requires AllAnswered(s) && Permitted(s, steps)
    ensures AllAnswered(Run(s, steps))
    decreases |steps|
  {
    hide AllAnswered, Apply, Allowed;
    if steps != [] {
      StepAnswers(s, steps[0]);
      RunAnswers(Apply(s, steps[0]), steps[1..]);
    }
  }

  /** In any history, a blocked call that has been unblocked returns bits with all of its mask, or with
      one bit of it if it waited for any, even if they have been cleared since; or no bits if the group has
      been deleted; and leaves the bits alone.  One that has timed out returns the bits as they are, and
      clears its own if it was to and they have come in the meantime. */
  lemma CallsReturnWhatTheyWaitFor(steps: seq<Step>, t: Task)
    requires Permitted(Initial(), steps)
    requires var s := Run(Initial(), steps); t in s.calls && t !in s.group.waiting
    ensures var s := Run(Initial(), steps);
            var s1, call, bits := DoFinish(s, t), s.calls[t], s.group.bits;
            && t in s1.returned && t !in s1.calls
            && if UNBLOCKED in ValueOf(s.group.values, t)
               then s1.group == s.group
                    && ((if call.all then call.mask <= s1.returned[t] else call.mask * s1.returned[t] != {})
                        || (s.deleted && s1.returned[t] == {}))
               else s1.returned[t] == bits
                    && s1.group == s.group.(bits :=
                         if call.clear && (if call.all then call.mask <= bits else call.mask * bits != {})
                         then bits - call.mask else bits)
  {
    hide Run, Permitted;
    RunAnswers(Initial(), steps);
    var s := Run(Initial(), steps);
    Finishes(s, t);
  }

  lemma Finishes(s: State, t: Task)
    requires AllAnswered(s) && t in s.calls && t !in s.group.waiting
    ensures UNBLOCKED in ValueOf(s.group.values, t) ==>
              var bits := ValueOf(s.group.values, t) - CONTROL;
              WaitConditionMet(bits, s.calls[t].mask, s.calls[t].all) || (s.deleted && bits == {})
    ensures s.group.bits - CONTROL == s.group.bits
  {
    hide WaitConditionMet, Encode, Notice;
    var value, call := ValueOf(s.group.values, t), s.calls[t];
    EncodeDecodes(call.mask, call.clear, call.all);
    NoticeDecodes({});
    assert Answered(s, t);
    if Granted(value, call) {
      var bits :| NoControl(bits) && value == Notice(bits) && WaitConditionMet(bits, call.mask, call.all);
      NoticeDecodes(bits);
    }
  }
}
