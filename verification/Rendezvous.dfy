/** A rendezvous: tasks that each call xEventGroupSync once, with a bit of their own and the common
    mask of all.  Nobody goes on before everybody has come, whatever else uses the group's other
    bits in the meantime. */
module Rendezvous {
  import opened RingList
  import opened Words
  import opened EventGroups

  /** The bits each party brings. */
  type Parties = map<Task, Word>

  function Mask(parties: Parties): Word {
    set t, p | t in parties && p in parties[t] :: p
  }

  /** The parties bring bits, no two the same, and no control bits. */
  ghost predicate ProperParties(parties: Parties) {
    && parties != map[]
    && (forall t <- parties :: parties[t] != {} && NoControl(parties[t]))
    && (forall t, u :: t in parties && u in parties && t != u ==> parties[t] !! parties[u])
  }

  /** A party synchronises, willing to wait, and comes back when it has been woken; it does not
      time out.  Everybody else leaves the bits of the rendezvous alone, and the group is not deleted. */
  ghost predicate InOrder(s: State, step: Step, parties: Parties) {
    match step
    case Set(set_) => set_ !! Mask(parties)
    case Clear(bits) => bits !! Mask(parties)
    case WaitBits(t, mask, _, _, _) => t !in parties && mask !! Mask(parties)
    case Sync(t, set_, mask, patient) =>
      if t in parties then set_ == parties[t] && mask == Mask(parties) && patient && t !in s.returned
      else set_ !! Mask(parties) && mask !! Mask(parties)
    case Expire(t) => t !in parties
    case Finish(t) => true
    case Delete => false
  }

  /** The parties that have come. */
  ghost function Arrived(s: State, parties: Parties): set<Task> {
    set t <- parties | t in s.calls || t in s.returned
  }

  function BitsOf(parties: Parties, tasks: set<Task>): Word {
    set t, p | t in parties && t in tasks && p in parties[t] :: p
  }

  /** Before everybody has come: the bits of those who have come are set, they wait, and nobody has
      gone on. */
  ghost predicate Gathering(s: State, parties: Parties) {
    && Arrived(s, parties) < parties.Keys
    && s.group.bits * Mask(parties) == BitsOf(parties, Arrived(s, parties))
    && (forall t <- parties :: t !in s.returned)
    && (forall t <- parties :: t in s.calls ==> t in s.group.waiting && s.calls[t] == Call(Mask(parties), true, true))
  }

  /** After everybody has come: the mask is clear, nobody waits any longer, and each has been or
      will be given a value with the whole mask. */
  ghost predicate Released(s: State, parties: Parties) {
    && Arrived(s, parties) == parties.Keys
    && s.group.bits !! Mask(parties)
    && (forall t <- parties :: t !in s.group.waiting)
    && (forall t <- parties :: t in s.returned ==> Mask(parties) <= s.returned[t] && t !in s.calls)
    && (forall t <- parties :: t !in s.returned ==>
          UNBLOCKED in ValueOf(s.group.values, t) && Mask(parties) <= ValueOf(s.group.values, t) - CONTROL)
  }

  /** Waiting tasks that are no parties wait for other bits. */
  ghost predicate OthersApart(s: State, parties: Parties) {
    forall t <- s.calls :: t !in parties ==> s.calls[t].mask !! Mask(parties)
  }

  ghost predicate Holds(s: State, parties: Parties) {
    && Good(s) && OthersApart(s, parties)
    && (Gathering(s, parties) || Released(s, parties))
  }

  // ---- Bits ----

  lemma MaskMembers(parties: Parties, t: Task)
    requires t in parties
    ensures parties[t] <= Mask(parties)
  {
  }

  /** The bits of some of the parties are the whole mask only if they are all the parties. */
  lemma AllBitsMeansAll(parties: Parties, tasks: set<Task>)
    requires ProperParties(parties) && tasks <= parties.Keys
    ensures BitsOf(parties, tasks) <= Mask(parties)
    ensures Mask(parties) <= BitsOf(parties, tasks) <==> tasks == parties.Keys
  {
    forall t | t in parties
      ensures Mask(parties) <= BitsOf(parties, tasks) ==> t in tasks
    {
      var p :| p in parties[t];
      assert p in Mask(parties);
      assert forall u :: u in parties && p in parties[u] ==> u == t;
    }
  }

  lemma OneMoreArrives(parties: Parties, tasks: set<Task>, t: Task)
    requires t in parties
    ensures BitsOf(parties, tasks + {t}) == BitsOf(parties, tasks) + parties[t]
  {
  }

  /** What the bits within the mask become. */
  lemma WithinMask(bits: Word, more: Word, mask: Word)
    ensures more !! mask ==> (bits + more) * mask == bits * mask && (bits - more) * mask == bits * mask
    ensures more <= mask ==> (bits + more) * mask == bits * mask + more
  {
  }

  lemma NoControlMask(parties: Parties)
    requires ProperParties(parties)
    ensures NoControl(Mask(parties)) && Mask(parties) != {}
  {
    var t :| t in parties;
    var p :| p in parties[t];
    assert p in Mask(parties);
  }

  // ---- What each step does ----

  /** A party that waits is satisfied only by the whole mask. */
  lemma PartyNeedsAll(s: State, t: Task, parties: Parties, bits: Word)
    requires Good(s) && t in s.group.waiting && t in s.calls && s.calls[t] == Call(Mask(parties), true, true)
    ensures Satisfied(bits, ValueOf(s.group.values, t)) <==> Mask(parties) <= bits
    ensures ToClear(ValueOf(s.group.values, t)) == Mask(parties)
  {
    assert WaiterOk(s, t);
    EncodeDecodes(Mask(parties), true, true);
  }

  lemma OtherClearsApart(s: State, t: Task, parties: Parties)
    requires Good(s) && OthersApart(s, parties) && t in s.group.waiting && t !in parties
    ensures ToClear(ValueOf(s.group.values, t)) !! Mask(parties)
  {
    assert WaiterOk(s, t);
    EncodeDecodes(s.calls[t].mask, s.calls[t].clear, s.calls[t].all);
  }

  /** Bits are set that do not complete the mask: the parties go on waiting, and the bits within
      the mask are those set. */
  lemma IncompleteSet(s: State, set_: Word, parties: Parties)
    requires Good(s) && OthersApart(s, parties) && !(Mask(parties) <= s.group.bits + set_)
    requires forall t <- parties :: t in s.group.waiting ==>
               t in s.calls && s.calls[t] == Call(Mask(parties), true, true)
    ensures var g := SetBits(s.group, set_);
            && g.bits * Mask(parties) == (s.group.bits + set_) * Mask(parties)
            && (forall t <- parties :: t in g.waiting <==> t in s.group.waiting)
  {
    hide SetBits, Satisfied, ToClear, Mask;
    var g, bits := SetBits(s.group, set_), s.group.bits + set_;
    SetBitsLists(s.group, set_);
    forall t | t in s.group.waiting && Satisfied(bits, ValueOf(s.group.values, t))
      ensures t !in parties && ToClear(ValueOf(s.group.values, t)) !! Mask(parties)
    {
      if t in parties {
        PartyNeedsAll(s, t, parties, bits);
      } else {
        OtherClearsApart(s, t, parties);
      }
    }
    forall t | t in parties
      ensures t in g.waiting <==> t in s.group.waiting
    {
      if t in s.group.waiting { PartyNeedsAll(s, t, parties, bits); }
    }
  }

  lemma QuietSetGathering(s: State, set_: Word, parties: Parties)
    requires Holds(s, parties) && Gathering(s, parties) && ProperParties(parties)
    requires set_ !! Mask(parties) && NoControl(set_)
    ensures Gathering(s.(group := SetBits(s.group, set_)), parties)
    ensures !(Mask(parties) <= s.group.bits + set_)
  {
    hide SetBits, Good, OthersApart, Mask, BitsOf;
    AllBitsMeansAll(parties, Arrived(s, parties));
    WithinMask(s.group.bits, set_, Mask(parties));
    var s1 := s.(group := SetBits(s.group, set_));
    WaitersKnown(s, parties);
    IncompleteSet(s, set_, parties);
    assert Arrived(s1, parties) == Arrived(s, parties);
  }

  /** A waiting party is inside its call. */
  lemma WaitersKnown(s: State, parties: Parties)
    requires Good(s) && Gathering(s, parties)
    ensures forall t <- parties :: t in s.group.waiting ==>
              t in s.calls && s.calls[t] == Call(Mask(parties), true, true)
  {
    forall t | t in parties && t in s.group.waiting
      ensures t in s.calls
    {
      assert WaiterOk(s, t);
    }
  }

  lemma QuietSetReleased(s: State, set_: Word, parties: Parties)
    requires Good(s) && Released(s, parties) && set_ !! Mask(parties)
    ensures Released(s.(group := SetBits(s.group, set_)), parties)
  {
    hide SetBits, Satisfied, ToClear, Mask;
    SetBitsLists(s.group, set_);
    var s1 := s.(group := SetBits(s.group, set_));
    assert Arrived(s1, parties) == Arrived(s, parties);
    SetBitsFewer(s.group, set_);
  }

  lemma QuietSetKeeps(s: State, set_: Word, parties: Parties)
    requires Holds(s, parties) && ProperParties(parties) && set_ !! Mask(parties) && NoControl(set_)
    ensures Holds(s.(group := SetBits(s.group, set_)), parties)
  {
    hide SetBits, Good, Gathering, Released, Mask;
    SetKeeps(s, set_);
    if Gathering(s, parties) {
      QuietSetGathering(s, set_, parties);
    } else {
      QuietSetReleased(s, set_, parties);
    }
  }

  /** Bits outside the mask are cleared. */
  lemma QuietClearKeeps(s: State, clear: Word, parties: Parties)
    requires Holds(s, parties) && clear !! Mask(parties)
    ensures Holds(s.(group := ClearBits(s.group, clear)), parties)
  {
    hide Good, Mask, BitsOf;
    FewerKeeps(s, s.group.bits - clear);
    WithinMask(s.group.bits, clear, Mask(parties));
    assert Arrived(s.(group := ClearBits(s.group, clear)), parties) == Arrived(s, parties);
  }

  /** A task that is no party comes to wait for other bits, or returns. */
  lemma OtherBlocks(s: State, t: Task, call: Call, parties: Parties)
    requires Holds(s, parties) && t !in parties && t !in s.group.waiting && call.mask !! Mask(parties)
             && NoControl(call.mask)
    requires !WaitConditionMet(s.group.bits, call.mask, call.all)
    ensures Holds(s.(group := Block(s.group, t, call.mask, call.clear, call.all), calls := s.calls[t := call]), parties)
  {
    hide Good, Mask, BitsOf, WaitConditionMet, Encode;
    BlockKeeps(s, t, call);
    var s1 := s.(group := Block(s.group, t, call.mask, call.clear, call.all), calls := s.calls[t := call]);
    assert Arrived(s1, parties) == Arrived(s, parties);
  }

  lemma OtherReturns(s: State, t: Task, value: Word, parties: Parties)
    requires Holds(s, parties) && t !in parties && t !in s.group.waiting
    ensures Holds(Return(s, t, value), parties)
  {
    hide Good, Mask, BitsOf;
    ReturnKeeps(s, t, value);
    assert Arrived(Return(s, t, value), parties) == Arrived(s, parties);
  }

  lemma OtherWaits(s: State, t: Task, call: Call, patient: bool, parties: Parties)
    requires Holds(s, parties) && t !in parties && t !in s.calls && call.mask !! Mask(parties) && NoControl(call.mask)
    ensures Holds(DoWaitBits(s, t, call, patient), parties)
  {
    hide Holds, WaitConditionMet, Mask;
    HoldsIsGood(s, parties);
    OutsideDoesNotWait(s, t);
    if WaitConditionMet(s.group.bits, call.mask, call.all) {
      QuietClearKeeps(s, call.mask, parties);
      OtherReturns(s.(group := ClearBits(s.group, call.mask)), t, s.group.bits, parties);
      OtherReturns(s, t, s.group.bits, parties);
    } else if patient {
      OtherBlocks(s, t, call, parties);
    } else {
      OtherReturns(s, t, s.group.bits, parties);
    }
  }

  lemma HoldsIsGood(s: State, parties: Parties)
    requires Holds(s, parties)
    ensures Good(s) && OthersApart(s, parties)
  {
  }

  lemma OtherSyncs(s: State, t: Task, set_: Word, mask: Word, patient: bool, parties: Parties)
    requires Holds(s, parties) && ProperParties(parties) && t !in parties && t !in s.calls
    requires set_ !! Mask(parties) && NoControl(set_) && mask !! Mask(parties) && NoControl(mask)
    ensures Holds(DoSync(s, t, set_, mask, patient), parties)
  {
    hide Holds, Mask, SetBits;
    HoldsIsGood(s, parties);
    SetKeeps(s, set_);
    QuietSetKeeps(s, set_, parties);
    var s1 := s.(group := SetBits(s.group, set_));
    OutsideDoesNotWait(s1, t);
    if mask <= s.group.bits + set_ {
      QuietClearKeeps(s1, mask, parties);
      OtherReturns(s1.(group := ClearBits(s1.group, mask)), t, s.group.bits + set_, parties);
    } else if patient {
      OtherBlocks(s1, t, Call(mask, true, true), parties);
    } else {
      OtherReturns(s1, t, s1.group.bits, parties);
    }
  }

  // ---- The parties' own steps ----

  lemma NotYetArrived(s: State, t: Task, parties: Parties)
    requires Holds(s, parties) && t in parties && t !in s.calls && t !in s.returned
    ensures Gathering(s, parties) && t !in Arrived(s, parties)
  {
    assert t !in Arrived(s, parties);
  }

  /** A party comes that is not the last. */
  lemma PartyArrives(s: State, t: Task, parties: Parties)
    requires Holds(s, parties) && Gathering(s, parties) && ProperParties(parties) && t in parties && t !in s.calls
    requires Arrived(s, parties) + {t} != parties.Keys
    ensures Holds(DoSync(s, t, parties[t], Mask(parties), true), parties)
  {
    hide SetBits, Mask, Good, OthersApart, Gathering, Arrived, Satisfied;
    SyncKeeps(s, t, parties[t], Mask(parties), true) by { NoControlMask(parties); }
    ArrivesGathering(s, t, parties);
    StillApart(s, DoSync(s, t, parties[t], Mask(parties), true), t, parties);
  }

  lemma ArrivesGathering(s: State, t: Task, parties: Parties)
    requires Good(s) && OthersApart(s, parties) && Gathering(s, parties) && ProperParties(parties)
    requires t in parties && t !in s.calls && Arrived(s, parties) + {t} != parties.Keys
    ensures Gathering(DoSync(s, t, parties[t], Mask(parties), true), parties)
  {
    hide SetBits, Mask, BitsOf, Good, OthersApart, Satisfied;
    var set_, mask := parties[t], Mask(parties);
    MaskMembers(parties, t);
    WithinMask(s.group.bits, set_, mask);
    OneMoreArrives(parties, Arrived(s, parties), t);
    AllBitsMeansAll(parties, Arrived(s, parties) + {t});
    WaitersKnown(s, parties);
    IncompleteSet(s, set_, parties);
    ArrivedAfterBlock(s, DoSync(s, t, set_, mask, true), t, parties);
  }

  lemma ArrivedAfterBlock(s: State, s1: State, t: Task, parties: Parties)
    requires t in parties && s1.calls.Keys == s.calls.Keys + {t} && s1.returned == s.returned
    ensures Arrived(s1, parties) == Arrived(s, parties) + {t}
  {
  }

  lemma StillApart(s: State, s1: State, t: Task, parties: Parties)
    requires OthersApart(s, parties) && t in parties
    requires forall u :: u != t ==> (u in s1.calls ==> u in s.calls && s1.calls[u] == s.calls[u])
    ensures OthersApart(s1, parties)
  {
  }

  /** The last party comes. */
  lemma LastPartyArrives(s: State, t: Task, parties: Parties)
    requires Holds(s, parties) && Gathering(s, parties) && ProperParties(parties) && t in parties && t !in s.calls
    requires Arrived(s, parties) + {t} == parties.Keys
    ensures Holds(DoSync(s, t, parties[t], Mask(parties), true), parties)
    ensures Released(DoSync(s, t, parties[t], Mask(parties), true), parties)
  {
    hide SetBits, Mask, BitsOf, Good, OthersApart, Satisfied;
    var set_, mask := parties[t], Mask(parties);
    NoControlMask(parties);
    SyncKeeps(s, t, set_, mask, true);
    MaskMembers(parties, t);
    WithinMask(s.group.bits, set_, mask);
    OneMoreArrives(parties, Arrived(s, parties), t);
    AllBitsMeansAll(parties, Arrived(s, parties) + {t});
    var s1 := DoSync(s, t, set_, mask, true);
    StillApart(s, s1, t, parties);
    AllAreWoken(s, t, parties);
  }

  lemma AllAreWoken(s: State, t: Task, parties: Parties)
    requires Holds(s, parties) && Gathering(s, parties) && ProperParties(parties) && t in parties && t !in s.calls
    requires Arrived(s, parties) + {t} == parties.Keys
    requires Mask(parties) <= s.group.bits + parties[t]
    ensures Released(DoSync(s, t, parties[t], Mask(parties), true), parties)
  {
    hide SetBits, Mask, BitsOf, OthersApart, Satisfied, ToClear, Notice;
    var set_, mask, bits := parties[t], Mask(parties), s.group.bits + parties[t];
    var s1 := DoSync(s, t, set_, mask, true);
    SetBitsLists(s.group, set_);
    NoticeDecodes(bits);
    assert forall w <- s.group.waiting :: WaiterOk(s, w);
    forall u | u in parties
      ensures u !in s1.group.waiting
      ensures u != t ==> ValueOf(s1.group.values, u) == Notice(bits) && u !in s1.returned
      ensures u in s1.calls || u in s1.returned
    {
      if u != t {
        assert u in Arrived(s, parties);
        PartyNeedsAll(s, u, parties, bits);
      }
    }
  }

  lemma PartySyncs(s: State, t: Task, parties: Parties)
    requires Holds(s, parties) && ProperParties(parties) && t in parties && t !in s.calls && t !in s.returned
    ensures Holds(DoSync(s, t, parties[t], Mask(parties), true), parties)
  {
    hide Holds, Gathering, Released, Arrived, DoSync, ProperParties;
    NotYetArrived(s, t, parties);
    if Arrived(s, parties) + {t} == parties.Keys {
      LastPartyArrives(s, t, parties);
    } else {
      PartyArrives(s, t, parties);
    }
  }

  /** A task goes on that has been woken. */
  lemma FinishHolds(s: State, t: Task, parties: Parties)
    requires Holds(s, parties) && t in s.calls && t !in s.group.waiting
    ensures Holds(DoFinish(s, t), parties)
  {
    if t in parties {
      hide Good, Mask, BitsOf;
      FinishKeeps(s, t);
      var s1 := DoFinish(s, t);
      assert Arrived(s1, parties) == Arrived(s, parties);
    } else {
      OtherFinishes(s, t, parties);
    }
  }

  lemma OtherFinishes(s: State, t: Task, parties: Parties)
    requires Holds(s, parties) && t in s.calls && t !in s.group.waiting && t !in parties
    ensures Holds(DoFinish(s, t), parties)
  {
    hide Holds, Mask;
    HoldsIsGood(s, parties);
    var call := s.calls[t];
    QuietClearKeeps(s, call.mask, parties);
    OtherReturns(s, t, ValueOf(s.group.values, t) - CONTROL, parties);
    OtherReturns(s, t, s.group.bits - CONTROL, parties);
    OtherReturns(s.(group := ClearBits(s.group, call.mask)), t, s.group.bits - CONTROL, parties);
  }

  lemma OtherExpires(s: State, t: Task, parties: Parties)
    requires Holds(s, parties) && t in s.group.waiting && t !in parties
    ensures Holds(s.(group := s.group.(waiting := Leaves(s.group.waiting, t))), parties)
  {
    hide Good, Mask, BitsOf;
    ExpireKeeps(s, t);
    LeavesOthers(s.group.waiting, t) by { HoldsIsGood(s, parties); GoodHasNoDup(s); }
    var s1 := s.(group := s.group.(waiting := Leaves(s.group.waiting, t)));
    assert Arrived(s1, parties) == Arrived(s, parties);
  }

  lemma GoodHasNoDup(s: State)
    requires Good(s)
    ensures NoDup(s.group.waiting)
  {
  }

  lemma LeavesOthers(waiting: seq<Task>, t: Task)
    requires NoDup(waiting) && t in waiting
    ensures forall u :: u in Leaves(waiting, t) <==> u in waiting && u != t
  {
    RemoveAtMembers(Ring(waiting, 0), IndexOf(waiting, t));
  }

  lemma StepHolds(s: State, step: Step, parties: Parties)
    requires Holds(s, parties) && ProperParties(parties) && Allowed(s, step) && InOrder(s, step, parties)
    ensures Holds(Apply(s, step), parties)
  {
    hide Holds, ProperParties, Mask, DoSync, DoWaitBits, DoFinish, SetBits, Leaves;
    match step
    case Set(set_) => QuietSetKeeps(s, set_, parties);
    case Clear(bits) => QuietClearKeeps(s, bits, parties);
    case WaitBits(t, mask, clear, all, patient) => OtherWaits(s, t, Call(mask, clear, all), patient, parties);
    case Sync(t, set_, mask, patient) =>
      if t in parties {
        PartySyncs(s, t, parties);
      } else {
        OtherSyncs(s, t, set_, mask, patient, parties);
      }
    case Expire(t) => OtherExpires(s, t, parties);
    case Finish(t) => FinishHolds(s, t, parties);
  }

  // ---- Runs ----

  ghost predicate RunsInOrder(s: State, steps: seq<Step>, parties: Parties)
    requires Permitted(s, steps)
    decreases |steps|
  {
    steps == [] || (InOrder(s, steps[0], parties) && RunsInOrder(Apply(s, steps[0]), steps[1..], parties))
  }

  lemma {:induction false} RunHolds(s: State, steps: seq<Step>, parties: Parties)
    requires Holds(s, parties) && ProperParties(parties) && Permitted(s, steps) && RunsInOrder(s, steps, parties)
    ensures Holds(Run(s, steps), parties)
    decreases |steps|
  {
    hide Holds, ProperParties, InOrder, Apply, Allowed;
    if steps != [] {
      StepHolds(s, steps[0], parties);
      RunHolds(Apply(s, steps[0]), steps[1..], parties);
    }
  }

  /** The mask is clear, no party has come, and everybody else waits for other bits. */
  ghost predicate ReadyToMeet(s: State, parties: Parties) {
    && Good(s) && OthersApart(s, parties) && s.group.bits !! Mask(parties)
    && forall t <- parties :: t !in s.calls && t !in s.returned
  }

  lemma ReadyHolds(s: State, parties: Parties)
    requires ReadyToMeet(s, parties) && ProperParties(parties)
    ensures Holds(s, parties)
  {
    hide Good;
    assert Arrived(s, parties) == {};
    assert BitsOf(parties, {}) == {};
  }

  /** The rendezvous works: in any run from a clear mask in which no party times out and nobody
      else touches the mask, a party that has gone on has done so after all had come, and was
      given the whole mask; and once all have come the mask is clear. */
  lemma NobodyGoesOnAlone(s: State, steps: seq<Step>, parties: Parties)
    requires ReadyToMeet(s, parties) && ProperParties(parties) && Permitted(s, steps) && RunsInOrder(s, steps, parties)
    ensures var s1 := Run(s, steps);
            && (forall t <- parties :: t in s1.returned ==>
                  Mask(parties) <= s1.returned[t] && Arrived(s1, parties) == parties.Keys)
            && (Arrived(s1, parties) == parties.Keys ==> s1.group.bits !! Mask(parties))
            && (Arrived(s1, parties) == parties.Keys ==> forall t <- parties :: t !in s1.group.waiting)
  {
    hide Good, Run, Permitted, RunsInOrder, Mask, BitsOf, Arrived;
    ReadyHolds(s, parties);
    RunHolds(s, steps, parties);
  }
}
