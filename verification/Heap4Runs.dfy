/** Histories of heap_4.c: any sequence of allocations and releases. */
module Heap4Runs {
  import opened Blocks
  import opened Heap4Model
  import opened Heap4List

  /** A release is of a pointer; one that is not to a taken block is not a call the heap allows,
      and changes nothing here. */
  datatype Operation = Malloc(wanted: nat) | Free(pointer: nat)

  /** The division of the region, and xMinimumEverFreeBytesRemaining. */
  datatype State = State(blocks: seq<Block>, minimum: nat)

  function Min(a: nat, b: nat): nat {
    if a < b then a else b
  }

  function Do(s: State, operation: Operation): State {
    match operation
    case Malloc(wanted) =>
      var now := AfterMalloc(s.blocks, wanted);
      State(now, Min(s.minimum, FreeBytes(now)))
    case Free(pointer) => s.(blocks := AfterFree(s.blocks, pointer))
  }

  function DoAll(s: State, operations: seq<Operation>): State
    decreases |operations|
  {
    if operations == [] then s else DoAll(Do(s, operations[0]), operations[1..])
  }

  /** The heap as prvHeapInit leaves it. */
  function Initial(from: nat, to: nat): State
    requires from < to
  {
    State([Block(from, to - from, true)], to - from)
  }

  ghost predicate Good(s: State, from: nat, to: nat) {
    from < to && WellDivided(s.blocks, from, to) && s.minimum <= FreeBytes(s.blocks)
  }

  lemma InitialIsGood(from: nat, to: nat)
    requires from < to && from % ALIGNMENT == 0 && to % ALIGNMENT == 0
    ensures Good(Initial(from, to), from, to) && Taken(Initial(from, to).blocks) == {}
  {
    OneBlock(Block(from, to - from, true), from, to);
  }

  /** An allocation succeeds exactly when the size is in range and some free block is big enough,
      and then takes the lowest one. */
  lemma SucceedsExactlyWhen(bs: seq<Block>, wanted: nat)
    ensures Succeeds(bs, wanted) <==>
              0 < wanted < ALLOCATED_BIT && exists b :: b in bs && b.free && b.size >= Adjusted(wanted)
    ensures Succeeds(bs, wanted) ==>
              var i := FirstFit(bs, Adjusted(wanted));
              bs[i].free && bs[i].size >= Adjusted(wanted)
              && forall j :: 0 <= j < i && bs[j].free ==> bs[j].size < Adjusted(wanted)
  {
    var i := FirstFit(bs, Adjusted(wanted));
    if i < |bs| {
      assert bs[i] in bs;
    }
  }

  lemma DoKeeps(s: State, operation: Operation, from: nat, to: nat)
    requires Good(s, from, to)
    ensures Good(Do(s, operation), from, to)
  {
    hide Tiles, NoFreeNeighbours, Allocate, Release, FreeBytes;
    match operation
    case Malloc(wanted) =>
      Adjusts(wanted);
      if Succeeds(s.blocks, wanted) {
        AllocateKeeps(s.blocks, FirstFit(s.blocks, Adjusted(wanted)), Adjusted(wanted), from, to);
      }
    case Free(pointer) =>
      var i := IndexOfPointer(s.blocks, pointer);
      if i < |s.blocks| {
        ReleaseKeeps(s.blocks, i, from, to);
        FreeBytesOfRelease(s.blocks, i);
      }
  }

  /** Every history keeps the region tiled by aligned blocks with no two free neighbours, its free
      list strictly ordered by address with gaps between the blocks. */
  lemma {:induction false} HistoryKeeps(s: State, operations: seq<Operation>, from: nat, to: nat)
    requires Good(s, from, to)
    ensures Good(DoAll(s, operations), from, to)
    ensures Apart(Frees(DoAll(s, operations).blocks))
    decreases |operations|
  {
    hide WellDivided, Apart;
    if operations != [] {
      DoKeeps(s, operations[0], from, to);
      HistoryKeeps(Do(s, operations[0]), operations[1..], from, to);
    } else {
      ListIsApart(s, from, to);
    }
  }

  lemma ListIsApart(s: State, from: nat, to: nat)
    requires Good(s, from, to)
    ensures Apart(Frees(s.blocks))
  {
    FreesApart(s.blocks, from, to);
  }

  /** The least number of free bytes in any state of a history. */
  function LowestEver(s: State, operations: seq<Operation>): nat
    decreases |operations|
  {
    if operations == [] then FreeBytes(s.blocks)
    else Min(FreeBytes(s.blocks), LowestEver(Do(s, operations[0]), operations[1..]))
  }

  /** The minimum ever is the least number of free bytes there has been. */
  lemma {:induction false} MinimumIsLowestEver(s: State, operations: seq<Operation>, from: nat, to: nat)
    requires Good(s, from, to)
    ensures DoAll(s, operations).minimum == Min(s.minimum, LowestEver(s, operations))
    decreases |operations|
  {
    hide WellDivided;
    if operations != [] {
      DoKeeps(s, operations[0], from, to);
      MinimumIsLowestEver(Do(s, operations[0]), operations[1..], from, to);
      MinimumAfter(s, operations[0], from, to);
      LowestIsBelow(Do(s, operations[0]), operations[1..]);
    }
  }

  lemma LowestIsBelow(s: State, operations: seq<Operation>)
    ensures LowestEver(s, operations) <= FreeBytes(s.blocks)
  {
  }

  lemma MinimumAfter(s: State, operation: Operation, from: nat, to: nat)
    requires Good(s, from, to)
    ensures Do(s, operation).minimum == Min(s.minimum, FreeBytes(Do(s, operation).blocks))
  {
    DoKeeps(s, operation, from, to);
  }

  /** What is free depends only on what is taken, not on how it came to be taken: two histories
      that leave the same blocks taken leave the same free list. */
  lemma FreeListFollowsFromTaken(from: nat, to: nat, one: seq<Operation>, other: seq<Operation>)
    requires from < to && from % ALIGNMENT == 0 && to % ALIGNMENT == 0
    requires Taken(DoAll(Initial(from, to), one).blocks) == Taken(DoAll(Initial(from, to), other).blocks)
    ensures DoAll(Initial(from, to), one).blocks == DoAll(Initial(from, to), other).blocks
    ensures Frees(DoAll(Initial(from, to), one).blocks) == Frees(DoAll(Initial(from, to), other).blocks)
  {
    hide DoAll, Tiles, Taken, Frees, FreeBytes, NoFreeNeighbours, Apart;
    InitialIsGood(from, to);
    HistoryKeeps(Initial(from, to), one, from, to);
    HistoryKeeps(Initial(from, to), other, from, to);
    TakenDetermineAll(DoAll(Initial(from, to), one).blocks, DoAll(Initial(from, to), other).blocks, from, to);
  }

  /** Once everything has been released, in whatever order, the region is one free block again. */
  lemma AllReleased(from: nat, to: nat, operations: seq<Operation>)
    requires from < to && from % ALIGNMENT == 0 && to % ALIGNMENT == 0
    requires Taken(DoAll(Initial(from, to), operations).blocks) == {}
    ensures DoAll(Initial(from, to), operations).blocks == Initial(from, to).blocks
  {
    hide DoAll, Tiles, Taken, Frees, FreeBytes, NoFreeNeighbours, Apart;
    InitialIsGood(from, to);
    HistoryKeeps(Initial(from, to), operations, from, to);
    NothingTaken(DoAll(Initial(from, to), operations).blocks, from, to);
  }

  /** Releasing what an allocation has returned restores every block and the whole free list. */
  lemma FreeUndoesMalloc(s: State, wanted: nat, from: nat, to: nat)
    requires Good(s, from, to) && Succeeds(s.blocks, wanted)
    ensures var pointer := s.blocks[FirstFit(s.blocks, Adjusted(wanted))].addr + STRUCT_SIZE;
            AfterFree(AfterMalloc(s.blocks, wanted), pointer) == s.blocks
  {
    hide Tiles, NoFreeNeighbours, Allocate, Release;
    var size := Adjusted(wanted);
    Adjusts(wanted);
    var bs, i := s.blocks, FirstFit(s.blocks, size);
    AllocateKeeps(bs, i, size, from, to);
    AllocatedAt(bs, i, size);
    TakenAt(Allocate(bs, i, size), i, from, to);
    ReleaseUndoesAllocate(bs, i, size, from, to);
  }

  /** Allocated blocks do not overlap each other or the free ones, and are aligned. */
  lemma TakenAreDisjoint(s: State, from: nat, to: nat, a: Block, b: Block)
    requires Good(s, from, to) && a in s.blocks && b in s.blocks && a != b
    ensures BlockEnd(a) <= b.addr || BlockEnd(b) <= a.addr
    ensures from <= a.addr < BlockEnd(a) <= to && a.addr % ALIGNMENT == 0
  {
    TilesBounds(s.blocks, from, to);
    var i :| 0 <= i < |s.blocks| && s.blocks[i] == a;
    AddressAligned(s.blocks, i, from, to);
  }

  lemma {:induction false} AddressAligned(bs: seq<Block>, i: nat, from: nat, to: nat)
    requires Tiles(bs, from, to) && i < |bs| && from % ALIGNMENT == 0
    requires forall b <- bs :: b.size % ALIGNMENT == 0
    ensures bs[i].addr % ALIGNMENT == 0
  {
    if i > 0 {
      assert bs[0] in bs;
      AddressAligned(bs[1..], i - 1, from + bs[0].size, to);
    }
  }
}
