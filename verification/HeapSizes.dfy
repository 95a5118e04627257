/** What an allocation takes, in bytes: both heaps cut a block to size when what is left of it is more than
    two headers, and otherwise hand it out whole. */
module HeapSizes {
  import opened Blocks
  import opened Heap4Model
  import H4 = Heap4Runs
  import H2 = Heap2Model

  /** Block `i`, which was free, has been taken for `size` bytes: cut to size if more than 16 bytes are
      left, which are then one free block right behind it, and whole if not.  No other block has changed. */
  ghost predicate IsCut(bs: seq<Block>, now: seq<Block>, i: nat, size: nat) {
    && i < |bs| && bs[i].free && bs[i].size >= size
    && var b := bs[i];
       now == if b.size > size + 16
              then bs[..i] + [Block(b.addr, size, false), Block(b.addr + size, b.size - size, true)] + bs[i + 1..]
              else bs[i := Block(b.addr, b.size, false)]
  }

  lemma AllocateCuts(bs: seq<Block>, i: nat, size: nat)
    requires i < |bs| && bs[i].free && size <= bs[i].size
    ensures IsCut(bs, Allocate(bs, i, size), i, size)
    ensures var taken := FreeBytes(bs) - FreeBytes(Allocate(bs, i, size)); size <= taken <= size + 16
  {
    hide FreeBytes, Allocate, IsCut;
    CutsToSize(bs, i, size);
    TakenBytes(bs[i], size);
    H2.BytesOfAllocate(bs, i, size);
  }

  lemma CutsToSize(bs: seq<Block>, i: nat, size: nat)
    requires i < |bs| && bs[i].free && size <= bs[i].size
    ensures IsCut(bs, Allocate(bs, i, size), i, size)
  {
    var b := bs[i];
    assert bs[i := Block(b.addr, b.size, false)] == bs[..i] + [Block(b.addr, b.size, false)] + bs[i + 1..];
  }

  lemma TakenBytes(b: Block, size: nat)
    requires size <= b.size
    ensures size <= Carve(b, size)[0].size <= size + 16
  {
  }

  /** The size that heap_4 looks for: what is wanted and a header of eight bytes, rounded up to a multiple
      of eight. */
  lemma SizeLookedFor(wanted: nat)
    requires wanted > 0
    ensures wanted + 8 <= Adjusted(wanted) < wanted + 16 && Adjusted(wanted) % 8 == 0
  {
  }

  lemma MallocCuts(bs: seq<Block>, wanted: nat)
    ensures var now, size := AfterMalloc(bs, wanted), Adjusted(wanted);
            if Succeeds(bs, wanted) then
              IsCut(bs, now, FirstFit(bs, size), size) && size <= FreeBytes(bs) - FreeBytes(now) <= size + 16
            else now == bs
  {
    hide Adjusted, IsCut, FreeBytes, Allocate;
    if Succeeds(bs, wanted) {
      AllocateCuts(bs, FirstFit(bs, Adjusted(wanted)), Adjusted(wanted));
    }
  }

  /** heap_4 takes the lowest free block that is big enough, and of it no more than the size looked for and
      two headers: the free bytes go down by what is taken, and a request that fails takes nothing. */
  lemma TakesNoMoreThanNeeded(s: H4.State, wanted: nat)
    ensures var bs, now, size := s.blocks, H4.Do(s, H4.Malloc(wanted)).blocks, Adjusted(wanted);
            if 0 < wanted < 0x8000_0000 && exists b :: b in bs && b.free && b.size >= size then
              exists i: nat ::
                && IsCut(bs, now, i, size)
                && (forall j :: 0 <= j < i && bs[j].free ==> bs[j].size < size)
                && size <= FreeBytes(bs) - FreeBytes(now) <= size + 16
            else now == bs
  {
    hide Adjusted, IsCut, FreeBytes, AfterMalloc;
    H4.SucceedsExactlyWhen(s.blocks, wanted);
    MallocCuts(s.blocks, wanted);
  }

  /** Releasing a block frees that block and no other: what is taken is known, and with it, as no two free
      blocks are neighbours, every block there is.  Releasing anything else changes nothing. */
  lemma ReleasesExactly(s: H4.State, pointer: nat, from: nat, to: nat)
    requires H4.Good(s, from, to)
    ensures var now := H4.Do(s, H4.Free(pointer));
            && WellDivided(now.blocks, from, to) && now.minimum == s.minimum
            && Taken(now.blocks) == set b <- s.blocks | !b.free && b.addr + 8 != pointer
  {
    hide Tiles, NoFreeNeighbours, Release;
    var i := IndexOfPointer(s.blocks, pointer);
    if i < |s.blocks| {
      ReleaseKeeps(s.blocks, i, from, to);
      OneAtAddress(s.blocks, i, from, to);
    } else {
      NothingAt(s.blocks, pointer);
    }
  }

  lemma OneAtAddress(bs: seq<Block>, i: nat, from: nat, to: nat)
    requires Tiles(bs, from, to) && i < |bs|
    ensures forall b <- bs :: b.addr == bs[i].addr ==> b == bs[i]
  {
    TilesBounds(bs, from, to);
    forall b | b in bs && b.addr == bs[i].addr
      ensures b == bs[i]
    {
      var j :| 0 <= j < |bs| && bs[j] == b;
    }
  }

  lemma {:induction false} NothingAt(bs: seq<Block>, pointer: nat)
    requires IndexOfPointer(bs, pointer) == |bs|
    ensures forall b <- bs :: b.free || b.addr + STRUCT_SIZE != pointer
  {
    if bs != [] {
      NothingAt(bs[1..], pointer);
    }
  }

  /** The size that heap_2 looks for is the same, if it does not wrap. */
  lemma WordLookedFor(wanted: nat)
    requires 0 < wanted < 0xFFFF_FFF0
    ensures wanted + 8 <= H2.WordAdjusted(wanted) < wanted + 16 && H2.WordAdjusted(wanted) % 8 == 0
  {
  }

  lemma BestFitCuts(h: H2.Heap, wanted: nat, limit: nat, from: nat, to: nat)
    requires H2.Good(h, from, to) && H2.Succeeds(h, wanted, limit)
    ensures var now, size := H2.AfterMalloc(h, wanted, limit), H2.WordAdjusted(wanted);
            var i := H2.IndexAt(h.blocks, h.list[H2.PlaceBySize(h.list, size)].addr);
            && IsCut(h.blocks, now.blocks, i, size) && h.blocks[i] == h.list[H2.PlaceBySize(h.list, size)]
            && size <= FreeBytes(h.blocks) - FreeBytes(now.blocks) <= size + 16
  {
    hide H2.WordAdjusted, IsCut, FreeBytes, H2.Good, H2.IndexAt, H2.PlaceBySize, H2.ListAfterTake, Allocate;
    var size := H2.WordAdjusted(wanted);
    var p := H2.PlaceBySize(h.list, size);
    H2.TakenIndex(h, p, from, to);
    AllocateCuts(h.blocks, H2.IndexAt(h.blocks, h.list[p].addr), size);
  }

  /** What heap_2 returns, and what it takes for it. */
  ghost predicate TakenFor(h: H2.Heap, now: H2.Heap, pointer: nat, size: nat) {
    if pointer == NULL then now == h
    else
      && pointer >= 8
      && var i := H2.IndexAt(h.blocks, pointer - 8);
      && IsCut(h.blocks, now.blocks, i, size) && h.blocks[i].addr == pointer - 8
      && size <= FreeBytes(h.blocks) - FreeBytes(now.blocks) <= size + 16
  }

  lemma BestFitTakes(h: H2.Heap, wanted: nat, limit: nat, from: nat, to: nat)
    requires H2.Good(h, from, to)
    ensures var size := H2.WordAdjusted(wanted);
            var pointer := if H2.Succeeds(h, wanted, limit)
                           then h.list[H2.PlaceBySize(h.list, size)].addr + STRUCT_SIZE else NULL;
            TakenFor(h, H2.AfterMalloc(h, wanted, limit), pointer, size)
  {
    hide H2.WordAdjusted, IsCut, FreeBytes, H2.Good, H2.IndexAt, H2.PlaceBySize, H2.AfterMalloc;
    if H2.Succeeds(h, wanted, limit) {
      BestFitCuts(h, wanted, limit, from, to);
    } else {
      FailsAlone(h, wanted, limit);
    }
  }

  /** heap_2 takes a smallest free block that is big enough, and of it no more than the size looked for and
      two headers. */
  lemma BestFitTakesNoMore(h: H2.Heap, wanted: nat, limit: nat, from: nat, to: nat)
    requires H2.Good(h, from, to)
    ensures var now, size := H2.Do(h, H2.Malloc(wanted), limit), H2.WordAdjusted(wanted);
            if 0 < size < limit && exists b :: b in h.blocks && b.free && b.size >= size then
              exists i: nat ::
                && IsCut(h.blocks, now.blocks, i, size)
                && (forall b :: b in h.blocks && b.free && b.size >= size ==> h.blocks[i].size <= b.size)
                && size <= FreeBytes(h.blocks) - FreeBytes(now.blocks) <= size + 16
            else now == h
  {
    hide H2.WordAdjusted, IsCut, FreeBytes, H2.Good, H2.IndexAt, H2.PlaceBySize, H2.AfterMalloc;
    H2.TakesSmallestThatFits(h, wanted, limit, from, to);
    if H2.Succeeds(h, wanted, limit) {
      BestFitCuts(h, wanted, limit, from, to);
    } else {
      FailsAlone(h, wanted, limit);
    }
  }

  /** A block that heap_2 is given back is free, and every other block is as it was; it goes on the list in
      front of the first block that is not smaller. */
  lemma BestFitReleasesExactly(h: H2.Heap, i: nat, limit: nat)
    ensures var now := H2.Do(h, H2.Free(i), limit);
            if i < |h.blocks| && !h.blocks[i].free then
              var b := h.blocks[i].(free := true);
              && now.blocks == h.blocks[i := b]
              && exists p :: 0 <= p <= |h.list| && now.list == h.list[..p] + [b] + h.list[p..]
                             && (forall j :: 0 <= j < p ==> h.list[j].size < b.size)
                             && (p < |h.list| ==> h.list[p].size >= b.size)
            else now == h
  {
    if i < |h.blocks| && !h.blocks[i].free {
      var p := H2.PlaceBySize(h.list, h.blocks[i].size);
      assert H2.Do(h, H2.Free(i), limit).list == h.list[..p] + [h.blocks[i].(free := true)] + h.list[p..];
    }
  }

  lemma FailsAlone(h: H2.Heap, wanted: nat, limit: nat)
    requires !H2.Succeeds(h, wanted, limit)
    ensures H2.AfterMalloc(h, wanted, limit) == h
  {
  }
}
