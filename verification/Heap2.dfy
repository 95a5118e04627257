/** heap_2.c: the headers in the heap's memory, and the free list linked through them in order of
    size, updated in place. */
module Heap2 {
  import opened Blocks
  import opened Heap4Model
  import opened HeapSizes
  import opened FreeLinks
  import M = Heap2Model

  /** The headers of taken blocks keep their sizes. */
  ghost predicate SizesKept(headers: map<nat, Header>, bs: seq<Block>) {
    forall b <- bs :: !b.free ==> b.addr in headers && headers[b.addr].size == b.size
  }

  class Heap {
    const base: nat                 // the address of ucHeap
    const total: nat                // configTOTAL_HEAP_SIZE
    const endLink: nat              // the address of xEnd
    var headers: map<nat, Header>
    var start: nat                  // xStart.pxNextFreeBlock
    var initialised: bool           // xHeapHasBeenInitialised
    var freeBytesRemaining: nat
    ghost var blocks: seq<Block>
    ghost var list: seq<Block>

    /** configADJUSTED_HEAP_SIZE */
    function Limit(): nat {
      if total < ALIGNMENT then 0 else total - ALIGNMENT
    }

    ghost function First(): nat {
      AlignDown(base + ALIGNMENT)
    }

    /** ucHeap lies within 32-bit memory with room in it for a block, and xEnd lies outside it. */
    ghost predicate Sensible() {
      && 0 < base && base + total < M.WORD && 0 < Limit()
      && 0 < endLink && (endLink < First() || First() + Limit() <= endLink)
    }

    ghost predicate Linked()
      reads this
    {
      && Chain(headers, start, list, endLink)
      && endLink in headers && headers[endLink] == Header(NULL, Limit())
      && SizesKept(headers, blocks)
    }

    ghost predicate Valid()
      reads this
    {
      && Sensible()
      && M.Good(M.Heap(blocks, list), First(), First() + Limit())
      && freeBytesRemaining == FreeBytes(blocks)
      && (if initialised then Linked() else blocks == [Block(First(), Limit(), true)] == list)
    }

    ghost function Contents(): M.Heap
      reads this
    {
      M.Heap(blocks, list)
    }

    constructor (base: nat, total: nat, endLink: nat)
      requires 0 < base && base + total < M.WORD && total > ALIGNMENT && 0 < endLink
      requires endLink < AlignDown(base + ALIGNMENT) || AlignDown(base + ALIGNMENT) + (total - ALIGNMENT) <= endLink
      ensures Valid() && this.base == base && this.total == total
      ensures freeBytesRemaining == Limit()
    {
      this.base, this.total, this.endLink := base, total, endLink;
      headers, start, initialised, freeBytesRemaining := map[], NULL, false, total - ALIGNMENT;
      blocks := [Block(AlignDown(base + ALIGNMENT), total - ALIGNMENT, true)];
      list := [Block(AlignDown(base + ALIGNMENT), total - ALIGNMENT, true)];
      new;
      OneBlock(blocks[0], First(), First() + Limit());
      assert blocks == [blocks[0]];
    }

    /** prvHeapInit */
    method HeapInit()
      requires Valid() && !initialised
      modifies this`headers, this`start, this`initialised
      ensures Valid() && initialised
      ensures start == First() && base < start <= base + 8 && start % 8 == 0 && Limit() + 8 == total
    {
      RegionIsTight(base, base + ALIGNMENT);
      var first := AlignDown(base + ALIGNMENT);
      start := first;
      headers := headers[endLink := Header(NULL, Limit())];
      headers := headers[first := Header(endLink, Limit())];
      initialised := true;
    }

    method NextOf(link: Link) returns (next: nat)
      requires link.BlockAt? ==> link.addr in headers
      ensures next == if link == Start then start else headers[link.addr].next
    {
      if link == Start {
        next := start;
      } else {
        next := headers[link.addr].next;
      }
    }

    method SetNext(link: Link, next: nat)
      requires link.BlockAt? ==> link.addr in headers
      modifies this`start, this`headers
      ensures if link == Start then start == next && headers == old(headers)
              else
                && start == old(start)
                && headers == old(headers)[link.addr := Header(next, old(headers)[link.addr].size)]
    {
      if link == Start {
        start := next;
      } else {
        headers := headers[link.addr := headers[link.addr].(next := next)];
      }
    }

    /** The loop of prvInsertBlockIntoFreeList: the last link before a block that is not smaller.
        The end marker's size stops it. */
    method FindLink(size: nat, ghost f: seq<Block>) returns (link: Link)
      requires Chain(headers, start, f, endLink) && size <= Limit()
      requires endLink in headers && headers[endLink].size == Limit()
      ensures var p := M.PlaceBySize(f, size); link == if p == 0 then Start else BlockAt(f[p - 1].addr)
    {
      link := Start;
      ghost var p := 0;
      var next := NextOf(link);
      while headers[next].size < size
        invariant p <= |f| && link == (if p == 0 then Start else BlockAt(f[p - 1].addr))
        invariant next == AddrAt(f, p, endLink)
        invariant forall i :: 0 <= i < p ==> f[i].size < size
        decreases |f| - p
      {
        link := BlockAt(next);
        p := p + 1;
        next := NextOf(link);
      }
      PlaceIs(f, size, p);
    }

    /** prvInsertBlockIntoFreeList */
    method InsertBlockIntoFreeList(block: nat, ghost f: seq<Block>)
      requires block in headers && headers[block].size <= Limit()
      requires Chain(headers, start, f, endLink) && Distinct(f)
      requires forall i :: 0 <= i < |f| ==> f[i].addr != block
      requires endLink in headers && headers[endLink].size == Limit()
      modifies this`start, this`headers
      ensures Chain(headers, start, M.InsertBySize(f, Block(block, old(headers)[block].size, true)), endLink)
      ensures OnlyListed(old(headers), headers, f, block, block)
      ensures block in headers && headers[block].size == old(headers)[block].size
    {
      hide OnlyListed, Distinct, M.PlaceBySize;
      ghost var p, b := M.PlaceBySize(f, headers[block].size), Block(block, headers[block].size, true);
      LinkedChain(headers, start, f, p, b, endLink);
      LinkedListed(headers, f, p, b, endLink);
      var link := FindLink(headers[block].size, f);
      assert link.BlockAt? ==> link.addr != block && link.addr in headers && headers[link.addr].size == f[p - 1].size;
      var next := NextOf(link);
      headers := headers[block := headers[block].(next := next)];
      SetNext(link, block);
    }

    /** The search of pvPortMalloc */
    method FindFit(size: nat, ghost f: seq<Block>) returns (previous: Link, block: nat)
      requires Chain(headers, start, f, endLink) && NULL < endLink
      requires endLink in headers && headers[endLink].next == NULL
      requires forall i :: 0 <= i < |f| ==> NULL < f[i].addr
      ensures var p := M.PlaceBySize(f, size);
              previous == (if p == 0 then Start else BlockAt(f[p - 1].addr)) && block == AddrAt(f, p, endLink)
    {
      previous, block := Start, start;
      ghost var p := 0;
      while headers[block].size < size && headers[block].next != NULL
        invariant p <= |f| && block == AddrAt(f, p, endLink)
        invariant previous == (if p == 0 then Start else BlockAt(f[p - 1].addr))
        invariant forall i :: 0 <= i < p ==> f[i].size < size
        decreases |f| - p
      {
        previous := BlockAt(block);
        block := headers[block].next;
        p := p + 1;
      }
      PlaceIs(f, size, p);
    }

    /** Takes block `p` out of the free list. */
    method Unlink(previous: Link, block: nat, ghost f: seq<Block>, ghost p: nat)
      requires Chain(headers, start, f, endLink) && Distinct(f) && p < |f|
      requires previous == (if p == 0 then Start else BlockAt(f[p - 1].addr)) && block == f[p].addr
      modifies this`start, this`headers
      ensures Chain(headers, start, M.TakeOut(f, p), endLink)
      ensures block in headers && headers[block].size == f[p].size
      ensures OnlyListed(old(headers), headers, f, block, block)
    {
      UnlinkedChain(headers, start, f, endLink, p);
      UnlinkedListed(headers, f, endLink, p);
      if p > 0 { DistinctAt(f, p, p - 1); }
      hide OnlyListed, Distinct;
      SetNext(previous, headers[block].next);
    }

    /** Cuts `size` bytes off the block and puts the rest into the free list, which is `f`. */
    method Split(block: nat, size: nat, ghost f: seq<Block>)
      requires block in headers && 0 < size < headers[block].size <= Limit()
      requires Chain(headers, start, f, endLink) && Distinct(f)
      requires forall i :: 0 <= i < |f| ==> f[i].addr != block && f[i].addr != block + size
      requires endLink in headers && headers[endLink].size == Limit() && endLink != block && endLink != block + size
      modifies this`start, this`headers
      ensures Chain(headers, start, M.InsertBySize(f, Block(block + size, old(headers)[block].size - size, true)),
                    endLink)
      ensures block in headers && headers[block].size == size
      ensures OnlyListed(old(headers), headers, f, block, block + size)
    {
      hide OnlyListed, Chain, Distinct, M.InsertBySize;
      var rest := block + size;
      var stale := if rest in headers then headers[rest].next else NULL;
      headers := headers[rest := Header(stale, headers[block].size - size)];
      headers := headers[block := headers[block].(size := size)];
      ghost var now := headers;
      ChainFrame(old(headers), now, start, f, endLink, block, rest);
      TwoWritten(old(headers), f, rest, now[rest], block, now[block]);
      InsertBlockIntoFreeList(rest, f);
      OnlyListedTwice(old(headers), now, headers, f, block, rest);
    }

    /** Takes block `p` of the free list, which is block `i` of the region. */
    method TakeBlock(previous: Link, block: nat, size: nat, ghost i: nat, ghost p: nat)
      requires Valid() && initialised && 0 < size && p < |list| && i < |blocks|
      requires blocks[i] == list[p] && list[p].free && size <= list[p].size && block == list[p].addr
      requires previous == if p == 0 then Start else BlockAt(list[p - 1].addr)
      modifies this`start, this`headers
      ensures block in headers && headers[block].size == Carve(list[p], size)[0].size
      ensures Chain(headers, start, M.ListAfterTake(list, p, size), endLink)
      ensures OnlyListed(old(headers), headers, list, block, CutAt(list[p], size))
      ensures endLink in headers && headers[endLink] == Header(NULL, Limit())
    {
      hide Chain, OnlyListed, SizesKept, M.InsertBySize, M.SizeSorted;
      TakenFacts(Contents(), i, p, size, First(), First() + Limit());
      ghost var h := headers;
      EndIsElsewhere(Contents(), i, size, First(), First() + Limit(), endLink);
      Unlink(previous, block, list, p);
      ListedOutside(h, headers, list, block, block, endLink);
      if headers[block].size - size > MINIMUM_BLOCK_SIZE {
        ghost var h1 := headers;
        Split(block, size, M.TakeOut(list, p));
        SplitListed(h, h1, headers, list, p, block, size);
        ListedOutside(h, headers, list, block, block + size, endLink);
      }
    }

    /** The wanted size with room for a header, aligned, as 32-bit words */
    method AdjustSize(wantedSize: nat) returns (size: nat)
      ensures size == M.WordAdjusted(wantedSize)
    {
      size := wantedSize;
      if size > 0 {
        size := (size + STRUCT_SIZE) % M.WORD;
        if size % ALIGNMENT != 0 {
          size := (size + (ALIGNMENT - size % ALIGNMENT)) % M.WORD;
        }
      }
    }

    /** The search for a block, and what follows it */
    method TakeBestFit(wantedSize: nat) returns (pointer: nat)
      requires Valid() && wantedSize < M.WORD
      modifies this
      ensures Valid() && initialised
      ensures Contents() == M.AfterMalloc(old(Contents()), wantedSize, Limit())
      ensures pointer == if M.Succeeds(old(Contents()), wantedSize, Limit())
                         then old(list)[M.PlaceBySize(old(list), M.WordAdjusted(wantedSize))].addr + STRUCT_SIZE
                         else NULL
    {
      hide Chain, SizesKept, OnlyListed, M.Good, FreeBytes, M.WordAdjusted, M.PlaceBySize, M.ListAfterTake,
           M.AfterMalloc, M.IndexAt, Allocate, Carve;
      if !initialised {
        HeapInit();
      }
      ghost var h0, first, last := Contents(), First(), First() + Limit();
      pointer := NULL;
      var size := AdjustSize(wantedSize);
      if size > 0 && size < Limit() {
        ghost var p := M.PlaceBySize(list, size);
        PlacesPositive(h0, first, last, endLink);
        var previous, block := FindFit(size, list);
        if block != endLink {
          SearchEnds(list, size, endLink);
          M.TakenIndex(h0, p, first, last);
          ghost var i := M.IndexAt(blocks, list[p].addr);
          pointer := block + STRUCT_SIZE;
          ghost var h := headers;
          TakeBlock(previous, block, size, i, p);
          MallocTakes(h0, wantedSize, Limit());
          BytesTaken(h0, wantedSize, Limit(), first, last);
          M.MallocKeeps(h0, wantedSize, Limit(), first, last);
          SizesAfterTaking(h, headers, h0, i, p, size, first, last);
          freeBytesRemaining := freeBytesRemaining - headers[block].size;
          blocks := Allocate(blocks, i, size);
          list := M.ListAfterTake(list, p, size);
        } else {
          SearchFails(h0, size, first, last, endLink);
        }
      }
      MallocFails(h0, wantedSize, Limit());
    }

    /** pvPortMalloc */
    method Malloc(wantedSize: nat) returns (pointer: nat)
      requires Valid() && wantedSize < M.WORD
      modifies this
      ensures Valid() && initialised
      ensures Contents() == M.AfterMalloc(old(Contents()), wantedSize, Limit())
      ensures pointer == if M.Succeeds(old(Contents()), wantedSize, Limit())
                         then old(list)[M.PlaceBySize(old(list), M.WordAdjusted(wantedSize))].addr + STRUCT_SIZE
                         else NULL
      ensures TakenFor(old(Contents()), Contents(), pointer, M.WordAdjusted(wantedSize))
    {
      hide M.Good, FreeBytes, M.WordAdjusted, M.AfterMalloc, M.Succeeds, M.PlaceBySize, TakenFor, Linked;
      BestFitTakes(Contents(), wantedSize, Limit(), First(), First() + Limit());
      pointer := TakeBestFit(wantedSize);
    }

    /** vPortFree of what Malloc has returned and what has not been freed since, or of NULL: the
        pointer to block `i`. */
    method Free(pointer: nat, ghost i: nat)
      requires Valid()
      requires pointer != NULL ==>
                 initialised && i < |blocks| && !blocks[i].free && pointer == blocks[i].addr + STRUCT_SIZE
      modifies this
      ensures Valid() && initialised == old(initialised)
      ensures Contents() == if pointer == NULL then old(Contents()) else M.AfterFree(old(Contents()), i)
    {
      hide Chain, OnlyListed, SizesKept, M.Good, FreeBytes, M.InsertBySize;
      if pointer != NULL {
        var block := pointer - STRUCT_SIZE;
        ghost var h0, h, first, last := Contents(), headers, First(), First() + Limit();
        FreedFacts(h0, h, i, first, last, endLink);
        M.FreeKeeps(h0, i, first, last);
        M.BytesOfFreed(blocks, i);
        InsertBlockIntoFreeList(block, list);
        freeBytesRemaining := freeBytesRemaining + headers[block].size;
        SizesAfterFreeing(h, headers, h0, i, first, last);
        ListedOutside(h, headers, list, block, block, endLink);
        list := M.InsertBySize(list, M.Freed(blocks[i]));
        blocks := blocks[i := M.Freed(blocks[i])];
      }
    }
  }

  lemma PlaceIs(f: seq<Block>, size: nat, p: nat)
    requires p <= |f| && (p < |f| ==> f[p].size >= size)
    requires forall i :: 0 <= i < p ==> f[i].size < size
    ensures M.PlaceBySize(f, size) == p
  {
  }

  /** What holds of block `p` of the list, and of the list without it. */
  lemma TakenFacts(h: M.Heap, i: nat, p: nat, size: nat, from: nat, to: nat)
    requires M.Good(h, from, to) && i < |h.blocks| && p < |h.list| && h.blocks[i] == h.list[p]
             && 0 < size <= h.list[p].size
    ensures var b, g := h.list[p], M.TakeOut(h.list, p);
            && Distinct(h.list) && Distinct(g) && b.size <= to - from && from <= b.addr && BlockEnd(b) <= to
            && (forall j :: 0 <= j < |g| ==> g[j].addr != b.addr)
            && (size < b.size ==> forall j :: 0 <= j < |g| ==> g[j].addr != b.addr + size)
  {
    M.TakeOutSorted(h.list, p);
    TilesBounds(h.blocks, from, to);
    if size < h.list[p].size {
      M.RestIsElsewhere(h, i, size, from, to);
    }
    var g := M.TakeOut(h.list, p);
    forall j | 0 <= j < |g|
      ensures g[j] == h.list[if j < p then j else j + 1]
    {
    }
  }

  /** The end marker is not a block. */
  lemma EndIsElsewhere(h: M.Heap, i: nat, size: nat, from: nat, to: nat, end: nat)
    requires M.Good(h, from, to) && i < |h.blocks| && size <= h.blocks[i].size && (end < from || to <= end)
    ensures end != h.blocks[i].addr && (size < h.blocks[i].size ==> end != h.blocks[i].addr + size)
    ensures forall j :: 0 <= j < |h.list| ==> h.list[j].addr != end
  {
    TilesBounds(h.blocks, from, to);
    forall j | 0 <= j < |h.list|
      ensures h.list[j].addr != end
    {
      assert h.list[j] in h.list;
      var k :| 0 <= k < |h.blocks| && h.blocks[k] == h.list[j];
    }
  }

  lemma ListedOutside(h: map<nat, Header>, h1: map<nat, Header>, f: seq<Block>, x: nat, y: nat, a: nat)
    requires OnlyListed(h, h1, f, x, y) && a in h && a != x && a != y && forall j :: 0 <= j < |f| ==> f[j].addr != a
    ensures a in h1 && h1[a] == h[a]
  {
  }

  lemma PlacesPositive(h: M.Heap, from: nat, to: nat, end: nat)
    requires M.Good(h, from, to) && 0 < from && (end < from || to <= end)
    ensures forall j :: 0 <= j < |h.list| ==>
              NULL < h.list[j].addr && h.list[j].addr != end && h.list[j].size <= to - from
  {
    TilesBounds(h.blocks, from, to);
    forall j | 0 <= j < |h.list|
      ensures NULL < h.list[j].addr && h.list[j].addr != end && h.list[j].size <= to - from
    {
      assert h.list[j] in h.list;
      var k :| 0 <= k < |h.blocks| && h.blocks[k] == h.list[j];
    }
  }

  lemma SearchEnds(f: seq<Block>, size: nat, end: nat)
    requires AddrAt(f, M.PlaceBySize(f, size), end) != end
    ensures M.PlaceBySize(f, size) < |f|
  {
  }

  lemma SearchFails(h: M.Heap, size: nat, from: nat, to: nat, end: nat)
    requires M.Good(h, from, to) && 0 < from && (end < from || to <= end)
    requires AddrAt(h.list, M.PlaceBySize(h.list, size), end) == end
    ensures M.PlaceBySize(h.list, size) == |h.list|
  {
    PlacesPositive(h, from, to, end);
  }

  lemma MallocTakes(h: M.Heap, wanted: nat, limit: nat)
    requires M.Succeeds(h, wanted, limit)
    ensures var size, p := M.WordAdjusted(wanted), M.PlaceBySize(h.list, M.WordAdjusted(wanted));
            var i := M.IndexAt(h.blocks, h.list[p].addr);
            i < |h.blocks| && size <= h.blocks[i].size ==>
              M.AfterMalloc(h, wanted, limit) == M.Heap(Allocate(h.blocks, i, size), M.ListAfterTake(h.list, p, size))
  {
  }

  lemma MallocFails(h: M.Heap, wanted: nat, limit: nat)
    ensures !M.Succeeds(h, wanted, limit) ==> M.AfterMalloc(h, wanted, limit) == h
  {
  }

  lemma BytesTaken(h: M.Heap, wanted: nat, limit: nat, from: nat, to: nat)
    requires M.Good(h, from, to) && M.Succeeds(h, wanted, limit)
    ensures var size, taken := M.WordAdjusted(wanted), h.list[M.PlaceBySize(h.list, M.WordAdjusted(wanted))];
            && Carve(taken, size)[0].size <= FreeBytes(h.blocks)
            && FreeBytes(M.AfterMalloc(h, wanted, limit).blocks) == FreeBytes(h.blocks) - Carve(taken, size)[0].size
  {
    M.FreeBytesAfterMalloc(h, wanted, limit, from, to);
  }

  lemma SizesAfterTaking(h: map<nat, Header>, h1: map<nat, Header>, c: M.Heap, i: nat, p: nat, size: nat, from: nat,
                         to: nat)
    requires M.Good(c, from, to) && i < |c.blocks| && p < |c.list| && c.blocks[i] == c.list[p] && c.list[p].free
    requires 0 < size <= c.list[p].size && SizesKept(h, c.blocks)
    requires OnlyListed(h, h1, c.list, c.list[p].addr, CutAt(c.list[p], size))
    requires c.list[p].addr in h1 && h1[c.list[p].addr].size == Carve(c.list[p], size)[0].size
    ensures SizesKept(h1, Allocate(c.blocks, i, size))
  {
    var bs := c.blocks;
    AllocateTakes(bs, i, size);
    var now := Allocate(bs, i, size);
    forall b | b in now && !b.free
      ensures b.addr in h1 && h1[b.addr].size == b.size
    {
      assert b in Taken(now);
      if b != Carve(bs[i], size)[0] {
        assert b in Taken(bs);
        TakenNotListed(c, i, b, CutAt(bs[i], size) - bs[i].addr, from, to);
      }
    }
  }

  /** Taken blocks lie elsewhere than anything in block `i`, and than the free list. */
  lemma TakenNotListed(c: M.Heap, i: nat, b: Block, offset: nat, from: nat, to: nat)
    requires M.Good(c, from, to) && i < |c.blocks| && c.blocks[i] != b && offset < c.blocks[i].size && b in c.blocks
             && !b.free
    ensures b.addr != c.blocks[i].addr + offset && b.addr != c.blocks[i].addr
    ensures forall j :: 0 <= j < |c.list| ==> c.list[j].addr != b.addr
  {
    TilesBounds(c.blocks, from, to);
    var k :| 0 <= k < |c.blocks| && c.blocks[k] == b;
    forall j | 0 <= j < |c.list|
      ensures c.list[j].addr != b.addr
    {
      assert c.list[j] in c.list;
      var m :| 0 <= m < |c.blocks| && c.blocks[m] == c.list[j];
    }
  }

  lemma FreedFacts(c: M.Heap, h: map<nat, Header>, i: nat, from: nat, to: nat, end: nat)
    requires M.Good(c, from, to) && i < |c.blocks| && !c.blocks[i].free && SizesKept(h, c.blocks)
    requires end < from || to <= end
    ensures var b := c.blocks[i];
            && b.addr in h && h[b.addr].size == b.size && b.size <= to - from && b.addr != end && Distinct(c.list)
            && (forall j :: 0 <= j < |c.list| ==> c.list[j].addr != b.addr && c.list[j].addr != end)
  {
    TilesBounds(c.blocks, from, to);
    EndIsElsewhere(c, i, 0, from, to, end);
    forall j | 0 <= j < |c.list|
      ensures c.list[j].addr != c.blocks[i].addr
    {
      assert c.list[j] in c.list;
      var m :| 0 <= m < |c.blocks| && c.blocks[m] == c.list[j];
    }
  }

  lemma SizesAfterFreeing(h: map<nat, Header>, h1: map<nat, Header>, c: M.Heap, i: nat, from: nat, to: nat)
    requires M.Good(c, from, to) && i < |c.blocks| && !c.blocks[i].free && SizesKept(h, c.blocks)
    requires OnlyListed(h, h1, c.list, c.blocks[i].addr, c.blocks[i].addr)
    ensures SizesKept(h1, c.blocks[i := M.Freed(c.blocks[i])])
  {
    var now := c.blocks[i := M.Freed(c.blocks[i])];
    TilesBounds(c.blocks, from, to);
    forall b | b in now && !b.free
      ensures b.addr in h1 && h1[b.addr].size == b.size
    {
      var k :| 0 <= k < |now| && now[k] == b;
      assert c.blocks[k] == b && k != i;
      TakenNotListed(c, i, b, 0, from, to);
    }
  }
}
