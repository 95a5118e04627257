/** heap_4.c: the block headers in the heap's memory, the free list linked through them, and the
    counters, updated in place. */
module Heap4 {
  import opened Blocks
  import opened Heap4Model
  import opened HeapSizes
  import opened Heap4List
  import opened FreeLinks

  ghost predicate InOrder(f: seq<Block>, end: nat) {
    && Ascending(f)
    && forall i :: 0 <= i < |f| ==> 0 < f[i].size && BlockEnd(f[i]) <= end
  }

  lemma OrderedDistinct(f: seq<Block>, end: nat)
    requires InOrder(f, end)
    ensures Distinct(f)
  {
  }

  /** The block lies in a gap of the list. */
  ghost predicate InGap(f: seq<Block>, b: Block, end: nat) {
    && 0 < b.size && BlockEnd(b) <= end
    && forall i :: 0 <= i < |f| ==> BlockEnd(f[i]) <= b.addr || BlockEnd(b) <= f[i].addr
  }

  // ---- The memory after an insertion ----

  /** The header of the inserted block, merged with what it touches. */
  ghost function GrownHeader(f: seq<Block>, p: nat, b: Block, end: nat): Header
    requires p <= |f|
  {
    Header(AddrAt(f, if TouchesRight(f, p, b) then p + 1 else p, end), Grown(f, p, b).size)
  }

  ghost function HeadersAfter(headers: map<nat, Header>, f: seq<Block>, p: nat, b: Block, end: nat): map<nat, Header>
    requires p <= |f|
  {
    var grown := headers[Grown(f, p, b).addr := GrownHeader(f, p, b, end)];
    if p == 0 || TouchesLeft(f, p, b) then grown else grown[f[p - 1].addr := Header(b.addr, f[p - 1].size)]
  }

  lemma InsertedNext(f: seq<Block>, p: nat, b: Block, i: nat, end: nat)
    requires p <= |f| && i < |Merged(f, p, b)|
    ensures var left := if TouchesLeft(f, p, b) then p - 1 else p;
            var right := if TouchesRight(f, p, b) then p + 1 else p;
            && |Merged(f, p, b)| == left + 1 + (|f| - right)
            && Merged(f, p, b)[i] == (if i < left then f[i] else if i == left then Grown(f, p, b)
                                      else f[right + (i - left - 1)])
            && AddrAt(Merged(f, p, b), i + 1, end) ==
               if i + 1 < left then f[i + 1].addr else if i + 1 == left then Grown(f, p, b).addr
               else AddrAt(f, right + (i - left), end)
  {
  }

  lemma OtherAddress(f: seq<Block>, p: nat, b: Block, end: nat, k: nat)
    requires InOrder(f, end) && InGap(f, b, end) && p <= |f| && k < |f|
    ensures f[k].addr != b.addr
    ensures p > 0 && k != p - 1 ==> f[k].addr != f[p - 1].addr
  {
  }

  /** Blocks other than the ones around the place keep their headers. */
  lemma OtherHeader(headers: map<nat, Header>, f: seq<Block>, p: nat, b: Block, end: nat, k: nat)
    requires InOrder(f, end) && InGap(f, b, end) && p <= |f| && k < |f|
    requires p > 0 ==> k != p - 1
    requires f[k].addr in headers
    ensures var now := HeadersAfter(headers, f, p, b, end);
            f[k].addr in now && now[f[k].addr] == headers[f[k].addr]
  {
    OtherAddress(f, p, b, end, k);
    hide InOrder, InGap;
  }

  lemma AroundHeaders(headers: map<nat, Header>, f: seq<Block>, p: nat, b: Block, end: nat)
    requires InOrder(f, end) && InGap(f, b, end) && p <= |f|
    ensures var now, grown := HeadersAfter(headers, f, p, b, end), Grown(f, p, b);
            && grown.addr in now && now[grown.addr] == GrownHeader(f, p, b, end)
            && (p > 0 && !TouchesLeft(f, p, b) ==>
                  f[p - 1].addr in now && now[f[p - 1].addr] == Header(b.addr, f[p - 1].size) && grown.addr == b.addr)
  {
    if p > 0 { OtherAddress(f, p, b, end, p - 1); }
    hide InOrder, InGap;
  }

  lemma InsertedLink(headers: map<nat, Header>, start: nat, f: seq<Block>, p: nat, b: Block, end: nat, i: nat)
    requires Chain(headers, start, f, end) && InOrder(f, end) && InGap(f, b, end)
    requires p == PlaceFor(f, b.addr) && i < |Merged(f, p, b)|
    ensures var m, now := Merged(f, p, b), HeadersAfter(headers, f, p, b, end);
            m[i].addr in now && now[m[i].addr] == Header(AddrAt(m, i + 1, end), m[i].size)
  {
    hide InOrder, InGap, PlaceFor, HeadersAfter, Merged, Chain, Grown, GrownHeader;
    InsertedNext(f, p, b, i, end);
    AroundHeaders(headers, f, p, b, end);
    GrownLinks(f, p, b, end);
    var left := if TouchesLeft(f, p, b) then p - 1 else p;
    var right := if TouchesRight(f, p, b) then p + 1 else p;
    if i < left {
      ListedLink(headers, start, f, end, i);
      if i + 1 != p {
        OtherHeader(headers, f, p, b, end, i);
      }
    } else if i > left {
      ListedLink(headers, start, f, end, right + (i - left - 1));
      OtherHeader(headers, f, p, b, end, right + (i - left - 1));
    }
  }

  /** The header of the block at place `p` of the list, or of the end marker. */
  function HeaderAt(f: seq<Block>, p: nat, end: nat): Header {
    if p < |f| then Header(AddrAt(f, p + 1, end), f[p].size) else Header(NULL, 0)
  }

  lemma StartsChain(headers: map<nat, Header>, start: nat, f: seq<Block>, end: nat)
    requires Chain(headers, start, f, end)
    ensures start == AddrAt(f, 0, end)
  {
  }

  lemma LinkAt(headers: map<nat, Header>, start: nat, f: seq<Block>, end: nat, p: nat)
    requires Chain(headers, start, f, end) && end in headers && headers[end] == Header(NULL, 0) && p <= |f|
    ensures AddrAt(f, p, end) in headers && headers[AddrAt(f, p, end)] == HeaderAt(f, p, end)
  {
  }

  lemma ListedLink(headers: map<nat, Header>, start: nat, f: seq<Block>, end: nat, k: nat)
    requires Chain(headers, start, f, end) && k < |f|
    ensures f[k].addr in headers && headers[f[k].addr] == Header(AddrAt(f, k + 1, end), f[k].size)
  {
  }

  lemma GrownLinks(f: seq<Block>, p: nat, b: Block, end: nat)
    requires p <= |f|
    ensures GrownHeader(f, p, b, end) == Header(AddrAt(f, if TouchesRight(f, p, b) then p + 1 else p, end),
                                                Grown(f, p, b).size)
    ensures Grown(f, p, b).addr == if TouchesLeft(f, p, b) then f[p - 1].addr else b.addr
  {
  }

  lemma InsertionLinks(headers: map<nat, Header>, start: nat, f: seq<Block>, p: nat, b: Block, end: nat)
    requires Chain(headers, start, f, end) && InOrder(f, end) && InGap(f, b, end)
    requires p == PlaceFor(f, b.addr)
    ensures Chain(HeadersAfter(headers, f, p, b, end), StartAfter(start, p, b), Merged(f, p, b), end)
  {
    var m, now := Merged(f, p, b), HeadersAfter(headers, f, p, b, end);
    InsertedNext(f, p, b, 0, end);
    assert StartAfter(start, p, b) == AddrAt(m, 0, end);
    hide Merged, HeadersAfter, InOrder, InGap;
    forall i | 0 <= i < |m|
      ensures m[i].addr in now && now[m[i].addr] == Header(AddrAt(m, i + 1, end), m[i].size)
    {
      InsertedLink(headers, start, f, p, b, end, i);
    }
  }

  /** The blocks next to the place in the list are others than the block that goes in. */
  lemma AroundPlace(f: seq<Block>, p: nat, b: Block, end: nat)
    requires InOrder(f, end) && InGap(f, b, end) && p == PlaceFor(f, b.addr)
    ensures p < |f| ==> b.addr < f[p].addr < end
    ensures p > 0 ==> f[p - 1].addr < b.addr
    ensures 0 < p < |f| ==> f[p - 1].addr < f[p].addr
  {
  }

  lemma Overwrite(headers: map<nat, Header>, a: nat, h: Header, h': Header)
    ensures headers[a := h][a := h'] == headers[a := h']
  {
  }

  /** The header of a taken block: no next block, and the top bit of the size set. */
  ghost predicate Owned(headers: map<nat, Header>, bs: seq<Block>) {
    forall b <- bs :: !b.free ==> b.addr in headers && headers[b.addr] == Header(NULL, b.size + ALLOCATED_BIT)
  }

  /** What is cut off a block touches no other free block. */
  lemma RestFits(f: seq<Block>, p: nat, block: nat, whole: nat, size: nat, end: nat)
    requires InOrder(f, end) && p <= |f| && 0 < size < whole && block + whole <= end
    requires forall i :: 0 <= i < p ==> BlockEnd(f[i]) < block
    requires forall i :: p <= i < |f| ==> block + whole < f[i].addr
    ensures var b := Block(block + size, whole - size, true);
            InGap(f, b, end) && PlaceFor(f, b.addr) == p && !TouchesLeft(f, p, b) && !TouchesRight(f, p, b)
    ensures forall i :: 0 <= i < |f| ==> f[i].addr != block && f[i].addr != block + size
  {
    PlaceIs(f, block + size, p);
    forall i | 0 <= i < |f|
      ensures f[i].addr != block && f[i].addr != block + size
    {
    }
  }

  lemma InsertsAlone(headers: map<nat, Header>, f: seq<Block>, p: nat, b: Block, end: nat)
    requires p <= |f| && !TouchesLeft(f, p, b) && !TouchesRight(f, p, b) && b.free
    ensures Merged(f, p, b) == f[..p] + [b] + f[p..]
    ensures OnlyListed(headers, HeadersAfter(headers, f, p, b, end), f, b.addr, b.addr)
  {
  }

  class Heap {
    const base: nat                 // the address of ucHeap
    const total: nat                // configTOTAL_HEAP_SIZE
    var headers: map<nat, Header>
    var start: nat                  // xStart.pxNextFreeBlock
    var end: nat                    // pxEnd
    var freeBytesRemaining: nat
    var minimumEver: nat
    ghost var blocks: seq<Block>

    ghost function First(): nat {
      AlignUp(base)
    }

    ghost function Last(): nat {
      if base + total < STRUCT_SIZE then 0 else AlignDown(base + total - STRUCT_SIZE)
    }

    /** ucHeap lies within 32-bit memory, its size leaves the top bit of a size free, and there is
        room in it for a block. */
    ghost predicate Sensible() {
      0 < base && base + total < 0x1_0000_0000 && total < ALLOCATED_BIT && First() < Last()
    }

    ghost predicate Initialised()
      reads this
    {
      && end == Last()
      && WellDivided(blocks, First(), end)
      && Chain(headers, start, Frees(blocks), end)
      && end in headers && headers[end] == Header(NULL, 0)
      && Owned(headers, blocks)
      && freeBytesRemaining == FreeBytes(blocks)
      && minimumEver <= freeBytesRemaining
    }

    ghost predicate Valid()
      reads this
    {
      && Sensible()
      && (if end == NULL then freeBytesRemaining == 0 && minimumEver == 0 else Initialised())
    }

    /** The blocks the heap is divided into; before the first allocation it is one free block. */
    ghost function Division(): seq<Block>
      requires Sensible()
      reads this
    {
      if end == NULL then [Block(First(), Last() - First(), true)] else blocks
    }

    constructor (base: nat, total: nat)
      requires 0 < base && base + total < 0x1_0000_0000 && total < ALLOCATED_BIT
      requires base + total >= STRUCT_SIZE && AlignUp(base) < AlignDown(base + total - STRUCT_SIZE)
      ensures Valid() && this.base == base && this.total == total && end == NULL
    {
      this.base, this.total := base, total;
      headers, start, end, freeBytesRemaining, minimumEver, blocks := map[], NULL, NULL, 0, 0, [];
    }

    /** prvHeapInit */
    method HeapInit()
      requires Valid() && end == NULL
      modifies this
      ensures Valid() && end != NULL && blocks == old(Division()) == Division()
      ensures freeBytesRemaining == minimumEver == Last() - First()
      ensures start == First() && base <= start < base + 8 && start % 8 == 0
      ensures end == Last() && end + 8 <= base + total < end + 16 && end % 8 == 0
    {
      hide Tiles, Frees, FreeBytes;
      FirstIsAligned();
      RegionIsTight(base, base + total - STRUCT_SIZE);
      var first, size := base, total;
      if first % ALIGNMENT != 0 {
        first := (first + (ALIGNMENT - 1)) / ALIGNMENT * ALIGNMENT;
        size := size - (first - base);
      }
      start := first;
      end := AlignDown(first + size - STRUCT_SIZE);
      headers := headers[end := Header(NULL, 0)];
      headers := headers[first := Header(end, end - first)];
      minimumEver := end - first;
      freeBytesRemaining := end - first;
      blocks := [Block(first, end - first, true)];
      OneBlock(blocks[0], first, end);
      assert blocks == [blocks[0]];
    }

    lemma FirstIsAligned()
      requires Sensible()
      ensures First() % ALIGNMENT == 0 && First() >= base && (Last() - First()) % ALIGNMENT == 0 && Last() > NULL
    {
    }

    method NextOf(link: Link) returns (next: nat)
      requires link.BlockAt? ==> link.addr in headers
      ensures next == if link == Start then start else headers[link.addr].next
    {
      if link == Start {
        next := start;
      } else {
        next := headers[link.addr].next;
      }
    }

    method SetNext(link: Link, next: nat)
      requires link.BlockAt? ==> link.addr in headers
      modifies this`start, this`headers
      ensures if link == Start then start == next && headers == old(headers)
              else
                && start == old(start)
                && headers == old(headers)[link.addr := Header(next, old(headers)[link.addr].size)]
    {
      if link == Start {
        start := next;
      } else {
        headers := headers[link.addr := headers[link.addr].(next := next)];
      }
    }

    /** The loop of prvInsertBlockIntoFreeList: the last link below the block */
    method FindLink(block: nat, ghost f: seq<Block>) returns (link: Link)
      requires Chain(headers, start, f, end) && InOrder(f, end) && block < end
      ensures var p := PlaceFor(f, block); link == if p == 0 then Start else BlockAt(f[p - 1].addr)
    {
      hide InOrder, PlaceFor, Chain;
      link := Start;
      ghost var p := 0;
      StartsChain(headers, start, f, end);
      var next := NextOf(link);
      while next < block
        invariant p <= |f| && link == (if p == 0 then Start else BlockAt(f[p - 1].addr))
        invariant next == AddrAt(f, p, end)
        invariant forall i :: 0 <= i < p ==> f[i].addr < block
        decreases |f| - p
      {
        ListedLink(headers, start, f, end, p);
        link := BlockAt(next);
        p := p + 1;
        next := NextOf(link);
      }
      PlaceIs(f, block, p);
    }

    /** If the block below reaches up to this one, it grows over it. */
    method MergeLeft(link: Link, block: nat, ghost f: seq<Block>, ghost p: nat, ghost b: Block) returns (insert: nat)
      requires block in headers && b == Block(block, headers[block].size, true)
      requires Chain(headers, start, f, end) && p == PlaceFor(f, block)
      requires link == if p == 0 then Start else BlockAt(f[p - 1].addr)
      modifies this`headers
      ensures insert == Grown(f, p, b).addr
      ensures headers == if TouchesLeft(f, p, b)
                         then old(headers)[insert := Header(AddrAt(f, p, end), f[p - 1].size + b.size)]
                         else old(headers)
    {
      insert := block;
      if link.BlockAt? && link.addr + headers[link.addr].size == block {
        headers := headers[link.addr := headers[link.addr].(size := headers[link.addr].size + headers[block].size)];
        insert := link.addr;
      }
    }

    /** If the block, grown or not, reaches up to the next one, it grows over that; in any case it
        is linked to what comes after. */
    method MergeRight(link: Link, insert: nat, ghost f: seq<Block>, ghost p: nat, ghost b: Block)
      requires p <= |f| && insert == Grown(f, p, b).addr && insert in headers
      requires headers[insert].size == (if TouchesLeft(f, p, b) then f[p - 1].size else 0) + b.size
      requires if link == Start then start == AddrAt(f, p, end)
               else link.addr in headers && headers[link.addr].next == AddrAt(f, p, end)
      requires p < |f| ==> f[p].addr != end && f[p].addr in headers
                           && headers[f[p].addr] == Header(AddrAt(f, p + 1, end), f[p].size)
      modifies this`headers
      ensures headers == old(headers)[insert := GrownHeader(f, p, b, end)]
    {
      var next := NextOf(link);
      if insert + headers[insert].size == next {
        if next != end {
          headers := headers[insert := Header(headers[next].next, headers[insert].size + headers[next].size)];
        } else {
          headers := headers[insert := headers[insert].(next := end)];
        }
      } else {
        headers := headers[insert := headers[insert].(next := next)];
      }
    }

    /** prvInsertBlockIntoFreeList */
    method InsertBlockIntoFreeList(block: nat, ghost f: seq<Block>)
      requires block in headers
      requires Chain(headers, start, f, end) && InOrder(f, end)
      requires InGap(f, Block(block, headers[block].size, true), end)
      modifies this`start, this`headers
      ensures var p, b := PlaceFor(f, block), Block(block, old(headers)[block].size, true);
              && headers == HeadersAfter(old(headers), f, p, b, end)
              && start == StartAfter(old(start), p, b)
              && Chain(headers, start, Merged(f, p, b), end)
    {
      hide Merged, PlaceFor;
      ghost var p, b := PlaceFor(f, block), Block(block, headers[block].size, true);
      InsertionLinks(headers, start, f, p, b, end);
      AroundPlace(f, p, b, end);
      var link := FindLink(block, f);
      var insert := MergeLeft(link, block, f, p, b);
      MergeRight(link, insert, f, p, b);
      hide Chain, InOrder, InGap, GrownHeader;
      if TouchesLeft(f, p, b) {
        Overwrite(old(headers), insert, Header(AddrAt(f, p, end), f[p - 1].size + b.size), GrownHeader(f, p, b, end));
      }
      if link != BlockAt(insert) {
        SetNext(link, insert);
      }
    }

    /** The search of pvPortMalloc: the first block of the list that is big enough, or the end
        marker, and the link before it. */
    method FindFit(size: nat, ghost f: seq<Block>) returns (previous: Link, block: nat)
      requires Chain(headers, start, f, end) && InOrder(f, end) && NULL < end
      requires end in headers && headers[end] == Header(NULL, 0) && size > 0
      requires forall i :: 0 <= i < |f| ==> NULL < f[i].addr
      ensures var p := FitInList(f, size);
              previous == (if p == 0 then Start else BlockAt(f[p - 1].addr)) && block == AddrAt(f, p, end)
    {
      hide Chain, InOrder, FitInList;
      previous, block := Start, start;
      ghost var p := 0;
      StartsChain(headers, start, f, end);
      LinkAt(headers, start, f, end, 0);
      while headers[block].size < size && headers[block].next != NULL
        invariant p <= |f| && block == AddrAt(f, p, end)
        invariant block in headers && headers[block] == HeaderAt(f, p, end)
        invariant previous == (if p == 0 then Start else BlockAt(f[p - 1].addr))
        invariant forall i :: 0 <= i < p ==> f[i].size < size
        decreases |f| - p
      {
        previous := BlockAt(block);
        block := headers[block].next;
        p := p + 1;
        LinkAt(headers, start, f, end, p);
      }
      FitIs(f, size, p);
    }

    /** Takes block `p` of the list out of it. */
    method Unlink(previous: Link, block: nat, ghost f: seq<Block>, ghost p: nat)
      requires Chain(headers, start, f, end) && InOrder(f, end) && p < |f|
      requires previous == (if p == 0 then Start else BlockAt(f[p - 1].addr)) && block == f[p].addr
      modifies this`start, this`headers
      ensures Chain(headers, start, f[..p] + f[p + 1..], end)
      ensures block in headers && headers[block].size == f[p].size
      ensures OnlyListed(old(headers), headers, f, block, block)
    {
      OrderedDistinct(f, end);
      UnlinkedChain(headers, start, f, end, p);
      UnlinkedListed(headers, f, end, p);
      SetNext(previous, headers[block].next);
    }

    /** Cuts `size` bytes off the block and puts the rest into the free list, which is `f`. */
    method Split(block: nat, size: nat, ghost f: seq<Block>, ghost p: nat)
      requires block in headers && 0 < size < headers[block].size
      requires Chain(headers, start, f, end) && InOrder(f, end) && p <= |f|
      requires block + headers[block].size <= end
      requires forall i :: 0 <= i < p ==> BlockEnd(f[i]) < block
      requires forall i :: p <= i < |f| ==> block + headers[block].size < f[i].addr
      modifies this`start, this`headers
      ensures block in headers && headers[block].size == size
      ensures Chain(headers, start, f[..p] + [Block(block + size, old(headers)[block].size - size, true)] + f[p..], end)
      ensures OnlyListed(old(headers), headers, f, block, block + size)
    {
      hide OnlyListed, Merged, HeadersAfter, Chain, InOrder, InGap, PlaceFor;
      RestFits(f, p, block, headers[block].size, size, end);
      var rest := block + size;
      var stale := if rest in headers then headers[rest].next else NULL;
      headers := headers[rest := Header(stale, headers[block].size - size)];
      headers := headers[block := headers[block].(size := size)];
      ghost var now := headers;
      ChainFrame(old(headers), now, start, f, end, block, rest);
      TwoWritten(old(headers), f, rest, now[rest], block, now[block]);
      InsertBlockIntoFreeList(rest, f);
      InsertsAlone(now, f, p, Block(rest, old(headers)[block].size - size, true), end);
      OnlyListedTwice(old(headers), now, headers, f, block, rest);
    }

    /** Takes block `p` out of the free list, and puts the rest of it back if that is big enough. */
    method CutOut(previous: Link, block: nat, size: nat, ghost f: seq<Block>, ghost p: nat)
      requires Chain(headers, start, f, end) && InOrder(f, end) && p < |f| && 0 < size <= f[p].size && f[p].free
      requires previous == (if p == 0 then Start else BlockAt(f[p - 1].addr)) && block == f[p].addr
      requires var g := f[..p] + f[p + 1..];
               && InOrder(g, end)
               && (forall j :: 0 <= j < p ==> BlockEnd(g[j]) < block)
               && (forall j :: p <= j < |g| ==> block + f[p].size < g[j].addr)
      modifies this`start, this`headers
      ensures block in headers && headers[block].size == Carve(f[p], size)[0].size
      ensures Chain(headers, start, f[..p] + Carve(f[p], size)[1..] + f[p + 1..], end)
      ensures OnlyListed(old(headers), headers, f, block, CutAt(f[p], size))
    {
      hide Chain, OnlyListed;
      ghost var g := f[..p] + f[p + 1..];
      assert block + f[p].size <= end;
      hide InOrder;
      ListAfterTaking(f, p, size);
      Unlink(previous, block, f, p);
      if headers[block].size - size > MINIMUM_BLOCK_SIZE {
        ghost var h1 := headers;
        Split(block, size, g, p);
        SplitListed(old(headers), h1, headers, f, p, block, size);
      }
    }

    /** Takes block `p` of the free list, which is block `i` of the region, for the application. */
    method TakeBlock(previous: Link, block: nat, size: nat, ghost i: nat, ghost p: nat)
      requires Valid() && end != NULL && 0 < size && size % ALIGNMENT == 0
      requires At(blocks, i, p) && blocks[i].free && size <= blocks[i].size && block == blocks[i].addr
      requires previous == if p == 0 then Start else BlockAt(Frees(blocks)[p - 1].addr)
      modifies this
      ensures Valid() && end == old(end) && blocks == Allocate(old(blocks), i, size)
      ensures IsCut(old(blocks), blocks, i, size)
      ensures minimumEver == if freeBytesRemaining < old(minimumEver) then freeBytesRemaining else old(minimumEver)
    {
      hide Chain, InOrder, WellDivided, Owned, OnlyListed, Frees, FreeBytes, Apart, At, Allocate, Carve, CutAt, IsCut;
      ghost var bs, h := blocks, headers;
      AtInRange(bs, i, p);
      AllocateCuts(bs, i, size);
      DivisionFacts(bs, First(), end);
      FitFacts(bs, i, p, size, First(), end);
      AllocateDivided(bs, i, size, First(), end);
      CutOut(previous, block, size, Frees(bs), p);
      freeBytesRemaining := freeBytesRemaining - headers[block].size;
      if freeBytesRemaining < minimumEver {
        minimumEver := freeBytesRemaining;
      }
      ghost var h2 := headers;
      headers := headers[block := Header(NULL, headers[block].size + ALLOCATED_BIT)];
      blocks := Allocate(bs, i, size);
      TakenMarked(h, h2, headers, start, bs, i, p, size, First(), end);
    }

    /** The wanted size with room for a header, aligned */
    method AdjustSize(wantedSize: nat) returns (size: nat)
      ensures size == Adjusted(wantedSize)
    {
      size := wantedSize;
      if size > 0 {
        size := size + STRUCT_SIZE;
        if size % ALIGNMENT != 0 {
          size := size + (ALIGNMENT - size % ALIGNMENT);
        }
      }
    }

    /** The search and what follows it: a block of an aligned size */
    method AllocateFirstFit(size: nat) returns (pointer: nat)
      requires Valid() && end != NULL && size % ALIGNMENT == 0
      modifies this
      ensures Valid() && end == old(end)
      ensures var bs, i := old(blocks), FirstFit(old(blocks), size);
              if 0 < size && i < |bs| then pointer == bs[i].addr + STRUCT_SIZE && blocks == Allocate(bs, i, size)
              else pointer == NULL && blocks == bs
      ensures minimumEver == if freeBytesRemaining < old(minimumEver) then freeBytesRemaining else old(minimumEver)
    {
      hide Initialised, Allocate, Frees, FreeBytes, Sensible, FirstFit, FitInList, Chain, InOrder;
      pointer := NULL;
      FitsOrNot(size);
      CountersFit();
      if size > 0 && size <= freeBytesRemaining {
        ghost var i := FirstFit(blocks, size);
        var previous, block := FindFit(size, Frees(blocks));
        if block != end {
          pointer := block + STRUCT_SIZE;
          TakeBlock(previous, block, size, i, FitInList(Frees(blocks), size));
        }
      }
    }

    /** pvPortMalloc */
    method Malloc(wantedSize: nat) returns (pointer: nat)
      requires Valid() && wantedSize < 0x1_0000_0000
      modifies this
      ensures Valid() && end != NULL
      ensures Division() == AfterMalloc(old(Division()), wantedSize)
      ensures pointer == if Succeeds(old(Division()), wantedSize)
                         then old(Division())[FirstFit(old(Division()), Adjusted(wantedSize))].addr + STRUCT_SIZE
                         else NULL
      ensures freeBytesRemaining == FreeBytes(Division())
      ensures var bs, size := old(Division()), Adjusted(wantedSize);
              if pointer == NULL then Division() == bs
              else && wantedSize + 8 <= size < wantedSize + 16
                   && IsCut(bs, Division(), FirstFit(bs, size), size) && pointer == bs[FirstFit(bs, size)].addr + 8
                   && size <= FreeBytes(bs) - freeBytesRemaining <= size + 16
      ensures var before := if old(end) == NULL then Last() - First() else old(minimumEver);
              minimumEver == if freeBytesRemaining < before then freeBytesRemaining else before
    {
      hide Initialised, Allocate, Frees, FreeBytes, FirstFit, IsCut;
      MallocCuts(Division(), wantedSize);
      if end == NULL {
        HeapInit();
      }
      pointer := NULL;
      if wantedSize < ALLOCATED_BIT {
        var size := AdjustSize(wantedSize);
        Adjusts(wantedSize);
        pointer := AllocateFirstFit(size);
      }
      CountersFit();
    }

    lemma CountersFit()
      requires Valid() && end != NULL
      ensures freeBytesRemaining == FreeBytes(blocks) && minimumEver <= freeBytesRemaining
    {
    }

    /** What the search will find. */
    lemma FitsOrNot(size: nat)
      requires Valid() && end != NULL
      ensures var f, i, p := Frees(blocks), FirstFit(blocks, size), FitInList(Frees(blocks), size);
              && Chain(headers, start, f, end) && InOrder(f, end) && NULL < end
              && end in headers && headers[end] == Header(NULL, 0)
              && (forall j :: 0 <= j < |f| ==> NULL < f[j].addr)
              && (i < |blocks| <==> AddrAt(f, p, end) != end)
              && (i < |blocks| ==>
                    At(blocks, i, p) && blocks[i].addr == AddrAt(f, p, end) && size <= freeBytesRemaining)
    {
      hide Chain, Tiles, NoFreeNeighbours, Owned, Frees, FreeBytes, Apart;
      DivisionFacts(blocks, First(), end);
      FirstFitInList(blocks, size);
      if FirstFit(blocks, size) < |blocks| {
        FreeFits(blocks, FirstFit(blocks, size));
      }
    }

    /** vPortFree of a pointer to block `i`, or of NULL.  A block that is free already is left alone. */
    method Free(pointer: nat, ghost i: nat)
      requires Valid()
      requires pointer != NULL ==> end != NULL && i < |blocks| && pointer == blocks[i].addr + STRUCT_SIZE
      modifies this
      ensures Valid() && end == old(end) && minimumEver == old(minimumEver)
      ensures Division() == if pointer == NULL then old(Division()) else AfterFree(old(Division()), pointer)
    {
      hide Chain, InOrder, WellDivided, Owned, OnlyListed, Frees, FreeBytes, Apart, Release, Merged, HeadersAfter;
      if pointer != NULL {
        var block := pointer - STRUCT_SIZE;
        ghost var bs, h := blocks, headers;
        if bs[i].free {
          FreeFacts(h, start, bs, i, First(), end);
        } else {
          TakenFacts(h, bs, i, First(), end);
        }
        if headers[block].size >= ALLOCATED_BIT {
          if headers[block].next == NULL {
            headers := headers[block := headers[block].(size := headers[block].size - ALLOCATED_BIT)];
            freeBytesRemaining := freeBytesRemaining + headers[block].size;
            ghost var h1 := headers;
            ChainFrame(h, h1, start, Frees(bs), end, block, block);
            InsertBlockIntoFreeList(block, Frees(bs));
            blocks := Release(bs, i);
            ReleasedMarked(h, h1, headers, bs, i, First(), end);
          }
        }
      }
    }
  }

  lemma AtInRange(bs: seq<Block>, i: nat, p: nat)
    requires At(bs, i, p)
    ensures i < |bs|
  {
  }

  lemma FitIs(f: seq<Block>, size: nat, p: nat)
    requires p <= |f| && (p < |f| ==> f[p].size >= size)
    requires forall j :: 0 <= j < p ==> f[j].size < size
    ensures FitInList(f, size) == p
  {
  }

  // ---- The region and its memory ----

  lemma DivisionFacts(bs: seq<Block>, from: nat, to: nat)
    requires WellDivided(bs, from, to)
    ensures InOrder(Frees(bs), to) && Apart(Frees(bs))
    ensures forall i :: 0 <= i < |Frees(bs)| ==> from <= Frees(bs)[i].addr < to
  {
    FreesAscend(bs, from, to);
    FreesApart(bs, from, to);
  }

  lemma FitFacts(bs: seq<Block>, i: nat, p: nat, size: nat, from: nat, to: nat)
    requires WellDivided(bs, from, to) && At(bs, i, p) && bs[i].free && 0 < size <= bs[i].size
    ensures i < |bs|
    ensures var f, b := Frees(bs), bs[i];
            && p < |f| && f[p] == b && from <= b.addr && BlockEnd(b) <= to
            && var g := f[..p] + f[p + 1..];
            && InOrder(g, to)
            && (forall j :: 0 <= j < p ==> BlockEnd(g[j]) < b.addr)
            && (forall j :: p <= j < |g| ==> BlockEnd(b) < g[j].addr)
            && BlockEnd(b) <= FreeBytes(bs) + b.addr
  {
    hide Tiles, Frees, FreeBytes;
    var f := Frees(bs);
    FreesAscend(bs, from, to);
    FreesApart(bs, from, to);
    FreeFits(bs, i);
    var g := f[..p] + f[p + 1..];
    forall j | 0 <= j < |g|
      ensures g[j] == f[if j < p then j else j + 1]
    {
    }
  }

  /** The free list after taking block `p`, as the pieces it is put together from. */
  lemma ListAfterTaking(f: seq<Block>, p: nat, size: nat)
    requires p < |f| && size <= f[p].size
    ensures var g, c := f[..p] + f[p + 1..], Carve(f[p], size);
            && f[..p] + c[1..] + f[p + 1..] ==
               (if |c| == 2 then g[..p] + [c[1]] + g[p..] else g)
  {
  }

  /** Taken blocks lie elsewhere than anything in block `i`, and than the free list. */
  lemma TakenElsewhere(bs: seq<Block>, i: nat, b: Block, offset: nat, from: nat, to: nat)
    requires Tiles(bs, from, to) && i < |bs| && bs[i].free && offset < bs[i].size && b in bs && !b.free
    ensures b.addr != bs[i].addr + offset && b.addr < to
    ensures forall j :: 0 <= j < |Frees(bs)| ==> Frees(bs)[j].addr != b.addr
  {
    hide Tiles, Frees;
    var f := Frees(bs);
    TilesBounds(bs, from, to);
    var x :| 0 <= x < |bs| && bs[x] == b;
    forall j | 0 <= j < |f|
      ensures f[j].addr != b.addr
    {
      var y :| 0 <= y < |bs| && bs[y] == f[j];
    }
  }

  lemma OwnedAfterTaking(h: map<nat, Header>, h3: map<nat, Header>, bs: seq<Block>, i: nat, size: nat, from: nat,
                         to: nat)
    requires WellDivided(bs, from, to) && i < |bs| && bs[i].free && 0 < size <= bs[i].size && size % ALIGNMENT == 0
    requires Owned(h, bs) && OnlyListed(h, h3, Frees(bs), bs[i].addr, CutAt(bs[i], size))
    requires var b := Carve(bs[i], size)[0]; b.addr in h3 && h3[b.addr] == Header(NULL, b.size + ALLOCATED_BIT)
    ensures Owned(h3, Allocate(bs, i, size))
  {
    AllocateKeeps(bs, i, size, from, to);
    hide Tiles, NoFreeNeighbours, Frees;
    var now := Allocate(bs, i, size);
    forall b | b in now && !b.free
      ensures b.addr in h3 && h3[b.addr] == Header(NULL, b.size + ALLOCATED_BIT)
    {
      assert b in Taken(now);
      if b != Carve(bs[i], size)[0] {
        assert b in Taken(bs);
        TakenElsewhere(bs, i, b, 0, from, to);
        TakenElsewhere(bs, i, b, CutAt(bs[i], size) - bs[i].addr, from, to);
      }
    }
  }

  /** After the block has been marked, the memory fits the new division of the region. */
  lemma TakenMarked(h: map<nat, Header>, h2: map<nat, Header>, h3: map<nat, Header>, start: nat,
                    bs: seq<Block>, i: nat, p: nat, size: nat, from: nat, to: nat)
    requires WellDivided(bs, from, to) && At(bs, i, p) && bs[i].free && 0 < size <= bs[i].size && size % ALIGNMENT == 0
    requires Owned(h, bs) && to in h && h[to] == Header(NULL, 0)
    requires OnlyListed(h, h2, Frees(bs), bs[i].addr, CutAt(bs[i], size))
    requires var c := Carve(bs[i], size);
             && Chain(h2, start, Frees(bs)[..p] + c[1..] + Frees(bs)[p + 1..], to)
             && h3 == h2[bs[i].addr := Header(NULL, c[0].size + ALLOCATED_BIT)]
    ensures var now := Allocate(bs, i, size);
            && Chain(h3, start, Frees(now), to) && Owned(h3, now)
            && to in h3 && h3[to] == Header(NULL, 0)
            && FreeBytes(now) == FreeBytes(bs) - Carve(bs[i], size)[0].size
  {
    hide Tiles, NoFreeNeighbours, Frees, FreeBytes, Allocate, Chain, OnlyListed, Owned;
    var block := bs[i].addr;
    var now := Allocate(bs, i, size);
    FreesOfAllocate(bs, i, size);
    AtSplits(bs, i, p);
    AllocateKeeps(bs, i, size, from, to);
    CarvedAddress(bs[i], size);
    assert Carve(bs[i], size)[0] in Taken(now);
    NewTakenElsewhere(now, Carve(bs[i], size)[0], from, to);
    ChainFrame(h2, h3, start, Frees(now), to, block, block);
    MarkListed(h, h2, h3, Frees(bs), block, CutAt(bs[i], size), h3[block]);
    OwnedAfterTaking(h, h3, bs, i, size, from, to);
    EndUntouched(h, h3, bs, i, size, from, to);
  }

  lemma AtSplits(bs: seq<Block>, i: nat, p: nat)
    requires At(bs, i, p)
    ensures p < |Frees(bs)| && Frees(bs)[..p] == Frees(bs[..i]) && Frees(bs)[p + 1..] == Frees(bs[i + 1..])
  {
  }

  lemma CarvedAddress(b: Block, size: nat)
    requires size <= b.size
    ensures Carve(b, size)[0].addr == b.addr && !Carve(b, size)[0].free
  {
  }

  lemma NewTakenElsewhere(bs: seq<Block>, b: Block, from: nat, to: nat)
    requires Tiles(bs, from, to) && b in Taken(bs)
    ensures forall j :: 0 <= j < |Frees(bs)| ==> Frees(bs)[j].addr != b.addr
  {
    TilesBounds(bs, from, to);
    forall j | 0 <= j < |Frees(bs)|
      ensures Frees(bs)[j].addr != b.addr
    {
      assert Frees(bs)[j] in bs;
    }
  }

  lemma EndUntouched(h: map<nat, Header>, h3: map<nat, Header>, bs: seq<Block>, i: nat, size: nat, from: nat, to: nat)
    requires Tiles(bs, from, to) && i < |bs| && bs[i].free && 0 < size <= bs[i].size
    requires OnlyListed(h, h3, Frees(bs), bs[i].addr, CutAt(bs[i], size)) && to in h
    ensures to in h3 && h3[to] == h[to]
  {
    TilesBounds(bs, from, to);
    FreesAscend(bs, from, to);
  }

  lemma AllocateDivided(bs: seq<Block>, i: nat, size: nat, from: nat, to: nat)
    requires WellDivided(bs, from, to)
    requires i < |bs| && bs[i].free && 0 < size <= bs[i].size && size % ALIGNMENT == 0
    ensures WellDivided(Allocate(bs, i, size), from, to)
    ensures Carve(bs[i], size)[0].size <= bs[i].size <= FreeBytes(bs)
  {
    AllocateKeeps(bs, i, size, from, to);
    FreeFits(bs, i);
  }

  /** The header of a free block has not got the top bit of its size, and no allocated block is there. */
  lemma FreeFacts(h: map<nat, Header>, start: nat, bs: seq<Block>, i: nat, from: nat, to: nat)
    requires WellDivided(bs, from, to) && Chain(h, start, Frees(bs), to) && i < |bs| && bs[i].free
    requires to < from + ALLOCATED_BIT
    ensures bs[i].addr in h && h[bs[i].addr].size < ALLOCATED_BIT
    ensures AfterFree(bs, bs[i].addr + STRUCT_SIZE) == bs
  {
    hide Frees, WellDivided, Chain, AfterFree;
    assert bs[i] in bs;
    FreesComplete(bs, bs[i]);
    ListedHeader(h, start, Frees(bs), to, bs[i]);
    assert Tiles(bs, from, to) by { DivisionTiles(bs, from, to); }
    TilesBounds(bs, from, to);
    NoneTakenThere(bs, i, from, to);
  }

  lemma DivisionTiles(bs: seq<Block>, from: nat, to: nat)
    requires WellDivided(bs, from, to)
    ensures Tiles(bs, from, to)
  {
  }

  lemma ListedHeader(h: map<nat, Header>, start: nat, f: seq<Block>, end: nat, b: Block)
    requires Chain(h, start, f, end) && b in f
    ensures b.addr in h && h[b.addr].size == b.size
  {
    var k :| 0 <= k < |f| && f[k] == b;
  }

  lemma NoneTakenThere(bs: seq<Block>, i: nat, from: nat, to: nat)
    requires Tiles(bs, from, to) && i < |bs| && bs[i].free
    ensures AfterFree(bs, bs[i].addr + STRUCT_SIZE) == bs
  {
    hide Tiles, IndexOfPointer, Release;
    TilesBounds(bs, from, to);
  }

  lemma TakenFacts(h: map<nat, Header>, bs: seq<Block>, i: nat, from: nat, to: nat)
    requires WellDivided(bs, from, to) && Owned(h, bs) && i < |bs| && !bs[i].free
    ensures var f, b := Frees(bs), Block(bs[i].addr, bs[i].size, true);
            && b.addr in h && h[b.addr] == Header(NULL, b.size + ALLOCATED_BIT)
            && InOrder(f, to) && InGap(f, b, to)
            && (forall j :: 0 <= j < |f| ==> f[j].addr != b.addr)
            && |Frees(bs[..i])| <= |f| && PlaceFor(f, b.addr) == |Frees(bs[..i])|
            && Frees(Release(bs, i)) == Merged(f, PlaceFor(f, b.addr), b)
            && FreeBytes(Release(bs, i)) == FreeBytes(bs) + b.size
            && IndexOfPointer(bs, b.addr + STRUCT_SIZE) == i
  {
    hide Frees, FreeBytes, Release, Merged, PlaceFor, IndexOfPointer;
    TakenAt(bs, i, from, to);
    FreesAscend(bs, from, to);
    PlaceOfBlock(bs, i, from, to);
    FreesOfRelease(bs, i, from, to);
    FreeBytesOfRelease(bs, i);
    TilesBounds(bs, from, to);
    TakenInGap(bs, i, from, to);
  }

  lemma TakenInGap(bs: seq<Block>, i: nat, from: nat, to: nat)
    requires Tiles(bs, from, to) && i < |bs| && !bs[i].free
    ensures InGap(Frees(bs), Block(bs[i].addr, bs[i].size, true), to)
    ensures forall j :: 0 <= j < |Frees(bs)| ==> Frees(bs)[j].addr != bs[i].addr
  {
    TilesBounds(bs, from, to);
    forall j | 0 <= j < |Frees(bs)|
      ensures BlockEnd(Frees(bs)[j]) <= bs[i].addr || BlockEnd(bs[i]) <= Frees(bs)[j].addr
      ensures Frees(bs)[j].addr != bs[i].addr
    {
      assert Frees(bs)[j] in bs;
    }
  }

  /** After the insertion, the memory fits the region with the block released. */
  lemma ReleasedMarked(h: map<nat, Header>, h1: map<nat, Header>, h2: map<nat, Header>, bs: seq<Block>, i: nat,
                       from: nat, to: nat)
    requires WellDivided(bs, from, to) && Owned(h, bs) && i < |bs| && !bs[i].free
    requires to in h && h[to] == Header(NULL, 0)
    requires var f, b := Frees(bs), Block(bs[i].addr, bs[i].size, true);
             && h1 == h[b.addr := Header(NULL, b.size)]
             && h2 == HeadersAfter(h1, f, PlaceFor(f, b.addr), b, to)
    ensures WellDivided(Release(bs, i), from, to) && Owned(h2, Release(bs, i))
    ensures to in h2 && h2[to] == Header(NULL, 0)
  {
    hide Tiles, NoFreeNeighbours, Frees, Release, PlaceFor;
    var f, b := Frees(bs), Block(bs[i].addr, bs[i].size, true);
    ReleaseKeeps(bs, i, from, to);
    AfterListed(h1, f, PlaceFor(f, b.addr), b, to);
    hide HeadersAfter;
    var now := Release(bs, i);
    forall c | c in now && !c.free
      ensures c.addr in h2 && h2[c.addr] == Header(NULL, c.size + ALLOCATED_BIT)
    {
      assert c in Taken(now);
      assert c in Taken(bs);
      OtherTaken(bs, i, c, from, to);
    }
    EndBeyond(bs, i, from, to);
  }

  lemma AfterListed(h: map<nat, Header>, f: seq<Block>, p: nat, b: Block, to: nat)
    requires p <= |f|
    ensures OnlyListed(h, HeadersAfter(h, f, p, b, to), f, b.addr, b.addr)
  {
  }

  lemma OtherTaken(bs: seq<Block>, i: nat, c: Block, from: nat, to: nat)
    requires Tiles(bs, from, to) && i < |bs| && c in bs && !c.free && c != bs[i]
    ensures c.addr != bs[i].addr
    ensures forall j :: 0 <= j < |Frees(bs)| ==> Frees(bs)[j].addr != c.addr
  {
    TilesBounds(bs, from, to);
    forall j | 0 <= j < |Frees(bs)|
      ensures Frees(bs)[j].addr != c.addr
    {
      assert Frees(bs)[j] in bs;
    }
  }

  lemma EndBeyond(bs: seq<Block>, i: nat, from: nat, to: nat)
    requires Tiles(bs, from, to) && i < |bs|
    ensures bs[i].addr != to
    ensures forall j :: 0 <= j < |Frees(bs)| ==> Frees(bs)[j].addr != to
  {
    TilesBounds(bs, from, to);
    FreesAscend(bs, from, to);
  }
}
