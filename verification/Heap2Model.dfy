/** What heap_2.c does: best fit over a free list ordered by size, without joining neighbours. */
module Heap2Model {
  import opened Blocks
  import opened Heap4Model
  import opened FreeLinks

  const WORD: nat := 0x1_0000_0000

  /** The wanted size with room for a header, aligned, in 32-bit arithmetic: heap_2.c adds without
      checking the size first. */
  function WordAdjusted(wanted: nat): nat {
    if wanted == 0 then 0
    else
      var size := (wanted + STRUCT_SIZE) % WORD;
      if size % ALIGNMENT != 0 then (size + (ALIGNMENT - size % ALIGNMENT)) % WORD else size
  }

  /** The size that is looked for has room for what is wanted exactly when the addition has not
      wrapped past zero. */
  lemma RoomExactlyWhen(wanted: nat)
    requires wanted < 0x1_0000_0000
    ensures WordAdjusted(wanted) == 0 || WordAdjusted(wanted) >= wanted + 8 <==> wanted <= 0xFFFF_FFF8
    ensures WordAdjusted(wanted) % 8 == 0
    ensures wanted < 0xFFFF_FFF0 ==> WordAdjusted(wanted) == Adjusted(wanted)
    ensures 0xFFFF_FFF0 < wanted <= 0xFFFF_FFF8 ==> WordAdjusted(wanted) == 0
    ensures wanted > 0xFFFF_FFF8 ==> WordAdjusted(wanted) == 8
  {
  }

  /** The first block of the list that is not smaller: where a block of this size goes, and where
      the search for this size ends. */
  function PlaceBySize(f: seq<Block>, size: nat): (p: nat)
    ensures p <= |f|
    ensures forall i :: 0 <= i < p ==> f[i].size < size
    ensures p < |f| ==> f[p].size >= size
  {
    if f == [] || f[0].size >= size then 0 else 1 + PlaceBySize(f[1..], size)
  }

  function InsertBySize(f: seq<Block>, b: Block): seq<Block> {
    var p := PlaceBySize(f, b.size);
    f[..p] + [b] + f[p..]
  }

  function TakeOut(f: seq<Block>, p: nat): seq<Block>
    requires p < |f|
  {
    f[..p] + f[p + 1..]
  }

  function IndexAt(bs: seq<Block>, addr: nat): (i: nat)
    ensures i <= |bs|
    ensures i < |bs| ==> bs[i].addr == addr
  {
    if bs == [] || bs[0].addr == addr then 0 else 1 + IndexAt(bs[1..], addr)
  }

  /** The division of the region into blocks, and the free list. */
  datatype Heap = Heap(blocks: seq<Block>, list: seq<Block>)

  /** `limit` is configADJUSTED_HEAP_SIZE. */
  predicate Succeeds(h: Heap, wanted: nat, limit: nat) {
    0 < WordAdjusted(wanted) < limit && PlaceBySize(h.list, WordAdjusted(wanted)) < |h.list|
  }

  /** The list after its block `p` has been taken and the rest of it put back. */
  function ListAfterTake(f: seq<Block>, p: nat, size: nat): seq<Block>
    requires p < |f| && size <= f[p].size
  {
    if f[p].size - size > MINIMUM_BLOCK_SIZE then InsertBySize(TakeOut(f, p), Carve(f[p], size)[1]) else TakeOut(f, p)
  }

  /** In a good heap the listed block is one of the region. */
  function AfterMalloc(h: Heap, wanted: nat, limit: nat): Heap {
    if !Succeeds(h, wanted, limit) then h
    else
      var size := WordAdjusted(wanted);
      var p := PlaceBySize(h.list, size);
      var i := IndexAt(h.blocks, h.list[p].addr);
      if i < |h.blocks| && size <= h.blocks[i].size then
        Heap(Allocate(h.blocks, i, size), ListAfterTake(h.list, p, size))
      else
        h
  }

  function Freed(b: Block): Block {
    b.(free := true)
  }

  function AfterFree(h: Heap, i: nat): Heap
    requires i < |h.blocks|
  {
    Heap(h.blocks[i := Freed(h.blocks[i])], InsertBySize(h.list, Freed(h.blocks[i])))
  }

  // ---- The invariant ----

  ghost predicate SizeSorted(f: seq<Block>) {
    forall i, j :: 0 <= i < j < |f| ==> f[i].size <= f[j].size
  }

  /** The list holds each free block of the region once. */
  ghost predicate Lists(f: seq<Block>, bs: seq<Block>) {
    Distinct(f) && forall b :: b in f <==> b in bs && b.free
  }

  ghost predicate Good(h: Heap, from: nat, to: nat) {
    Tiles(h.blocks, from, to) && SizeSorted(h.list) && Lists(h.list, h.blocks)
  }

  lemma TakenIndex(h: Heap, p: nat, from: nat, to: nat)
    requires Good(h, from, to) && p < |h.list|
    ensures var i := IndexAt(h.blocks, h.list[p].addr);
            i < |h.blocks| && h.blocks[i] == h.list[p] && h.list[p].free
  {
    var b := h.list[p];
    assert b in h.list;
    var i :| 0 <= i < |h.blocks| && h.blocks[i] == b;
    IndexIs(h.blocks, i, from, to);
  }

  lemma IndexIs(bs: seq<Block>, i: nat, from: nat, to: nat)
    requires Tiles(bs, from, to) && i < |bs|
    ensures IndexAt(bs, bs[i].addr) == i
  {
    TilesBounds(bs, from, to);
    FirstAt(bs, bs[i].addr, i);
  }

  lemma {:induction false} FirstAt(bs: seq<Block>, addr: nat, i: nat)
    requires i < |bs| && bs[i].addr == addr
    requires forall j :: 0 <= j < i ==> bs[j].addr != addr
    ensures IndexAt(bs, addr) == i
  {
    if i > 0 {
      FirstAt(bs[1..], addr, i - 1);
    }
  }

  /** Best fit: an allocation succeeds exactly when the size is in range and a free block is big
      enough, and then takes a smallest one of those. */
  lemma TakesSmallestThatFits(h: Heap, wanted: nat, limit: nat, from: nat, to: nat)
    requires Good(h, from, to)
    ensures Succeeds(h, wanted, limit) <==>
              0 < WordAdjusted(wanted) < limit && exists b :: b in h.blocks && b.free && b.size >= WordAdjusted(wanted)
    ensures Succeeds(h, wanted, limit) ==>
              var taken := h.list[PlaceBySize(h.list, WordAdjusted(wanted))];
              && taken in h.blocks && taken.free && taken.size >= WordAdjusted(wanted)
              && forall b :: b in h.blocks && b.free && b.size >= WordAdjusted(wanted) ==> taken.size <= b.size
  {
    var size := WordAdjusted(wanted);
    var p := PlaceBySize(h.list, size);
    forall b | b in h.blocks && b.free && b.size >= size
      ensures p < |h.list| && h.list[p].size <= b.size
    {
      assert b in h.list;
      var j :| 0 <= j < |h.list| && h.list[j] == b;
    }
    if p < |h.list| {
      assert h.list[p] in h.list;
    }
  }

  lemma InsertSorted(f: seq<Block>, b: Block)
    requires SizeSorted(f) && Distinct(f) && forall c <- f :: c.addr != b.addr
    ensures SizeSorted(InsertBySize(f, b)) && Distinct(InsertBySize(f, b))
    ensures forall c :: c in InsertBySize(f, b) <==> c == b || c in f
  {
    var p := PlaceBySize(f, b.size);
    Above(f, b.size);
    PutSorted(f, p, b);
    PutDistinct(f, p, b);
    PutMembers(f, p, b);
  }

  lemma Above(f: seq<Block>, size: nat)
    requires SizeSorted(f)
    ensures forall i :: PlaceBySize(f, size) <= i < |f| ==> f[i].size >= size
  {
  }

  lemma PutSorted(f: seq<Block>, p: nat, b: Block)
    requires SizeSorted(f) && p <= |f|
    requires (forall i :: 0 <= i < p ==> f[i].size <= b.size) && forall i :: p <= i < |f| ==> f[i].size >= b.size
    ensures SizeSorted(f[..p] + [b] + f[p..])
  {
    var g := f[..p] + [b] + f[p..];
    assert forall i :: 0 <= i < |g| ==> g[i] == if i < p then f[i] else if i == p then b else f[i - 1];
  }

  lemma PutDistinct(f: seq<Block>, p: nat, b: Block)
    requires Distinct(f) && p <= |f| && forall c <- f :: c.addr != b.addr
    ensures Distinct(f[..p] + [b] + f[p..])
  {
    var g := f[..p] + [b] + f[p..];
    assert forall i :: 0 <= i < |g| ==> g[i] == if i < p then f[i] else if i == p then b else f[i - 1];
  }

  lemma PutMembers(f: seq<Block>, p: nat, b: Block)
    requires p <= |f|
    ensures forall c :: c in f[..p] + [b] + f[p..] <==> c == b || c in f
  {
    forall c
      ensures c in f[..p] + [b] + f[p..] <==> c == b || c in f
    {
      assert c in f[..p] + [b] + f[p..] <==> c in f[..p] || c == b || c in f[p..];
      assert c in f <==> c in f[..p] || c in f[p..] by { assert f == f[..p] + f[p..]; }
    }
  }

  lemma TakeOutSorted(f: seq<Block>, p: nat)
    requires SizeSorted(f) && Distinct(f) && p < |f|
    ensures SizeSorted(TakeOut(f, p)) && Distinct(TakeOut(f, p))
    ensures forall c :: c in TakeOut(f, p) <==> c in f && c != f[p]
  {
    var g := TakeOut(f, p);
    forall i | 0 <= i < |g|
      ensures g[i] == f[if i < p then i else i + 1]
    {
    }
    forall c | c in f && c != f[p]
      ensures c in g
    {
      var j :| 0 <= j < |f| && f[j] == c;
      assert g[if j < p then j else j - 1] == c;
    }
  }

  lemma AllocateTiles(bs: seq<Block>, i: nat, size: nat, from: nat, to: nat)
    requires Tiles(bs, from, to) && i < |bs| && 0 < size <= bs[i].size
    ensures Tiles(Allocate(bs, i, size), from, to)
  {
    hide Tiles;
    SplitAt(bs, i);
    CarveTiles(bs[i], size, from + Extent(bs[..i]));
    TilesReplaced(bs[..i], [bs[i]], Carve(bs[i], size), bs[i + 1..], from, to);
  }

  lemma AllocateMembers(bs: seq<Block>, i: nat, size: nat, from: nat, to: nat)
    requires Tiles(bs, from, to) && i < |bs| && bs[i].free && 0 < size <= bs[i].size
    ensures forall c :: c in Allocate(bs, i, size) && c.free <==>
              (c in bs && c.free && c != bs[i]) || c in Carve(bs[i], size)[1..]
  {
    TilesBounds(bs, from, to);
    hide Tiles;
    var c0 := Carve(bs[i], size);
    SplitAt(bs, i);
    forall c
      ensures c in Allocate(bs, i, size) && c.free <==> (c in bs && c.free && c != bs[i]) || c in c0[1..]
    {
      assert c in Allocate(bs, i, size) <==> c in bs[..i] || c in c0 || c in bs[i + 1..];
      assert c in bs <==> c in bs[..i] || c == bs[i] || c in bs[i + 1..];
      assert bs[i] !in bs[..i] && bs[i] !in bs[i + 1..];
      assert c in c0 <==> c == c0[0] || c in c0[1..];
    }
  }

  lemma MallocKeeps(h: Heap, wanted: nat, limit: nat, from: nat, to: nat)
    requires Good(h, from, to)
    ensures Good(AfterMalloc(h, wanted, limit), from, to)
  {
    if Succeeds(h, wanted, limit) {
      var size := WordAdjusted(wanted);
      var p := PlaceBySize(h.list, size);
      TakenIndex(h, p, from, to);
      var i := IndexAt(h.blocks, h.list[p].addr);
      hide Tiles, SizeSorted, Distinct, InsertBySize, TakeOut, Allocate, PlaceBySize;
      AllocateTiles(h.blocks, i, size, from, to);
      AllocateMembers(h.blocks, i, size, from, to);
      TakeOutSorted(h.list, p);
      if h.list[p].size - size > MINIMUM_BLOCK_SIZE {
        RestIsElsewhere(h, i, size, from, to);
        InsertSorted(TakeOut(h.list, p), Carve(h.list[p], size)[1]);
      }
    }
  }

  lemma RestIsElsewhere(h: Heap, i: nat, size: nat, from: nat, to: nat)
    requires Good(h, from, to) && i < |h.blocks| && 0 < size < h.blocks[i].size
    ensures forall c <- h.list :: c.addr != h.blocks[i].addr + size
  {
    TilesBounds(h.blocks, from, to);
    forall c | c in h.list
      ensures c.addr != h.blocks[i].addr + size
    {
      var j :| 0 <= j < |h.blocks| && h.blocks[j] == c;
    }
  }

  lemma FreeKeeps(h: Heap, i: nat, from: nat, to: nat)
    requires Good(h, from, to) && i < |h.blocks| && !h.blocks[i].free
    ensures Good(AfterFree(h, i), from, to)
  {
    var b := Freed(h.blocks[i]);
    TilesBounds(h.blocks, from, to);
    FreedTiles(h.blocks, i, from, to);
    forall c | c in h.list
      ensures c.addr != b.addr
    {
      var j :| 0 <= j < |h.blocks| && h.blocks[j] == c;
    }
    hide SizeSorted, Tiles, Distinct, InsertBySize;
    InsertSorted(h.list, b);
    FreedMembers(h.blocks, i, from, to);
  }

  lemma FreedTiles(bs: seq<Block>, i: nat, from: nat, to: nat)
    requires Tiles(bs, from, to) && i < |bs|
    ensures Tiles(bs[i := Freed(bs[i])], from, to)
  {
    hide Tiles;
    SplitAt(bs, i);
    var at := from + Extent(bs[..i]);
    OneBlock(bs[i], at, at + bs[i].size);
    OneBlock(Freed(bs[i]), at, at + bs[i].size);
    TilesReplaced(bs[..i], [bs[i]], [Freed(bs[i])], bs[i + 1..], from, to);
    assert bs[i := Freed(bs[i])] == bs[..i] + [Freed(bs[i])] + bs[i + 1..];
  }

  lemma FreedMembers(bs: seq<Block>, i: nat, from: nat, to: nat)
    requires Tiles(bs, from, to) && i < |bs| && !bs[i].free
    ensures forall c :: c in bs[i := Freed(bs[i])] && c.free <==> (c in bs && c.free) || c == Freed(bs[i])
  {
    var now := bs[i := Freed(bs[i])];
    forall c
      ensures c in now && c.free <==> (c in bs && c.free) || c == Freed(bs[i])
    {
      if c in bs && c.free {
        var j :| 0 <= j < |bs| && bs[j] == c;
        assert now[j] == c;
      }
      assert now[i] == Freed(bs[i]);
    }
  }

  // ---- The count of free bytes ----

  lemma FreeBytesAfterMalloc(h: Heap, wanted: nat, limit: nat, from: nat, to: nat)
    requires Good(h, from, to) && Succeeds(h, wanted, limit)
    ensures var size, taken := WordAdjusted(wanted), h.list[PlaceBySize(h.list, WordAdjusted(wanted))];
            FreeBytes(AfterMalloc(h, wanted, limit).blocks) + Carve(taken, size)[0].size == FreeBytes(h.blocks)
  {
    var size := WordAdjusted(wanted);
    var p := PlaceBySize(h.list, size);
    TakenIndex(h, p, from, to);
    BytesOfAllocate(h.blocks, IndexAt(h.blocks, h.list[p].addr), size);
  }

  lemma BytesMiddle(left: seq<Block>, middle: seq<Block>, right: seq<Block>)
    ensures FreeBytes(left + middle + right) == FreeBytes(left) + FreeBytes(middle) + FreeBytes(right)
  {
    hide Frees, FreeBytes;
    FreesConcat(left + middle, right);
    FreesConcat(left, middle);
  }

  lemma BytesOfAllocate(bs: seq<Block>, i: nat, size: nat)
    requires i < |bs| && size <= bs[i].size && bs[i].free
    ensures FreeBytes(Allocate(bs, i, size)) + Carve(bs[i], size)[0].size == FreeBytes(bs)
  {
    var c := Carve(bs[i], size);
    assert FreeBytes(c) + c[0].size == FreeBytes([bs[i]]) by {
      OneBlock(bs[i], 0, 0);
      OneBlock(c[0], 0, 0);
      if |c| == 2 {
        assert c == [c[0]] + [c[1]];
        FreesConcat([c[0]], [c[1]]);
        OneBlock(c[1], 0, 0);
      }
    }
    hide FreeBytes, Carve;
    SplitAt(bs, i);
    BytesMiddle(bs[..i], [bs[i]], bs[i + 1..]);
    BytesMiddle(bs[..i], c, bs[i + 1..]);
  }

  lemma BytesOfFreed(bs: seq<Block>, i: nat)
    requires i < |bs| && !bs[i].free
    ensures FreeBytes(bs[i := Freed(bs[i])]) == FreeBytes(bs) + bs[i].size
  {
    hide FreeBytes;
    SplitAt(bs, i);
    OneBlock(bs[i], 0, 0);
    OneBlock(Freed(bs[i]), 0, 0);
    BytesMiddle(bs[..i], [bs[i]], bs[i + 1..]);
    BytesMiddle(bs[..i], [Freed(bs[i])], bs[i + 1..]);
    assert bs[i := Freed(bs[i])] == bs[..i] + [Freed(bs[i])] + bs[i + 1..];
  }

  // ---- Histories ----

  /** A release is of the block with the index; of a free block or none it is not a call the heap
      allows, and changes nothing here. */
  datatype Operation = Malloc(wanted: nat) | Free(block: nat)

  function Do(h: Heap, operation: Operation, limit: nat): Heap {
    match operation
    case Malloc(wanted) => AfterMalloc(h, wanted, limit)
    case Free(i) => if i < |h.blocks| && !h.blocks[i].free then AfterFree(h, i) else h
  }

  function DoAll(h: Heap, operations: seq<Operation>, limit: nat): Heap
    decreases |operations|
  {
    if operations == [] then h else DoAll(Do(h, operations[0], limit), operations[1..], limit)
  }

  function Initial(from: nat, to: nat): Heap
    requires from < to
  {
    var whole := Block(from, to - from, true);
    Heap([whole], [whole])
  }

  lemma InitialIsGood(from: nat, to: nat)
    requires from < to
    ensures Good(Initial(from, to), from, to)
  {
    OneBlock(Block(from, to - from, true), from, to);
  }

  /** A request for almost all of the address space looks for a block of eight bytes.  So in a fresh
      heap of 1024 bytes it succeeds, and is given a block that has room for its header and nothing
      else. */
  lemma HugeRequestLooksSmall()
    ensures var wanted, h := 0xFFFF_FFFF, Initial(0, 1024);
            && WordAdjusted(wanted) == 8 && Good(h, 0, 1024) && Succeeds(h, wanted, 1024)
            && AfterMalloc(h, wanted, 1024).blocks ==
                 [Block(0, STRUCT_SIZE, false), Block(STRUCT_SIZE, 1024 - STRUCT_SIZE, true)]
  {
    InitialIsGood(0, 1024);
    var whole := Block(0, 1024, true);
    assert PlaceBySize([whole], 8) == 0 && IndexAt([whole], 0) == 0;
    assert Allocate([whole], 0, 8) == Carve(whole, 8);
  }

  /** Every history keeps the blocks tiling the region and the free list sorted by size, with each
      free block on it once. */
  lemma {:induction false} HistoryKeeps(h: Heap, operations: seq<Operation>, limit: nat, from: nat, to: nat)
    requires Good(h, from, to)
    ensures Good(DoAll(h, operations, limit), from, to)
    decreases |operations|
  {
    hide Good, AfterMalloc, AfterFree;
    if operations != [] {
      match operations[0] {
        case Malloc(wanted) => MallocKeeps(h, wanted, limit, from, to);
        case Free(i) => if i < |h.blocks| && !h.blocks[i].free { FreeKeeps(h, i, from, to); }
      }
      HistoryKeeps(Do(h, operations[0], limit), operations[1..], limit, from, to);
    }
  }
}
