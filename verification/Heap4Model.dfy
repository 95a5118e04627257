/** What heap_4.c does to the division of its region into blocks. */
module Heap4Model {
  import opened Blocks

  const ALIGNMENT: nat := 8            // portBYTE_ALIGNMENT
  const STRUCT_SIZE: nat := 8          // xHeapStructSize: two 32-bit words, aligned
  const MINIMUM_BLOCK_SIZE: nat := 2 * STRUCT_SIZE
  const ALLOCATED_BIT: nat := 0x8000_0000
  const NULL: nat := 0

  /** The wanted size with room for a header, rounded up to the alignment. */
  function Adjusted(wanted: nat): nat {
    if wanted == 0 then 0
    else
      var size := wanted + STRUCT_SIZE;
      if size % ALIGNMENT != 0 then size + (ALIGNMENT - size % ALIGNMENT) else size
  }

  /** The first free block that is big enough, or the number of blocks if there is none. */
  function FirstFit(bs: seq<Block>, size: nat): (i: nat)
    ensures i <= |bs|
    ensures i < |bs| ==> bs[i].free && bs[i].size >= size
    ensures forall j :: 0 <= j < i ==> !(bs[j].free && bs[j].size >= size)
  {
    if bs == [] || (bs[0].free && bs[0].size >= size) then 0 else 1 + FirstFit(bs[1..], size)
  }

  /** Block `i` is taken; what is left over becomes a free block if it is big enough. */
  function Carve(b: Block, size: nat): seq<Block>
    requires size <= b.size
  {
    if b.size - size > MINIMUM_BLOCK_SIZE then
      [Block(b.addr, size, false), Block(b.addr + size, b.size - size, true)]
    else
      [Block(b.addr, b.size, false)]
  }

  function Allocate(bs: seq<Block>, i: nat, size: nat): seq<Block>
    requires i < |bs| && size <= bs[i].size
  {
    bs[..i] + Carve(bs[i], size) + bs[i + 1..]
  }

  predicate JoinsLeft(bs: seq<Block>, i: nat)
    requires i < |bs|
  {
    i > 0 && bs[i - 1].free
  }

  predicate JoinsRight(bs: seq<Block>, i: nat)
    requires i < |bs|
  {
    i + 1 < |bs| && bs[i + 1].free
  }

  /** The free block that block `i` becomes, together with its free neighbours. */
  function Joined(bs: seq<Block>, i: nat): Block
    requires i < |bs|
  {
    Block(if JoinsLeft(bs, i) then bs[i - 1].addr else bs[i].addr,
          (if JoinsLeft(bs, i) then bs[i - 1].size else 0) + bs[i].size
            + (if JoinsRight(bs, i) then bs[i + 1].size else 0),
          true)
  }

  function Release(bs: seq<Block>, i: nat): seq<Block>
    requires i < |bs|
  {
    bs[..Low(bs, i)] + [Joined(bs, i)] + bs[High(bs, i)..]
  }

  predicate Succeeds(bs: seq<Block>, wanted: nat) {
    0 < wanted < ALLOCATED_BIT && FirstFit(bs, Adjusted(wanted)) < |bs|
  }

  function AfterMalloc(bs: seq<Block>, wanted: nat): seq<Block> {
    if Succeeds(bs, wanted) then Allocate(bs, FirstFit(bs, Adjusted(wanted)), Adjusted(wanted)) else bs
  }

  /** The index of the taken block a pointer is to, or the number of blocks. */
  function IndexOfPointer(bs: seq<Block>, pointer: nat): (i: nat)
    ensures i <= |bs|
    ensures i < |bs| ==> !bs[i].free && bs[i].addr + STRUCT_SIZE == pointer
  {
    if bs == [] || (!bs[0].free && bs[0].addr + STRUCT_SIZE == pointer) then 0 else 1 + IndexOfPointer(bs[1..], pointer)
  }

  function AfterFree(bs: seq<Block>, pointer: nat): seq<Block> {
    var i := IndexOfPointer(bs, pointer);
    if i < |bs| then Release(bs, i) else bs
  }

  // ---- What allocating and releasing keep ----

  /** The region is tiled by aligned blocks, and no two neighbours are free. */
  ghost predicate WellDivided(bs: seq<Block>, from: nat, to: nat) {
    && Tiles(bs, from, to) && NoFreeNeighbours(bs)
    && from % ALIGNMENT == 0
    && forall b <- bs :: b.size % ALIGNMENT == 0
  }

  lemma Adjusts(wanted: nat)
    ensures Adjusted(wanted) % ALIGNMENT == 0
    ensures wanted > 0 ==> wanted + STRUCT_SIZE <= Adjusted(wanted) < wanted + STRUCT_SIZE + ALIGNMENT
  {
  }

  /** Splitting a sequence at `i`. */
  lemma SplitAt(bs: seq<Block>, i: nat)
    requires i < |bs|
    ensures bs == bs[..i] + [bs[i]] + bs[i + 1..]
  {
  }

  lemma TilesMiddle(left: seq<Block>, middle: seq<Block>, right: seq<Block>, from: nat, to: nat)
    ensures Tiles(left + middle + right, from, to) <==>
              && Tiles(left, from, from + Extent(left))
              && Tiles(middle, from + Extent(left), from + Extent(left) + Extent(middle))
              && Tiles(right, from + Extent(left) + Extent(middle), to)
  {
    hide Tiles;
    TilesConcat(left + middle, right, from, to);
    ExtentConcat(left, middle);
    TilesConcat(left, middle, from, from + Extent(left) + Extent(middle));
  }

  /** A stretch of blocks is replaced by another that covers the same bytes. */
  lemma TilesReplaced(left: seq<Block>, middle: seq<Block>, other: seq<Block>, right: seq<Block>, from: nat, to: nat)
    requires Tiles(left + middle + right, from, to)
    requires Extent(middle) == Extent(other)
    requires var at := from + Extent(left);
             Tiles(middle, at, at + Extent(middle)) ==> Tiles(other, at, at + Extent(other))
    ensures Tiles(left + other + right, from, to)
  {
    hide Tiles;
    TilesMiddle(left, middle, right, from, to);
    TilesMiddle(left, other, right, from, to);
  }

  lemma CarveTiles(b: Block, size: nat, at: nat)
    requires 0 < size <= b.size
    ensures Extent(Carve(b, size)) == Extent([b])
    ensures Tiles([b], at, at + Extent([b])) ==> Tiles(Carve(b, size), at, at + Extent(Carve(b, size)))
  {
    var c := Carve(b, size);
    OneBlock(b, at, at + Extent([b]));
    OneBlock(c[0], at, at + c[0].size);
    if |c| == 2 {
      assert c == [c[0]] + [c[1]];
      ExtentConcat([c[0]], [c[1]]);
      TilesConcat([c[0]], [c[1]], at, at + Extent(c));
      OneBlock(c[1], at + size, at + Extent(c));
    }
  }

  lemma AllocateKeeps(bs: seq<Block>, i: nat, size: nat, from: nat, to: nat)
    requires WellDivided(bs, from, to)
    requires i < |bs| && bs[i].free && 0 < size <= bs[i].size && size % ALIGNMENT == 0
    ensures WellDivided(Allocate(bs, i, size), from, to)
    ensures Taken(Allocate(bs, i, size)) == Taken(bs) + {Carve(bs[i], size)[0]}
  {
    var c := Carve(bs[i], size);
    SplitAt(bs, i);
    CarveTiles(bs[i], size, from + Extent(bs[..i]));
    TilesReplaced(bs[..i], [bs[i]], c, bs[i + 1..], from, to);
    AllocateNeighbours(bs, i, size);
    AllocateTakes(bs, i, size);
  }

  lemma AllocateNeighbours(bs: seq<Block>, i: nat, size: nat)
    requires NoFreeNeighbours(bs) && i < |bs| && bs[i].free && size <= bs[i].size && size % ALIGNMENT == 0
    requires forall b <- bs :: b.size % ALIGNMENT == 0
    ensures NoFreeNeighbours(Allocate(bs, i, size))
    ensures forall b <- Allocate(bs, i, size) :: b.size % ALIGNMENT == 0
  {
    var c, now := Carve(bs[i], size), Allocate(bs, i, size);
    forall j | 0 <= j < |now|
      ensures now[j] == if j < i then bs[j] else if j < i + |c| then c[j - i] else bs[j - |c| + 1]
    {
    }
  }

  lemma AllocateTakes(bs: seq<Block>, i: nat, size: nat)
    requires i < |bs| && bs[i].free && size <= bs[i].size
    ensures Taken(Allocate(bs, i, size)) == Taken(bs) + {Carve(bs[i], size)[0]}
  {
    var c, now := Carve(bs[i], size), Allocate(bs, i, size);
    SplitAt(bs, i);
    forall b
      ensures b in Taken(now) <==> b in Taken(bs) + {c[0]}
    {
      assert b in now <==> b in bs[..i] || b in c || b in bs[i + 1..];
      assert b in bs <==> b in bs[..i] || b == bs[i] || b in bs[i + 1..];
    }
  }

  function Low(bs: seq<Block>, i: nat): (lo: nat)
    requires i < |bs|
    ensures lo <= i
  {
    if JoinsLeft(bs, i) then i - 1 else i
  }

  function High(bs: seq<Block>, i: nat): (hi: nat)
    requires i < |bs|
    ensures i < hi <= |bs|
  {
    if JoinsRight(bs, i) then i + 2 else i + 1
  }

  /** The blocks that block `i` is joined with, itself among them. */
  function Part(bs: seq<Block>, i: nat): (part: seq<Block>)
    requires i < |bs|
    ensures part == bs[Low(bs, i)..High(bs, i)]
  {
    (if JoinsLeft(bs, i) then [bs[i - 1]] else []) + [bs[i]] + (if JoinsRight(bs, i) then [bs[i + 1]] else [])
  }

  /** The sizes of at most three blocks add up. */
  lemma ExtentAround(left: seq<Block>, b: Block, right: seq<Block>)
    requires |left| <= 1 && |right| <= 1
    ensures Extent(left + [b] + right) ==
            (if left != [] then left[0].size else 0) + b.size + (if right != [] then right[0].size else 0)
  {
    ExtentConcat(left + [b], right);
    ExtentConcat(left, [b]);
    OneBlock(b, 0, 0);
    if left != [] { OneBlock(left[0], 0, 0); }
    if right != [] { OneBlock(right[0], 0, 0); }
  }

  lemma PartExtent(bs: seq<Block>, i: nat)
    requires i < |bs|
    ensures Extent(Part(bs, i)) == Joined(bs, i).size
    ensures Taken(Part(bs, i)) == if bs[i].free then {} else {bs[i]}
  {
    hide Extent, Low, High, Taken;
    PartTaken(bs, i);
    ExtentAround(if JoinsLeft(bs, i) then [bs[i - 1]] else [], bs[i], if JoinsRight(bs, i) then [bs[i + 1]] else []);
  }

  lemma PartTaken(bs: seq<Block>, i: nat)
    requires i < |bs|
    ensures Taken(Part(bs, i)) == if bs[i].free then {} else {bs[i]}
  {
    hide Low, High;
    forall b
      ensures b in Taken(Part(bs, i)) <==> b == bs[i] && !bs[i].free
    {
    }
  }

  lemma PartSplits(bs: seq<Block>, i: nat)
    requires i < |bs|
    ensures bs == bs[..Low(bs, i)] + Part(bs, i) + bs[High(bs, i)..]
  {
  }

  lemma JoinedAddress(bs: seq<Block>, i: nat, from: nat, to: nat)
    requires i < |bs| && Tiles(bs, from, to)
    ensures Joined(bs, i).addr == from + Extent(bs[..Low(bs, i)])
    ensures Joined(bs, i).size > 0
  {
    ExtentUpTo(bs, from, to, Low(bs, i));
    TilesBounds(bs, from, to);
  }

  lemma {:induction false} ExtentUpTo(bs: seq<Block>, from: nat, to: nat, i: nat)
    requires Tiles(bs, from, to) && i < |bs|
    ensures bs[i].addr == from + Extent(bs[..i])
  {
    if i > 0 {
      ExtentUpTo(bs[1..], from + bs[0].size, to, i - 1);
      assert bs[..i] == [bs[0]] + bs[1..][..i - 1];
      ExtentConcat([bs[0]], bs[1..][..i - 1]);
      OneBlock(bs[0], 0, 0);
    }
  }

  lemma ReleaseKeeps(bs: seq<Block>, i: nat, from: nat, to: nat)
    requires WellDivided(bs, from, to)
    requires i < |bs| && !bs[i].free
    ensures WellDivided(Release(bs, i), from, to)
    ensures Taken(Release(bs, i)) == Taken(bs) - {bs[i]}
  {
    hide Tiles, NoFreeNeighbours, Part, Joined;
    var lo, hi := Low(bs, i), High(bs, i);
    PartExtent(bs, i);
    JoinedAddress(bs, i, from, to);
    PartSplits(bs, i);
    OneBlock(Joined(bs, i), from + Extent(bs[..lo]), from + Extent(bs[..lo]) + Joined(bs, i).size);
    TilesReplaced(bs[..lo], Part(bs, i), [Joined(bs, i)], bs[hi..], from, to);
    ReleaseNeighbours(bs, i);
    ReleaseTakes(bs, i, from, to);
  }

  lemma ReleaseNeighbours(bs: seq<Block>, i: nat)
    requires NoFreeNeighbours(bs) && i < |bs|
    requires forall b <- bs :: b.size % ALIGNMENT == 0
    ensures NoFreeNeighbours(Release(bs, i))
    ensures forall b <- Release(bs, i) :: b.size % ALIGNMENT == 0
  {
    hide Low, High, Joined;
    var lo, hi, joined := Low(bs, i), High(bs, i), Joined(bs, i);
    var now := Release(bs, i);
    ReleasedAt(bs, i);
    JoinedAligned(bs, i);
    forall j | 0 < j < |now|
      ensures !(now[j - 1].free && now[j].free)
    {
      NoneBeside(bs, i);
      if j < lo {
        assert now[j - 1] == bs[j - 1] && now[j] == bs[j];
      } else if j == lo {
        assert now[j - 1] == bs[lo - 1];
      } else if j == lo + 1 {
        assert now[j] == bs[hi];
      } else {
        var k := j - lo - 1 + hi;
        assert now[j - 1] == bs[k - 1] && now[j] == bs[k];
      }
    }
    forall b | b in now
      ensures b.size % ALIGNMENT == 0
    {
      assert b in bs || b == joined;
    }
  }

  lemma ReleasedAt(bs: seq<Block>, i: nat)
    requires i < |bs|
    ensures var lo, hi, now := Low(bs, i), High(bs, i), Release(bs, i);
            && |now| == lo + 1 + |bs| - hi
            && forall j :: 0 <= j < |now| ==>
                 now[j] == if j < lo then bs[j] else if j == lo then Joined(bs, i) else bs[j - lo - 1 + hi]
  {
    hide Joined, Low, High;
  }

  /** What a released block is not joined with is taken. */
  lemma NoneBeside(bs: seq<Block>, i: nat)
    requires NoFreeNeighbours(bs) && i < |bs|
    ensures Low(bs, i) > 0 ==> !bs[Low(bs, i) - 1].free
    ensures High(bs, i) < |bs| ==> !bs[High(bs, i)].free
  {
  }

  lemma JoinedAligned(bs: seq<Block>, i: nat)
    requires i < |bs| && forall b <- bs :: b.size % ALIGNMENT == 0
    ensures Joined(bs, i).size % ALIGNMENT == 0
  {
    assert bs[i] in bs;
    if JoinsLeft(bs, i) { assert bs[i - 1] in bs; }
    if JoinsRight(bs, i) { assert bs[i + 1] in bs; }
  }

  lemma TakenConcat(a: seq<Block>, b: seq<Block>)
    ensures Taken(a + b) == Taken(a) + Taken(b)
  {
    forall x
      ensures x in Taken(a + b) <==> x in Taken(a) + Taken(b)
    {
      assert x in a + b <==> x in a || x in b;
    }
  }

  lemma NotElsewhere(bs: seq<Block>, i: nat, from: nat, to: nat)
    requires i < |bs| && Tiles(bs, from, to)
    ensures bs[i] !in bs[..Low(bs, i)] && bs[i] !in bs[High(bs, i)..]
  {
    TilesBounds(bs, from, to);
  }

  lemma ReleaseTakes(bs: seq<Block>, i: nat, from: nat, to: nat)
    requires i < |bs| && !bs[i].free && Tiles(bs, from, to)
    ensures Taken(Release(bs, i)) == Taken(bs) - {bs[i]}
  {
    hide Part, Tiles;
    var left, right := bs[..Low(bs, i)], bs[High(bs, i)..];
    JoinedAddress(bs, i, from, to);
    PartSplits(bs, i);
    NotElsewhere(bs, i, from, to);
    PartExtent(bs, i);
    TakenConcat(left + Part(bs, i), right);
    TakenConcat(left, Part(bs, i));
    TakenConcat(left + [Joined(bs, i)], right);
    TakenConcat(left, [Joined(bs, i)]);
    assert Taken([Joined(bs, i)]) == {};
    assert bs[i] !in Taken(left) && bs[i] !in Taken(right);
    hide Taken;
  }

  lemma AllocatedAt(bs: seq<Block>, i: nat, size: nat)
    requires i < |bs| && size <= bs[i].size
    ensures i < |Allocate(bs, i, size)|
    ensures Allocate(bs, i, size)[i].addr == bs[i].addr && !Allocate(bs, i, size)[i].free
  {
  }

  lemma TakenAt(bs: seq<Block>, i: nat, from: nat, to: nat)
    requires Tiles(bs, from, to) && i < |bs| && !bs[i].free
    ensures IndexOfPointer(bs, bs[i].addr + STRUCT_SIZE) == i
  {
    TilesBounds(bs, from, to);
    IndexIs(bs, bs[i].addr + STRUCT_SIZE, i);
  }

  lemma {:induction false} IndexIs(bs: seq<Block>, pointer: nat, i: nat)
    requires i < |bs| && !bs[i].free && bs[i].addr + STRUCT_SIZE == pointer
    requires forall j :: 0 <= j < i ==> bs[j].addr + STRUCT_SIZE != pointer
    ensures IndexOfPointer(bs, pointer) == i
  {
    if i > 0 {
      IndexIs(bs[1..], pointer, i - 1);
    }
  }

  // ---- The free list is a function of what is taken ----

  /** Releasing what was just allocated restores every block. */
  lemma ReleaseUndoesAllocate(bs: seq<Block>, i: nat, size: nat, from: nat, to: nat)
    requires WellDivided(bs, from, to)
    requires i < |bs| && bs[i].free && 0 < size <= bs[i].size && size % ALIGNMENT == 0
    ensures Release(Allocate(bs, i, size), i) == bs
  {
    hide Tiles, NoFreeNeighbours;
    AllocateKeeps(bs, i, size, from, to);
    var now := Allocate(bs, i, size);
    ReleaseKeeps(now, i, from, to);
    assert now[i] == Carve(bs[i], size)[0];
    NotYetTaken(bs, i, size, from, to);
    TakenDetermineAll(Release(now, i), bs, from, to);
  }

  lemma NotYetTaken(bs: seq<Block>, i: nat, size: nat, from: nat, to: nat)
    requires Tiles(bs, from, to)
    requires i < |bs| && bs[i].free && size <= bs[i].size
    ensures Taken(bs) + {Carve(bs[i], size)[0]} - {Carve(bs[i], size)[0]} == Taken(bs)
  {
    var b := Carve(bs[i], size)[0];
    TilesBounds(bs, from, to);
    forall j | 0 <= j < |bs|
      ensures bs[j] != b
    {
    }
  }

  /** With nothing taken the region is one free block. */
  lemma NothingTaken(bs: seq<Block>, from: nat, to: nat)
    requires WellDivided(bs, from, to) && Taken(bs) == {} && from < to
    ensures bs == [Block(from, to - from, true)]
  {
    var one := Block(from, to - from, true);
    OneBlock(one, from, to);
    assert Taken([one]) == {};
    TakenDetermineAll(bs, [one], from, to);
  }
}
