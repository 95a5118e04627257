/** The address-ordered free list of heap_4.c as a sequence of free blocks: what an insertion with
    coalescing does to it, and that this is what releasing a block does to the whole region. */
module Heap4List {
  import opened Blocks
  import opened Heap4Model

  /** How many blocks of the list lie below `addr`. */
  function PlaceFor(f: seq<Block>, addr: nat): (p: nat)
    ensures p <= |f|
    ensures forall i :: 0 <= i < p ==> f[i].addr < addr
    ensures p < |f| ==> f[p].addr >= addr
  {
    if f == [] || f[0].addr >= addr then 0 else 1 + PlaceFor(f[1..], addr)
  }

  predicate TouchesLeft(f: seq<Block>, p: nat, b: Block)
    requires p <= |f|
  {
    p > 0 && BlockEnd(f[p - 1]) == b.addr
  }

  predicate TouchesRight(f: seq<Block>, p: nat, b: Block)
    requires p <= |f|
  {
    p < |f| && BlockEnd(b) == f[p].addr
  }

  /** The block merged with the blocks it touches. */
  function Grown(f: seq<Block>, p: nat, b: Block): Block
    requires p <= |f|
  {
    Block(if TouchesLeft(f, p, b) then f[p - 1].addr else b.addr,
          (if TouchesLeft(f, p, b) then f[p - 1].size else 0) + b.size
            + (if TouchesRight(f, p, b) then f[p].size else 0),
          true)
  }

  /** prvInsertBlockIntoFreeList: the block goes in at its place, merged with what it touches. */
  function Merged(f: seq<Block>, p: nat, b: Block): seq<Block>
    requires p <= |f|
  {
    f[..if TouchesLeft(f, p, b) then p - 1 else p] + [Grown(f, p, b)] + f[if TouchesRight(f, p, b) then p + 1 else p..]
  }

  lemma FreesMiddle(left: seq<Block>, middle: seq<Block>, right: seq<Block>)
    ensures Frees(left + middle + right) == Frees(left) + Frees(middle) + Frees(right)
    ensures FreeBytes(left + middle + right) == FreeBytes(left) + FreeBytes(middle) + FreeBytes(right)
  {
    hide Frees, FreeBytes;
    FreesConcat(left + middle, right);
    FreesConcat(left, middle);
  }

  /** The free list around block `i`, which is not in it. */
  lemma FreesAround(bs: seq<Block>, i: nat, from: nat, to: nat)
    requires Tiles(bs, from, to) && i < |bs| && !bs[i].free
    ensures Frees(bs) == Frees(bs[..i]) + Frees(bs[i + 1..])
    ensures Tiles(bs[..i], from, bs[i].addr) && Tiles(bs[i + 1..], BlockEnd(bs[i]), to)
  {
    hide Frees, FreeBytes, Tiles;
    SplitAt(bs, i);
    FreesMiddle(bs[..i], [bs[i]], bs[i + 1..]);
    TilesMiddle(bs[..i], [bs[i]], bs[i + 1..], from, to);
    OneBlock(bs[i], from + Extent(bs[..i]), from + Extent(bs[..i]) + Extent([bs[i]]));
  }

  lemma FreesOfPrefix(bs: seq<Block>, i: nat)
    requires 0 < i <= |bs|
    ensures Frees(bs[..i]) == Frees(bs[..i - 1]) + if bs[i - 1].free then [bs[i - 1]] else []
  {
    assert bs[..i] == bs[..i - 1] + [bs[i - 1]];
    FreesConcat(bs[..i - 1], [bs[i - 1]]);
    OneBlock(bs[i - 1], 0, 0);
  }

  lemma FreesOfSuffix(bs: seq<Block>, i: nat)
    requires i < |bs|
    ensures Frees(bs[i..]) == (if bs[i].free then [bs[i]] else []) + Frees(bs[i + 1..])
  {
    assert bs[i..][1..] == bs[i + 1..];
  }

  /** Whether block `i` touches its neighbours in the free list is whether its neighbours in the
      region are free. */
  lemma TouchesIsJoins(bs: seq<Block>, i: nat, from: nat, to: nat)
    requires Tiles(bs, from, to) && i < |bs| && !bs[i].free
    ensures var f, p, b := Frees(bs), |Frees(bs[..i])|, Block(bs[i].addr, bs[i].size, true);
            && p <= |f| && f[..p] == Frees(bs[..i]) && f[p..] == Frees(bs[i + 1..])
            && (TouchesLeft(f, p, b) <==> JoinsLeft(bs, i)) && (JoinsLeft(bs, i) ==> f[p - 1] == bs[i - 1])
            && (TouchesRight(f, p, b) <==> JoinsRight(bs, i)) && (JoinsRight(bs, i) ==> f[p] == bs[i + 1])
  {
    hide Tiles;
    FreesAround(bs, i, from, to);
    LastFree(bs[..i], from, bs[i].addr);
    FirstFree(bs[i + 1..], BlockEnd(bs[i]), to);
  }

  /** Inserting into the free list what is released keeps the free list that of the region. */
  lemma FreesOfRelease(bs: seq<Block>, i: nat, from: nat, to: nat)
    requires Tiles(bs, from, to) && i < |bs| && !bs[i].free
    ensures |Frees(bs[..i])| <= |Frees(bs)|
    ensures Frees(Release(bs, i)) == Merged(Frees(bs), |Frees(bs[..i])|, Block(bs[i].addr, bs[i].size, true))
  {
    hide Tiles, Frees, FreeBytes, Joined;
    TouchesIsJoins(bs, i, from, to);
    JoinedIsGrown(bs, i, from, to);
    var lo, hi := Low(bs, i), High(bs, i);
    FreesMiddle(bs[..lo], [Joined(bs, i)], bs[hi..]);
    OneBlock(Joined(bs, i), 0, 0);
    if JoinsLeft(bs, i) { FreesOfPrefix(bs, i); }
    if JoinsRight(bs, i) { FreesOfSuffix(bs, i + 1); }
    var f, p := Frees(bs), |Frees(bs[..i])|;
    assert Frees(bs[..lo]) == f[..if JoinsLeft(bs, i) then p - 1 else p];
    assert Frees(bs[hi..]) == f[if JoinsRight(bs, i) then p + 1 else p..];
  }

  lemma JoinedIsGrown(bs: seq<Block>, i: nat, from: nat, to: nat)
    requires Tiles(bs, from, to) && i < |bs| && !bs[i].free
    ensures |Frees(bs[..i])| <= |Frees(bs)|
    ensures Grown(Frees(bs), |Frees(bs[..i])|, Block(bs[i].addr, bs[i].size, true)) == Joined(bs, i)
    ensures Joined(bs, i).free
  {
    hide Tiles, Frees, FreeBytes;
    TouchesIsJoins(bs, i, from, to);
  }

  /** Its place in the free list. */
  lemma PlaceOfBlock(bs: seq<Block>, i: nat, from: nat, to: nat)
    requires Tiles(bs, from, to) && i < |bs| && !bs[i].free
    ensures PlaceFor(Frees(bs), bs[i].addr) == |Frees(bs[..i])|
  {
    hide Tiles;
    FreesAround(bs, i, from, to);
    FreesAscend(bs[..i], from, bs[i].addr);
    FreesAscend(bs[i + 1..], BlockEnd(bs[i]), to);
    PlaceIs(Frees(bs), bs[i].addr, |Frees(bs[..i])|);
  }

  lemma PlaceIs(f: seq<Block>, addr: nat, p: nat)
    requires p <= |f|
    requires forall i :: 0 <= i < p ==> f[i].addr < addr
    requires p < |f| ==> f[p].addr >= addr
    ensures PlaceFor(f, addr) == p
  {
  }

  // ---- First fit ----

  function FitInList(f: seq<Block>, size: nat): (p: nat)
    ensures p <= |f|
    ensures p < |f| ==> f[p].size >= size
    ensures forall j :: 0 <= j < p ==> f[j].size < size
  {
    if f == [] || f[0].size >= size then 0 else 1 + FitInList(f[1..], size)
  }

  /** Place `p` of the free list is block `i`. */
  ghost predicate At(bs: seq<Block>, i: nat, p: nat) {
    && i < |bs| && p < |Frees(bs)| && Frees(bs)[p] == bs[i]
    && Frees(bs)[..p] == Frees(bs[..i]) && Frees(bs)[p + 1..] == Frees(bs[i + 1..])
  }

  lemma AtFirst(bs: seq<Block>)
    requires bs != [] && bs[0].free
    ensures At(bs, 0, 0)
  {
    assert bs == [bs[0]] + bs[1..];
    FirstAndRest(bs[0], bs[1..]);
  }

  lemma AtLater(b: Block, rest: seq<Block>, i: nat, p: nat)
    requires At(rest, i, p)
    ensures At([b] + rest, i + 1, if b.free then p + 1 else p)
  {
    hide Frees;
    var bs := [b] + rest;
    FirstAndRest(b, rest);
    FirstAndRest(b, rest[..i]);
    assert bs[..i + 1] == [b] + rest[..i];
    assert bs[i + 2..] == rest[i + 1..];
  }

  /** The first free block of the list that fits is the first of the region that does. */
  lemma {:induction false} FirstFitInList(bs: seq<Block>, size: nat)
    ensures var i, p := FirstFit(bs, size), FitInList(Frees(bs), size);
            && (i < |bs| <==> p < |Frees(bs)|)
            && (i < |bs| ==> At(bs, i, p))
  {
    hide Frees, At, FirstFit, FitInList;
    SearchStep(bs, size);
    if bs != [] {
      if bs[0].free && bs[0].size >= size {
        AtFirst(bs);
      } else {
        FirstFitInList(bs[1..], size);
        var i := FirstFit(bs[1..], size);
        if i < |bs[1..]| {
          AtLater(bs[0], bs[1..], i, FitInList(Frees(bs[1..]), size));
          assert bs == [bs[0]] + bs[1..];
        }
      }
    }
  }

  /** One step of both searches. */
  lemma SearchStep(bs: seq<Block>, size: nat)
    ensures if bs == [] then FirstFit(bs, size) == 0 && Frees(bs) == [] && FitInList(Frees(bs), size) == 0
            else if bs[0].free && bs[0].size >= size then
              FirstFit(bs, size) == 0 && FitInList(Frees(bs), size) == 0 && Frees(bs) != []
            else
              && FirstFit(bs, size) == 1 + FirstFit(bs[1..], size)
              && FitInList(Frees(bs), size) == FitInList(Frees(bs[1..]), size) + (if bs[0].free then 1 else 0)
              && |Frees(bs)| == |Frees(bs[1..])| + (if bs[0].free then 1 else 0)
  {
    if bs != [] {
      FitOfRest(bs[0], Frees(bs[1..]), size);
    }
  }

  lemma FitOfRest(b: Block, f: seq<Block>, size: nat)
    ensures FitInList([b] + f, size) == if b.size >= size then 0 else FitInList(f, size) + 1
  {
    assert ([b] + f)[1..] == f;
  }

  lemma FirstAndRest(b: Block, rest: seq<Block>)
    ensures Frees([b] + rest) == (if b.free then [b] else []) + Frees(rest)
  {
    assert ([b] + rest)[1..] == rest;
  }

  lemma FreesOfAllocate(bs: seq<Block>, i: nat, size: nat)
    requires i < |bs| && size <= bs[i].size
    ensures Frees(Allocate(bs, i, size)) ==
            Frees(bs[..i]) + Carve(bs[i], size)[1..] + Frees(bs[i + 1..])
    ensures bs[i].free ==> FreeBytes(Allocate(bs, i, size)) == FreeBytes(bs) - Carve(bs[i], size)[0].size
  {
    hide Frees, FreeBytes;
    var c := Carve(bs[i], size);
    FreesMiddle(bs[..i], c, bs[i + 1..]);
    SplitAt(bs, i);
    FreesMiddle(bs[..i], [bs[i]], bs[i + 1..]);
    OneBlock(bs[i], 0, 0);
    FreesOfCarve(bs[i], size);
  }

  lemma FreesOfCarve(b: Block, size: nat)
    requires size <= b.size
    ensures var c := Carve(b, size);
            Frees(c) == c[1..] && FreeBytes(c) == b.size - c[0].size
  {
    var c := Carve(b, size);
    OneBlock(c[0], 0, 0);
    if |c| == 2 {
      assert c == [c[0]] + [c[1]];
      FreesConcat([c[0]], [c[1]]);
      OneBlock(c[1], 0, 0);
    }
  }

  lemma FreeBytesOfRelease(bs: seq<Block>, i: nat)
    requires i < |bs| && !bs[i].free
    ensures FreeBytes(Release(bs, i)) == FreeBytes(bs) + bs[i].size
  {
    hide Frees, FreeBytes, Part, Joined;
    var lo, hi := Low(bs, i), High(bs, i);
    FreesMiddle(bs[..lo], [Joined(bs, i)], bs[hi..]);
    OneBlock(Joined(bs, i), 0, 0);
    PartSplits(bs, i);
    FreesMiddle(bs[..lo], Part(bs, i), bs[hi..]);
    PartFreeBytes(bs, i);
    JoinedFree(bs, i);
  }

  lemma JoinedFree(bs: seq<Block>, i: nat)
    requires i < |bs|
    ensures Joined(bs, i).free
  {
  }

  lemma PartFreeBytes(bs: seq<Block>, i: nat)
    requires i < |bs| && !bs[i].free
    ensures FreeBytes(Part(bs, i)) + bs[i].size == Joined(bs, i).size
  {
    var left := if JoinsLeft(bs, i) then [bs[i - 1]] else [];
    var right := if JoinsRight(bs, i) then [bs[i + 1]] else [];
    FreesConcat(left + [bs[i]], right);
    FreesConcat(left, [bs[i]]);
    OneBlock(bs[i], 0, 0);
    if left != [] { OneBlock(left[0], 0, 0); }
    if right != [] { OneBlock(right[0], 0, 0); }
  }

  /** In the list no block touches the next. */
  ghost predicate Apart(f: seq<Block>) {
    forall i, j :: 0 <= i < j < |f| ==> BlockEnd(f[i]) < f[j].addr
  }

  lemma {:induction false} FreesApart(bs: seq<Block>, from: nat, to: nat)
    requires Tiles(bs, from, to) && NoFreeNeighbours(bs)
    ensures Apart(Frees(bs))
  {
    if bs != [] {
      FreesApart(bs[1..], from + bs[0].size, to);
      FirstFree(bs[1..], from + bs[0].size, to);
      FreesAscend(bs[1..], from + bs[0].size, to);
      assert |bs| > 1 && bs[0].free ==> !bs[1..][0].free;
    }
  }

  lemma FreeFits(bs: seq<Block>, i: nat)
    requires i < |bs| && bs[i].free
    ensures bs[i].size <= FreeBytes(bs)
  {
    SplitAt(bs, i);
    FreesConcat(bs[..i] + [bs[i]], bs[i + 1..]);
    FreesConcat(bs[..i], [bs[i]]);
    OneBlock(bs[i], 0, 0);
  }
}
