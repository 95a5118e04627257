/** A heap region as the sequence of its blocks, in address order. */
module Blocks {
  datatype Block = Block(addr: nat, size: nat, free: bool)

  function BlockEnd(b: Block): nat {
    b.addr + b.size
  }

  /** The blocks cover the region from `from` to `to` without gaps or overlaps. */
  ghost predicate Tiles(bs: seq<Block>, from: nat, to: nat) {
    if bs == [] then from == to
    else bs[0].addr == from && bs[0].size > 0 && Tiles(bs[1..], from + bs[0].size, to)
  }

  function Extent(bs: seq<Block>): nat {
    if bs == [] then 0 else bs[0].size + Extent(bs[1..])
  }

  function Frees(bs: seq<Block>): (f: seq<Block>)
    ensures forall i :: 0 <= i < |f| ==> f[i].free && f[i] in bs
  {
    if bs == [] then [] else if bs[0].free then [bs[0]] + Frees(bs[1..]) else Frees(bs[1..])
  }

  /** The bytes in free blocks. */
  function FreeBytes(bs: seq<Block>): nat {
    if bs == [] then 0 else (if bs[0].free then bs[0].size else 0) + FreeBytes(bs[1..])
  }

  ghost function Taken(bs: seq<Block>): set<Block> {
    set b <- bs | !b.free
  }

  ghost predicate NoFreeNeighbours(bs: seq<Block>) {
    forall i :: 0 < i < |bs| ==> !(bs[i - 1].free && bs[i].free)
  }

  // ---- Tiling ----

  lemma {:induction false} TilesConcat(a: seq<Block>, b: seq<Block>, from: nat, to: nat)
    ensures Tiles(a + b, from, to) <==> Tiles(a, from, from + Extent(a)) && Tiles(b, from + Extent(a), to)
  {
    if a == [] {
      assert a + b == b;
    } else {
      assert (a + b)[1..] == a[1..] + b;
      TilesConcat(a[1..], b, from + a[0].size, to);
    }
  }

  lemma {:induction false} TilesBounds(bs: seq<Block>, from: nat, to: nat)
    requires Tiles(bs, from, to)
    ensures from + Extent(bs) == to
    ensures forall i :: 0 <= i < |bs| ==> from <= bs[i].addr < BlockEnd(bs[i]) <= to
    ensures forall i, j :: 0 <= i < j < |bs| ==> BlockEnd(bs[i]) <= bs[j].addr
  {
    if bs != [] {
      TilesBounds(bs[1..], from + bs[0].size, to);
      forall i | 0 < i < |bs|
        ensures bs[i] == bs[1..][i - 1]
      {
      }
    }
  }

  /** Each block begins where the one before it ends. */
  lemma {:induction false} TilesNext(bs: seq<Block>, from: nat, to: nat, i: nat)
    requires Tiles(bs, from, to) && 0 < i < |bs|
    ensures bs[i].addr == BlockEnd(bs[i - 1])
  {
    if i > 1 {
      TilesNext(bs[1..], from + bs[0].size, to, i - 1);
    }
  }

  lemma {:induction false} ExtentConcat(a: seq<Block>, b: seq<Block>)
    ensures Extent(a + b) == Extent(a) + Extent(b)
  {
    if a == [] {
      assert a + b == b;
    } else {
      assert (a + b)[1..] == a[1..] + b;
      ExtentConcat(a[1..], b);
    }
  }

  // ---- Free blocks ----

  lemma {:induction false} FreesConcat(a: seq<Block>, b: seq<Block>)
    ensures Frees(a + b) == Frees(a) + Frees(b)
    ensures FreeBytes(a + b) == FreeBytes(a) + FreeBytes(b)
  {
    if a == [] {
      assert a + b == b;
    } else {
      assert (a + b)[1..] == a[1..] + b;
      FreesConcat(a[1..], b);
    }
  }

  lemma {:induction false} FreesComplete(bs: seq<Block>, b: Block)
    requires b in bs && b.free
    ensures b in Frees(bs)
  {
    if bs[0] != b {
      FreesComplete(bs[1..], b);
    }
  }

  ghost predicate Ascending(f: seq<Block>) {
    forall i, j :: 0 <= i < j < |f| ==> BlockEnd(f[i]) <= f[j].addr
  }

  /** The free list of a tiled region is strictly ordered by address. */
  lemma {:induction false} FreesAscend(bs: seq<Block>, from: nat, to: nat)
    requires Tiles(bs, from, to)
    ensures Ascending(Frees(bs))
    ensures forall i :: 0 <= i < |Frees(bs)| ==> from <= Frees(bs)[i].addr < BlockEnd(Frees(bs)[i]) <= to
  {
    if bs != [] {
      FreesAscend(bs[1..], from + bs[0].size, to);
      TilesBounds(bs, from, to);
    }
  }

  /** The last free block ends at the end of the region exactly if the last block is free. */
  lemma LastFree(bs: seq<Block>, from: nat, to: nat)
    requires Tiles(bs, from, to)
    ensures var f := Frees(bs);
            if bs != [] && bs[|bs| - 1].free then f != [] && f[|f| - 1] == bs[|bs| - 1] && BlockEnd(f[|f| - 1]) == to
            else f == [] || BlockEnd(f[|f| - 1]) < to
  {
    if bs != [] {
      var n := |bs| - 1;
      assert bs == bs[..n] + [bs[n]];
      FreesConcat(bs[..n], [bs[n]]);
      TilesConcat(bs[..n], [bs[n]], from, to);
      FreesAscend(bs[..n], from, from + Extent(bs[..n]));
      OneBlock(bs[n], from + Extent(bs[..n]), to);
    }
  }

  lemma OneBlock(b: Block, from: nat, to: nat)
    ensures Tiles([b], from, to) <==> b.addr == from && b.size > 0 && BlockEnd(b) == to
    ensures Frees([b]) == (if b.free then [b] else []) && Extent([b]) == b.size
    ensures FreeBytes([b]) == if b.free then b.size else 0
  {
    assert [b][1..] == [];
  }

  /** The first free block begins at the beginning of the region exactly if the first block is free. */
  lemma FirstFree(bs: seq<Block>, from: nat, to: nat)
    requires Tiles(bs, from, to)
    ensures var f := Frees(bs);
            if bs != [] && bs[0].free then f != [] && f[0] == bs[0] && f[0].addr == from
            else f == [] || from < f[0].addr
  {
    if bs != [] {
      FreesAscend(bs[1..], from + bs[0].size, to);
    }
  }

  // ---- The free blocks follow from the taken ones ----

  lemma TakenTail(bs: seq<Block>, from: nat, to: nat)
    requires bs != [] && Tiles(bs, from, to)
    ensures Taken(bs[1..]) == Taken(bs) - {bs[0]}
    ensures NoFreeNeighbours(bs) ==> NoFreeNeighbours(bs[1..])
    ensures forall b :: b in Taken(bs[1..]) ==> b.addr >= BlockEnd(bs[0])
  {
    TilesBounds(bs, from, to);
    forall b
      ensures b in Taken(bs[1..]) <==> b in Taken(bs) - {bs[0]}
      ensures b in Taken(bs[1..]) ==> b.addr >= BlockEnd(bs[0])
    {
      if b in bs[1..] {
        var i :| 0 <= i < |bs| - 1 && bs[1..][i] == b;
        assert bs[i + 1] == b;
      }
    }
  }

  /** What is taken lies beyond a free first block. */
  lemma TakenBeyondFree(bs: seq<Block>, from: nat, to: nat)
    requires bs != [] && bs[0].free && Tiles(bs, from, to)
    ensures forall b <- Taken(bs) :: b.addr >= BlockEnd(bs[0])
    ensures BlockEnd(bs[0]) <= to
  {
    TakenTail(bs, from, to);
    TilesBounds(bs, from, to);
  }

  /** A free first block reaches to the end, or to a taken block. */
  lemma FreeReaches(bs: seq<Block>, from: nat, to: nat)
    requires bs != [] && bs[0].free && Tiles(bs, from, to) && NoFreeNeighbours(bs)
    ensures BlockEnd(bs[0]) == to || exists b <- Taken(bs) :: b.addr == BlockEnd(bs[0])
  {
    if |bs| == 1 {
      assert bs == [bs[0]];
      OneBlock(bs[0], from, to);
    } else {
      TilesNext(bs, from, to, 1);
      assert bs[1] in Taken(bs);
    }
  }

  lemma SameFirst(bs: seq<Block>, cs: seq<Block>, from: nat, to: nat)
    requires Tiles(bs, from, to) && Tiles(cs, from, to) && NoFreeNeighbours(bs) && NoFreeNeighbours(cs)
    requires Taken(bs) == Taken(cs) && bs != [] && cs != [] && bs[0].free
    ensures cs[0].free && bs[0].size <= cs[0].size
  {
    var c := cs[0];
    assert c.free || c in Taken(cs);
    TakenBeyondFree(bs, from, to);
    if c.free {
      FreeReaches(cs, from, to);
    }
  }

  lemma SameHead(bs: seq<Block>, cs: seq<Block>, from: nat, to: nat)
    requires Tiles(bs, from, to) && Tiles(cs, from, to) && NoFreeNeighbours(bs) && NoFreeNeighbours(cs)
    requires Taken(bs) == Taken(cs) && bs != [] && cs != []
    ensures bs[0] == cs[0]
  {
    if bs[0].free {
      SameFirst(bs, cs, from, to);
      SameFirst(cs, bs, from, to);
    } else if cs[0].free {
      SameFirst(cs, bs, from, to);
    } else {
      TilesBounds(cs, from, to);
      assert bs[0] in Taken(cs);
    }
  }

  /** The whole division of a region is determined by its taken blocks, if no two free blocks are
      neighbours: however the taken blocks came to be the only ones, the free list is the same. */
  lemma {:induction false} TakenDetermineAll(bs: seq<Block>, cs: seq<Block>, from: nat, to: nat)
    requires Tiles(bs, from, to) && Tiles(cs, from, to) && NoFreeNeighbours(bs) && NoFreeNeighbours(cs)
    requires Taken(bs) == Taken(cs)
    ensures bs == cs
  {
    if bs == [] {
      TilesBounds(cs, from, to);
    } else if cs == [] {
      TilesBounds(bs, from, to);
    } else {
      SameHead(bs, cs, from, to);
      TakenTail(bs, from, to);
      TakenTail(cs, from, to);
      hide Taken, NoFreeNeighbours;
      TakenDetermineAll(bs[1..], cs[1..], from + bs[0].size, to);
      assert bs == [bs[0]] + bs[1..] && cs == [cs[0]] + cs[1..];
    }
  }
}
