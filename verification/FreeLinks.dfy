/** Free blocks linked through headers in the heap's memory, whatever the order of the list. */
module FreeLinks {
  import opened Blocks
  import opened Heap4Model

  /** A BlockLink_t in memory */
  datatype Header = Header(next: nat, size: nat)

  /** A pointer to a link of the free list: xStart, which lies outside the heap, or a block. */
  datatype Link = Start | BlockAt(addr: nat)

  function AddrAt(f: seq<Block>, i: nat, end: nat): nat {
    if i < |f| then f[i].addr else end
  }

  /** From `start` the headers link the blocks of `f` in this order, up to the end marker. */
  ghost predicate Chain(headers: map<nat, Header>, start: nat, f: seq<Block>, end: nat) {
    && start == AddrAt(f, 0, end)
    && forall i :: 0 <= i < |f| ==>
         f[i].addr in headers && headers[f[i].addr] == Header(AddrAt(f, i + 1, end), f[i].size)
  }

  ghost predicate Distinct(f: seq<Block>) {
    forall i, j :: 0 <= i < j < |f| ==> f[i].addr != f[j].addr
  }

  lemma DistinctAt(f: seq<Block>, i: nat, j: nat)
    requires Distinct(f) && i < |f| && j < |f| && i != j
    ensures f[i].addr != f[j].addr
  {
  }

  function AlignUp(addr: nat): nat {
    if addr % ALIGNMENT == 0 then addr else (addr + (ALIGNMENT - 1)) / ALIGNMENT * ALIGNMENT
  }

  function AlignDown(addr: nat): nat {
    addr / ALIGNMENT * ALIGNMENT
  }

  /** Rounding to a multiple of eight moves an address by less than eight. */
  lemma RegionIsTight(from: nat, to: nat)
    ensures AlignUp(from) % 8 == 0 && from <= AlignUp(from) < from + 8
    ensures AlignDown(to) % 8 == 0 && AlignDown(to) <= to < AlignDown(to) + 8
  {
  }

  ghost function StartAfter(start: nat, p: nat, b: Block): nat {
    if p == 0 then b.addr else start
  }

  /** Nothing but the headers of the listed blocks, and those at `x` and `y`, has changed. */
  ghost predicate OnlyListed(before: map<nat, Header>, after: map<nat, Header>, f: seq<Block>, x: nat, y: nat) {
    forall a :: a in before && a != x && a != y && (forall i :: 0 <= i < |f| ==> f[i].addr != a)
                ==> a in after && after[a] == before[a]
  }

  // ---- Taking a block out ----

  ghost function HeadersWithout(headers: map<nat, Header>, f: seq<Block>, end: nat, p: nat): map<nat, Header>
    requires p < |f|
  {
    if p == 0 then headers else headers[f[p - 1].addr := Header(AddrAt(f, p + 1, end), f[p - 1].size)]
  }

  lemma UnlinkedChain(headers: map<nat, Header>, start: nat, f: seq<Block>, end: nat, p: nat)
    requires Chain(headers, start, f, end) && Distinct(f) && p < |f|
    ensures Chain(HeadersWithout(headers, f, end, p), if p == 0 then AddrAt(f, 1, end) else start,
                  f[..p] + f[p + 1..], end)
  {
    hide HeadersWithout, Distinct;
    var g, now := f[..p] + f[p + 1..], HeadersWithout(headers, f, end, p);
    UnlinkedStart(f, end, p);
    forall i | 0 <= i < |g|
      ensures g[i].addr in now && now[g[i].addr] == Header(AddrAt(g, i + 1, end), g[i].size)
    {
      UnlinkedItem(headers, start, f, end, p, i);
    }
    hide AddrAt;
  }

  lemma UnlinkedStart(f: seq<Block>, end: nat, p: nat)
    requires p < |f|
    ensures AddrAt(f[..p] + f[p + 1..], 0, end) == AddrAt(f, if p == 0 then 1 else 0, end)
  {
  }

  lemma UnlinkedListed(headers: map<nat, Header>, f: seq<Block>, end: nat, p: nat)
    requires p < |f|
    ensures OnlyListed(headers, HeadersWithout(headers, f, end, p), f, f[p].addr, f[p].addr)
  {
  }

  lemma UnlinkedItem(headers: map<nat, Header>, start: nat, f: seq<Block>, end: nat, p: nat, i: nat)
    requires Chain(headers, start, f, end) && Distinct(f) && p < |f| && i < |f| - 1
    ensures var g, now := f[..p] + f[p + 1..], HeadersWithout(headers, f, end, p);
            g[i].addr in now && now[g[i].addr] == Header(AddrAt(g, i + 1, end), g[i].size)
  {
    hide Distinct, AddrAt;
    WithoutItem(f, p, i, end);
    var k := if i < p then i else i + 1;
    if p > 0 && k != p - 1 { DistinctAt(f, k, p - 1); }
    assert f[k].addr in headers && headers[f[k].addr] == Header(AddrAt(f, k + 1, end), f[k].size);
  }

  lemma WithoutItem(f: seq<Block>, p: nat, i: nat, end: nat)
    requires p < |f| && i < |f| - 1
    ensures var g := f[..p] + f[p + 1..];
            && g[i] == f[if i < p then i else i + 1]
            && AddrAt(g, i, end) == g[i].addr
            && AddrAt(g, i + 1, end) == AddrAt(f, if i + 1 < p then i + 1 else i + 2, end)
  {
  }

  // ---- Putting a block in ----

  /** Block `b` is linked in at place `p`. */
  ghost function HeadersWith(headers: map<nat, Header>, f: seq<Block>, p: nat, b: Block, end: nat): map<nat, Header>
    requires p <= |f|
  {
    var put := headers[b.addr := Header(AddrAt(f, p, end), b.size)];
    if p == 0 then put else put[f[p - 1].addr := Header(b.addr, f[p - 1].size)]
  }

  lemma WithItem(f: seq<Block>, p: nat, b: Block, i: nat, end: nat)
    requires p <= |f| && i <= |f|
    ensures var g := f[..p] + [b] + f[p..];
            && g[i] == (if i < p then f[i] else if i == p then b else f[i - 1])
            && AddrAt(g, i, end) == g[i].addr
            && AddrAt(g, i + 1, end) ==
                 if i + 1 < p then f[i + 1].addr else if i + 1 == p then b.addr else AddrAt(f, i, end)
  {
  }

  lemma LinkedItem(headers: map<nat, Header>, start: nat, f: seq<Block>, p: nat, b: Block, end: nat, i: nat)
    requires Chain(headers, start, f, end) && Distinct(f) && p <= |f| && i <= |f|
    requires forall j :: 0 <= j < |f| ==> f[j].addr != b.addr
    ensures var g, now := f[..p] + [b] + f[p..], HeadersWith(headers, f, p, b, end);
            g[i].addr in now && now[g[i].addr] == Header(AddrAt(g, i + 1, end), g[i].size)
  {
    hide Distinct, AddrAt;
    WithItem(f, p, b, i, end);
    if i != p {
      var k := if i < p then i else i - 1;
      if p > 0 && k != p - 1 { DistinctAt(f, k, p - 1); }
      assert f[k].addr in headers && headers[f[k].addr] == Header(AddrAt(f, k + 1, end), f[k].size);
      AddrAtIs(f, i, end);
    }
  }

  lemma AddrAtIs(f: seq<Block>, i: nat, end: nat)
    ensures i + 1 < |f| ==> AddrAt(f, i + 1, end) == f[i + 1].addr
  {
  }

  lemma LinkedChain(headers: map<nat, Header>, start: nat, f: seq<Block>, p: nat, b: Block, end: nat)
    requires Chain(headers, start, f, end) && Distinct(f) && p <= |f|
    requires forall j :: 0 <= j < |f| ==> f[j].addr != b.addr
    ensures Chain(HeadersWith(headers, f, p, b, end), StartAfter(start, p, b), f[..p] + [b] + f[p..], end)
  {
    hide HeadersWith, Distinct;
    var g, now := f[..p] + [b] + f[p..], HeadersWith(headers, f, p, b, end);
    WithItem(f, p, b, 0, end);
    forall i | 0 <= i < |g|
      ensures g[i].addr in now && now[g[i].addr] == Header(AddrAt(g, i + 1, end), g[i].size)
    {
      LinkedItem(headers, start, f, p, b, end, i);
    }
    hide AddrAt;
  }

  lemma LinkedListed(headers: map<nat, Header>, f: seq<Block>, p: nat, b: Block, end: nat)
    requires p <= |f|
    ensures OnlyListed(headers, HeadersWith(headers, f, p, b, end), f, b.addr, b.addr)
  {
  }

  // ---- What else has been written ----

  lemma OnlyListedTwice(h: map<nat, Header>, h1: map<nat, Header>, h2: map<nat, Header>, f: seq<Block>, x: nat, y: nat)
    requires OnlyListed(h, h1, f, x, y) && OnlyListed(h1, h2, f, y, y)
    ensures OnlyListed(h, h2, f, x, y)
    ensures x in h1 && x != y && (forall i :: 0 <= i < |f| ==> f[i].addr != x) ==> x in h2 && h2[x] == h1[x]
  {
  }

  lemma TwoWritten(h: map<nat, Header>, f: seq<Block>, y: nat, hy: Header, x: nat, hx: Header)
    ensures OnlyListed(h, h[y := hy][x := hx], f, x, y)
  {
  }

  /** Writing to headers that are not in the list leaves the list alone. */
  lemma ChainFrame(headers: map<nat, Header>, headers': map<nat, Header>, start: nat, f: seq<Block>, end: nat, x: nat,
                   y: nat)
    requires Chain(headers, start, f, end)
    requires forall a :: a in headers && a != x && a != y ==> a in headers' && headers'[a] == headers[a]
    requires forall i :: 0 <= i < |f| ==> f[i].addr != x && f[i].addr != y
    ensures Chain(headers', start, f, end)
  {
  }

  lemma SplitListed(h: map<nat, Header>, h1: map<nat, Header>, h2: map<nat, Header>, f: seq<Block>, p: nat, x: nat,
                    size: nat)
    requires p < |f| && OnlyListed(h, h1, f, x, x) && OnlyListed(h1, h2, f[..p] + f[p + 1..], x, x + size)
    ensures OnlyListed(h, h2, f, x, x + size)
  {
    var g := f[..p] + f[p + 1..];
    forall j | 0 <= j < |g|
      ensures g[j] == f[if j < p then j else j + 1]
    {
    }
  }

  lemma MarkListed(h: map<nat, Header>, h2: map<nat, Header>, h3: map<nat, Header>, f: seq<Block>, x: nat, y: nat,
                   hx: Header)
    requires OnlyListed(h, h2, f, x, y) && h3 == h2[x := hx]
    ensures OnlyListed(h, h3, f, x, y)
  {
  }

  /** The second header that is written when block `b` is taken: that of the rest, if there is one. */
  function CutAt(b: Block, size: nat): nat
    requires size <= b.size
  {
    if b.size - size > MINIMUM_BLOCK_SIZE then b.addr + size else b.addr
  }
}
