/** The value a kernel list denotes: its items in order from the end marker, and the place
    the walking index points at.  Every list operation of list.c is a function here; the
    pointer implementation in KernelList is proved against these functions. */
module RingList {

  /** `index` is 0 when the walking index is at the end marker, and k when it is at `items[k - 1]`. */
  datatype Ring<T> = Ring(items: seq<T>, index: nat)

  predicate NoDup<T(==)>(s: seq<T>) {
    forall i, j :: 0 <= i < j < |s| ==> s[i] != s[j]
  }

  ghost predicate Valid<T>(r: Ring<T>) {
    r.index <= |r.items| && NoDup(r.items)
  }

  type GoodRing<T> = r: Ring<T> | r.index <= |r.items| witness Ring([], 0)

  function Empty<T>(): Ring<T> {
    Ring([], 0)
  }

  /** Puts `x` in front of position `k`; the index keeps pointing at the same item. */
  function InsertAt<T>(r: Ring<T>, k: nat, x: T): Ring<T>
    requires k <= |r.items|
  {
    Ring(r.items[..k] + [x] + r.items[k..], if r.index > k then r.index + 1 else r.index)
  }

  /** Where an item goes that is put just before the one the index points at. */
  function EndPosition<T>(r: Ring<T>): nat {
    if r.index == 0 then |r.items| else r.index - 1
  }

  function InsertEnd<T>(r: Ring<T>, x: T): Ring<T>
    requires r.index <= |r.items|
  {
    InsertAt(r, EndPosition(r), x)
  }

  /** The first position whose value is above `v`: where a sorted insertion puts a new item. */
  function InsertPosition(values: seq<nat>, v: nat): (k: nat)
    ensures k <= |values|
    ensures forall i :: 0 <= i < k ==> values[i] <= v
    ensures k < |values| ==> values[k] > v
  {
    if values == [] || values[0] > v then 0 else 1 + InsertPosition(values[1..], v)
  }

  function IndexOf<T(==)>(s: seq<T>, x: T): (k: nat)
    requires x in s
    ensures k < |s| && s[k] == x
    ensures forall i :: 0 <= i < k ==> s[i] != x
  {
    if s[0] == x then 0 else 1 + IndexOf(s[1..], x)
  }

  function RemoveAt<T>(r: Ring<T>, k: nat): Ring<T>
    requires k < |r.items|
  {
    Ring(r.items[..k] + r.items[k + 1..], if r.index > k then r.index - 1 else r.index)
  }

  function Remove<T(==)>(r: Ring<T>, x: T): Ring<T>
    requires x in r.items
  {
    RemoveAt(r, IndexOf(r.items, x))
  }

  /** Moves the index to the next item, stepping over the end marker. */
  function Advance<T>(r: Ring<T>): Ring<T>
    requires 0 < |r.items|
    requires r.index <= |r.items|
  {
    Ring(r.items, if r.index == |r.items| then 1 else r.index + 1)
  }

  /** The item the index points at after an advance. */
  function Current<T>(r: Ring<T>): T
    requires 0 < r.index <= |r.items|
  {
    r.items[r.index - 1]
  }

  /** What `n` consecutive advances return. */
  function Walk<T>(r: Ring<T>, n: nat): (w: seq<T>)
    requires n > 0 ==> 0 < |r.items|
    requires r.index <= |r.items|
    ensures |w| == n
    decreases n
  {
    if n == 0 then [] else [Current(Advance(r))] + Walk(Advance(r), n - 1)
  }

  /** The ring after `n` advances. */
  function AdvanceBy<T>(r: Ring<T>, n: nat): (a: Ring<T>)
    requires n > 0 ==> 0 < |r.items|
    requires r.index <= |r.items|
    ensures a.items == r.items && a.index <= |r.items|
    decreases n
  {
    if n == 0 then r else AdvanceBy(Advance(r), n - 1)
  }

  /** An insertion anywhere leaves the index at the item it is at, or at the end marker. */
  lemma InsertKeepsIndex<T>(r: Ring<T>, k: nat, x: T)
    requires k <= |r.items| && r.index <= |r.items|
    ensures if r.index == 0 then InsertAt(r, k, x).index == 0
            else 0 < InsertAt(r, k, x).index <= |r.items| + 1 && Current(InsertAt(r, k, x)) == Current(r)
  {
  }

  // ---- Round-robin laws ----

  lemma {:induction false} WalkStep<T>(r: Ring<T>, n: nat)
    requires r.index <= |r.items|
    requires r.index + n <= |r.items|
    ensures Walk(r, n) == r.items[r.index..r.index + n]
    ensures n > 0 ==> AdvanceBy(r, n) == Ring(r.items, r.index + n)
    decreases n
  {
    if n > 0 {
      WalkStep(Advance(r), n - 1);
      var items := r.items[r.index..r.index + n];
      assert items == [items[0]] + r.items[r.index + 1..r.index + n];
    }
  }

  lemma {:induction false} WalkSplit<T>(r: Ring<T>, m: nat, n: nat)
    requires 0 < |r.items|
    requires r.index <= |r.items|
    ensures Walk(r, m + n) == Walk(r, m) + Walk(AdvanceBy(r, m), n)
    ensures AdvanceBy(r, m + n) == AdvanceBy(AdvanceBy(r, m), n)
    decreases m
  {
    if m > 0 {
      WalkSplit(Advance(r), m - 1, n);
    }
  }

  /** A walk that passes the last item goes on from the front. */
  lemma {:induction false} WalkWraps<T>(r: Ring<T>, n: nat)
    requires 0 < |r.items|
    requires r.index <= |r.items| < r.index + n
    requires n <= |r.items|
    ensures Walk(r, n) == r.items[r.index..] + r.items[..r.index + n - |r.items|]
    ensures AdvanceBy(r, n) == Ring(r.items, r.index + n - |r.items|)
    decreases n
  {
    if r.index == |r.items| {
      WalkStep(Advance(r), n - 1);
    } else {
      WalkWraps(Advance(r), n - 1);
    }
  }

  /** From any index, N advances over N items return the items from the index on, then the
      items up to the index: each item exactly once. */
  lemma WalkVisitsAll<T>(r: Ring<T>)
    requires r.index <= |r.items|
    ensures Walk(r, |r.items|) == r.items[r.index..] + r.items[..r.index]
  {
    if r.index == 0 {
      WalkStep(r, |r.items|);
    } else {
      WalkWraps(r, |r.items|);
    }
  }

  /** Hence N advances return every item, and none twice. */
  lemma WalkOnceEach<T>(r: Ring<T>)
    requires Valid(r)
    ensures NoDup(Walk(r, |r.items|))
    ensures forall x :: x in Walk(r, |r.items|) <==> x in r.items
  {
    hide Walk;
    WalkVisitsAll(r);
    var n, w := |r.items|, Walk(r, |r.items|);
    assert forall i :: 0 <= i < n ==> w[i] == r.items[if i < n - r.index then r.index + i else i - (n - r.index)];
    forall x | x in r.items
      ensures x in w
    {
      var k := IndexOf(r.items, x);
      assert w[if k >= r.index then k - r.index else k + n - r.index] == x;
    }
  }

  /** N advances bring the index back to where it was; from the end marker they leave it on
      the last item. */
  lemma AdvanceAll<T>(r: Ring<T>)
    requires r.index <= |r.items|
    ensures AdvanceBy(r, |r.items|) == Ring(r.items, if r.index == 0 then |r.items| else r.index)
  {
    if r.index == 0 {
      WalkStep(r, |r.items|);
    } else {
      WalkWraps(r, |r.items|);
    }
  }

  lemma {:induction false} WalkStaysInside<T>(r: Ring<T>, n: nat)
    requires n > 0 ==> 0 < |r.items|
    requires r.index <= |r.items|
    ensures forall i :: 0 <= i < n ==> Walk(r, n)[i] in r.items
    decreases n
  {
    if n > 0 {
      WalkStaysInside(Advance(r), n - 1);
    }
  }

  lemma WalkOneMore<T>(r: Ring<T>, n: nat)
    requires 0 < |r.items|
    requires r.index <= |r.items|
    ensures AdvanceBy(r, n + 1) == Advance(AdvanceBy(r, n))
    ensures Walk(r, n + 1) == Walk(r, n) + [Current(Advance(AdvanceBy(r, n)))]
  {
    WalkSplit(r, n, 1);
    var a := AdvanceBy(r, n);
    assert AdvanceBy(a, 1) == AdvanceBy(Advance(a), 0) == Advance(a);
    assert Walk(a, 1) == [Current(Advance(a))] + Walk(Advance(a), 0);
  }

  /** Starting on an item, a walk is back on it after N advances, and not before. */
  lemma BackAfterAll<T>(r: Ring<T>, n: nat)
    requires 0 < r.index <= |r.items|
    requires 0 < n <= |r.items|
    ensures AdvanceBy(r, n).index == r.index <==> n == |r.items|
    ensures 0 < AdvanceBy(r, n).index
  {
    if r.index + n <= |r.items| {
      WalkStep(r, n);
    } else {
      WalkWraps(r, n);
    }
  }

  /** The new item of an InsertEnd is returned after every older item, except the one the
      index points at, has been returned once. */
  lemma InsertEndVisitedLast<T>(r: Ring<T>, x: T)
    requires r.index <= |r.items|
    ensures var older := if r.index == 0 then r.items else r.items[r.index..] + r.items[..r.index - 1];
            var r' := InsertEnd(r, x);
            |r'.items| == |r.items| + 1 && Walk(r', |older| + 1) == older + [x]
  {
    hide Walk, AdvanceBy;
    var r' := InsertEnd(r, x);
    var n := |r'.items|;
    WalkVisitsAll(r');
    if r.index == 0 {
      assert r'.items == r.items + [x];
      assert r'.items[0..] + r'.items[..0] == r.items + [x];
    } else {
      var older := r.items[r.index..] + r.items[..r.index - 1];
      assert r'.items[r'.index..] == r.items[r.index..];
      assert r'.items[..r'.index] == r.items[..r.index - 1] + [x, r.items[r.index - 1]];
      assert Walk(r', n) == older + [x] + [r.items[r.index - 1]];
      WalkSplit(r', n - 1, 1);
      assert Walk(r', n)[..n - 1] == Walk(r', n - 1);
      assert Walk(r', n)[..n - 1] == older + [x];
    }
  }

  function Omit<T>(s: seq<T>, k: nat): seq<T>
    requires k < |s|
  {
    s[..k] + s[k + 1..]
  }

  /** Where a walk over all items meets item `k`. */
  function MetAt<T>(r: Ring<T>, k: nat): (at: nat)
    requires k < |r.items| && r.index <= |r.items|
    ensures at < |r.items|
  {
    if k >= r.index then k - r.index else |r.items| - r.index + k
  }

  /** Removing an item leaves the rest of the walk as it was: the remaining items come in the
      order they would have come in, and removing the item at the index skips nobody. */
  lemma RemoveSkipsNobody<T>(r: Ring<T>, k: nat)
    requires r.index <= |r.items|
    requires k < |r.items|
    ensures Walk(RemoveAt(r, k), |r.items| - 1) == Omit(Walk(r, |r.items|), MetAt(r, k))
    ensures Walk(r, |r.items|)[MetAt(r, k)] == r.items[k]
  {
    hide Walk, RemoveAt, Omit;
    RemovedRing(r, k);
    WalkVisitsAll(r);
    WalkVisitsAll(RemoveAt(r, k));
    SpliceWalks(r, k, Walk(r, |r.items|), Walk(RemoveAt(r, k), |r.items| - 1));
  }

  lemma SpliceWalks<T>(r: Ring<T>, k: nat, w: seq<T>, w': seq<T>)
    requires r.index <= |r.items| && k < |r.items|
    requires w == r.items[r.index..] + r.items[..r.index]
    requires var r' := RemoveAt(r, k); w' == r'.items[r'.index..] + r'.items[..r'.index]
    ensures w' == Omit(w, MetAt(r, k)) && w[MetAt(r, k)] == r.items[k]
  {
    Splice(r.items, r.index, k);
  }

  lemma RemovedRing<T>(r: Ring<T>, k: nat)
    requires k < |r.items| && r.index <= |r.items|
    ensures |RemoveAt(r, k).items| == |r.items| - 1 && RemoveAt(r, k).index <= |r.items| - 1
  {
  }

  lemma Splice<T>(s: seq<T>, i: nat, k: nat)
    requires i <= |s| && k < |s|
    ensures var at := if k >= i then k - i else |s| - i + k;
            var w := s[i..] + s[..i];
            var s' := s[..k] + s[k + 1..];
            var i' := if i > k then i - 1 else i;
            w[at] == s[k] && w[..at] + w[at + 1..] == s'[i'..] + s'[..i']
  {
    if k >= i {
      SpliceBehind(s, i, k);
    } else {
      SpliceBefore(s, i, k);
    }
  }

  lemma SpliceBehind<T>(s: seq<T>, i: nat, k: nat)
    requires i <= k < |s|
    ensures var w, s' := s[i..] + s[..i], s[..k] + s[k + 1..];
            w[k - i] == s[k] && w[..k - i] + w[k - i + 1..] == s'[i..] + s'[..i]
  {
    var w, s' := s[i..] + s[..i], s[..k] + s[k + 1..];
    assert s'[i..] == s[i..k] + s[k + 1..];
    assert s'[..i] == s[..i];
    assert w[..k - i] == s[i..k];
    assert w[k - i + 1..] == s[k + 1..] + s[..i];
  }

  lemma SpliceBefore<T>(s: seq<T>, i: nat, k: nat)
    requires k < i <= |s|
    ensures var w, s' := s[i..] + s[..i], s[..k] + s[k + 1..];
            w[|s| - i + k] == s[k] && w[..|s| - i + k] + w[|s| - i + k + 1..] == s'[i - 1..] + s'[..i - 1]
  {
    var w, s' := s[i..] + s[..i], s[..k] + s[k + 1..];
    assert s'[i - 1..] == s[i..];
    assert s'[..i - 1] == s[..k] + s[k + 1..i];
    assert w[..|s| - i + k] == s[i..] + s[..k];
    assert w[|s| - i + k + 1..] == s[k + 1..i];
  }

  // ---- Sorted insertion ----

  predicate Sorted(values: seq<nat>) {
    forall i, j :: 0 <= i < j < |values| ==> values[i] <= values[j]
  }

  /** A sorted insertion keeps the order, and is stable: the values up to and including the
      new one's equals stay in front of it, and all larger ones behind. */
  lemma SortedInsert(values: seq<nat>, v: nat)
    requires Sorted(values)
    ensures forall i :: 0 <= i < |values| ==> (values[i] <= v <==> i < InsertPosition(values, v))
    ensures Sorted(values[..InsertPosition(values, v)] + [v] + values[InsertPosition(values, v)..])
  {
    hide InsertPosition;
    var k := InsertPosition(values, v);
    forall i | k <= i < |values|
      ensures values[i] > v
    {
      assert values[k] <= values[i];
    }
  }

  lemma SortedWithout(values: seq<nat>, k: nat)
    requires Sorted(values) && k < |values|
    ensures Sorted(values[..k] + values[k + 1..])
  {
    var w := values[..k] + values[k + 1..];
    assert forall i :: 0 <= i < |w| ==> w[i] == values[if i < k then i else i + 1];
  }

  // ---- Membership ----

  lemma InsertAtMembers<T>(r: Ring<T>, k: nat, x: T)
    requires Valid(r) && k <= |r.items| && x !in r.items
    ensures Valid(InsertAt(r, k, x))
    ensures forall y :: y in InsertAt(r, k, x).items <==> y == x || y in r.items
  {
    var s := InsertAt(r, k, x).items;
    assert s[k] == x;
    forall y | y in r.items
      ensures y in s
    {
      var i := IndexOf(r.items, y);
      assert s[if i < k then i else i + 1] == y;
    }
  }

  lemma RemoveAtMembers<T>(r: Ring<T>, k: nat)
    requires Valid(r) && k < |r.items|
    ensures Valid(RemoveAt(r, k))
    ensures forall y :: y in RemoveAt(r, k).items <==> y != r.items[k] && y in r.items
  {
    var s := RemoveAt(r, k).items;
    forall y | y in r.items && y != r.items[k]
      ensures y in s
    {
      var i := IndexOf(r.items, y);
      assert s[if i < k then i else i - 1] == y;
    }
  }

  lemma RemoveBetween<T>(a: seq<T>, x: T, b: seq<T>)
    requires x !in a
    ensures x in a + [x] + b
    ensures Remove(Ring(a + [x] + b, 0), x).items == a + b
  {
    var s := a + [x] + b;
    assert s[|a|] == x;
    var k := IndexOf(s, x);
    forall i | 0 <= i < |a|
      ensures s[i] != x
    {
      assert s[i] == a[i];
    }
    assert s[..|a|] == a && s[|a| + 1..] == b;
  }
}
