/**
 The memory heap of rt-thread/src/memheap.c, as the source keeps it: every block header sits on a
 circular list in address order, ended by a used marker at the end of the pool, and the headers
 of free blocks also sit on a second circular list. An address is an offset into the pool.
 */
module MemHeap {
  import opened Common
  import opened Blocks
  import opened Payloads
  import opened RtList
  import opened MemHeapRealloc
  import opened MemHeapRuns

  /** RT_MEMHEAP_SIZE: `struct rt_memheap_item` on a 64-bit CPU with RT_USING_MEMTRACE. */
  const HDR := 56
  /** RT_MEMHEAP_MINIALLOC. */
  const MINI := 12
  /** The list head `free_header`, which lies outside the pool. */
  const HEAD := -1

  /** A pool holds two headers, and its size is a rt_size_t. */
  type pool = n: int | 2 * HDR <= n < SIZE_LIMIT witness 2 * HDR

  /**
   rt_memheap_init does not test the size it is given. Its two headers lie in the pool and apart
   from each other exactly if the pool has room for both.
   */
  lemma InitFitsIff(base: nat, size: nat)
    requires size < SIZE_LIMIT && base + size <= SIZE_LIMIT
    ensures var pool := size - size % ALIGN;
            var available := (pool - 2 * HDR) % SIZE_LIMIT;
            var tail := (base + available + HDR) % SIZE_LIMIT - base;
            HDR <= tail && tail + HDR <= pool <==> size >= 2 * HDR
  {
    var pool := size - size % ALIGN;
    var available := (pool - 2 * HDR) % SIZE_LIMIT;
    if pool >= 2 * HDR {
      assert base + available + HDR == base + pool - HDR;
    } else {
      assert available == pool - 2 * HDR + SIZE_LIMIT;
      assert (base + available + HDR) % SIZE_LIMIT == (base + pool - HDR) % SIZE_LIMIT;
    }
  }

  // ----- Link stores, in the order of the source

  /** The four stores that put `n` behind `l`. */
  function Splice(s: Links, l: int, n: int): Links
    requires l in s.next
  {
    var s1 := Links(s.next[n := s.next[l]], s.prev[n := l]);
    var s2 := s1.(prev := s1.prev[s1.next[l] := n]);
    s2.(next := s2.next[l := n])
  }

  lemma SpliceRing(s: Links, r: seq<int>, k: nat, n: int)
    requires Ring(s, r) && k < |r| && n !in r
    ensures r[k] in s.next && Ring(Splice(s, r[k], n), r[..k + 1] + [n] + r[k + 1..])
  {
    RingHas(s, r, k);
    RingInsertAfter(s, r, k, n);
    var t, u := Splice(s, r[k], n), InsertAfter(s, r[k], n);
    assert t.next == u.next && t.prev == u.prev;
  }

  /** The two stores that take `n` out. */
  function Detach(s: Links, n: int): Links
    requires n in s.next && n in s.prev
  {
    var s1 := s.(prev := s.prev[s.next[n] := s.prev[n]]);
    s1.(next := s1.next[s1.prev[n] := s1.next[n]])
  }

  /** The two stores that take `n` out when it stands behind `l`. */
  function Bypass(s: Links, l: int, n: int): Links
    requires n in s.next
  {
    var s1 := s.(prev := s.prev[s.next[n] := l]);
    s1.(next := s1.next[l := s1.next[n]])
  }

  lemma DetachRing(s: Links, r: seq<int>, k: nat)
    requires Ring(s, r) && 0 < k < |r|
    ensures r[k] in s.next && r[k] in s.prev
    ensures Ring(Detach(s, r[k]), r[..k] + r[k + 1..])
    ensures Detach(s, r[k]) == Bypass(s, r[k - 1], r[k]) == Unlink(s, r[k])
  {
    RingHas(s, r, k);
    RingUnlink(s, r, k);
    var t, u := Detach(s, r[k]), Unlink(s, r[k]);
    assert t.next == u.next && t.prev == u.prev;
  }

  /** The four stores that put `x` before `n`. */
  function PutBefore(s: Links, n: int, x: int): Links
    requires n in s.prev
  {
    var s1 := Links(s.next[x := n], s.prev[x := s.prev[n]]);
    var s2 := s1.(next := s1.next[s1.prev[n] := x]);
    s2.(prev := s2.prev[n := x])
  }

  lemma PutBeforeInserts(s: Links, n: int, x: int)
    requires n in s.prev && s.prev[n] != x && n != x
    ensures PutBefore(s, n, x) == InsertBefore(s, n, x)
  {
    var t, u := PutBefore(s, n, x), InsertBefore(s, n, x);
    assert t.next == u.next && t.prev == u.prev;
  }

  lemma RingPutBefore(s: Links, r: seq<int>, k: nat, x: int)
    requires Ring(s, r) && k < |r| && x !in r
    ensures r[k] in s.prev && Ring(PutBefore(s, r[k], x), if k == 0 then r + [x] else r[..k] + [x] + r[k..])
  {
    hide PutBefore, InsertBefore;
    RingInsertBefore(s, r, k, x);
    RingHas(s, r, k);
    PutBeforeInserts(s, r[k], x);
  }

  /** Put before the first member of the free list, a block becomes the first member. */
  lemma PutBeforeRing(s: Links, l: int, fl: seq<int>, x: int)
    requires Ring(s, [l] + fl) && x !in [l] + fl
    ensures l in s.next && s.next[l] in s.prev && Ring(PutBefore(s, s.next[l], x), [l] + ([x] + fl))
  {
    hide PutBefore, Chained, Distinct;
    var r := [l] + fl;
    RingHas(s, r, 0);
    RingPutBefore(s, r, After(0, |r|), x);
    if fl == [] { assert r + [x] == [l] + ([x] + fl); } else { assert r[..1] + [x] + r[1..] == [l] + ([x] + fl); }
  }

  // ----- The block list

  ghost function Nodes(bs: seq<Block>, g: Area): (r: seq<int>)
    ensures |r| == |bs| + 1 && r[|bs|] == g.end && forall i :: 0 <= i < |bs| ==> r[i] == bs[i].addr
  {
    seq(|bs|, i requires 0 <= i < |bs| => bs[i].addr) + [g.end]
  }

  ghost predicate Marked(used: map<int, bool>, bs: seq<Block>, i: nat)
    requires i < |bs|
  {
    bs[i].addr in used && used[bs[i].addr] == bs[i].used
  }

  /** The block list and the magic words are those of `bs`; the end marker is used. */
  ghost predicate Linked(blk: Links, used: map<int, bool>, bs: seq<Block>, g: Area) {
    && Tiled(bs, g) && Ring(blk, Nodes(bs, g))
    && (forall i :: 0 <= i < |bs| ==> Marked(used, bs, i))
    && g.end in used && used[g.end]
  }

  /** What the header of block `i` holds. */
  lemma LinkedAt(blk: Links, used: map<int, bool>, bs: seq<Block>, g: Area, i: nat)
    requires Linked(blk, used, bs, g) && i < |bs|
    ensures var a := bs[i].addr;
            && a in blk.next && blk.next[a] == bs[i].next == AddrAt(bs, g, i + 1)
            && a in blk.prev && blk.prev[a] == (if i == 0 then g.end else bs[i - 1].addr)
            && a in used && used[a] == bs[i].used
            && a < bs[i].next <= g.end && bs[i].next in used
            && used[bs[i].next] == (i + 1 == |bs| || bs[i + 1].used)
    ensures blk.prev[bs[i].addr] in used && used[blk.prev[bs[i].addr]] == (i == 0 || bs[i - 1].used)
  {
    RingHas(blk, Nodes(bs, g), i);
    WithinEnd(bs, g, i);
    assert Marked(used, bs, i);
    if i + 1 < |bs| { assert Link(bs, i) && Marked(used, bs, i + 1); }
    if i > 0 { assert Marked(used, bs, i - 1); }
  }

  lemma NodeAddrs(bs: seq<Block>, g: Area, i: nat, a: int)
    requires Tiled(bs, g) && i < |bs| && bs[i].addr < a < bs[i].next
    ensures a !in Nodes(bs, g)
  {
    var r := Nodes(bs, g);
    WithinEnd(bs, g, i);
    forall j | 0 <= j < |r| ensures r[j] != a {
      if j < |bs| && r[j] == a { OneBlock(bs, g, i, j); }
    }
  }

  lemma LinkedMark(blk: Links, used: map<int, bool>, bs: seq<Block>, g: Area, i: nat, u: bool)
    requires Linked(blk, used, bs, g) && i < |bs|
    ensures Linked(blk, used[bs[i].addr := u], bs[i := bs[i].(used := u)], g)
  {
    var cs := bs[i := bs[i].(used := u)];
    MarkTiled(bs, g, i, u);
    WithinEnd(bs, g, i);
    assert Nodes(cs, g) == Nodes(bs, g);
    var used' := used[bs[i].addr := u];
    forall j | 0 <= j < |cs| ensures Marked(used', cs, j) {
      assert Marked(used, bs, j);
      if bs[j].addr == bs[i].addr { OneBlock(bs, g, i, j); }
    }
  }

  lemma LinkedSplit(blk: Links, used: map<int, bool>, bs: seq<Block>, g: Area, i: nat, n: nat, ss: seq<Block>)
    requires Linked(blk, used, bs, g) && i < |bs| && bs[i].Payload(g) >= n + g.hd && ss == Split(bs, i, n, g)
    ensures var a := bs[i].addr;
            a in blk.next && Linked(Splice(blk, a, ss[i + 1].addr), used[ss[i + 1].addr := false][a := true], ss, g)
  {
    hide Ring, Splice;
    var a, m, r := bs[i].addr, ss[i + 1].addr, Nodes(bs, g);
    NodeAddrs(bs, g, i, m);
    SplitTiled(bs, g, i, n);
    SpliceRing(blk, r, i, m);
    assert Nodes(ss, g) == r[..i + 1] + [m] + r[i + 1..];
    var used' := used[m := false][a := true];
    WithinEnd(bs, g, i);
    forall j | 0 <= j < |ss| ensures Marked(used', ss, j) {
      if j != i && j != i + 1 {
        var k := if j < i then j else j - 1;
        assert ss[j] == bs[k] && Marked(used, bs, k) && r[k] == bs[k].addr;
        if bs[k].addr == a { OneBlock(bs, g, i, k); }
      }
    }
  }

  lemma LinkedMerge(blk: Links, used: map<int, bool>, bs: seq<Block>, g: Area, i: nat)
    requires Linked(blk, used, bs, g) && i + 1 < |bs|
    ensures var a := bs[i + 1].addr;
            && a in blk.next && a in blk.prev && Linked(Detach(blk, a), used, MergeAt(bs, i), g)
            && Detach(blk, a) == Bypass(blk, bs[i].addr, a) == Unlink(blk, a)
  {
    hide Ring, Detach, Bypass;
    var r, ms := Nodes(bs, g), MergeAt(bs, i);
    MergeAtTiled(bs, g, i);
    DetachRing(blk, r, i + 1);
    assert Nodes(ms, g) == r[..i + 1] + r[i + 2..];
    forall j | 0 <= j < |ms| ensures Marked(used, ms, j) {
      assert if j <= i then Marked(used, bs, j) else Marked(used, bs, j + 1);
    }
  }

  /**
   A header written where no block can begin: the stores of the growth then leave block links
   and marks that belong to no sequence of blocks.
   */
  lemma StrayBreaks(blk: Links, used: map<int, bool>, bs: seq<Block>, g: Area, i: nat, m: int, cs: seq<Block>)
    requires Linked(blk, used, bs, g) && i < |bs| && g.hd > 0
    requires m < bs[i].addr + g.hd || m + g.hd > bs[i].next
    ensures bs[i].addr in blk.next && !Linked(Splice(blk, bs[i].addr, m), used[m := false], cs, g)
  {
    hide Ring, Chained, Distinct, Linked;
    var h := bs[i].addr;
    LinkedAt(blk, used, bs, g, i);
    var blk', used' := Splice(blk, h, m), used[m := false];
    if Linked(blk', used', cs, g) {
      if j :| 0 <= j <= i && bs[j].addr == m {
        StrayEarlier(blk, used, bs, g, i, j, cs);
      } else {
        StrayLater(blk, used, bs, g, i, m, cs);
      }
    }
  }

  /** What links and marks say about two blocks in a row. */
  lemma LinkedTiles(blk: Links, used: map<int, bool>, bs: seq<Block>, g: Area)
    requires Linked(blk, used, bs, g)
    ensures |bs| > 0 && bs[0].addr == 0 && used[g.end]
    ensures forall j :: 0 <= j < |bs| ==> bs[j].addr + g.hd <= bs[j].next
  {
  }

  /** Up to block `k` the sequences agree, if no header before it was overwritten. */
  lemma {:induction false} SamePrefix(blk: Links, used: map<int, bool>, bs: seq<Block>, g: Area, i: nat, m: int,
                                      cs: seq<Block>, k: nat)
    requires Linked(blk, used, bs, g) && i < |bs| && k <= i && forall j :: 0 <= j < k ==> bs[j].addr != m
    requires bs[i].addr in blk.next && Linked(Splice(blk, bs[i].addr, m), used[m := false], cs, g)
    ensures k < |cs| && cs[k].addr == bs[k].addr
    decreases k
  {
    hide Ring, Chained, Distinct, Linked;
    var blk', used' := Splice(blk, bs[i].addr, m), used[m := false];
    if k == 0 {
      LinkedTiles(blk, used, bs, g);
      LinkedTiles(blk', used', cs, g);
    } else {
      SamePrefix(blk, used, bs, g, i, m, cs, k - 1);
      LinkedAt(blk, used, bs, g, k - 1);
      LinkedAt(blk', used', cs, g, k - 1);
      BlocksAscend(blk, used, bs, g, k - 1, i);
      BlocksAscend(blk, used, bs, g, k, i);
    }
  }

  lemma BlocksAscend(blk: Links, used: map<int, bool>, bs: seq<Block>, g: Area, i: nat, j: nat)
    requires Linked(blk, used, bs, g) && i <= j < |bs|
    ensures bs[j].addr < g.end && (i < j ==> bs[i].addr < bs[j].addr)
    ensures i < j ==> bs[i].next <= bs[j].addr
  {
    WithinEnd(bs, g, j);
    if i < j { Ordered(bs, g, i, j); }
  }

  lemma StrayEarlier(blk: Links, used: map<int, bool>, bs: seq<Block>, g: Area, i: nat, j: nat, cs: seq<Block>)
    requires Linked(blk, used, bs, g) && i < |bs| && j <= i && g.hd > 0
    requires bs[i].addr in blk.next
    ensures !Linked(Splice(blk, bs[i].addr, bs[j].addr), used[bs[j].addr := false], cs, g)
  {
    hide Ring, Chained, Distinct, Linked;
    var h, m := bs[i].addr, bs[j].addr;
    var blk', used' := Splice(blk, h, m), used[m := false];
    if Linked(blk', used', cs, g) {
      forall k | 0 <= k < j ensures bs[k].addr != m { BlocksAscend(blk, used, bs, g, k, j); }
      SamePrefix(blk, used, bs, g, i, m, cs, j);
      BlocksAscend(blk, used, bs, g, j, i);
      LinkedAt(blk, used, bs, g, i);
      LinkedAt(blk', used', cs, g, j);
      if j > 0 && j < i {
        SamePrefix(blk, used, bs, g, i, m, cs, j - 1);
        BlocksAscend(blk, used, bs, g, j - 1, i);
      }
    }
  }

  lemma StrayLater(blk: Links, used: map<int, bool>, bs: seq<Block>, g: Area, i: nat, m: int, cs: seq<Block>)
    requires Linked(blk, used, bs, g) && i < |bs| && g.hd > 0 && forall j :: 0 <= j <= i ==> bs[j].addr != m
    requires m < bs[i].addr + g.hd || m + g.hd > bs[i].next
    requires bs[i].addr in blk.next
    ensures !Linked(Splice(blk, bs[i].addr, m), used[m := false], cs, g)
  {
    hide Ring, Chained, Distinct, Linked;
    var h := bs[i].addr;
    var blk', used' := Splice(blk, h, m), used[m := false];
    if Linked(blk', used', cs, g) {
      SamePrefix(blk, used, bs, g, i, m, cs, i);
      LinkedAt(blk, used, bs, g, i);
      LinkedAt(blk', used', cs, g, i);
      LinkedTiles(blk', used', cs, g);
      assert cs[i].next == m;
      if i + 1 < |cs| {
        LinkedAt(blk', used', cs, g, i + 1);
      }
    }
  }

  /** The two merges of a release may be done in either order. */
  lemma MergesCommute(bs: seq<Block>, i: nat)
    requires 0 < i && i + 1 < |bs|
    ensures MergeAt(MergeAt(bs, i), i - 1) == MergeAt(MergeAt(bs, i - 1), i - 1)
  {
  }

  ghost predicate FreeAfter(bs: seq<Block>, i: int) {
    0 <= i && i + 1 < |bs| && !bs[i + 1].used
  }

  /** Block `i` merged into a free block before it, and where it then is. */
  ghost function LeftMerged(bs: seq<Block>, i: nat): (seq<Block>, int)
    requires i < |bs|
  {
    if i > 0 && !bs[i - 1].used then (MergeAt(bs, i - 1), i - 1) else (bs, i)
  }

  // ----- The free list

  lemma ListWithout(free: Links, fl: seq<int>, a: int)
    requires Ring(free, [HEAD] + fl) && a in fl
    ensures a in free.next && a in free.prev && Ring(Detach(free, a), [HEAD] + Without(fl, a))
    ensures a !in Without(fl, a) && forall t :: t in Without(fl, a) ==> t in fl
    ensures a != HEAD
  {
    hide Detach, Chained, Distinct, Without, IndexOf;
    var r, k := [HEAD] + fl, IndexOf(fl, a);
    ListDistinct(free, fl);
    WithoutMembers(fl, a);
    WithoutAt(fl, a);
    DetachRing(free, r, k + 1);
  }

  lemma ListDistinct(free: Links, fl: seq<int>)
    requires Ring(free, [HEAD] + fl)
    ensures Distinct(fl) && HEAD !in fl
  {
    var r := [HEAD] + fl;
    forall i, j | 0 <= i < j < |fl| ensures fl[i] != fl[j] { assert r[i + 1] != r[j + 1]; }
    forall i | 0 <= i < |fl| ensures fl[i] != HEAD { assert r[0] != r[i + 1]; }
  }

  lemma WithoutAt(fl: seq<int>, a: int)
    requires a in fl
    ensures var r, k := [HEAD] + fl, IndexOf(fl, a);
            k < |fl| && r[k + 1] == a && [HEAD] + Without(fl, a) == r[..k + 1] + r[k + 2..]
  {
    hide Without, IndexOf;
    WithoutIs(fl, a);
    ConsCut(HEAD, fl, IndexOf(fl, a));
  }

  lemma ListPush(free: Links, fl: seq<int>, a: int)
    requires Ring(free, [HEAD] + fl) && a !in [HEAD] + fl
    ensures HEAD in free.next && Ring(Splice(free, HEAD, a), [HEAD] + ([a] + fl))
  {
    SpliceRing(free, [HEAD] + fl, 0, a);
    assert ([HEAD] + fl)[..1] + [a] + ([HEAD] + fl)[1..] == [HEAD] + ([a] + fl);
  }

  // ----- Headers and payloads

  /** Payloads to keep: those of the blocks `us`, as they are in `mem`. */
  datatype Watch = Watch(mem: seq<byte>, us: set<Block>)

  /** A header at `a` meets no payload of the blocks `us`. */
  ghost predicate Spot(us: set<Block>, a: int, g: Area) {
    a == HEAD || forall p :: a <= p < a + g.hd ==> !Guarded(us, p, g)
  }

  ghost predicate Spots(us: set<Block>, r: seq<int>, g: Area) {
    forall a :: a in r ==> Spot(us, a, g)
  }

  lemma InsideSpot(bs: seq<Block>, g: Area, i: nat, m: nat)
    requires Tiled(bs, g) && i < |bs| && !bs[i].used && bs[i].addr <= m && m + g.hd <= bs[i].next
    ensures Spot(UsedSet(bs), m, g)
  {
    HeaderMissesPayload(bs, g, i, m);
  }

  lemma NodeSpots(bs: seq<Block>, g: Area)
    requires Tiled(bs, g)
    ensures Spots(UsedSet(bs), Nodes(bs, g), g)
  {
    hide Tiled, Guarded, UsedSet;
    forall a | a in Nodes(bs, g) ensures Spot(UsedSet(bs), a, g) {
      var k :| 0 <= k < |Nodes(bs, g)| && Nodes(bs, g)[k] == a;
      if k < |bs| { WithinEnd(bs, g, k); }
      HeaderMissesPayload(bs, g, k, AddrAt(bs, g, k));
    }
  }

  lemma ListedSpots(h: Heap, g: Area, us: set<Block>)
    requires Sound(h, g) && Spots(us, Nodes(h.bs, g), g)
    ensures Spots(us, [HEAD] + h.fl, g)
  {
    assert Spot(us, HEAD, g);
    hide Sound, Spot;
    forall a | a in h.fl ensures Spot(us, a, g) {
      var k :| 0 <= k < |h.fl| && h.fl[k] == a;
      ListMember(h, g, k);
      var i := IndexAt(h.bs, a);
      assert Nodes(h.bs, g)[i] == a;
    }
  }

  lemma RingSpots(s: Links, r: seq<int>, k: nat, us: set<Block>, g: Area)
    requires Ring(s, r) && k < |r| && Spots(us, r, g)
    ensures r[k] in s.next && r[k] in s.prev
    ensures Spot(us, r[k], g) && Spot(us, s.next[r[k]], g) && Spot(us, s.prev[r[k]], g)
  {
    RingHas(s, r, k);
  }

  lemma LinkedSpots(blk: Links, used: map<int, bool>, bs: seq<Block>, g: Area, i: nat, us: set<Block>)
    requires Linked(blk, used, bs, g) && i < |bs| && Spots(us, Nodes(bs, g), g)
    ensures var a := bs[i].addr;
            && a in blk.next && a in blk.prev
            && Spot(us, a, g) && Spot(us, blk.next[a], g) && Spot(us, blk.prev[a], g)
  {
    hide Ring, Spot, Spots;
    RingSpots(blk, Nodes(bs, g), i, us, g);
  }

  lemma SplitSpots(bs: seq<Block>, g: Area, i: nat, n: nat, us: set<Block>)
    requires i < |bs| && Spots(us, Nodes(bs, g), g) && Spot(us, bs[i].addr + g.hd + n, g)
    ensures Spots(us, Nodes(Split(bs, i, n, g), g), g)
  {
    hide Spot;
    var r := Nodes(bs, g);
    assert Nodes(Split(bs, i, n, g), g) == r[..i + 1] + [bs[i].addr + g.hd + n] + r[i + 1..];
  }

  lemma MergeSpots(bs: seq<Block>, g: Area, i: nat, us: set<Block>)
    requires i + 1 < |bs| && Spots(us, Nodes(bs, g), g)
    ensures Spots(us, Nodes(MergeAt(bs, i), g), g)
  {
    hide Spot;
    var r := Nodes(bs, g);
    assert Nodes(MergeAt(bs, i), g) == r[..i + 1] + r[i + 2..];
  }

  lemma DropSpots(fl: seq<int>, x: int, us: set<Block>, g: Area)
    requires Spots(us, [HEAD] + fl, g) && forall t :: t in Without(fl, x) ==> t in fl
    ensures Spots(us, [HEAD] + Without(fl, x), g)
  {
    hide Spot, Without;
    forall a | a in [HEAD] + Without(fl, x) ensures Spot(us, a, g) { assert a in [HEAD] + fl; }
  }

  lemma PushSpots(fl: seq<int>, m: int, us: set<Block>, g: Area)
    requires Spots(us, [HEAD] + fl, g) && Spot(us, m, g)
    ensures Spots(us, [HEAD] + ([m] + fl), g)
  {
    hide Spot;
    forall a | a in [HEAD] + ([m] + fl) ensures Spot(us, a, g) { assert a == m || a in [HEAD] + fl; }
  }

  // ----- The heap

  class MemoryHeap {
    /** start_addr, which addresses here are relative to, and pool_size. */
    const base: nat
    const poolSize: pool
    const g := Area(poolSize - HDR, HDR, MINI)
    /** The bytes at start_addr. Headers lie among them: a store to a header changes its HDR bytes. */
    const mem: array<byte>
    /** The `magic` of the item at each address. */
    var used: map<int, bool>
    /** `next` and `prev`. */
    var blk: Links
    /** `next_free` and `prev_free`. */
    var free: Links
    var available: int
    var maxUsed: int
    ghost var bs: seq<Block>
    ghost var fl: seq<int>

    ghost predicate Valid()
      reads this
    {
      && mem.Length == poolSize && base + poolSize <= SIZE_LIMIT && Linked(blk, used, bs, g) && Ring(free, [HEAD] + fl)
      && available == FreePayload(bs, g) && Sound(Heap(bs, fl, maxUsed), g)
    }

    ghost function Model(): Heap
      reads this
    {
      Heap(bs, fl, maxUsed)
    }

    constructor (base: nat, size: nat)
      requires 2 * HDR <= size < SIZE_LIMIT && base + size <= SIZE_LIMIT
      ensures Valid() && this.base == base && poolSize == size - size % ALIGN && fresh(mem)
      ensures Model() == Heap([Block(0, poolSize - HDR, false)], [0], 2 * HDR)
    {
      var pool := size - size % ALIGN;
      var end := pool - HDR;
      this.base := base;
      poolSize := pool;
      mem := new byte[pool];
      available := pool - 2 * HDR;
      maxUsed := 2 * HDR;
      used := map[0 := false, end := true];
      blk := Links(map[0 := end, end := 0], map[0 := end, end := 0]);
      var list := Init(Init(Links(map[], map[]), HEAD), 0);
      free := Splice(list, HEAD, 0);
      bs, fl := [Block(0, end, false)], [0];
      new;
      WholePool(g, list);
      assert Nodes(bs, g) == [0, g.end];
      assert Marked(used, bs, 0);
    }

    /** No header in use meets a payload to keep, and those are as they were. */
    ghost predicate Keeps(w: Watch)
      reads this, mem
    {
      Spots(w.us, Nodes(bs, g), g) && Spots(w.us, [HEAD] + fl, g) && Kept(w.mem, mem[..], w.us, g)
    }

    /** A store to the item at `a`. The list head lies outside the pool, as an item past the pool does. */
    method Write(a: int)
      modifies mem
      ensures forall p :: 0 <= p < mem.Length && !(a <= p < a + HDR) ==> mem[p] == old(mem[p])
      ensures a == HEAD ==> mem[..] == old(mem[..])
    {
      if a == HEAD { return; }
      for k := 0 to HDR
        invariant forall p :: 0 <= p < mem.Length && !(a <= p < a + HDR) ==> mem[p] == old(mem[p])
      {
        if 0 <= a + k < mem.Length { mem[a + k] := *; }
      }
    }

    /** Stores to the items at `a`, `b` and `c`. */
    method Touch(a: int, b: int, c: int, ghost w: Watch)
      modifies mem
      ensures Spot(w.us, a, g) && Spot(w.us, b, g) && Spot(w.us, c, g) && Kept(w.mem, old(mem[..]), w.us, g) ==>
                Kept(w.mem, mem[..], w.us, g)
    {
      Write(a);
      Write(b);
      Write(c);
    }

    /** MEMITEM_SIZE. */
    function ItemSize(a: int): int
      requires a in blk.next
      reads this
    {
      blk.next[a] - a - HDR
    }

    /** The search loop of rt_memheap_alloc. */
    method Search(n: nat) returns (h: int, freeSize: int)
      requires Valid() && n > 0
      ensures var k := FirstListed(bs, fl, n, g);
              if k < |fl|
              then h == fl[k] && freeSize == bs[IndexAt(bs, h)].Payload(g) && freeSize >= n
              else freeSize < n
    {
      hide Aligned, Linked, FreePayload, FreeAddrs, NoFreePair, FirstListed, Distinct, Ring, Tiled, FitsAt;
      ListNext(free, fl, -1);
      h, freeSize := free.next[HEAD], 0;
      ghost var k := 0;
      while h != HEAD && freeSize < n
        invariant 0 <= k <= |fl| && h == if k < |fl| then fl[k] else HEAD
        invariant freeSize < n ==> forall j :: 0 <= j < k ==> !FitsAt(bs, fl[j], n, g)
        invariant freeSize >= n ==>
                    && k < |fl| && FirstListed(bs, fl, n, g) == k
                    && IndexAt(bs, h) < |bs| && freeSize == bs[IndexAt(bs, h)].Payload(g)
        decreases |fl| - k + if freeSize < n then 1 else 0
      {
        ListMember(Model(), g, k);
        ghost var i := IndexAt(bs, h);
        assert FitsAt(bs, h, n, g) <==> bs[i].Payload(g) >= n by { FitsWhen(bs, h, n, g); }
        LinkedAt(blk, used, bs, g, i);
        freeSize := ItemSize(h);
        if freeSize < n {
          ListNext(free, fl, k);
          h := free.next[h];
          k := k + 1;
        } else {
          FirstListedIs(bs, fl, n, g, k);
        }
      }
      if freeSize < n {
        if k < |fl| { ListMember(Model(), g, k); }
        FirstListedIs(bs, fl, n, g, k);
      }
    }

    /**
     The stores that cut block `h` after `n` bytes of payload and mark the rest free. The block
     itself is marked used; in the source it is already, or rt_memheap_alloc does so next.
     */
    method Carve(h: int, n: nat, ghost i: nat, ghost w: Watch) returns (m: int)
      requires Linked(blk, used, bs, g) && i < |bs| && bs[i].addr == h && bs[i].Payload(g) >= n + HDR
      requires Keeps(w) && Spot(w.us, h + HDR + n, g)
      modifies `blk, `used, `bs, mem
      ensures Linked(blk, used, bs, g) && bs == Split(old(bs), i, n, g) && Keeps(w)
      ensures m == h + HDR + n && |bs| == |old(bs)| + 1
      ensures bs[i] == Block(h, m, true) && bs[i + 1] == Block(m, old(bs)[i].next, false)
    {
      hide Linked, Splice, Spot, Spots, Kept, Nodes;
      m := h + n + HDR;
      LinkedSpots(blk, used, bs, g, i, w.us);
      SplitSpots(bs, g, i, n, w.us);
      Touch(m, blk.next[h], h, w);
      LinkedSplit(blk, used, bs, g, i, n, Split(bs, i, n, g));
      used := used[m := false][h := true];
      blk := Splice(blk, h, m);
      bs := Split(bs, i, n, g);
    }

    /** The stores that put a free block behind the head of the free list. */
    method Push(m: int, ghost w: Watch)
      requires Ring(free, [HEAD] + fl) && m !in [HEAD] + fl && Keeps(w) && Spot(w.us, m, g)
      modifies `free, `fl, mem
      ensures Ring(free, [HEAD] + fl) && fl == [m] + old(fl) && Keeps(w)
    {
      hide Ring, Splice, Spot, Spots, Kept, Nodes;
      ListPush(free, fl, m);
      RingSpots(free, [HEAD] + fl, 0, w.us, g);
      PushSpots(fl, m, w.us, g);
      Touch(m, free.next[HEAD], HEAD, w);
      free := Splice(free, HEAD, m);
      fl := [m] + fl;
    }

    /** The stores that take a block off the free list. */
    method Drop(x: int, ghost w: Watch)
      requires Ring(free, [HEAD] + fl) && x in fl && Keeps(w)
      modifies `free, `fl, mem
      ensures Ring(free, [HEAD] + fl) && fl == Without(old(fl), x) && Keeps(w)
    {
      hide Ring, Detach, Without, Spot, Spots, Kept, Nodes;
      ListWithout(free, fl, x);
      DropSpots(fl, x, w.us, g);
      ghost var k :| 0 <= k < |fl| && fl[k] == x;
      RingSpots(free, [HEAD] + fl, k + 1, w.us, g);
      Touch(free.next[x], free.prev[x], x, w);
      free := Detach(free, x);
      fl := Without(fl, x);
    }

    /** max_used_size follows available_size. */
    method NoteUse()
      modifies `maxUsed
      ensures maxUsed == Max(old(maxUsed), poolSize - available)
    {
      if poolSize - available > maxUsed { maxUsed := poolSize - available; }
    }

    /** The part of rt_memheap_alloc that takes the block found off the free list. */
    method Grant(h: int, n: nat, freeSize: int, ghost w: Watch)
      requires Valid() && h in fl && n % ALIGN == 0 && Keeps(w) && w.us == UsedSet(bs)
      requires FitsAt(bs, h, n, g) && freeSize == bs[IndexAt(bs, h)].Payload(g)
      modifies this, mem
      ensures Valid() && Model() == Granted(old(Model()), h, n, g) && Kept(w.mem, mem[..], w.us, g)
    {
      hide Aligned, Linked, FreePayload, FreeAddrs, NoFreePair, Distinct, Ring, Tiled, Split, Without, Elems, UsedSet,
        Spot, Spots, Kept, Nodes;
      ghost var i := IndexAt(bs, h);
      GrantedSound(Model(), h, n, g, i);
      if freeSize >= n + HDR + MINI {
        NewNotListed(Model(), g, i, h + HDR + n);
        NotBack(fl, Without(fl, h), h + HDR + n);
        InsideSpot(bs, g, i, h + HDR + n);
        var m := Carve(h, n, i, w);
        Drop(h, w);
        Push(m, w);
        available := available - n - HDR;
        NoteUse();
      } else {
        available := available - freeSize;
        NoteUse();
        Drop(h, w);
        LinkedMark(blk, used, bs, g, i, true);
        LinkedSpots(blk, used, bs, g, i, w.us);
        Touch(h, h, h, w);
        used := used[h := true];
        bs := bs[i := bs[i].(used := true)];
      }
    }

    /** rt_memheap_alloc. */
    method Alloc(size: nat) returns (r: Option<nat>)
      requires Valid() && size < SIZE_LIMIT
      modifies this, mem
      ensures Valid() && (Model(), r) == AllocSpec(old(Model()), size, g)
      ensures Kept(old(mem[..]), mem[..], UsedSet(old(bs)), g)
    {
      hide Aligned, Linked, FreePayload, FreeAddrs, NoFreePair, Distinct, Ring, Tiled, Granted, Spots, Kept, UsedSet;
      ghost var w := Watch(mem[..], UsedSet(bs));
      StartKeeps(Model(), g, mem[..]);
      var n := AlignUp(size);
      if n < MINI { n := MINI; }
      if n < available {
        var h, freeSize := Search(n);
        if freeSize >= n {
          AlignUpCovers(size);
          ListMember(Model(), g, FirstListed(bs, fl, n, g));
          Grant(h, n, freeSize, w);
          return Some(h + HDR);
        }
      }
      return None;
    }

    /** rt_memheap_free. The asserts are the source's. */
    method Free(ptr: Option<nat>)
      requires Valid() && (ptr.Some? ==> Live(bs, ptr.value, g))
      modifies this, mem
      ensures Valid() && Model() == FreeSpec(old(Model()), ptr, g)
      ensures Kept(old(mem[..]), mem[..], UsedSet(bs), g)
    {
      hide Live, IndexAt, BlockAt, FreedList, Aligned, Linked, FreePayload, FreeAddrs, NoFreePair, Distinct, Ring,
        Tiled, Splice, Detach, Bypass, Unlink, PutBefore, Without, Elems, MergeAt, Freed, UsedSet, Spot, Spots, Kept,
        Nodes, Sound, FreeSpec, LeftMerged, FreeAfter;
      if ptr.None? {
        FreeNone(Model(), g);
        KeptSelf(mem[..], UsedSet(bs), g);
        return;
      }
      var h := ptr.value - HDR;
      ghost var i := IndexAt(bs, h);
      FreePlan(Model(), g, ptr.value);
      LinkedAt(blk, used, bs, g, i);
      assert used[h] && blk.next[h] in used;
      ghost var w := Watch(mem[..], UsedSet(Freed(bs, i)));
      ReleaseSpots(Model(), g, i, w.us, w.mem);
      Unmark(h, i, w);
      available := available + ItemSize(h);
      Merge(h, i, w);
    }

    /** The merges of rt_memheap_free with the blocks beside; a block not merged to the left enters the free list. */
    method Merge(h0: int, ghost i: nat, ghost w: Watch)
      requires Linked(blk, used, bs, g) && Ring(free, [HEAD] + fl) && i < |bs| && bs[i].addr == h0
      requires Keeps(w) && h0 !in [HEAD] + fl && Spot(w.us, h0, g)
      requires var (ls, j) := LeftMerged(bs, i);
               j < |ls| && ls[j].addr == bs[j].addr && (FreeAfter(ls, j) ==> ls[j + 1].addr in fl)
      modifies `blk, `bs, `free, `fl, `available, mem
      ensures Linked(blk, used, bs, g) && Ring(free, [HEAD] + fl) && Keeps(w)
      ensures var (ls, j) := LeftMerged(old(bs), i);
              && bs == (if FreeAfter(ls, j) then MergeAt(ls, j) else ls)
              && available == old(available) + (if j < i then HDR else 0) + (if FreeAfter(ls, j) then HDR else 0)
              && var fl1 := if FreeAfter(ls, j) then Without(old(fl), ls[j + 1].addr) else old(fl);
                 fl == if j < i then fl1 else [h0] + fl1
    {
      hide Linked, Ring, Without, MergeAt, Spot, Spots, Kept, Nodes;
      ghost var f0 := fl;
      var h, insertHeader;
      ghost var j;
      h, insertHeader, j := JoinLeft(h0, i, w);
      JoinRight(h, j, w);
      if insertHeader {
        NotBack(f0, fl, h);
        Enter(h, w);
      }
    }

    /** The store that marks block `i` free. */
    method Unmark(h: int, ghost i: nat, ghost w: Watch)
      requires Linked(blk, used, bs, g) && i < |bs| && bs[i].addr == h && Keeps(w)
      modifies `used, `bs, mem
      ensures bs == old(bs)[i := old(bs)[i].(used := false)] && Linked(blk, used, bs, g) && Keeps(w)
    {
      hide Linked, Spot, Spots, Kept, Nodes;
      LinkedMark(blk, used, bs, g, i, false);
      LinkedSpots(blk, used, bs, g, i, w.us);
      Touch(h, h, h, w);
      used := used[h := false];
      assert Nodes(bs[i := bs[i].(used := false)], g) == Nodes(bs, g);
      bs := bs[i := bs[i].(used := false)];
    }

    /** The stores that put a free block before the first member of the free list. */
    method Enter(h: int, ghost w: Watch)
      requires Ring(free, [HEAD] + fl) && h !in [HEAD] + fl && Keeps(w) && Spot(w.us, h, g)
      modifies `free, `fl, mem
      ensures Ring(free, [HEAD] + fl) && fl == [h] + old(fl) && Keeps(w)
    {
      hide Ring, PutBefore, Spot, Spots, Kept, Nodes;
      PutBeforeRing(free, HEAD, fl, h);
      RingSpots(free, [HEAD] + fl, 0, w.us, g);
      PushSpots(fl, h, w.us, g);
      Touch(h, HEAD, free.next[HEAD], w);
      free := PutBefore(free, free.next[HEAD], h);
      fl := [h] + fl;
    }

    /** The merge of rt_memheap_free with the block before. */
    method JoinLeft(h: int, ghost i: nat, ghost w: Watch)
      returns (h': int, insertHeader: bool, ghost i': nat)
      requires Linked(blk, used, bs, g) && i < |bs| && bs[i].addr == h && Keeps(w)
      modifies `blk, `bs, `available, mem
      ensures Linked(blk, used, bs, g) && Keeps(w)
      ensures insertHeader == (i == 0 || old(bs)[i - 1].used)
      ensures i' == (if insertHeader then i else i - 1) && h' == old(bs)[i'].addr
      ensures bs == (if insertHeader then old(bs) else MergeAt(old(bs), i - 1)) && i' < |bs|
      ensures available == old(available) + if insertHeader then 0 else HDR
    {
      hide Linked, Unlink, Detach, Bypass, Spot, Spots, Kept, Nodes;
      h', insertHeader, i' := h, true, i;
      LinkedAt(blk, used, bs, g, i);
      if !used[blk.prev[h']] {
        available := available + HDR;
        LinkedMerge(blk, used, bs, g, i - 1);
        LinkedSpots(blk, used, bs, g, i, w.us);
        MergeSpots(bs, g, i - 1, w.us);
        Touch(blk.prev[h'], blk.next[h'], h', w);
        blk, h' := Unlink(blk, h'), blk.prev[h'];
        insertHeader := false;
        bs, i' := MergeAt(bs, i - 1), i - 1;
      }
    }

    /** The merge of rt_memheap_free with the block after, which leaves the free list. */
    method JoinRight(h: int, ghost i: nat, ghost w: Watch)
      requires Linked(blk, used, bs, g) && Ring(free, [HEAD] + fl) && i < |bs| && bs[i].addr == h
      requires i + 1 < |bs| && !bs[i + 1].used ==> bs[i + 1].addr in fl
      requires Keeps(w)
      modifies `blk, `bs, `free, `fl, `available, mem
      ensures Linked(blk, used, bs, g) && Ring(free, [HEAD] + fl) && Keeps(w)
      ensures if i + 1 < |old(bs)| && !old(bs)[i + 1].used
              then bs == MergeAt(old(bs), i) && fl == Without(old(fl), old(bs)[i + 1].addr)
                  && available == old(available) + HDR
              else bs == old(bs) && fl == old(fl) && available == old(available)
    {
      hide Linked, Ring, Unlink, Detach, Bypass, Without, Spot, Spots, Kept, Nodes;
      LinkedAt(blk, used, bs, g, i);
      if !used[blk.next[h]] {
        var x := blk.next[h];
        available := available + HDR;
        LinkedMerge(blk, used, bs, g, i);
        LinkedSpots(blk, used, bs, g, i, w.us);
        LinkedSpots(blk, used, bs, g, i + 1, w.us);
        MergeSpots(bs, g, i, w.us);
        Touch(h, blk.next[x], x, w);
        blk := Bypass(blk, h, x);
        bs := MergeAt(bs, i);
        Drop(x, w);
      }
    }

    /** The in-place growth of rt_memheap_realloc into the free block `x` after `h`. */
    method Grow(h: int, x: int, oldsize: int, n: nat)
      requires Valid() && Live(bs, h + HDR, g) && n % ALIGN == 0 && n < SIZE_LIMIT
      requires var i := IndexAt(bs, h);
               && oldsize == bs[i].Payload(g) && i + 1 < |bs| && !bs[i + 1].used && x == bs[i + 1].addr && oldsize < n
      modifies this, mem
      ensures var i := old(IndexAt(bs, h));
              if n <= oldsize + old(bs)[i + 1].Payload(g)
              then && Valid() && Model() == GrownHeap(old(Model()), i, n, g)
                   && Kept(old(mem[..]), mem[..], UsedSet(old(bs)), g)
              else Broken()
    {
      hide Aligned, Linked, FreePayload, FreeAddrs, NoFreePair, Distinct, Ring, Tiled, Splice, Detach, Bypass, Unlink,
        Without, Elems, MergeAt, Split, UsedSet, Broken, IndexAt, GrownHeap, Sound, Spot, Spots, Kept, Nodes;
      ghost var i := IndexAt(bs, h);
      ghost var w := Watch(mem[..], UsedSet(bs));
      StartKeeps(Model(), g, mem[..]);
      GrowPlan(Model(), g, h + HDR, n);
      GrowSpot(Model(), g, h, i, n);
      available := available - (n - oldsize);
      NoteUse();
      LinkedMerge(blk, used, bs, g, i);
      Drop(x, w);
      LinkedSpots(blk, used, bs, g, i + 1, w.us);
      MergeSpots(bs, g, i, w.us);
      Touch(blk.next[x], blk.prev[x], x, w);
      blk := Detach(blk, x);
      bs := MergeAt(bs, i);
      Plant(h, n, i, w);
    }

    /** The stores that make a free block of what follows `n` bytes of payload of block `h`. */
    method Plant(h: int, n: nat, ghost i: nat, ghost w: Watch)
      requires base + poolSize <= SIZE_LIMIT && n < SIZE_LIMIT
      requires Linked(blk, used, bs, g) && Ring(free, [HEAD] + fl) && i < |bs| && bs[i].addr == h && bs[i].used
      requires bs[i].Payload(g) >= n + HDR ==> h + HDR + n !in [HEAD] + fl && Spot(w.us, h + HDR + n, g)
      requires Keeps(w)
      modifies `blk, `used, `free, `bs, `fl, mem
      ensures if old(bs)[i].Payload(g) >= n + HDR
              then && Linked(blk, used, bs, g) && bs == Split(old(bs), i, n, g)
                   && Ring(free, [HEAD] + fl) && fl == [h + HDR + n] + old(fl)
                   && Kept(w.mem, mem[..], w.us, g)
              else Broken()
    {
      hide Linked, Ring, Splice, Split, Spot, Spots, Kept, Nodes;
      ghost var blk0, used0 := blk, used;
      var m := (base + h + HDR + n) % SIZE_LIMIT - base;
      LinkedAt(blk, used, bs, g, i);
      ListHead(free, fl);
      if bs[i].Payload(g) >= n + HDR {
        LinkedSplit(blk, used, bs, g, i, n, Split(bs, i, n, g));
        SplitAt(bs, i, n, g);
        ListPush(free, fl, m);
        assert used[m := false][h := true] == used[m := false];
      }
      LinkedSpots(blk, used, bs, g, i, w.us);
      RingSpots(free, [HEAD] + fl, 0, w.us, g);
      Touch(m, blk.next[h], h, w);
      Touch(m, free.next[HEAD], HEAD, w);
      used := used[m := false];
      blk := Splice(blk, h, m);
      free := Splice(free, HEAD, m);
      if bs[i].Payload(g) >= n + HDR {
        bs, fl := Split(bs, i, n, g), [m] + fl;
      } else {
        forall cs: seq<Block> ensures !Linked(blk, used, cs, g) { StrayBreaks(blk0, used0, bs, g, i, m, cs); }
      }
    }

    /** The block links and marks are those of no sequence of blocks. */
    ghost predicate Broken()
      reads this
    {
      forall cs :: !Linked(blk, used, cs, g)
    }

    /** The in-place shrinking of rt_memheap_realloc. */
    method Shrink(h: int, n: nat)
      requires Valid() && Live(bs, h + HDR, g) && n % ALIGN == 0
      requires n + HDR + MINI < BlockAt(bs, h + HDR, g).Payload(g)
      modifies this, mem
      ensures Valid() && Model() == ShrunkHeap(old(Model()), old(IndexAt(bs, h)), n, g)
      ensures Kept(old(mem[..]), mem[..], UsedSet(bs), g)
    {
      hide Shrunk, Aligned, Linked, FreePayload, FreeAddrs, NoFreePair, Distinct, Ring, Tiled, Splice, Detach, Bypass,
        Unlink, Without, Elems, MergeAt, Split, UsedSet, Spot, Spots, Kept, Nodes, Sound, ShrunkHeap, Live, BlockAt,
        IndexAt;
      ghost var i := IndexAt(bs, h);
      ShrinkPlan(Model(), g, h, n);
      ghost var w := Watch(mem[..], UsedSet(Shrunk(bs, i, n, g)));
      ShrinkSpots(Model(), g, i, n, w.us, w.mem);
      var m := Carve(h, n, i, w);
      JoinRest(m, i + 1, w);
      Push(m, w);
      LinkedAt(blk, used, bs, g, i + 1);
      available := available + ItemSize(m);
    }

    /** The part of rt_memheap_realloc that joins the block split off with a free block after it. */
    method JoinRest(m: int, ghost i: nat, ghost w: Watch)
      requires Linked(blk, used, bs, g) && Ring(free, [HEAD] + fl) && i < |bs| && bs[i].addr == m
      requires i + 1 < |bs| && !bs[i + 1].used ==> bs[i + 1].addr in fl
      requires Keeps(w)
      modifies `blk, `bs, `free, `fl, `available, mem
      ensures Linked(blk, used, bs, g) && Ring(free, [HEAD] + fl) && Keeps(w)
      ensures if i + 1 < |old(bs)| && !old(bs)[i + 1].used
              then && bs == MergeAt(old(bs), i) && fl == Without(old(fl), old(bs)[i + 1].addr)
                   && available == old(available) - old(bs)[i + 1].Payload(g)
              else bs == old(bs) && fl == old(fl) && available == old(available)
    {
      hide Linked, Ring, Unlink, Detach, Bypass, Without, Spot, Spots, Kept, Nodes;
      LinkedAt(blk, used, bs, g, i);
      if !used[blk.next[m]] {
        var x := blk.next[m];
        LinkedAt(blk, used, bs, g, i + 1);
        available := available - ItemSize(x);
        LinkedMerge(blk, used, bs, g, i);
        LinkedSpots(blk, used, bs, g, i, w.us);
        LinkedSpots(blk, used, bs, g, i + 1, w.us);
        MergeSpots(bs, g, i, w.us);
        Touch(m, blk.next[x], x, w);
        blk := Bypass(blk, m, x);
        bs := MergeAt(bs, i);
        Drop(x, w);
      }
    }

    /** The test of rt_memheap_realloc for growth in place, and the growth. */
    method Extend(h: int, oldsize: int, n: nat) returns (done: bool)
      requires Valid() && Live(bs, h + HDR, g) && n < SIZE_LIMIT && n % ALIGN == 0
      requires oldsize == bs[IndexAt(bs, h)].Payload(g) && oldsize < n
      modifies this, mem
      ensures done == CodeGrows(old(bs), old(IndexAt(bs, h)), n, g)
      ensures var i := old(IndexAt(bs, h));
              if !done then Valid() && Model() == old(Model()) && mem[..] == old(mem[..])
              else if n <= oldsize + old(bs)[i + 1].Payload(g)
              then && Valid() && Model() == GrownHeap(old(Model()), i, n, g)
                   && Kept(old(mem[..]), mem[..], UsedSet(old(bs)), g)
              else Broken()
    {
      hide Aligned, Linked, FreePayload, FreeAddrs, NoFreePair, Distinct, Ring, Tiled, Elems, Grown, Without, ToInt32,
        GrownHeap, Broken, Kept, UsedSet;
      ghost var i := IndexAt(bs, h);
      LinkedAt(blk, used, bs, g, i);
      TiledPayload(bs, g, i);
      var x := blk.next[h];
      assert x > h;
      if !used[x] {
        LinkedAt(blk, used, bs, g, i + 1);
        TiledPayload(bs, g, i + 1);
        var nextsize := ToInt32(ItemSize(x));
        if (nextsize + oldsize) % SIZE_LIMIT > (n + MINI) % SIZE_LIMIT {
          Grow(h, x, oldsize, n);
          return true;
        }
      }
      return false;
    }

    /** rt_memheap_realloc on a live block, with the request already aligned. */
    method Resize(ptr: nat, n: nat) returns (r: Option<nat>)
      requires Valid() && Live(bs, ptr, g) && n < SIZE_LIMIT && n % ALIGN == 0 && Request(n, g) == n && n > 0
      modifies this, mem
      ensures if Overruns(old(Model()), Some(ptr), n, g)
              then r == Some(ptr) && Broken()
              else && Valid() && (Model(), r) == ReallocCode(old(Model()), Some(ptr), n, g)
                   && Kept(old(mem[..]), mem[..], UsedSet(old(bs)) * UsedSet(bs), g)
                   && (r.Some? ==> Carried(old(mem[..]), mem[..], ptr, r.value, Min(Room(old(bs), ptr, g), n)))
    {
      hide Live, IndexAt, BlockAt, Resized, UsedSet, WellFormed, Aligned, Linked, FreePayload, FreeAddrs, NoFreePair,
        Distinct, Ring, Tiled, GrownHeap, ShrunkHeap, AllocSpec, FreeSpec, Elems, Request, Broken, CodeGrows, Kept,
        Carried;
      ghost var h0, m0 := Model(), mem[..];
      LiveAt(bs, ptr, g);
      LinkedAt(blk, used, bs, g, IndexAt(bs, ptr - HDR));
      GrowsWhen(Model(), ptr, n, g);
      var h := ptr - HDR;
      var oldsize := ItemSize(h);
      if n > oldsize {
        var done := Extend(h, oldsize, n);
        if done {
          if !Overruns(h0, Some(ptr), n, g) { GrownKeeps(h0, Model(), g, ptr, n, m0, mem[..]); }
          return Some(ptr);
        }
        r := Move(ptr, oldsize, n);
        return;
      }
      if n + HDR + MINI >= oldsize {
        StaysCarried(h0, g, ptr, n, m0);
        return Some(ptr);
      }
      Shrink(h, n);
      ShrunkKeeps(h0, Model(), g, ptr, n, m0, mem[..]);
      return Some(ptr);
    }

    /** The part of rt_memheap_realloc that moves the block at `ptr`. */
    method Move(ptr: nat, oldsize: int, n: nat) returns (r: Option<nat>)
      requires Valid() && Live(bs, ptr, g) && n < SIZE_LIMIT && Request(n, g) == n
      requires oldsize == Room(bs, ptr, g) < n
      modifies this, mem
      ensures Valid()
      ensures var (h1, r1) := AllocSpec(old(Model()), n, g);
              r == r1 && Model() == if r.None? then h1 else FreeSpec(h1, Some(ptr), g)
      ensures Kept(old(mem[..]), mem[..], UsedSet(old(bs)) * UsedSet(bs), g)
      ensures r.Some? ==> Carried(old(mem[..]), mem[..], ptr, r.value, oldsize)
    {
      hide Live, UsedSet, AllocSpec, FreeSpec, Request, Kept, Copied, Carried, GivesWay, BlockAt;
      assert mem.Length == poolSize && Sound(Model(), g);
      hide Valid, Sound;
      ghost var h0, m0 := Model(), mem[..];
      r := Alloc(n);
      if r.Some? {
        ghost var h1, m1 := Model(), mem[..];
        ghost var us, vs, b, c := MoveFacts(h0, h1, g, ptr, n, r.value, |m0|);
        var len := if oldsize < n then oldsize else n;
        CopyRoom(us, vs, b, c, len, |m0|, g);
        Copy(r.value, ptr, len);
        ghost var m2 := mem[..];
        Free(Some(ptr));
        CopyKept(m0, m1, m2, mem[..], us, vs, b, c, ptr, r.value, len, g);
      } else {
        KeptFewer(m0, mem[..], UsedSet(h0.bs), UsedSet(bs), g);
      }
    }

    /** rt_memcpy between two payloads that do not overlap. */
    method Copy(dst: nat, src: nat, len: nat)
      requires dst + len <= mem.Length && src + len <= mem.Length && (dst + len <= src || src + len <= dst)
      modifies mem
      ensures mem[..] == Copied(old(mem[..]), dst, src, len)
    {
      ghost var m0 := mem[..];
      for k := 0 to len
        invariant mem[..] == Copied(m0, dst, src, k)
      {
        CopiedNext(m0, dst, src, k);
        assert mem[..][src + k] == m0[src + k];
        mem[dst + k] := mem[src + k];
      }
    }

    /**
     rt_memheap_realloc: what the specification of the code says, unless the call overruns; then
     the block links and marks it leaves are those of no sequence of blocks. A call that does not
     overrun keeps every byte of the other blocks, and the first bytes of its own, wherever it
     puts them.
     */
    method Realloc(ptr: Option<nat>, size: nat) returns (r: Option<nat>)
      requires Valid() && size < SIZE_LIMIT && (ptr.Some? ==> Live(bs, ptr.value, g))
      modifies this, mem
      ensures if Overruns(old(Model()), ptr, size, g)
              then r == ptr && Broken()
              else && Valid() && (Model(), r) == ReallocCode(old(Model()), ptr, size, g)
                   && Kept(old(mem[..]), mem[..], UsedSet(old(bs)) * UsedSet(bs), g)
                   && (ptr.Some? && r.Some? ==>
                         Carried(old(mem[..]), mem[..], ptr.value, r.value,
                                 Min(Room(old(bs), ptr.value, g), Request(size, g))))
    {
      hide Valid, Granted, ResizeBy, AllocSpec, FreeSpec, Live, CodeGrows, Broken, Kept, UsedSet, Carried;
      ghost var m0, us := mem[..], UsedSet(bs);
      if size == 0 {
        Free(ptr);
        KeptFewer(m0, mem[..], UsedSet(bs), us, g);
        assert UsedSet(bs) * us == us * UsedSet(bs);
        return None;
      }
      RequestAgain(size, g);
      AlignUpCovers(size);
      var n := AlignUp(size);
      if n < MINI { n := MINI; }
      if ptr.None? {
        r := Alloc(n);
        KeptFewer(m0, mem[..], us, UsedSet(bs), g);
      } else {
        r := Resize(ptr.value, n);
      }
    }
  }

  /** At first no header meets a payload in use. */
  lemma StartKeeps(h: Heap, g: Area, mem: seq<byte>)
    requires Sound(h, g)
    ensures Spots(UsedSet(h.bs), Nodes(h.bs, g), g) && Spots(UsedSet(h.bs), [HEAD] + h.fl, g)
    ensures Kept(mem, mem, UsedSet(h.bs), g)
  {
    hide Spots, Kept;
    NodeSpots(h.bs, g);
    ListedSpots(h, g, UsedSet(h.bs));
    KeptSelf(mem, UsedSet(h.bs), g);
  }

  /** The release of block `i`: its header meets no payload that stays in use. */
  lemma ReleaseSpots(h: Heap, g: Area, i: nat, us: set<Block>, mem: seq<byte>)
    requires Sound(h, g) && i < |h.bs| && h.bs[i].used && us == UsedSet(Freed(h.bs, i))
    ensures Spots(us, Nodes(h.bs, g), g) && Spots(us, [HEAD] + h.fl, g) && Kept(mem, mem, us, g)
    ensures Spot(us, h.bs[i].addr, g)
  {
    hide Spot, Kept, Freed, UsedSet, Tiled, NoFreePair, Aligned, FreePayload, FreeAddrs, Distinct;
    var off := h.bs[i := h.bs[i].(used := false)];
    MarkTiled(h.bs, g, i, false);
    NodeSpots(off, g);
    assert Nodes(off, g) == Nodes(h.bs, g);
    FreedUses(h.bs, g, i, off);
    assert Nodes(off, g)[i] == h.bs[i].addr;
    ListedSpots(h, g, us);
    KeptSelf(mem, us, g);
  }

  /** The growth puts its header into the free block that follows. */
  lemma GrowSpot(h: Heap, g: Area, a: int, i: nat, n: nat)
    requires Sound(h, g) && i + 1 < |h.bs| && h.bs[i].addr == a && !h.bs[i + 1].used && h.bs[i].Payload(g) < n
    ensures MergeAt(h.bs, i)[i].Payload(g) >= n + g.hd ==> Spot(UsedSet(h.bs), a + g.hd + n, g)
  {
    hide Spot, UsedSet;
    assert Link(h.bs, i);
    if MergeAt(h.bs, i)[i].Payload(g) >= n + g.hd { InsideSpot(h.bs, g, i + 1, a + g.hd + n); }
  }

  lemma ShrinkSpots(h: Heap, g: Area, i: nat, n: nat, us: set<Block>, mem: seq<byte>)
    requires Sound(h, g) && i < |h.bs| && h.bs[i].used && n + g.hd + g.min < h.bs[i].Payload(g)
    requires us == UsedSet(Shrunk(h.bs, i, n, g))
    ensures Spots(us, Nodes(h.bs, g), g) && Spots(us, [HEAD] + h.fl, g) && Kept(mem, mem, us, g)
    ensures Spot(us, h.bs[i].addr + g.hd + n, g)
  {
    hide Spot, Kept, Shrunk, UsedSet, Tiled, NoFreePair, Aligned, FreePayload, FreeAddrs, Distinct;
    var ss, r := Split(h.bs, i, n, g), Nodes(h.bs, g);
    SplitTiled(h.bs, g, i, n);
    NodeSpots(ss, g);
    var m := h.bs[i].addr + g.hd + n;
    assert Nodes(ss, g) == r[..i + 1] + [m] + r[i + 1..];
    assert forall a :: a in r ==> a in Nodes(ss, g);
    assert m in Nodes(ss, g);
    ShrunkUses(h.bs, g, i, n);
    ListedSpots(h, g, us);
    KeptSelf(mem, us, g);
  }

  lemma FreedUses(bs: seq<Block>, g: Area, i: nat, off: seq<Block>)
    requires WellFormed(bs, g) && i < |bs| && bs[i].used && off == bs[i := bs[i].(used := false)]
    ensures UsedSet(Freed(bs, i)) == UsedSet(off)
  {
    hide UsedSet, Freed, Tiled, UsedBytes;
    FreedMeaning(bs, g, i);
    assert bs == bs[i := bs[i].(used := true)];
    MarkUsed(bs, g, i, bs, off);
  }

  lemma ShrunkUses(bs: seq<Block>, g: Area, i: nat, n: nat)
    requires WellFormed(bs, g) && i < |bs| && bs[i].used && n + g.hd <= bs[i].Payload(g)
    ensures UsedSet(Shrunk(bs, i, n, g)) == UsedSet(Split(bs, i, n, g))
  {
    hide UsedSet, Shrunk, Split, Tiled, UsedBytes;
    var off := bs[i := bs[i].(used := false)];
    ShrunkMeaning(bs, g, i, n);
    assert bs == bs[i := bs[i].(used := true)];
    MarkUsed(bs, g, i, bs, off);
    SplitUsed(bs, i, n, g, off);
  }

  /** Growth in place keeps the bytes of every block, its own included. */
  lemma GrownKeeps(h: Heap, h1: Heap, g: Area, ptr: nat, n: nat, m0: seq<byte>, m1: seq<byte>)
    requires Sound(h, g) && Live(h.bs, ptr, g) && n > Room(h.bs, ptr, g) && |m0| >= g.end
    requires Kept(m0, m1, UsedSet(h.bs), g)
    ensures Kept(m0, m1, UsedSet(h.bs) * UsedSet(h1.bs), g)
    ensures Carried(m0, m1, ptr, ptr, Min(Room(h.bs, ptr, g), n))
  {
    hide Kept, UsedSet, Live, BlockAt, Tiled, Aligned, FreePayload, FreeAddrs, NoFreePair, Distinct;
    KeptLength(m0, m1, UsedSet(h.bs), g);
    LiveWithin(h.bs, g, ptr);
    KeptFewer(m0, m1, UsedSet(h.bs), UsedSet(h1.bs), g);
    KeptBlock(m0, m1, UsedSet(h.bs), BlockAt(h.bs, ptr, g), Room(h.bs, ptr, g), g);
  }

  lemma StaysCarried(h: Heap, g: Area, ptr: nat, n: nat, m: seq<byte>)
    requires Sound(h, g) && Live(h.bs, ptr, g) && |m| >= g.end
    ensures Kept(m, m, UsedSet(h.bs) * UsedSet(h.bs), g)
    ensures Carried(m, m, ptr, ptr, Min(Room(h.bs, ptr, g), n))
  {
    hide Kept, UsedSet, Live, BlockAt, Tiled, Aligned, FreePayload, FreeAddrs, NoFreePair, Distinct;
    LiveWithin(h.bs, g, ptr);
    KeptSelf(m, UsedSet(h.bs) * UsedSet(h.bs), g);
  }

  /** Shrinking in place keeps the bytes of the other blocks and those that its own still has. */
  lemma ShrunkKeeps(h: Heap, h1: Heap, g: Area, ptr: nat, n: nat, m0: seq<byte>, m1: seq<byte>)
    requires Sound(h, g) && Live(h.bs, ptr, g) && n % ALIGN == 0 && n + g.hd + g.min < Room(h.bs, ptr, g)
    requires h1 == ShrunkHeap(h, IndexAt(h.bs, ptr - g.hd), n, g) && |m0| >= g.end
    requires Kept(m0, m1, UsedSet(h1.bs), g)
    ensures Kept(m0, m1, UsedSet(h.bs) * UsedSet(h1.bs), g)
    ensures Carried(m0, m1, ptr, ptr, Min(Room(h.bs, ptr, g), n))
  {
    hide Kept, UsedSet, Live, BlockAt, Tiled, Aligned, FreePayload, FreeAddrs, NoFreePair, Distinct, ShrunkHeap;
    KeptLength(m0, m1, UsedSet(h1.bs), g);
    LiveWithin(h.bs, g, ptr);
    ShrinkMeaning(h, g, ptr, n);
    KeptFewer(m0, m1, UsedSet(h1.bs), UsedSet(h.bs), g);
    assert UsedSet(h.bs) * UsedSet(h1.bs) == UsedSet(h1.bs) * UsedSet(h.bs);
    var b := BlockAt(h.bs, ptr, g).(next := ptr + n);
    KeptBlock(m0, m1, UsedSet(h1.bs), b, n, g);
  }

  /** The blocks involved in a move from `ptr` to `q`: old block `b`, new block `c`. */
  lemma MoveFacts(h: Heap, h1: Heap, g: Area, ptr: nat, n: nat, q: nat, top: int)
    returns (us: set<Block>, vs: set<Block>, b: Block, c: Block)
    requires Sound(h, g) && Live(h.bs, ptr, g) && n < SIZE_LIMIT && Request(n, g) == n
    requires AllocSpec(h, n, g) == (h1, Some(q)) && top >= g.end
    ensures us == UsedSet(h.bs) && vs == UsedSet(FreeSpec(h1, Some(ptr), g).bs)
    ensures Live(h1.bs, ptr, g) && b.addr + g.hd == ptr && c.addr + g.hd == q
    ensures GivesWay(us, vs, b, c, Min(Room(h.bs, ptr, g), n), top, g)
  {
    hide Aligned, NoFreePair, IndexAt, Link, AllocSpec, FreeSpec, Request, FreePayload, FreeAddrs, Distinct, Elems;
    AllocMeaning(h, g, n);
    MoveMeaning(h, g, ptr, n);
    LiveWithin(h.bs, g, ptr);
    LiveWithin(h1.bs, g, q);
    b, c := BlockAt(h.bs, ptr, g), BlockAt(h1.bs, q, g);
    us, vs := UsedSet(h.bs), UsedSet(FreeSpec(h1, Some(ptr), g).bs);
    ApartFromAll(h1.bs, g, c);
    FreeMeaning(h1, g, ptr);
    assert UsedSet(h1.bs) == us + {c};
    assert us + {c} - {b} == us - {b} + {c};
  }

  /** When the code grows a block in place, and when it overruns. */
  lemma GrowsWhen(h: Heap, ptr: nat, n: nat, g: Area)
    requires Sound(h, g) && Live(h.bs, ptr, g) && n > 0 && Request(n, g) == n
    ensures var i := IndexAt(h.bs, ptr - g.hd);
            && (CodeGrows(h.bs, i, n, g) ==> i + 1 < |h.bs|)
            && (Overruns(h, Some(ptr), n, g) <==>
                  n > h.bs[i].Payload(g) && CodeGrows(h.bs, i, n, g) && n > h.bs[i].Payload(g) + h.bs[i + 1].Payload(g))
  {
    hide Request;
  }

  /** How the growth goes, in the two steps of the source: merge, then cut. */
  lemma GrowPlan(h: Heap, g: Area, ptr: nat, n: nat)
    requires Sound(h, g) && Live(h.bs, ptr, g) && n % ALIGN == 0
    requires var i := IndexAt(h.bs, ptr - g.hd); i + 1 < |h.bs| && !h.bs[i + 1].used && h.bs[i].Payload(g) < n
    ensures var i := IndexAt(h.bs, ptr - g.hd);
            var ms, x := MergeAt(h.bs, i), h.bs[i + 1].addr;
            && h.bs[i + 1].addr in h.fl && h.bs[i].addr == ptr - g.hd
            && i < |ms| && ms[i].addr == h.bs[i].addr && ms[i].used
            && (ms[i].Payload(g) >= n + g.hd <==> n <= h.bs[i].Payload(g) + h.bs[i + 1].Payload(g))
    ensures var i := IndexAt(h.bs, ptr - g.hd);
            var rest := Without(h.fl, h.bs[i + 1].addr);
            n <= h.bs[i].Payload(g) + h.bs[i + 1].Payload(g) ==>
              && ptr + n !in [HEAD] + rest && Sound(GrownHeap(h, i, n, g), g)
              && GrownHeap(h, i, n, g).bs == Split(MergeAt(h.bs, i), i, n, g)
                 && GrownHeap(h, i, n, g).fl == [ptr + n] + rest
              && FreePayload(GrownHeap(h, i, n, g).bs, g) == FreePayload(h.bs, g) - (n - h.bs[i].Payload(g))
              && GrownHeap(h, i, n, g).max == Max(h.max, PoolSize(g) - FreePayload(GrownHeap(h, i, n, g).bs, g))
  {
    hide FreePayload, FreeAddrs, NoFreePair, Aligned, Distinct, Without, Elems, Split, UsedSet, IndexAt, Tiled;
    var i := IndexAt(h.bs, ptr - g.hd);
    LiveAt(h.bs, ptr, g);
    FreeFacts(h, g, i);
    MergedAt(h.bs, g, i);
    if n <= h.bs[i].Payload(g) + h.bs[i + 1].Payload(g) {
      GrowMeaning(h, g, ptr, n);
      GrowFacts(h, g, i, n);
    }
  }

  lemma MergedAt(bs: seq<Block>, g: Area, i: nat)
    requires Tiled(bs, g) && i + 1 < |bs|
    ensures var ms := MergeAt(bs, i);
            && i < |ms| && ms[i] == Block(bs[i].addr, bs[i + 1].next, bs[i].used)
            && ms[i].Payload(g) == bs[i].Payload(g) + bs[i + 1].Payload(g) + g.hd && ms[i].next <= g.end
  {
    assert Link(bs, i);
    WithinEnd(bs, g, i + 1);
  }

  lemma SplitAt(bs: seq<Block>, i: nat, n: nat, g: Area)
    requires i < |bs|
    ensures Split(bs, i, n, g)[i + 1].addr == bs[i].addr + g.hd + n
  {
  }

  lemma ListHead(free: Links, fl: seq<int>)
    requires Ring(free, [HEAD] + fl)
    ensures HEAD in free.next
  {
    RingHas(free, [HEAD] + fl, 0);
  }

  lemma GrowFacts(h: Heap, g: Area, i: nat, n: nat)
    requires Sound(h, g) && i + 1 < |h.bs| && h.bs[i].used && !h.bs[i + 1].used
    requires h.bs[i].Payload(g) < n <= h.bs[i].Payload(g) + h.bs[i + 1].Payload(g)
    ensures h.bs[i + 1].addr in h.fl
    ensures var ms, m := MergeAt(h.bs, i), h.bs[i].addr + g.hd + n;
            && i < |ms| && ms[i] == Block(h.bs[i].addr, h.bs[i + 1].next, true) && ms[i].Payload(g) >= n + g.hd
            && m !in [HEAD] + Without(h.fl, h.bs[i + 1].addr)
  {
    var x, m := h.bs[i + 1].addr, h.bs[i].addr + g.hd + n;
    FreeFacts(h, g, i);
    assert Link(h.bs, i);
    WithoutMeaning(h.fl, x);
    assert m in Without(h.fl, x) <==> m in Elems(Without(h.fl, x));
    if m != x { InsideNoneAt(h.bs, g, i + 1, m); }
  }

  lemma ShrinkFacts(h: Heap, g: Area, i: nat, n: nat)
    requires Sound(h, g) && i < |h.bs| && h.bs[i].used && n + g.hd + g.min < h.bs[i].Payload(g)
    ensures var ss, m := Split(h.bs, i, n, g), h.bs[i].addr + g.hd + n;
            var right := i + 1 < |h.bs| && !h.bs[i + 1].used;
            && |ss| == |h.bs| + 1 && ss[i] == Block(h.bs[i].addr, m, true) && ss[i + 1] == Block(m, h.bs[i].next, false)
            && (i + 1 < |h.bs| ==> ss[i + 2] == h.bs[i + 1] && h.bs[i + 1].addr == h.bs[i].next)
            && Shrunk(h.bs, i, n, g) == (if right then MergeAt(ss, i + 1) else ss)
            && i + 1 < |Shrunk(h.bs, i, n, g)|
            && Shrunk(h.bs, i, n, g)[i + 1] == Block(m, if right then h.bs[i + 1].next else h.bs[i].next, false)
            && (right ==> h.bs[i + 1].addr in h.fl) && m !in [HEAD] + h.fl
    ensures var right := i + 1 < |h.bs| && !h.bs[i + 1].used;
            FreePayload(Shrunk(h.bs, i, n, g), g) ==
                FreePayload(h.bs, g) + h.bs[i].Payload(g) - n - (if right then 0 else g.hd)
  {
    hide FreePayload, FreeAddrs, Aligned, Distinct, NoFreePair;
    ShrunkFree(h.bs, g, i, n);
    FreeFacts(h, g, i);
    NewNotListed(h, g, i, h.bs[i].addr + g.hd + n);
    if i + 1 < |h.bs| { assert Link(h.bs, i); }
  }

  /** How the shrinking goes, in the two steps of the source: cut, then merge the rest. */
  lemma ShrinkPlan(h: Heap, g: Area, a: int, n: nat)
    requires Sound(h, g) && Live(h.bs, a + g.hd, g) && n % ALIGN == 0
    requires n + g.hd + g.min < BlockAt(h.bs, a + g.hd, g).Payload(g)
    ensures var i := IndexAt(h.bs, a);
            var ss, right := Split(h.bs, i, n, g), i + 1 < |h.bs| && !h.bs[i + 1].used;
            && i < |h.bs| && h.bs[i].addr == a && h.bs[i].used && n + g.hd + g.min < h.bs[i].Payload(g)
            && i + 1 < |ss| && (i + 2 < |ss| && !ss[i + 2].used <==> right)
            && (right ==> ss[i + 2] == h.bs[i + 1] && h.bs[i + 1].addr in h.fl)
    ensures var i := IndexAt(h.bs, a);
            var right, m, h2 := i + 1 < |h.bs| && !h.bs[i + 1].used, a + g.hd + n, ShrunkHeap(h, i, n, g);
            && h2 == Heap(if right then MergeAt(Split(h.bs, i, n, g), i + 1) else Split(h.bs, i, n, g),
                           [m] + if right then Without(h.fl, h.bs[i + 1].addr) else h.fl, h.max)
            && h2.bs == Shrunk(h.bs, i, n, g) && Sound(h2, g)
            && i + 1 < |h2.bs| && h2.bs[i + 1].addr == m
            && m !in [HEAD] + (if right then Without(h.fl, h.bs[i + 1].addr) else h.fl)
            && FreePayload(h2.bs, g) == FreePayload(h.bs, g) + h2.bs[i + 1].Payload(g)
                                         - if right then h.bs[i + 1].Payload(g) else 0
  {
    hide Shrunk, Aligned, FreePayload, FreeAddrs, NoFreePair, Distinct, Tiled, Without, Elems, MergeAt, Split, UsedSet;
    var i := IndexAt(h.bs, a);
    ShrinkMeaning(h, g, a + g.hd, n);
    ShrinkFacts(h, g, i, n);
    NotBack(h.fl, Without(h.fl, AddrAt(h.bs, g, i + 1)), a + g.hd + n);
  }

  lemma FreeNone(h: Heap, g: Area)
    ensures FreeSpec(h, None, g) == h
  {
  }

  /** How the release goes, in the steps of the source: merge left, merge right, then enter the free list. */
  lemma FreePlan(h: Heap, g: Area, ptr: nat)
    requires Sound(h, g) && Live(h.bs, ptr, g)
    ensures var i := IndexAt(h.bs, ptr - g.hd);
            && i < |h.bs| && h.bs[i].addr == ptr - g.hd && h.bs[i].used
            && h.bs[i].addr !in [HEAD] + h.fl && Sound(FreeSpec(h, Some(ptr), g), g)
    ensures var i := IndexAt(h.bs, ptr - g.hd);
            var off := h.bs[i := h.bs[i].(used := false)];
            var (ls, j) := LeftMerged(off, i);
            var right := FreeAfter(ls, j);
            var fl1 := if right then Without(h.fl, ls[j + 1].addr) else h.fl;
            && j < |ls| && ls[j].addr == off[j].addr && (right ==> ls[j + 1].addr in h.fl)
            && FreeSpec(h, Some(ptr), g) ==
               Heap(if right then MergeAt(ls, j) else ls, if j < i then fl1 else [h.bs[i].addr] + fl1, h.max)
            && FreeSpec(h, Some(ptr), g).bs == Freed(h.bs, i)
            && FreePayload(Freed(h.bs, i), g) ==
               FreePayload(h.bs, g) + h.bs[i].Payload(g) + (if right then g.hd else 0) + (if j < i then g.hd else 0)
  {
    hide IndexAt, BlockAt, FreedList, Aligned, FreePayload, FreeAddrs, NoFreePair, Distinct, Tiled, Without, Elems,
      MergeAt, Freed, UsedSet;
    var i := IndexAt(h.bs, ptr - g.hd);
    LiveAt(h.bs, ptr, g);
    FreeMeaning(h, g, ptr);
    FreedPayload(h.bs, g, i);
    FreeFacts(h, g, i);
    FreedSteps(h.bs, i);
    FreedListIs(h.bs, h.fl, i);
  }

  lemma NotBack(was: seq<int>, fl: seq<int>, h: int)
    requires h !in [HEAD] + was && (fl == was || exists x :: fl == Without(was, x))
    ensures h !in [HEAD] + fl
  {
  }

  /** The release steps of the source, left merge first, make the block sequence of the specification. */
  lemma FreedSteps(bs: seq<Block>, i: nat)
    requires i < |bs|
    ensures var off := bs[i := bs[i].(used := false)];
            var right, left := i + 1 < |bs| && !bs[i + 1].used, i > 0 && !bs[i - 1].used;
            var ls := if left then MergeAt(off, i - 1) else off;
            var j := if left then i - 1 else i;
            && j < |ls| && ls[j].addr == bs[j].addr && (j + 1 < |ls| && !ls[j + 1].used <==> right)
            && (right ==> ls[j + 1] == bs[i + 1])
            && Freed(bs, i) == if right then MergeAt(ls, j) else ls
  {
    var off := bs[i := bs[i].(used := false)];
    if i > 0 && !bs[i - 1].used && i + 1 < |bs| && !bs[i + 1].used { MergesCommute(off, i); }
  }

  lemma FreeFacts(h: Heap, g: Area, i: nat)
    requires Sound(h, g) && i < |h.bs| && h.bs[i].used
    ensures h.bs[i].addr !in [HEAD] + h.fl
    ensures i + 1 < |h.bs| && !h.bs[i + 1].used ==> h.bs[i + 1].addr in h.fl
  {
    AddrFreeOnce(h.bs, g, i);
    if i + 1 < |h.bs| { AddrFreeOnce(h.bs, g, i + 1); }
    assert h.bs[i].addr in h.fl <==> h.bs[i].addr in Elems(h.fl);
    if i + 1 < |h.bs| { assert h.bs[i + 1].addr in h.fl <==> h.bs[i + 1].addr in Elems(h.fl); }
  }

  /** A header inside a block is not on the free list. */
  lemma NewNotListed(h: Heap, g: Area, i: nat, m: int)
    requires Sound(h, g) && i < |h.bs| && h.bs[i].addr < m < h.bs[i].next
    ensures m !in [HEAD] + h.fl
  {
    InsideNoneAt(h.bs, g, i, m);
    assert m in h.fl <==> m in Elems(h.fl);
  }

  lemma WholePool(g: Area, list: Links)
    requires g.hd == HDR <= g.end && g.end % ALIGN == 0
    requires list == Init(Init(Links(map[], map[]), HEAD), 0)
    ensures Ring(Splice(list, HEAD, 0), [HEAD] + [0])
    ensures FreePayload([Block(0, g.end, false)], g) == g.end - HDR
    ensures Sound(Heap([Block(0, g.end, false)], [0], 2 * HDR), g)
    ensures Ring(Links(map[0 := g.end, g.end := 0], map[0 := g.end, g.end := 0]), [0, g.end])
  {
    var bs, r := [Block(0, g.end, false)], [0, g.end];
    FreeOfOne(bs[0], g);
    RingInit(Links(map[], map[]), HEAD);
    RingFrame(Init(Links(map[], map[]), HEAD), list, [HEAD]);
    ListPush(list, [], 0);
    assert [HEAD] + ([0] + []) == [HEAD] + [0];
    var s := Links(map[0 := g.end, g.end := 0], map[0 := g.end, g.end := 0]);
    assert Chained(s, r, 0) && Chained(s, r, 1);
    assert Elems([0]) == {0};
  }

  lemma FirstListedIs(bs: seq<Block>, fl: seq<int>, n: nat, g: Area, k: nat)
    requires k <= |fl| && (k < |fl| ==> FitsAt(bs, fl[k], n, g)) && forall j :: 0 <= j < k ==> !FitsAt(bs, fl[j], n, g)
    ensures FirstListed(bs, fl, n, g) == k
  {
  }

  lemma FitsWhen(bs: seq<Block>, a: int, n: nat, g: Area)
    requires IndexAt(bs, a) < |bs| && !bs[IndexAt(bs, a)].used
    ensures FitsAt(bs, a, n, g) <==> bs[IndexAt(bs, a)].Payload(g) >= n
  {
  }

  /** The member of the free list after the one at `k`; the list head comes before the first and after the last. */
  lemma ListNext(free: Links, fl: seq<int>, k: int)
    requires Ring(free, [HEAD] + fl) && -1 <= k < |fl|
    ensures var a := if k == -1 then HEAD else fl[k];
            a in free.next && free.next[a] == if k + 1 < |fl| then fl[k + 1] else HEAD
  {
    RingHas(free, [HEAD] + fl, k + 1);
  }

  /** A member of the free list is the header of a free block. */
  lemma ListMember(h: Heap, g: Area, k: nat)
    requires Sound(h, g) && k < |h.fl|
    ensures var i := IndexAt(h.bs, h.fl[k]); i < |h.bs| && !h.bs[i].used && h.bs[i].addr == h.fl[k]
  {
    assert h.fl[k] in h.fl;
    ListedIffFree(h, g, h.fl[k]);
  }
}
