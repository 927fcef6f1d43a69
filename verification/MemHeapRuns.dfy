/**
 The memory heap of rt-thread/src/memheap.c as two sequences over the same blocks: the blocks in
 address order, and the addresses of the free ones in the order of the free list. What an
 allocation, a release and a resize do to both, and what every run keeps.
 */
module MemHeapRuns {
  import opened Common
  import opened Blocks
  import opened RtList

  datatype Heap = Heap(bs: seq<Block>, fl: seq<int>, max: int)

  // ----- The free blocks

  /** available_size: the payload bytes of the free blocks. */
  function FreePayload(bs: seq<Block>, g: Area): int {
    if bs == [] then 0 else (if bs[0].used then 0 else bs[0].Payload(g)) + FreePayload(bs[1..], g)
  }

  function UsedPayload(bs: seq<Block>, g: Area): int {
    if bs == [] then 0 else (if bs[0].used then bs[0].Payload(g) else 0) + UsedPayload(bs[1..], g)
  }

  ghost function FreeAddrs(bs: seq<Block>): set<int> {
    set b | b in bs && !b.used :: b.addr
  }

  lemma {:induction false} FreePayloadConcat(bs: seq<Block>, cs: seq<Block>, g: Area)
    ensures FreePayload(bs + cs, g) == FreePayload(bs, g) + FreePayload(cs, g)
  {
    if bs == [] {
      assert bs + cs == cs;
    } else {
      FreePayloadConcat(bs[1..], cs, g);
      assert (bs + cs)[1..] == bs[1..] + cs;
    }
  }

  lemma FreeAddrsConcat(bs: seq<Block>, cs: seq<Block>)
    ensures FreeAddrs(bs + cs) == FreeAddrs(bs) + FreeAddrs(cs)
  {
    forall a ensures a in FreeAddrs(bs + cs) <==> a in FreeAddrs(bs) || a in FreeAddrs(cs) {
      if a in FreeAddrs(bs) {
        var b :| b in bs && !b.used && b.addr == a;
        assert b in bs + cs;
      }
      if a in FreeAddrs(cs) {
        var b :| b in cs && !b.used && b.addr == a;
        assert b in bs + cs;
      }
    }
  }

  /** An address within block `i` is the address of no other block. */
  lemma NoOtherAt(bs: seq<Block>, g: Area, i: nat, a: int, part: seq<Block>)
    requires Tiled(bs, g) && i < |bs| && bs[i].addr <= a < bs[i].next
    requires forall b :: b in part ==> exists j :: 0 <= j < |bs| && j != i && bs[j] == b
    ensures a !in FreeAddrs(part)
  {
    if a in FreeAddrs(part) {
      var b :| b in part && b.addr == a;
      var j :| 0 <= j < |bs| && j != i && bs[j] == b;
      if i < j { Ordered(bs, g, i, j); } else { Ordered(bs, g, j, i); }
      assert false;
    }
  }

  /** What replacing the blocks from `lo` to `hi` by `y` does to the free payload. */
  lemma PatchedPayload(bs: seq<Block>, g: Area, lo: nat, hi: nat, y: seq<Block>)
    requires lo <= hi <= |bs|
    ensures FreePayload(bs[..lo] + y + bs[hi..], g) ==
            FreePayload(bs, g) - FreePayload(bs[lo..hi], g) + FreePayload(y, g)
  {
    var pre, x, post := bs[..lo], bs[lo..hi], bs[hi..];
    assert bs == pre + x + post;
    FreePayloadConcat(pre + x, post, g);
    FreePayloadConcat(pre, x, g);
    FreePayloadConcat(pre + y, post, g);
    FreePayloadConcat(pre, y, g);
  }

  /** ... and to the addresses of the free blocks. */
  lemma PatchedAddrs(bs: seq<Block>, g: Area, lo: nat, hi: nat, y: seq<Block>)
    requires Tiled(bs, g) && lo <= hi <= |bs|
    ensures FreeAddrs(bs[..lo] + y + bs[hi..]) == FreeAddrs(bs) - FreeAddrs(bs[lo..hi]) + FreeAddrs(y)
  {
    hide FreeAddrs, Tiled;
    var pre, x, post := bs[..lo], bs[lo..hi], bs[hi..];
    assert bs == pre + x + post;
    FreeAddrsConcat(pre + x, post);
    FreeAddrsConcat(pre, x);
    FreeAddrsConcat(pre + y, post);
    FreeAddrsConcat(pre, y);
    OthersApart(bs, g, lo, hi);
  }

  lemma OthersApart(bs: seq<Block>, g: Area, lo: nat, hi: nat)
    requires Tiled(bs, g) && lo <= hi <= |bs|
    ensures FreeAddrs(bs[lo..hi]) !! FreeAddrs(bs[..lo]) && FreeAddrs(bs[lo..hi]) !! FreeAddrs(bs[hi..])
  {
    forall a | a in FreeAddrs(bs[lo..hi]) ensures a !in FreeAddrs(bs[..lo]) && a !in FreeAddrs(bs[hi..]) {
      var b :| b in bs[lo..hi] && b.addr == a;
      var j :| lo <= j < hi && bs[j] == b;
      NoOtherAt(bs, g, j, a, bs[..lo]);
      NoOtherAt(bs, g, j, a, bs[hi..]);
    }
  }

  lemma InsideNoneAt(bs: seq<Block>, g: Area, i: nat, a: int)
    requires Tiled(bs, g) && i < |bs| && bs[i].addr < a < bs[i].next
    ensures a !in FreeAddrs(bs)
  {
    if a in FreeAddrs(bs) {
      var b :| b in bs && b.addr == a;
      var j :| 0 <= j < |bs| && bs[j] == b;
      OneBlock(bs, g, i, j);
      assert false;
    }
  }

  lemma FreeOfOne(b: Block, g: Area)
    ensures FreeAddrs([b]) == if b.used then {} else {b.addr}
    ensures FreePayload([b], g) == if b.used then 0 else b.Payload(g)
  {
    assert b in [b];
    assert [b][1..] == [];
  }

  lemma FreeOfTwo(b: Block, c: Block, g: Area)
    ensures FreeAddrs([b, c]) == FreeAddrs([b]) + FreeAddrs([c])
    ensures FreePayload([b, c], g) == FreePayload([b], g) + FreePayload([c], g)
  {
    assert [b, c] == [b] + [c];
    FreeAddrsConcat([b], [c]);
    FreePayloadConcat([b], [c], g);
  }

  lemma MarkFreeMeaning(bs: seq<Block>, g: Area, i: nat, u: bool)
    requires Tiled(bs, g) && i < |bs| && bs[i].used != u
    ensures var cs := bs[i := bs[i].(used := u)];
            && FreePayload(cs, g) == FreePayload(bs, g) + (if u then -bs[i].Payload(g) else bs[i].Payload(g))
            && FreeAddrs(cs) == if u then FreeAddrs(bs) - {bs[i].addr} else FreeAddrs(bs) + {bs[i].addr}
    ensures bs[i].addr in FreeAddrs(bs) <==> u
  {
    hide FreePayload, Tiled;
    var b := bs[i].(used := u);
    assert bs[i := b] == bs[..i] + [b] + bs[i + 1..] && bs[i..i + 1] == [bs[i]];
    PatchedPayload(bs, g, i, i + 1, [b]);
    PatchedAddrs(bs, g, i, i + 1, [b]);
    FreeOfOne(b, g);
    FreeOfOne(bs[i], g);
    if u { assert bs[i] in bs; } else { AddrFreeOnce(bs, g, i); }
  }

  lemma AddrFreeOnce(bs: seq<Block>, g: Area, i: nat)
    requires Tiled(bs, g) && i < |bs|
    ensures bs[i].addr in FreeAddrs(bs) <==> !bs[i].used
  {
    if bs[i].addr in FreeAddrs(bs) {
      var b :| b in bs && !b.used && b.addr == bs[i].addr;
      var j :| 0 <= j < |bs| && bs[j] == b;
      OneBlock(bs, g, i, j);
    }
    if !bs[i].used { assert bs[i] in bs; }
  }

  lemma MergeFreeMeaning(bs: seq<Block>, g: Area, i: nat)
    requires Tiled(bs, g) && i + 1 < |bs| && !bs[i].used && !bs[i + 1].used
    ensures FreePayload(MergeAt(bs, i), g) == FreePayload(bs, g) + g.hd
    ensures FreeAddrs(MergeAt(bs, i)) == FreeAddrs(bs) - {bs[i + 1].addr}
    ensures bs[i + 1].addr in FreeAddrs(bs)
  {
    hide FreePayload;
    var one := [MergeAt(bs, i)[i]];
    assert Link(bs, i);
    assert MergeAt(bs, i) == bs[..i] + one + bs[i + 2..] && bs[i..i + 2] == [bs[i], bs[i + 1]];
    PatchedPayload(bs, g, i, i + 2, one);
    PatchedAddrs(bs, g, i, i + 2, one);
    FreeOfOne(one[0], g);
    FreeOfOne(bs[i], g);
    FreeOfOne(bs[i + 1], g);
    FreeOfTwo(bs[i], bs[i + 1], g);
    assert bs[i] in bs && bs[i + 1] in bs;
  }

  lemma SplitFreeMeaning(bs: seq<Block>, g: Area, i: nat, n: nat)
    requires Tiled(bs, g) && i < |bs| && bs[i].Payload(g) >= n + g.hd
    ensures FreePayload(Split(bs, i, n, g), g)
         == FreePayload(bs, g) + bs[i].Payload(g) - n - g.hd - (if bs[i].used then 0 else bs[i].Payload(g))
    ensures FreeAddrs(Split(bs, i, n, g)) == FreeAddrs(bs) - {bs[i].addr} + {bs[i].addr + g.hd + n}
    ensures bs[i].addr + g.hd + n !in FreeAddrs(bs)
  {
    hide FreePayload, FreeAddrs, Tiled;
    InsideNoneAt(bs, g, i, bs[i].addr + g.hd + n);
    var two := [Split(bs, i, n, g)[i], Split(bs, i, n, g)[i + 1]];
    assert Split(bs, i, n, g) == bs[..i] + two + bs[i + 1..] && bs[i..i + 1] == [bs[i]];
    PatchedPayload(bs, g, i, i + 1, two);
    PatchedAddrs(bs, g, i, i + 1, two);
    FreeOfOne(two[0], g);
    FreeOfOne(two[1], g);
    FreeOfOne(bs[i], g);
    FreeOfTwo(two[0], two[1], g);
    AddrFreeOnce(bs, g, i);
  }

  lemma {:induction false} Accounting(bs: seq<Block>, g: Area, n: nat)
    requires Tiled(bs, g) && n <= |bs|
    ensures FreePayload(bs[n..], g) + UsedPayload(bs[n..], g) + g.hd * (|bs| - n) == g.end - AddrAt(bs, g, n)
    decreases |bs| - n
  {
    if n < |bs| {
      assert n + 1 < |bs| ==> Link(bs, n);
      Accounting(bs, g, n + 1);
      assert bs[n..][1..] == bs[n + 1..];
      assert g.hd * (|bs| - n) == g.hd * (|bs| - (n + 1)) + g.hd;
    }
  }

  lemma CoalescedFree(bs: seq<Block>, g: Area, i: nat)
    requires Tiled(bs, g) && i < |bs| && !bs[i].used
    ensures var right, left := i + 1 < |bs| && !bs[i + 1].used, i > 0 && !bs[i - 1].used;
            && FreePayload(Coalesced(bs, i), g)
            == FreePayload(bs, g) + (if right then g.hd else 0) + (if left then g.hd else 0)
            && FreeAddrs(Coalesced(bs, i))
            == FreeAddrs(bs) - (if right then {bs[i + 1].addr} else {}) - (if left then {bs[i].addr} else {})
  {
    hide FreePayload, FreeAddrs, Tiled;
    var fs := if i + 1 < |bs| && !bs[i + 1].used then MergeAt(bs, i) else bs;
    if i + 1 < |bs| && !bs[i + 1].used {
      MergeFreeMeaning(bs, g, i);
      MergeAtTiled(bs, g, i);
    }
    if i > 0 && !bs[i - 1].used {
      MergeFreeMeaning(fs, g, i - 1);
    }
  }

  // ----- The calls

  /** The invariant: the free list holds exactly the free blocks, once each. */
  ghost predicate Sound(h: Heap, g: Area) {
    && WellFormed(h.bs, g) && Aligned(h.bs)
    && Distinct(h.fl) && Elems(h.fl) == FreeAddrs(h.bs)
    && PoolSize(g) - FreePayload(h.bs, g) <= h.max
  }

  function PoolSize(g: Area): int { g.end + g.hd }

  predicate FitsAt(bs: seq<Block>, a: int, n: nat, g: Area) {
    var i := IndexAt(bs, a);
    i < |bs| && Fits(bs[i], n, g)
  }

  /** The search of rt_memheap_alloc: the first block of the free list with the room. */
  function FirstListed(bs: seq<Block>, fl: seq<int>, n: nat, g: Area, from: nat := 0): (k: nat)
    requires from <= |fl|
    ensures from <= k <= |fl| && (k < |fl| ==> FitsAt(bs, fl[k], n, g))
    ensures forall j :: from <= j < k ==> !FitsAt(bs, fl[j], n, g)
    decreases |fl| - from
  {
    if from == |fl| || FitsAt(bs, fl[from], n, g) then from else FirstListed(bs, fl, n, g, from + 1)
  }

  /** The heap once the block at `a` is taken off the free list and handed out. */
  function Granted(h: Heap, a: int, n: nat, g: Area): Heap
    requires IndexAt(h.bs, a) < |h.bs|
  {
    var i := IndexAt(h.bs, a);
    var bs, rest := Take(h.bs, i, n, g), Without(h.fl, a);
    var fl := if h.bs[i].Payload(g) >= n + g.hd + g.min then [a + g.hd + n] + rest else rest;
    Heap(bs, fl, Max(h.max, PoolSize(g) - FreePayload(bs, g)))
  }

  function AllocSpec(h: Heap, size: nat, g: Area): (Heap, Option<nat>) {
    var n := Request(size, g);
    var k := FirstListed(h.bs, h.fl, n, g);
    if n >= FreePayload(h.bs, g) || k == |h.fl| then (h, None)
    else (Granted(h, h.fl[k], n, g), Some(h.bs[IndexAt(h.bs, h.fl[k])].addr + g.hd))
  }

  /**
   The free list after a release: a right neighbour leaves it, and the block enters unless it
   joins its left neighbour.
   */
  function FreedList(bs: seq<Block>, fl: seq<int>, i: nat): seq<int>
    requires i < |bs|
  {
    var fl1 := if i + 1 < |bs| && !bs[i + 1].used then Without(fl, bs[i + 1].addr) else fl;
    if i > 0 && !bs[i - 1].used then fl1 else [bs[i].addr] + fl1
  }

  function FreeSpec(h: Heap, ptr: Option<nat>, g: Area): Heap {
    if ptr.None? || !Live(h.bs, ptr.value, g) then h
    else
      var i := IndexAt(h.bs, ptr.value - g.hd);
      Heap(Freed(h.bs, i), FreedList(h.bs, h.fl, i), h.max)
  }

  /** Block `i` grows into the free block after it. */
  function Grown(bs: seq<Block>, i: nat, n: nat, g: Area): seq<Block>
    requires i + 1 < |bs|
  {
    Split(MergeAt(bs, i), i, n, g)
  }

  function GrownHeap(h: Heap, i: nat, n: nat, g: Area): Heap
    requires i + 1 < |h.bs|
  {
    var bs := Grown(h.bs, i, n, g);
    Heap(bs, [h.bs[i].addr + g.hd + n] + Without(h.fl, h.bs[i + 1].addr), Max(h.max, PoolSize(g) - FreePayload(bs, g)))
  }

  function ShrunkHeap(h: Heap, i: nat, n: nat, g: Area): Heap
    requires i < |h.bs|
  {
    var rest := if i + 1 < |h.bs| && !h.bs[i + 1].used then Without(h.fl, h.bs[i + 1].addr) else h.fl;
    Heap(Shrunk(h.bs, i, n, g), [h.bs[i].addr + g.hd + n] + rest, h.max)
  }

  /** Is there room to grow block `i` to `n` bytes, with some to spare? */
  predicate CanGrow(bs: seq<Block>, i: nat, n: nat, g: Area)
    requires i < |bs|
  {
    i + 1 < |bs| && !bs[i + 1].used && bs[i + 1].Payload(g) + bs[i].Payload(g) > n + g.min
  }

  /** The resize, `grows` being the outcome of the test for growth in place. */
  function ResizeBy(h: Heap, ptr: nat, n: nat, g: Area, grows: bool): (Heap, Option<nat>)
    requires Live(h.bs, ptr, g) && (grows ==> IndexAt(h.bs, ptr - g.hd) + 1 < |h.bs|)
  {
    var i := IndexAt(h.bs, ptr - g.hd);
    var was := h.bs[i].Payload(g);
    if n > was then
      if grows then (GrownHeap(h, i, n, g), Some(ptr))
      else
        var (h', r) := AllocSpec(h, n, g);
        (if r.None? then h' else FreeSpec(h', Some(ptr), g), r)
    else if n + g.hd + g.min >= was then (h, Some(ptr))
    else (ShrunkHeap(h, i, n, g), Some(ptr))
  }

  function ResizeSpec(h: Heap, ptr: nat, n: nat, g: Area): (Heap, Option<nat>)
    requires Live(h.bs, ptr, g)
  {
    ResizeBy(h, ptr, n, g, CanGrow(h.bs, IndexAt(h.bs, ptr - g.hd), n, g))
  }

  function ReallocSpec(h: Heap, ptr: Option<nat>, size: nat, g: Area): (Heap, Option<nat>) {
    if size == 0 then (FreeSpec(h, ptr, g), None)
    else if ptr.None? || !Live(h.bs, ptr.value, g) then AllocSpec(h, Request(size, g), g)
    else ResizeSpec(h, ptr.value, Request(size, g), g)
  }

  // ----- What the calls keep

  lemma GrantedSound(h: Heap, a: int, n: nat, g: Area, i: nat)
    requires Sound(h, g) && i == IndexAt(h.bs, a) < |h.bs| && Fits(h.bs[i], n, g) && n % ALIGN == 0
    ensures Sound(Granted(h, a, n, g), g)
    ensures FreePayload(Granted(h, a, n, g).bs, g) == FreePayload(h.bs, g) -
              (if h.bs[i].Payload(g) >= n + g.hd + g.min then n + g.hd else h.bs[i].Payload(g))
  {
    hide FreePayload, FreeAddrs, Tiled, NoFreePair, Aligned, Elems, Distinct, Without;
    TakeMeaning(h.bs, g, i, n, Take(h.bs, i, n, g)[i]);
    TakeAligned(h.bs, i, n, g);
    WithoutMeaning(h.fl, a);
    if h.bs[i].Payload(g) >= n + g.hd + g.min {
      SplitFreeMeaning(h.bs, g, i, n);
      PushMeaning(Without(h.fl, a), a + g.hd + n);
    } else {
      MarkFreeMeaning(h.bs, g, i, true);
    }
  }

  lemma {:induction false} FreeAtMost(bs: seq<Block>, g: Area, n: nat, i: nat)
    requires Tiled(bs, g) && n <= |bs|
    ensures 0 <= FreePayload(bs[n..], g)
    ensures n <= i < |bs| && !bs[i].used ==> bs[i].Payload(g) <= FreePayload(bs[n..], g)
    decreases |bs| - n
  {
    if n < |bs| {
      FreeAtMost(bs, g, n + 1, i);
      assert bs[n..][1..] == bs[n + 1..];
    }
  }

  /** The free list names every free block. */
  lemma ListedIffFree(h: Heap, g: Area, a: int)
    requires Sound(h, g)
    ensures a in h.fl <==> exists b :: b in h.bs && !b.used && b.addr == a
    ensures a in h.fl ==> var i := IndexAt(h.bs, a); i < |h.bs| && !h.bs[i].used
  {
    assert a in h.fl <==> a in Elems(h.fl);
    if a in h.fl {
      var b :| b in h.bs && !b.used && b.addr == a;
      var j :| 0 <= j < |h.bs| && h.bs[j] == b;
      IndexAtUnique(h.bs, g, j);
    }
  }

  /**
   An allocation fails exactly when no free block has the requested payload or the request is
   not less than all the free payload, whatever the order of the free list.
   */
  lemma AllocFails(h: Heap, g: Area, size: nat)
    requires Sound(h, g)
    ensures AllocSpec(h, size, g).1.None? <==>
              || Request(size, g) >= FreePayload(h.bs, g)
              || forall b :: b in h.bs ==> !Fits(b, Request(size, g), g)
  {
    hide Tiled, NoFreePair, Aligned, FreePayload, FreeAddrs, Granted;
    var n := Request(size, g);
    var k := FirstListed(h.bs, h.fl, n, g);
    if k < |h.fl| {
      assert h.fl[k] in h.fl;
      ListedIffFree(h, g, h.fl[k]);
      assert h.bs[IndexAt(h.bs, h.fl[k])] in h.bs;
    } else {
      forall b | b in h.bs ensures !Fits(b, n, g) {
        if Fits(b, n, g) {
          ListedIffFree(h, g, b.addr);
          var j :| 0 <= j < |h.fl| && h.fl[j] == b.addr;
          var i :| 0 <= i < |h.bs| && h.bs[i] == b;
          IndexAtUnique(h.bs, g, i);
          assert false;
        }
      }
    }
  }

  /** The last free block cannot be handed out whole: the refusal although a block fits is exactly that case. */
  lemma AllocRefusesLastBlock(h: Heap, g: Area, size: nat)
    requires Sound(h, g)
    ensures (AllocSpec(h, size, g).1.None? && exists b :: b in h.bs && Fits(b, Request(size, g), g)) <==>
              exists b :: b in h.bs && !b.used && b.Payload(g) == Request(size, g) == FreePayload(h.bs, g)
  {
    hide NoFreePair, Aligned, FreePayload, FreeAddrs, AllocSpec, Distinct, Elems;
    AllocFails(h, g, size);
    assert h.bs[0..] == h.bs;
    forall b | b in h.bs && Fits(b, Request(size, g), g) ensures b.Payload(g) <= FreePayload(h.bs, g) {
      var i :| 0 <= i < |h.bs| && h.bs[i] == b;
      FreeAtMost(h.bs, g, 0, i);
    }
  }

  /** All that an allocation changes is that one used block appears, large enough and not much larger. */
  lemma AllocMeaning(h: Heap, g: Area, size: nat)
    requires Sound(h, g) && size < SIZE_LIMIT
    ensures Sound(AllocSpec(h, size, g).0, g)
    ensures AllocSpec(h, size, g).1.None? ==> AllocSpec(h, size, g).0 == h
    ensures AllocSpec(h, size, g).1.Some? ==>
              var (h', r) := AllocSpec(h, size, g);
              && Gains(h.bs, h'.bs, r.value, g)
              && Request(size, g) <= BlockAt(h'.bs, r.value, g).Payload(g) < Request(size, g) + g.hd + g.min
              && h'.max == Max(h.max, PoolSize(g) - FreePayload(h'.bs, g))
  {
    hide FreePayload, FreeAddrs, Tiled, NoFreePair, Aligned, Without;
    var n := Request(size, g);
    var k := FirstListed(h.bs, h.fl, n, g);
    if AllocSpec(h, size, g).1.Some? {
      var i := IndexAt(h.bs, h.fl[k]);
      AlignUpCovers(size);
      GrantedSound(h, h.fl[k], n, g, i);
      var ts := Take(h.bs, i, n, g);
      TakeMeaning(h.bs, g, i, n, ts[i]);
      BlockIsAt(ts, g, ts[i]);
    }
  }

  /**
   The block handed out holds the size that was asked for, with little to spare. The call fails
   exactly if the least aligned payload `n` that is enough is not less than all the free payload, or
   no free block has it; and the block it finds is the first of the free list that has.
   */
  lemma AllocHolds(h: Heap, g: Area, size: nat, n: nat)
    requires Sound(h, g) && size <= SIZE_LIMIT - ALIGN && LeastEnough(n, size, g.min)
    ensures var (h', r) := AllocSpec(h, size, g);
            if r.None? then n >= FreePayload(h.bs, g) || forall b :: b in h.bs && !b.used ==> b.Payload(g) < n
            else
              && Live(h'.bs, r.value, g) && n < FreePayload(h.bs, g)
              && Max(size, g.min) <= Room(h'.bs, r.value, g) < Max(size + ALIGN, g.min + 1) + g.hd + g.min
              && exists k :: 0 <= k < |h.fl| && h.fl[k] + g.hd == r.value && FitsAt(h.bs, h.fl[k], n, g)
                             && forall j :: 0 <= j < k ==> !FitsAt(h.bs, h.fl[j], n, g)
  {
    hide Request, Tiled, NoFreePair, Aligned, FreePayload, FreeAddrs, Granted, Distinct, FitsAt;
    RequestIsLeast(size, g);
    AllocFails(h, g, size);
    AllocMeaning(h, g, size);
    var k := FirstListed(h.bs, h.fl, Request(size, g), g);
    if AllocSpec(h, size, g).1.Some? {
      assert h.fl[k] in h.fl;
      ListedIffFree(h, g, h.fl[k]);
    }
  }

  lemma FreedPayload(bs: seq<Block>, g: Area, i: nat)
    requires WellFormed(bs, g) && i < |bs| && bs[i].used
    ensures var right, left := i + 1 < |bs| && !bs[i + 1].used, i > 0 && !bs[i - 1].used;
            && FreePayload(Freed(bs, i), g)
            == FreePayload(bs, g) + bs[i].Payload(g) + (if right then g.hd else 0) + (if left then g.hd else 0)
            && FreeAddrs(Freed(bs, i)) == FreeAddrs(bs) + {bs[i].addr} -
                                          (if right then {bs[i + 1].addr} else {}) - (if left then {bs[i].addr} else {})
    ensures bs[i].addr !in FreeAddrs(bs)
  {
    hide FreePayload, FreeAddrs, Tiled, NoFreePair, Coalesced;
    MarkFreeMeaning(bs, g, i, false);
    MarkTiled(bs, g, i, false);
    CoalescedFree(bs[i := bs[i].(used := false)], g, i);
  }

  /** A release takes its block out of the used blocks, and changes nothing else. */
  lemma FreeMeaning(h: Heap, g: Area, ptr: nat)
    requires Sound(h, g) && Live(h.bs, ptr, g)
    ensures var h', b := FreeSpec(h, Some(ptr), g), BlockAt(h.bs, ptr, g);
            && Sound(h', g) && h'.max == h.max
            && UsedSet(h'.bs) == UsedSet(h.bs) - {b}
            && FreePayload(h'.bs, g) >= FreePayload(h.bs, g) + b.Payload(g)
  {
    hide Freed, FreePayload, FreeAddrs, Tiled, NoFreePair, Aligned, Without, UsedSet, Live, IndexAt, BlockAt, FreedList,
      Distinct;
    var i := IndexAt(h.bs, ptr - g.hd);
    LiveAt(h.bs, ptr, g);
    FreedMeaning(h.bs, g, i);
    FreedAligned(h.bs, i);
    FreedListIs(h.bs, h.fl, i);
    FreedPayload(h.bs, g, i);
    var right, left := i + 1 < |h.bs| && !h.bs[i + 1].used, i > 0 && !h.bs[i - 1].used;
    TiledPayload(h.bs, g, i);
    var fl1 := if right then Without(h.fl, h.bs[i + 1].addr) else h.fl;
    if right { WithoutMeaning(h.fl, h.bs[i + 1].addr); AddrsDiffer(h.bs, g, i); }
    if !left { PushMeaning(fl1, h.bs[i].addr); }
  }

  lemma FreedListIs(bs: seq<Block>, fl: seq<int>, i: nat)
    requires i < |bs|
    ensures var fl1 := if i + 1 < |bs| && !bs[i + 1].used then Without(fl, bs[i + 1].addr) else fl;
            FreedList(bs, fl, i) == if i > 0 && !bs[i - 1].used then fl1 else [bs[i].addr] + fl1
  {
  }

  lemma TiledPayload(bs: seq<Block>, g: Area, i: nat)
    requires Tiled(bs, g) && i < |bs|
    ensures bs[i].Payload(g) >= 0
  {
  }

  lemma AddrsDiffer(bs: seq<Block>, g: Area, i: nat)
    requires Tiled(bs, g) && i + 1 < |bs|
    ensures bs[i].addr < bs[i].next == bs[i + 1].addr
  {
    assert Link(bs, i);
  }

  /** Releasing what an allocation returned restores the block sequence exactly. */
  lemma FreeUndoesAlloc(h: Heap, g: Area, size: nat)
    requires Sound(h, g) && size < SIZE_LIMIT && AllocSpec(h, size, g).1.Some?
    ensures var (h', r) := AllocSpec(h, size, g);
            Live(h'.bs, r.value, g) && FreeSpec(h', r, g).bs == h.bs && Elems(FreeSpec(h', r, g).fl) == Elems(h.fl)
  {
    hide AllocSpec, FreeSpec, Tiled, NoFreePair, Aligned, FreeAddrs, Elems, Distinct, FreePayload;
    AllocMeaning(h, g, size);
    var (h', r) := AllocSpec(h, size, g);
    FreeMeaning(h', g, r.value);
    UsedBlocksDetermine(FreeSpec(h', r, g).bs, h.bs, g);
  }

  /** `pool_size - available_size` is the used payload and a header for every block, the end marker included. */
  lemma PoolAccounts(h: Heap, g: Area)
    requires Sound(h, g)
    ensures PoolSize(g) - FreePayload(h.bs, g) == UsedPayload(h.bs, g) + g.hd * (|h.bs| + 1)
  {
    assert h.bs[0..] == h.bs;
    Accounting(h.bs, g, 0);
  }

  // ----- Growing and shrinking in place

  lemma GrownMeaning(bs: seq<Block>, g: Area, i: nat, n: nat)
    requires WellFormed(bs, g) && Aligned(bs) && n % ALIGN == 0
    requires i + 1 < |bs| && bs[i].used && !bs[i + 1].used
    requires bs[i].Payload(g) < n <= bs[i].Payload(g) + bs[i + 1].Payload(g)
    ensures var gs := Grown(bs, i, n, g);
            && WellFormed(gs, g) && Aligned(gs)
            && UsedSet(gs) == UsedSet(bs) - {bs[i]} + {Block(bs[i].addr, bs[i].addr + g.hd + n, true)}
            && FreePayload(gs, g) == FreePayload(bs, g) - (n - bs[i].Payload(g))
            && FreeAddrs(gs) == FreeAddrs(bs) - {bs[i + 1].addr} + {bs[i].addr + g.hd + n}
    ensures bs[i].addr + g.hd + n !in FreeAddrs(bs) - {bs[i + 1].addr}
  {
    hide FreePayload, FreeAddrs, Aligned, UsedSet;
    var ms, gs := MergeAt(bs, i), Grown(bs, i, n, g);
    assert Link(bs, i);
    MergeAtTiled(bs, g, i);
    MergeAligned(bs, i);
    SplitTiled(ms, g, i, n);
    SplitAligned(ms, i, n, g);
    forall j | 0 <= j < |gs| - 1 ensures Apart(gs, j) {
      assert if j + 1 < i then Apart(bs, j) else if j <= i then true else Apart(bs, j);
    }
    GrownFree(bs, g, i, n, [gs[i], gs[i + 1]]);
    GrownUsed(bs, g, i, n, [gs[i], gs[i + 1]]);
  }

  lemma GrownFree(bs: seq<Block>, g: Area, i: nat, n: nat, two: seq<Block>)
    requires Tiled(bs, g) && i + 1 < |bs| && bs[i].used && !bs[i + 1].used
    requires bs[i].Payload(g) < n <= bs[i].Payload(g) + bs[i + 1].Payload(g)
    requires two == [Grown(bs, i, n, g)[i], Grown(bs, i, n, g)[i + 1]]
    ensures var gs := Grown(bs, i, n, g);
            && FreePayload(gs, g) == FreePayload(bs, g) - (n - bs[i].Payload(g))
            && FreeAddrs(gs) == FreeAddrs(bs) - {bs[i + 1].addr} + {bs[i].addr + g.hd + n}
    ensures bs[i].addr + g.hd + n !in FreeAddrs(bs) - {bs[i + 1].addr}
  {
    hide FreePayload, FreeAddrs, Tiled;
    var gs := Grown(bs, i, n, g);
    AddrsDiffer(bs, g, i);
    assert gs == bs[..i] + two + bs[i + 2..] && bs[i..i + 2] == [bs[i], bs[i + 1]];
    PatchedPayload(bs, g, i, i + 2, two);
    PatchedAddrs(bs, g, i, i + 2, two);
    FreeOfOne(two[0], g);
    FreeOfOne(two[1], g);
    FreeOfTwo(two[0], two[1], g);
    FreeOfOne(bs[i], g);
    FreeOfOne(bs[i + 1], g);
    FreeOfTwo(bs[i], bs[i + 1], g);
    if bs[i].addr + g.hd + n != bs[i + 1].addr { InsideNoneAt(bs, g, i + 1, bs[i].addr + g.hd + n); }
  }

  lemma GrownUsed(bs: seq<Block>, g: Area, i: nat, n: nat, two: seq<Block>)
    requires Tiled(bs, g) && i + 1 < |bs| && bs[i].used && !bs[i + 1].used
    requires two == [Grown(bs, i, n, g)[i], Grown(bs, i, n, g)[i + 1]]
    ensures UsedSet(Grown(bs, i, n, g)) == UsedSet(bs) - {bs[i]} + {Block(bs[i].addr, bs[i].addr + g.hd + n, true)}
  {
    hide Tiled;
    var gs := Grown(bs, i, n, g);
    assert gs == bs[..i] + two + bs[i + 2..] && bs == bs[..i] + [bs[i], bs[i + 1]] + bs[i + 2..];
    forall b ensures b in UsedSet(gs) <==> b in UsedSet(bs) - {bs[i]} + {two[0]} {
      assert b in gs <==> b in bs[..i] || b == two[0] || b == two[1] || b in bs[i + 2..];
      assert b in bs <==> b in bs[..i] || b == bs[i] || b == bs[i + 1] || b in bs[i + 2..];
      if b in bs[..i] || b in bs[i + 2..] { NotAmong(bs, g, i, b); }
    }
  }

  lemma NotAmong(bs: seq<Block>, g: Area, i: nat, b: Block)
    requires Tiled(bs, g) && i + 1 < |bs| && (b in bs[..i] || b in bs[i + 2..])
    ensures b != bs[i]
  {
    var j :| 0 <= j < |bs| && j != i && bs[j] == b;
    if b == bs[i] { OneBlock(bs, g, i, j); }
  }

  lemma GrowMeaning(h: Heap, g: Area, ptr: nat, n: nat)
    requires Sound(h, g) && Live(h.bs, ptr, g) && n % ALIGN == 0
    requires var i := IndexAt(h.bs, ptr - g.hd);
             && i + 1 < |h.bs| && !h.bs[i + 1].used
             && h.bs[i].Payload(g) < n <= h.bs[i].Payload(g) + h.bs[i + 1].Payload(g)
    ensures var h' := GrownHeap(h, IndexAt(h.bs, ptr - g.hd), n, g);
            && Sound(h', g)
               && UsedSet(h'.bs) == UsedSet(h.bs) - {BlockAt(h.bs, ptr, g)} + {BlockAt(h.bs, ptr, g).(next := ptr + n)}
            && Live(h'.bs, ptr, g) && BlockAt(h'.bs, ptr, g) == BlockAt(h.bs, ptr, g).(next := ptr + n)
            && FreePayload(h'.bs, g) == FreePayload(h.bs, g) - (n - BlockAt(h.bs, ptr, g).Payload(g))
  {
    hide FreePayload, FreeAddrs, Tiled, NoFreePair, Aligned, Without, Grown, UsedSet;
    var i := IndexAt(h.bs, ptr - g.hd);
    LiveIsBlock(h.bs, g, ptr);
    GrownMeaning(h.bs, g, i, n);
    WithoutMeaning(h.fl, h.bs[i + 1].addr);
    PushMeaning(Without(h.fl, h.bs[i + 1].addr), h.bs[i].addr + g.hd + n);
    BlockIsAt(Grown(h.bs, i, n, g), g, h.bs[i].(next := ptr + n));
  }

  lemma ShrinkMeaning(h: Heap, g: Area, ptr: nat, n: nat)
    requires Sound(h, g) && Live(h.bs, ptr, g) && n % ALIGN == 0
    requires n + g.hd + g.min < BlockAt(h.bs, ptr, g).Payload(g)
    ensures var h' := ShrunkHeap(h, IndexAt(h.bs, ptr - g.hd), n, g);
            && Sound(h', g)
               && UsedSet(h'.bs) == UsedSet(h.bs) - {BlockAt(h.bs, ptr, g)} + {BlockAt(h.bs, ptr, g).(next := ptr + n)}
            && Live(h'.bs, ptr, g) && BlockAt(h'.bs, ptr, g) == BlockAt(h.bs, ptr, g).(next := ptr + n)
            && FreePayload(h'.bs, g) >= FreePayload(h.bs, g)
  {
    hide FreePayload, FreeAddrs, Tiled, NoFreePair, Aligned, Without, Shrunk, UsedSet;
    var i := IndexAt(h.bs, ptr - g.hd);
    LiveIsBlock(h.bs, g, ptr);
    ShrunkMeaning(h.bs, g, i, n);
    ShrunkAligned(h.bs, i, n, g);
    ShrunkFree(h.bs, g, i, n);
    if i + 1 < |h.bs| { AddrsDiffer(h.bs, g, i); }
    WithoutMeaning(h.fl, AddrAt(h.bs, g, i + 1));
    var rest := if i + 1 < |h.bs| && !h.bs[i + 1].used then Without(h.fl, h.bs[i + 1].addr) else h.fl;
    PushMeaning(rest, h.bs[i].addr + g.hd + n);
    BlockIsAt(Shrunk(h.bs, i, n, g), g, h.bs[i].(next := ptr + n));
  }

  lemma ShrunkFree(bs: seq<Block>, g: Area, i: nat, n: nat)
    requires Tiled(bs, g) && i < |bs| && bs[i].used && bs[i].Payload(g) > n + g.hd
    ensures var right := i + 1 < |bs| && !bs[i + 1].used;
            && FreePayload(Shrunk(bs, i, n, g), g)
            == FreePayload(bs, g) + bs[i].Payload(g) - n - (if right then 0 else g.hd)
            && FreeAddrs(Shrunk(bs, i, n, g))
            == FreeAddrs(bs) + {bs[i].addr + g.hd + n} - (if right then {bs[i + 1].addr} else {})
    ensures bs[i].addr + g.hd + n !in FreeAddrs(bs)
  {
    hide FreePayload, FreeAddrs, Tiled;
    SplitFreeMeaning(bs, g, i, n);
    SplitTiled(bs, g, i, n);
    AddrFreeOnce(bs, g, i);
    CoalescedFree(Split(bs, i, n, g), g, i + 1);
  }

  /**
   Resizing a live block. Size zero releases the block. Otherwise the call fails and changes
   nothing, or replaces the block by one with at least the requested payload: the same block
   grown, shrunk or untouched, or one that was free.
   */
  lemma ReallocMeaning(h: Heap, g: Area, ptr: nat, size: nat)
    requires Sound(h, g) && Live(h.bs, ptr, g) && size < SIZE_LIMIT
    ensures Sound(ReallocSpec(h, Some(ptr), size, g).0, g)
    ensures var (h', r) := ReallocSpec(h, Some(ptr), size, g);
            r.None? ==> h' == if size == 0 then FreeSpec(h, Some(ptr), g) else h
    ensures var (h', r) := ReallocSpec(h, Some(ptr), size, g);
            r.Some? ==>
              Resized(h.bs, h'.bs, ptr, r.value, g) && Request(size, g) <= BlockAt(h'.bs, r.value, g).Payload(g)
  {
    hide AllocSpec, FreeSpec, FreePayload, FreeAddrs, Tiled, NoFreePair, Aligned, Without, GrownHeap, ShrunkHeap,
      UsedSet, Request;
    var n := Request(size, g);
    AlignUpCovers(size);
    RequestAgain(size, g);
    LiveIsBlock(h.bs, g, ptr);
    if size == 0 {
      FreeMeaning(h, g, ptr);
    } else {
      var i := IndexAt(h.bs, ptr - g.hd);
      var was := h.bs[i].Payload(g);
      if n > was {
        if i + 1 < |h.bs| && !h.bs[i + 1].used && h.bs[i + 1].Payload(g) + was > n + g.min {
          GrowMeaning(h, g, ptr, n);
        } else {
          MoveMeaning(h, g, ptr, n);
        }
      } else if n + g.hd + g.min < was {
        ShrinkMeaning(h, g, ptr, n);
      } else {
        assert UsedSet(h.bs) == UsedSet(h.bs) - {h.bs[i]} + {h.bs[i]};
      }
    }
  }

  lemma RequestAgain(size: nat, g: Area)
    requires size < SIZE_LIMIT
    ensures Request(Request(size, g), g) == Request(size, g) < SIZE_LIMIT
  {
    AlignUpCovers(size);
    AlignUpCovers(g.min);
  }

  lemma MoveMeaning(h: Heap, g: Area, ptr: nat, n: nat)
    requires Sound(h, g) && Live(h.bs, ptr, g) && n < SIZE_LIMIT && Request(n, g) == n
    ensures Sound(AllocSpec(h, n, g).0, g)
    ensures AllocSpec(h, n, g).1.None? ==> AllocSpec(h, n, g).0 == h
    ensures AllocSpec(h, n, g).1.Some? ==>
              var (h1, r) := AllocSpec(h, n, g);
              && Live(h1.bs, ptr, g) && BlockAt(h1.bs, ptr, g) == BlockAt(h.bs, ptr, g)
              && var h2 := FreeSpec(h1, Some(ptr), g);
              && Sound(h2, g) && h2.max == h1.max && Resized(h.bs, h2.bs, ptr, r.value, g)
              && n <= BlockAt(h2.bs, r.value, g).Payload(g)
  {
    hide AllocSpec, FreeSpec, IndexAt, Tiled, NoFreePair, Aligned, FreePayload, FreeAddrs, Distinct, Elems;
    AllocMeaning(h, g, n);
    var (h1, r) := AllocSpec(h, n, g);
    if r.Some? {
      LiveIsBlock(h.bs, g, ptr);
      var b, c := BlockAt(h.bs, ptr, g), BlockAt(h1.bs, r.value, g);
      BlockIsAt(h1.bs, g, b);
      FreeMeaning(h1, g, ptr);
      assert UsedSet(h1.bs) - {b} == UsedSet(h.bs) - {b} + {c};
      BlockIsAt(FreeSpec(h1, Some(ptr), g).bs, g, c);
    }
  }
}
