/**
 Allocation, resizing and release on a heap of rt-thread/src/mem.c as functions of its block
 sequence, and what holds over whole runs of them.
 */
module SmallMemRuns {
  import opened Common
  import opened Blocks

  /** The blocks and the `parent.max` statistic; `parent.used` is UsedBytes of the blocks. */
  datatype Heap = Heap(bs: seq<Block>, max: int)

  function AllocSpec(h: Heap, size: nat, g: Area): (Heap, Option<nat>) {
    var k := FirstFit(h.bs, Request(size, g), g);
    if size == 0 || k == |h.bs| then (h, None)
    else
      var bs := Take(h.bs, k, Request(size, g), g);
      (Heap(bs, Max(h.max, UsedBytes(bs))), Some(h.bs[k].addr + g.hd))
  }

  function FreeSpec(h: Heap, ptr: Option<nat>, g: Area): Heap {
    if ptr.None? || !Live(h.bs, ptr.value, g) then h
    else h.(bs := Freed(h.bs, IndexAt(h.bs, ptr.value - g.hd)))
  }

  function ReallocSpec(h: Heap, g: Area, ptr: Option<nat>, size: nat): (Heap, Option<nat>) {
    var n := AlignUp(size);
    if n + g.hd > g.end then (h, None)
    else if n == 0 then (FreeSpec(h, ptr, g), None)
    else if ptr.None? || !Live(h.bs, ptr.value, g) then AllocSpec(h, n, g)
    else ResizeSpec(h, ptr.value, n, g)
  }

  function ResizeSpec(h: Heap, ptr: nat, n: nat, g: Area): (Heap, Option<nat>)
    requires Live(h.bs, ptr, g)
  {
    var i := IndexAt(h.bs, ptr - g.hd);
    if h.bs[i].Payload(g) == n then (h, Some(ptr))
    else if n + g.hd + g.min < h.bs[i].Payload(g) then (h.(bs := Shrunk(h.bs, i, n, g)), Some(ptr))
    else
      var (h', r) := AllocSpec(h, n, g);
      (if r.None? then h' else FreeSpec(h', Some(ptr), g), r)
  }

  // ----- One call

  /** The invariant of a heap of `end` bytes plus its end marker. */
  ghost predicate Sound(h: Heap, g: Area) {
    WellFormed(h.bs, g) && Aligned(h.bs) && 0 <= UsedBytes(h.bs) <= h.max
  }

  /**
   Exact first fit. For a non-zero size the call fails exactly when no free block has the
   requested payload; otherwise the block handed out is the lowest such block.
   */
  lemma AllocFirstFit(h: Heap, g: Area, size: nat)
    requires Sound(h, g)
    ensures size > 0 ==>
              (AllocSpec(h, size, g).1.None? <==> forall b :: b in h.bs ==> !Fits(b, Request(size, g), g))
    ensures AllocSpec(h, size, g).1.Some? ==>
              exists b :: b in h.bs && b.addr + g.hd == AllocSpec(h, size, g).1.value && Fits(b, Request(size, g), g)
    ensures AllocSpec(h, size, g).1.Some? ==>
              forall b :: b in h.bs && Fits(b, Request(size, g), g) ==> AllocSpec(h, size, g).1.value <= b.addr + g.hd
  {
    var k := FirstFit(h.bs, Request(size, g), g);
    if size > 0 && k < |h.bs| {
      assert h.bs[k] in h.bs;
      forall b | b in h.bs && Fits(b, Request(size, g), g) ensures h.bs[k].addr <= b.addr {
        var j :| 0 <= j < |h.bs| && h.bs[j] == b;
        if k < j { Ordered(h.bs, g, k, j); }
      }
    }
  }

  /** All that an allocation changes is that one used block appears, large enough and not much larger. */
  lemma AllocMeaning(h: Heap, g: Area, size: nat)
    requires Sound(h, g) && size < SIZE_LIMIT
    ensures Sound(AllocSpec(h, size, g).0, g)
    ensures AllocSpec(h, size, g).1.None? ==> AllocSpec(h, size, g).0 == h
    ensures AllocSpec(h, size, g).1.Some? ==>
              var (h', r) := AllocSpec(h, size, g);
              && Gains(h.bs, h'.bs, r.value, g)
              && Request(size, g) <= BlockAt(h'.bs, r.value, g).Payload(g) < Request(size, g) + g.hd + g.min
    ensures AllocSpec(h, size, g).0.max == Max(h.max, UsedBytes(AllocSpec(h, size, g).0.bs))
  {
    var n := Request(size, g);
    var k := FirstFit(h.bs, n, g);
    if size > 0 && k < |h.bs| {
      var ts := Take(h.bs, k, n, g);
      var b := ts[k];
      TakeMeaning(h.bs, g, k, n, b);
      AlignUpCovers(size);
      TakeAligned(h.bs, k, n, g);
      BlockIsAt(ts, g, b);
    }
  }

  /**
   The block handed out holds the size that was asked for, with little to spare. The call fails
   exactly if no free block has the least aligned payload `n` that is enough; and the block it
   finds is the lowest that has.
   */
  lemma AllocHolds(h: Heap, g: Area, size: nat, n: nat)
    requires Sound(h, g) && 0 < size <= SIZE_LIMIT - ALIGN && LeastEnough(n, size, g.min)
    ensures var (h', r) := AllocSpec(h, size, g);
            if r.None? then forall b :: b in h.bs && !b.used ==> b.Payload(g) < n
            else
              && Live(h'.bs, r.value, g)
              && Max(size, g.min) <= Room(h'.bs, r.value, g) < Max(size + ALIGN, g.min + 1) + g.hd + g.min
              && (exists b :: b in h.bs && !b.used && n <= b.Payload(g) && b.addr + g.hd == r.value)
              && forall b :: b in h.bs && !b.used && n <= b.Payload(g) ==> r.value <= b.addr + g.hd
  {
    hide AllocSpec, Request, Tiled, NoFreePair, Aligned;
    RequestIsLeast(size, g);
    AllocFirstFit(h, g, size);
    AllocMeaning(h, g, size);
  }

  /** A release takes its block out of the used blocks, and changes nothing else. */
  lemma FreeMeaning(h: Heap, g: Area, ptr: nat)
    requires Sound(h, g) && Live(h.bs, ptr, g)
    ensures var h', b := FreeSpec(h, Some(ptr), g), BlockAt(h.bs, ptr, g);
            && Sound(h', g) && h'.max == h.max
            && UsedSet(h'.bs) == UsedSet(h.bs) - {b}
            && UsedBytes(h'.bs) == UsedBytes(h.bs) - (b.next - b.addr)
            && LivePtrs(h'.bs, g) == LivePtrs(h.bs, g) - {ptr}
  {
    hide Freed, UsedBytes;
    var i := IndexAt(h.bs, ptr - g.hd);
    var h', b := FreeSpec(h, Some(ptr), g), h.bs[i];
    LiveIsBlock(h.bs, g, ptr);
    FreedMeaning(h.bs, g, i);
    FreedAligned(h.bs, i);
    UsedBytesBound(h'.bs, g, 0);
    assert h'.bs[0..] == h'.bs;
    forall p ensures p in LivePtrs(h'.bs, g) <==> p in LivePtrs(h.bs, g) && p != ptr {
      if p in LivePtrs(h.bs, g) && p != ptr {
        var c :| c in UsedSet(h.bs) && c.addr + g.hd == p;
        assert c in UsedSet(h'.bs);
      }
      if p in LivePtrs(h'.bs, g) {
        var c :| c in UsedSet(h'.bs) && c.addr + g.hd == p;
        BlockIsAt(h.bs, g, c);
      }
    }
  }

  /** Releasing what an allocation returned restores the block sequence exactly. */
  lemma FreeUndoesAlloc(h: Heap, g: Area, size: nat)
    requires Sound(h, g) && size < SIZE_LIMIT && AllocSpec(h, size, g).1.Some?
    ensures var (h', r) := AllocSpec(h, size, g); Live(h'.bs, r.value, g) && FreeSpec(h', r, g).bs == h.bs
  {
    AllocMeaning(h, g, size);
    var (h', r) := AllocSpec(h, size, g);
    FreeMeaning(h', g, r.value);
    UsedBlocksDetermine(FreeSpec(h', r, g).bs, h.bs, g);
  }

  /**
   Resizing a live block. A size that aligns to zero releases the block. Otherwise the call
   fails and changes nothing, or replaces the block by one with at least the aligned payload:
   the same block, a shorter one in its place, or one that was free.
   */
  lemma ReallocMeaning(h: Heap, g: Area, ptr: nat, size: nat)
    requires Sound(h, g) && Live(h.bs, ptr, g) && size < SIZE_LIMIT
    ensures Sound(ReallocSpec(h, g, Some(ptr), size).0, g)
    ensures var (h', r) := ReallocSpec(h, g, Some(ptr), size);
            r.None? ==> h' == if AlignUp(size) == 0 then FreeSpec(h, Some(ptr), g) else h
    ensures var (h', r) := ReallocSpec(h, g, Some(ptr), size);
            r.Some? ==> Replaces(h.bs, h'.bs, ptr, r.value, g) && AlignUp(size) <= BlockAt(h'.bs, r.value, g).Payload(g)
  {
    hide Freed, Take, UsedBytes, FirstFit, Shrunk, AllocSpec;
    var n := AlignUp(size);
    AlignUpCovers(size);
    var i := IndexAt(h.bs, ptr - g.hd);
    LiveIsBlock(h.bs, g, ptr);
    WithinEnd(h.bs, g, i);
    if n + g.hd > g.end {
    } else if n == 0 {
      FreeMeaning(h, g, ptr);
    } else if h.bs[i].Payload(g) == n {
      assert UsedSet(h.bs) == UsedSet(h.bs) - {h.bs[i]} + {h.bs[i]};
    } else if n + g.hd + g.min < h.bs[i].Payload(g) {
      ShrinkMeaning(h, g, ptr, n);
    } else {
      MoveMeaning(h, g, ptr, n);
    }
  }

  /** A block of `was` bytes is neither kept nor cut in place: it is to move. */
  predicate Moves(was: int, n: nat, g: Area) { n != was && was <= n + g.hd + g.min }

  /**
   When a resize of a live block returns nothing: the aligned size is zero or larger than the
   heap, or the block has to move and no free block fits. The block has to move when it grows,
   but also when it shrinks by too little to be split.
   */
  lemma ReallocFailsIff(h: Heap, g: Area, ptr: nat, size: nat)
    requires Sound(h, g) && Live(h.bs, ptr, g)
    ensures var n := AlignUp(size);
            ReallocSpec(h, g, Some(ptr), size).1.None? <==>
              || n == 0 || n + g.hd > g.end
              || (Moves(BlockAt(h.bs, ptr, g).Payload(g), n, g) && forall b :: b in h.bs ==> !Fits(b, Request(n, g), g))
  {
    hide Freed, Take, UsedBytes, FirstFit, Shrunk, AllocSpec, FreeSpec, Request;
    LiveIsBlock(h.bs, g, ptr);
    AllocFirstFit(h, g, AlignUp(size));
  }

  /** So a shrink of a live block fails exactly if it is too small to split the block and no free block fits. */
  lemma ShrinkFailsIff(h: Heap, g: Area, ptr: nat, size: nat)
    requires Sound(h, g) && Live(h.bs, ptr, g) && 0 < AlignUp(size) <= BlockAt(h.bs, ptr, g).Payload(g)
    ensures var n, was := AlignUp(size), BlockAt(h.bs, ptr, g).Payload(g);
            ReallocSpec(h, g, Some(ptr), size).1.None? <==>
              n < was <= n + g.hd + g.min && forall b :: b in h.bs ==> !Fits(b, Request(n, g), g)
  {
    hide UsedBytes, Request, ReallocSpec;
    LiveIsBlock(h.bs, g, ptr);
    WithinEnd(h.bs, g, IndexAt(h.bs, ptr - g.hd));
    ReallocFailsIff(h, g, ptr, size);
  }

  /**
   Where a resized block is, and how long. `n` is the least aligned size that holds `size` bytes: the
   block stays exactly if it has `n` bytes or enough more to be cut, and then has `n` bytes.
   */
  lemma ReallocHolds(h: Heap, g: Area, ptr: nat, size: nat, n: nat)
    requires Sound(h, g) && Live(h.bs, ptr, g) && 0 < size <= SIZE_LIMIT - ALIGN && LeastEnough(n, size, 0)
    ensures var (h', r) := ReallocSpec(h, g, Some(ptr), size);
            r.Some? ==>
              && Live(h'.bs, r.value, g) && size <= Room(h'.bs, r.value, g)
              && (r.value == ptr <==> Room(h.bs, ptr, g) == n || n + g.hd + g.min < Room(h.bs, ptr, g))
              && (r.value == ptr ==> Room(h'.bs, ptr, g) == n)
  {
    hide Freed, Take, UsedBytes, FirstFit, Shrunk, AllocSpec, FreeSpec, Tiled, NoFreePair, Aligned;
    AlignUpCovers(size);
    LiveIsBlock(h.bs, g, ptr);
    assert Enough(AlignUp(size), size, 0);
    var was := Room(h.bs, ptr, g);
    if n + g.hd <= g.end {
      if was != n && n + g.hd + g.min < was {
        ShrinkMeaning(h, g, ptr, n);
      } else if was != n {
        MoveMeaning(h, g, ptr, n);
      }
    }
  }

  /** Resizing a null pointer allocates; but the last three sizes, which wrap to zero, get nothing. */
  lemma ReallocNullIsAlloc(h: Heap, g: Area, size: nat)
    requires Sound(h, g) && size < SIZE_LIMIT
    ensures ReallocSpec(h, g, None, size) == if size <= SIZE_LIMIT - ALIGN then AllocSpec(h, size, g) else (h, None)
  {
    hide Take, UsedBytes, NoFreePair, Aligned, Tiled, FirstFit;
    AlignUpCovers(size);
    var n := AlignUp(size);
    if n > 0 && n + g.hd > g.end { TooLong(h, g, Request(size, g)); }
  }

  /** No block is longer than the heap. */
  lemma TooLong(h: Heap, g: Area, n: nat)
    requires Sound(h, g) && n + g.hd > g.end
    ensures FirstFit(h.bs, n, g) == |h.bs|
  {
    var k := FirstFit(h.bs, n, g);
    if k < |h.bs| { WithinEnd(h.bs, g, k); }
  }

  lemma ShrinkMeaning(h: Heap, g: Area, ptr: nat, n: nat)
    requires Sound(h, g) && Live(h.bs, ptr, g) && n % ALIGN == 0
    requires n + g.hd + g.min < BlockAt(h.bs, ptr, g).Payload(g)
    ensures var bs := Shrunk(h.bs, IndexAt(h.bs, ptr - g.hd), n, g);
            && Sound(h.(bs := bs), g) && Replaces(h.bs, bs, ptr, ptr, g) && BlockAt(bs, ptr, g).Payload(g) == n
  {
    hide Shrunk, Split, UsedBytes;
    var i := IndexAt(h.bs, ptr - g.hd);
    var b, bs := h.bs[i], Shrunk(h.bs, i, n, g);
    LiveIsBlock(h.bs, g, ptr);
    ShrunkMeaning(h.bs, g, i, n);
    ShrunkAligned(h.bs, i, n, g);
    UsedBytesBound(bs, g, 0);
    assert bs[0..] == bs;
    BlockIsAt(bs, g, Block(b.addr, b.addr + g.hd + n, true));
  }

  lemma MoveMeaning(h: Heap, g: Area, ptr: nat, n: nat)
    requires Sound(h, g) && Live(h.bs, ptr, g) && 0 < n < SIZE_LIMIT && AlignUp(n) == n
    ensures Sound(AllocSpec(h, n, g).0, g)
    ensures AllocSpec(h, n, g).1.None? ==> AllocSpec(h, n, g).0 == h
    ensures AllocSpec(h, n, g).1.Some? ==>
              var (h1, r) := AllocSpec(h, n, g);
              && Live(h1.bs, ptr, g) && BlockAt(h1.bs, ptr, g) == BlockAt(h.bs, ptr, g)
              && r.value != ptr
              && var h2 := FreeSpec(h1, Some(ptr), g);
              && Sound(h2, g) && h2.max == h1.max && Replaces(h.bs, h2.bs, ptr, r.value, g)
              && Live(h1.bs, r.value, g) && BlockAt(h2.bs, r.value, g) == BlockAt(h1.bs, r.value, g)
              && n <= BlockAt(h2.bs, r.value, g).Payload(g)
  {
    hide Freed, Take, UsedBytes, FirstFit, Shrunk, AllocSpec, IndexAt, Tiled, NoFreePair, Aligned;
    AllocMeaning(h, g, n);
    var (h1, r) := AllocSpec(h, n, g);
    if r.Some? {
      LiveIsBlock(h.bs, g, ptr);
      var b, c := BlockAt(h.bs, ptr, g), BlockAt(h1.bs, r.value, g);
      BlockIsAt(h1.bs, g, b);
      FreeMeaning(h1, g, ptr);
      assert UsedSet(h1.bs) - {b} == UsedSet(h.bs) - {b} + {c};
      BlockIsAt(FreeSpec(h1, Some(ptr), g).bs, g, c);
    }
  }

  // ----- Whole runs

  datatype Op = Malloc(size: nat) | Resize(ptr: Option<nat>, size: nat) | Release(ptr: Option<nat>)

  /** What the source demands of a caller: a pointer passed in is null or live. */
  predicate Legal(h: Heap, g: Area, op: Op) {
    match op
    case Malloc(size) => size < SIZE_LIMIT
    case Resize(ptr, size) => size < SIZE_LIMIT && (ptr.Some? ==> Live(h.bs, ptr.value, g))
    case Release(ptr) => ptr.Some? ==> Live(h.bs, ptr.value, g)
  }

  function Step(h: Heap, g: Area, op: Op): Heap {
    match op
    case Malloc(size) => AllocSpec(h, size, g).0
    case Resize(ptr, size) => ReallocSpec(h, g, ptr, size).0
    case Release(ptr) => FreeSpec(h, ptr, g)
  }

  function Run(h: Heap, g: Area, ops: seq<Op>): Heap
    decreases |ops|
  {
    if ops == [] then h else Run(Step(h, g, ops[0]), g, ops[1..])
  }

  predicate LegalRun(h: Heap, g: Area, ops: seq<Op>)
    decreases |ops|
  {
    ops == [] || (Legal(h, g, ops[0]) && LegalRun(Step(h, g, ops[0]), g, ops[1..]))
  }

  /** The most bytes in use at any moment of a call, or of a run. */
  function PeakOfStep(h: Heap, g: Area, op: Op): int {
    match op
    case Malloc(size) => UsedBytes(AllocSpec(h, size, g).0.bs)
    case Release(ptr) => UsedBytes(h.bs)
    case Resize(ptr, size) =>
      // A resize that moves the block holds the old and the new block at once.
      if AlignUp(size) == 0 || ReallocSpec(h, g, ptr, size).1 == ptr then UsedBytes(h.bs)
      else if AlignUp(size) + g.hd > g.end then UsedBytes(h.bs)
      else UsedBytes(AllocSpec(h, AlignUp(size), g).0.bs)
  }

  function Peak(h: Heap, g: Area, ops: seq<Op>): int
    decreases |ops|
  {
    if ops == [] then UsedBytes(h.bs)
    else Max(PeakOfStep(h, g, ops[0]), Peak(Step(h, g, ops[0]), g, ops[1..]))
  }

  lemma StepKeeps(h: Heap, g: Area, op: Op)
    requires Sound(h, g) && Legal(h, g, op)
    ensures Sound(Step(h, g, op), g)
    ensures Step(h, g, op).max == Max(h.max, PeakOfStep(h, g, op))
  {
    hide AllocSpec, FreeSpec, ReallocSpec, Live, WellFormed, Aligned;
    match op
    case Malloc(size) =>
      AllocMeaning(h, g, size);
    case Release(ptr) =>
      if ptr.Some? { FreeMeaning(h, g, ptr.value); } else { FreeNull(h, g); }
    case Resize(ptr, size) =>
      if ptr.Some? {
        ReallocMeaning(h, g, ptr.value, size);
        ReallocPeak(h, g, ptr.value, size);
      } else {
        ReallocNull(h, g, size);
      }
  }

  lemma FreeNull(h: Heap, g: Area)
    ensures FreeSpec(h, None, g) == h
  {
  }

  lemma ReallocNull(h: Heap, g: Area, size: nat)
    requires Sound(h, g) && size < SIZE_LIMIT
    ensures Sound(ReallocSpec(h, g, None, size).0, g)
    ensures Step(h, g, Resize(None, size)).max == Max(h.max, PeakOfStep(h, g, Resize(None, size)))
  {
    hide AllocSpec, Aligned, WellFormed, UsedBytes;
    AlignUpCovers(size);
    AllocMeaning(h, g, AlignUp(size));
  }

  lemma ReallocPeak(h: Heap, g: Area, ptr: nat, size: nat)
    requires Sound(h, g) && Live(h.bs, ptr, g) && size < SIZE_LIMIT
    ensures Step(h, g, Resize(Some(ptr), size)).max == Max(h.max, PeakOfStep(h, g, Resize(Some(ptr), size)))
  {
    hide AllocSpec, Aligned, UsedBytes, Freed, Shrunk, WellFormed;
    var n := AlignUp(size);
    AlignUpCovers(size);
    if n > 0 { MoveMeaning(h, g, ptr, n); AllocMeaning(h, g, n); }
  }

  /**
   After every run of calls the blocks tile the heap in order without two free neighbours, and
   the `max` statistic is the greatest number of bytes in use at any moment of the run.
   */
  lemma {:induction false} RunKeeps(h: Heap, g: Area, ops: seq<Op>)
    requires Sound(h, g) && LegalRun(h, g, ops)
    ensures Sound(Run(h, g, ops), g)
    ensures Run(h, g, ops).max == Max(h.max, Peak(h, g, ops))
    decreases |ops|
  {
    if ops != [] {
      StepKeeps(h, g, ops[0]);
      RunKeeps(Step(h, g, ops[0]), g, ops[1..]);
    }
  }

  function Releases(ptrs: seq<nat>): (ops: seq<Op>)
    ensures |ops| == |ptrs| && forall i :: 0 <= i < |ptrs| ==> ops[i] == Release(Some(ptrs[i]))
  {
    seq(|ptrs|, i requires 0 <= i < |ptrs| => Release(Some(ptrs[i])))
  }

  lemma {:induction false} ReleasesLeave(h: Heap, g: Area, ptrs: seq<nat>)
    requires Sound(h, g)
    requires forall i, j :: 0 <= i < j < |ptrs| ==> ptrs[i] != ptrs[j]
    requires forall p :: p in ptrs ==> p in LivePtrs(h.bs, g)
    ensures LegalRun(h, g, Releases(ptrs))
    ensures var h' := Run(h, g, Releases(ptrs));
            Sound(h', g) && UsedSet(h'.bs) == set b | b in UsedSet(h.bs) && b.addr + g.hd !in ptrs
    decreases |ptrs|
  {
    hide UsedBytes, Freed, FirstFit, Aligned, NoFreePair, Tiled, UsedSet, LivePtrs, FreeSpec;
    if ptrs == [] {
      assert UsedSet(h.bs) == set b | b in UsedSet(h.bs) && b.addr + g.hd !in ptrs;
    } else {
      var p, h1 := ptrs[0], FreeSpec(h, Some(ptrs[0]), g);
      LiveIsBlock(h.bs, g, p);
      FreeMeaning(h, g, p);
      ReleasesLeave(h1, g, ptrs[1..]);
      assert Releases(ptrs)[1..] == Releases(ptrs[1..]);
      var c := BlockAt(h.bs, p, g);
      forall b | b in UsedSet(h.bs) && b.addr + g.hd == p ensures b == c { BlockIsAt(h.bs, g, b); }
      ReleasedSet(UsedSet(h.bs), g, c, ptrs);
    }
  }

  lemma ReleasedSet(us: set<Block>, g: Area, c: Block, ptrs: seq<nat>)
    requires ptrs != [] && c.addr + g.hd == ptrs[0]
    requires forall b :: b in us && b.addr + g.hd == ptrs[0] ==> b == c
    ensures (set b | b in us - {c} && b.addr + g.hd !in ptrs[1..]) == set b | b in us && b.addr + g.hd !in ptrs
  {
    forall b | b in us ensures b.addr + g.hd in ptrs <==> b.addr + g.hd == ptrs[0] || b.addr + g.hd in ptrs[1..] {
    }
  }

  /** The order in which blocks are released does not matter to the block sequence that is left. */
  lemma ReleaseOrderIrrelevant(h: Heap, g: Area, ps: seq<nat>, qs: seq<nat>)
    requires Sound(h, g) && multiset(ps) == multiset(qs)
    requires forall i, j :: 0 <= i < j < |ps| ==> ps[i] != ps[j]
    requires forall i, j :: 0 <= i < j < |qs| ==> qs[i] != qs[j]
    requires forall p :: p in ps ==> p in LivePtrs(h.bs, g)
    ensures Run(h, g, Releases(ps)).bs == Run(h, g, Releases(qs)).bs
  {
    hide UsedBytes, Freed, Tiled, Aligned, NoFreePair, Run;
    forall p ensures p in ps <==> p in qs {
      assert p in multiset(ps) <==> p in multiset(qs);
    }
    ReleasesLeave(h, g, ps);
    ReleasesLeave(h, g, qs);
    UsedBlocksDetermine(Run(h, g, Releases(ps)).bs, Run(h, g, Releases(qs)).bs, g);
  }

  /** Releasing every live block, in any order, leaves one free block that covers the heap. */
  lemma ReleaseAll(h: Heap, g: Area, ptrs: seq<nat>)
    requires Sound(h, g)
    requires forall i, j :: 0 <= i < j < |ptrs| ==> ptrs[i] != ptrs[j]
    requires forall p :: p in ptrs <==> p in LivePtrs(h.bs, g)
    ensures LegalRun(h, g, Releases(ptrs))
    ensures Run(h, g, Releases(ptrs)).bs == [Block(0, g.end, false)]
  {
    hide Run, UsedBytes, Aligned, Tiled, NoFreePair, UsedSet, LivePtrs;
    ReleasesLeave(h, g, ptrs);
    LiveOf(h.bs, g);
    WholeFree(h.bs, g);
    UsedBlocksDetermine(Run(h, g, Releases(ptrs)).bs, [Block(0, g.end, false)], g);
  }

  lemma LiveOf(bs: seq<Block>, g: Area)
    ensures forall b :: b in UsedSet(bs) ==> b.addr + g.hd in LivePtrs(bs, g)
  {
  }

  /** One free block over the whole area is a well-formed sequence. */
  lemma WholeFree(bs: seq<Block>, g: Area)
    requires Tiled(bs, g)
    ensures WellFormed([Block(0, g.end, false)], g) && UsedSet([Block(0, g.end, false)]) == {}
  {
    WithinEnd(bs, g, 0);
  }
}
