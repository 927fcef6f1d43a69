/**
 The resize of rt-thread/src/memheap.c as the code decides it: the test for growth in place holds
 the free size in a signed 32-bit variable, and its sums wrap at 64 bits. When the test decides
 what it is for, what the call does when it does not, and what every run of calls keeps.
 */
module MemHeapRealloc {
  import opened Common
  import opened Blocks
  import opened RtList
  import opened MemHeapRuns

  // ----- The test for growth in place

  /** A conversion to rt_int32_t. */
  function ToInt32(x: int): int { (x + 0x8000_0000) % 0x1_0000_0000 - 0x8000_0000 }

  /** What the code takes for the room of a block of `was` bytes with `after` free bytes behind it. */
  function RoomSeen(was: nat, after: nat): (r: nat) { (ToInt32(after) + was) % SIZE_LIMIT }

  predicate TestPasses(was: nat, after: nat, n: nat, g: Area) { RoomSeen(was, after) > (n + g.min) % SIZE_LIMIT }

  /**
   The need lies on the same side of the room there is and of the room the code sees; or, if
   the need itself wraps, at or above the room the code sees even so.
   */
  predicate SameSide(was: nat, after: nat, n: nat, g: Area) {
    var room, seen, need := was + after, RoomSeen(was, after), n + g.min;
    if need < SIZE_LIMIT then !(Min(room, seen) <= need < Max(room, seen)) else seen <= need - SIZE_LIMIT
  }

  lemma TestExactIff(was: nat, after: nat, n: nat, g: Area)
    requires was + after < SIZE_LIMIT && n < SIZE_LIMIT
    ensures (TestPasses(was, after, n, g) <==> was + after > n + g.min) <==> SameSide(was, after, n, g)
  {
  }

  /** With less than 2^31 free bytes behind the block only the need can be seen wrong. */
  lemma SmallRoomSeen(was: nat, after: nat, n: nat, g: Area)
    requires was + after < SIZE_LIMIT && after < 0x8000_0000 && n < SIZE_LIMIT
    ensures SameSide(was, after, n, g) <==> n + g.min < SIZE_LIMIT || was + after <= n + g.min - SIZE_LIMIT
  {
  }

  // ----- The resize of the code

  predicate CodeGrows(bs: seq<Block>, i: nat, n: nat, g: Area)
    requires i < |bs|
  {
    && i + 1 < |bs| && !bs[i + 1].used && bs[i].Payload(g) >= 0 && bs[i + 1].Payload(g) >= 0
    && TestPasses(bs[i].Payload(g), bs[i + 1].Payload(g), n, g)
  }

  function ReallocCode(h: Heap, ptr: Option<nat>, size: nat, g: Area): (Heap, Option<nat>) {
    if size == 0 then (FreeSpec(h, ptr, g), None)
    else if ptr.None? || !Live(h.bs, ptr.value, g) then AllocSpec(h, Request(size, g), g)
    else
      var i, n := IndexAt(h.bs, ptr.value - g.hd), Request(size, g);
      ResizeBy(h, ptr.value, n, g, CodeGrows(h.bs, i, n, g))
  }

  /** The call asks to enlarge a block with a free one behind it: only then is the test made. */
  predicate Tested(h: Heap, ptr: Option<nat>, size: nat, g: Area) {
    && size != 0 && ptr.Some? && Live(h.bs, ptr.value, g)
    && var i := IndexAt(h.bs, ptr.value - g.hd);
    && Request(size, g) > h.bs[i].Payload(g) >= 0
    && i + 1 < |h.bs| && !h.bs[i + 1].used && h.bs[i + 1].Payload(g) >= 0
  }

  /** The test passes although the bytes asked for do not fit before the end of the free block. */
  predicate Overruns(h: Heap, ptr: Option<nat>, size: nat, g: Area) {
    && Tested(h, ptr, size, g)
    && var i, n := IndexAt(h.bs, ptr.value - g.hd), Request(size, g);
    CodeGrows(h.bs, i, n, g) && n > h.bs[i].Payload(g) + h.bs[i + 1].Payload(g)
  }

  /** What the pool has to be: its bytes are counted in rt_size_t. */
  predicate Counted(g: Area) { PoolSize(g) < SIZE_LIMIT }

  /** The bytes from a block's payload to the end of the free block behind it are counted in rt_size_t. */
  lemma RoomCounted(bs: seq<Block>, g: Area, i: nat)
    requires Tiled(bs, g) && i + 1 < |bs| && Counted(g)
    ensures 0 <= bs[i].Payload(g) && 0 <= bs[i + 1].Payload(g)
    ensures bs[i].Payload(g) + bs[i + 1].Payload(g) < SIZE_LIMIT
  {
    WithinEnd(bs, g, i);
    WithinEnd(bs, g, i + 1);
    assert Link(bs, i);
  }

  /** A block that moves gets another address. */
  lemma MovesAway(h: Heap, g: Area, ptr: nat, n: nat)
    requires Sound(h, g) && Live(h.bs, ptr, g)
    ensures AllocSpec(h, n, g).1 != Some(ptr)
  {
    hide FreePayload, FreeAddrs, NoFreePair, Aligned, Granted, Distinct;
    var k := FirstListed(h.bs, h.fl, Request(n, g), g);
    if AllocSpec(h, n, g).1 == Some(ptr) {
      LiveAt(h.bs, ptr, g);
      var i, j := IndexAt(h.bs, h.fl[k]), IndexAt(h.bs, ptr - g.hd);
      OneBlock(h.bs, g, i, j);
      assert false;
    }
  }

  /**
   The call does what it is meant to do exactly if the test, when it is made, sees room and need
   on the right side.
   */
  lemma CodeMeetsSpecIff(h: Heap, g: Area, ptr: Option<nat>, size: nat)
    requires Sound(h, g) && Counted(g) && size < SIZE_LIMIT && (ptr.Some? ==> Live(h.bs, ptr.value, g))
    ensures ReallocCode(h, ptr, size, g) == ReallocSpec(h, ptr, size, g) <==>
              (Tested(h, ptr, size, g) ==>
                 var i := IndexAt(h.bs, ptr.value - g.hd);
                 SameSide(h.bs[i].Payload(g), h.bs[i + 1].Payload(g), Request(size, g), g))
  {
    hide AllocSpec, FreeSpec, FreePayload, FreeAddrs, NoFreePair, Aligned, GrownHeap, ShrunkHeap, Request, Distinct,
      TestPasses, SameSide, IndexAt, Tiled;
    if size != 0 && ptr.Some? {
      var i, n := IndexAt(h.bs, ptr.value - g.hd), Request(size, g);
      LiveAt(h.bs, ptr.value, g);
      TiledPayload(h.bs, g, i);
      if i + 1 < |h.bs| {
        RequestAgain(size, g);
        RoomCounted(h.bs, g, i);
        TestExactIff(h.bs[i].Payload(g), h.bs[i + 1].Payload(g), n, g);
      }
      MovesAway(h, g, ptr.value, n);
    }
  }

  /** A block grown past the end of its free neighbour leaves no tiling of the pool. */
  lemma OverrunUnsound(h: Heap, g: Area, i: nat, n: nat)
    requires Sound(h, g) && i + 1 < |h.bs| && n > h.bs[i].Payload(g) + h.bs[i + 1].Payload(g)
    ensures !Sound(GrownHeap(h, i, n, g), g)
  {
    var gs := Grown(h.bs, i, n, g);
    assert Link(h.bs, i);
    assert gs[i + 1].Payload(g) < 0;
  }

  /** The call keeps the heap sound exactly if it does not overrun. */
  lemma SoundIff(h: Heap, g: Area, ptr: Option<nat>, size: nat)
    requires Sound(h, g) && Counted(g) && size < SIZE_LIMIT && (ptr.Some? ==> Live(h.bs, ptr.value, g))
    ensures Sound(ReallocCode(h, ptr, size, g).0, g) <==> !Overruns(h, ptr, size, g)
  {
    hide AllocSpec, FreeSpec, FreePayload, FreeAddrs, NoFreePair, Aligned, GrownHeap, ShrunkHeap, Request, Distinct,
      TestPasses, Tiled, Sound, Elems;
    if ptr.None? {
      ReallocNull(h, g, size);
    } else {
      ReallocMeaning(h, g, ptr.value, size);
      if size != 0 {
        var i, n := IndexAt(h.bs, ptr.value - g.hd), Request(size, g);
        RequestAgain(size, g);
        AlignUpCovers(size);
        CaseSound(h, g, ptr.value, i, n);
      }
    }
  }

  lemma CaseSound(h: Heap, g: Area, ptr: nat, i: nat, n: nat)
    requires Sound(h, g) && Counted(g) && Live(h.bs, ptr, g) && i == IndexAt(h.bs, ptr - g.hd)
    requires n < SIZE_LIMIT && n % ALIGN == 0 && Request(n, g) == n
    ensures h.bs[i].Payload(g) >= 0 && (i + 1 < |h.bs| ==> h.bs[i + 1].Payload(g) >= 0)
    ensures Sound(ResizeBy(h, ptr, n, g, CodeGrows(h.bs, i, n, g)).0, g) <==>
              !(n > h.bs[i].Payload(g) && CodeGrows(h.bs, i, n, g) && n > h.bs[i].Payload(g) + h.bs[i + 1].Payload(g))
  {
    hide AllocSpec, FreeSpec, FreePayload, FreeAddrs, NoFreePair, Aligned, GrownHeap, ShrunkHeap, Request, Distinct,
      TestPasses, Tiled, Elems, IndexAt;
    LiveAt(h.bs, ptr, g);
    TiledPayload(h.bs, g, i);
    if i + 1 < |h.bs| { TiledPayload(h.bs, g, i + 1); }
    if n > h.bs[i].Payload(g) {
      if CodeGrows(h.bs, i, n, g) {
        if n > h.bs[i].Payload(g) + h.bs[i + 1].Payload(g) {
          OverrunUnsound(h, g, i, n);
        } else {
          GrowMeaning(h, g, ptr, n);
        }
      } else {
        MoveMeaning(h, g, ptr, n);
      }
    } else if n + g.hd + g.min < h.bs[i].Payload(g) {
      ShrinkMeaning(h, g, ptr, n);
    }
  }

  /**
   Where a resized block is, and how long, when the call does not overrun. `n` is the least aligned
   payload that holds `size` bytes: the block stays exactly if it need not grow or passes the test,
   and then has `n` bytes, or those it had if they are too few more to be cut.
   */
  lemma ReallocHolds(h: Heap, g: Area, ptr: nat, size: nat, n: nat)
    requires Sound(h, g) && Live(h.bs, ptr, g) && 0 < size <= SIZE_LIMIT - ALIGN && LeastEnough(n, size, g.min)
    requires !Overruns(h, Some(ptr), size, g)
    ensures var (h', r) := ReallocCode(h, Some(ptr), size, g);
            var was, i := Room(h.bs, ptr, g), IndexAt(h.bs, ptr - g.hd);
            r.Some? ==>
              && Live(h'.bs, r.value, g) && Max(size, g.min) <= Room(h'.bs, r.value, g)
              && (r.value == ptr <==> n <= was || CodeGrows(h.bs, i, n, g))
              && (r.value == ptr ==> Room(h'.bs, ptr, g) == if n <= was <= n + g.hd + g.min then was else n)
              && (r.value != ptr ==> Room(h'.bs, r.value, g) < n + g.hd + g.min)
  {
    hide AllocSpec, FreeSpec, GrownHeap, ShrunkHeap, Request, TestPasses, Live, BlockAt, Sound, UsedSet, CodeGrows,
      Room,
      Overruns, IndexAt, LeastEnough;
    LeastIs(size, n, g);
    RequestAgain(size, g);
    WholeRooms(h, g, ptr);
    var i := IndexAt(h.bs, ptr - g.hd);
    if n > h.bs[i].Payload(g) {
      if CodeGrows(h.bs, i, n, g) { GrownRoom(h, g, ptr, n, size); } else { MovedRoom(h, g, ptr, n); }
    } else if n + g.hd + g.min < h.bs[i].Payload(g) {
      CutRoom(h, g, ptr, n);
    }
  }

  lemma LeastIs(size: nat, n: nat, g: Area)
    requires size <= SIZE_LIMIT - ALIGN && LeastEnough(n, size, g.min)
    ensures n == Request(size, g) && n % ALIGN == 0 && Max(size, g.min) <= n
  {
    hide Request;
    RequestIsLeast(size, g);
  }

  lemma CutRoom(h: Heap, g: Area, ptr: nat, n: nat)
    requires Sound(h, g) && Live(h.bs, ptr, g) && n % ALIGN == 0 && n + g.hd + g.min < Room(h.bs, ptr, g)
    ensures var h' := ShrunkHeap(h, IndexAt(h.bs, ptr - g.hd), n, g); Live(h'.bs, ptr, g) && Room(h'.bs, ptr, g) == n
  {
    hide ShrunkHeap, Sound, UsedSet, IndexAt;
    LiveAt(h.bs, ptr, g);
    ShrinkMeaning(h, g, ptr, n);
  }

  lemma WholeRooms(h: Heap, g: Area, ptr: nat)
    requires Sound(h, g) && Live(h.bs, ptr, g)
    ensures var i := IndexAt(h.bs, ptr - g.hd);
            && i < |h.bs| && h.bs[i].used && Room(h.bs, ptr, g) == h.bs[i].Payload(g) >= 0
            && (i + 1 < |h.bs| ==> h.bs[i + 1].Payload(g) >= 0)
  {
    hide IndexAt;
    LiveAt(h.bs, ptr, g);
  }

  lemma GrownRoom(h: Heap, g: Area, ptr: nat, n: nat, size: nat)
    requires Sound(h, g) && Live(h.bs, ptr, g) && 0 < size && n == Request(size, g) && n % ALIGN == 0
    requires !Overruns(h, Some(ptr), size, g)
    requires var i := IndexAt(h.bs, ptr - g.hd); h.bs[i].Payload(g) < n && CodeGrows(h.bs, i, n, g)
    ensures var h' := GrownHeap(h, IndexAt(h.bs, ptr - g.hd), n, g); Live(h'.bs, ptr, g) && Room(h'.bs, ptr, g) == n
  {
    hide GrownHeap, Request, TestPasses, Sound, UsedSet, IndexAt;
    LiveAt(h.bs, ptr, g);
    GrowMeaning(h, g, ptr, n);
  }

  lemma MovedRoom(h: Heap, g: Area, ptr: nat, n: nat)
    requires Sound(h, g) && Live(h.bs, ptr, g) && n < SIZE_LIMIT && Request(n, g) == n
    ensures var (h1, r) := AllocSpec(h, n, g);
            r.Some? ==>
              var h2 := FreeSpec(h1, Some(ptr), g);
              && Live(h2.bs, r.value, g) && r.value != ptr
              && n <= Room(h2.bs, r.value, g) < n + g.hd + g.min
  {
    hide AllocSpec, FreePayload, FreeAddrs, NoFreePair, Aligned, Request, Distinct, IndexAt, Tiled, Elems, UsedSet;
    MovesAway(h, g, ptr, n);
    AllocMeaning(h, g, n);
    MoveMeaning(h, g, ptr, n);
    var (h1, r) := AllocSpec(h, n, g);
    if r.Some? { KeptByFree(h1, g, ptr, r.value); }
  }

  /** A release leaves the other live blocks as they are. */
  lemma KeptByFree(h: Heap, g: Area, ptr: nat, q: nat)
    requires Sound(h, g) && Live(h.bs, ptr, g) && Live(h.bs, q, g) && q != ptr
    ensures var h' := FreeSpec(h, Some(ptr), g); Live(h'.bs, q, g) && BlockAt(h'.bs, q, g) == BlockAt(h.bs, q, g)
  {
    hide FreeSpec, FreePayload, FreeAddrs, NoFreePair, Aligned, Distinct, IndexAt, Elems;
    FreeMeaning(h, g, ptr);
    LiveIsBlock(h.bs, g, q);
    LiveIsBlock(h.bs, g, ptr);
    BlockIsAt(FreeSpec(h, Some(ptr), g).bs, g, BlockAt(h.bs, q, g));
  }

  /** Resizing a null pointer allocates, except that size zero gets nothing. */
  lemma ReallocNullIsAlloc(h: Heap, g: Area, size: nat)
    requires size < SIZE_LIMIT
    ensures ReallocCode(h, None, size, g) == if size == 0 then (h, None) else AllocSpec(h, size, g)
  {
    hide Request;
    RequestAgain(size, g);
  }

  /** No call overruns in a pool of less than 2^31 bytes, unless the request is within 12 bytes of 2^64. */
  lemma SmallPoolSafe(h: Heap, g: Area, ptr: Option<nat>, size: nat)
    requires Sound(h, g) && Counted(g) && PoolSize(g) < 0x8000_0000 && Request(size, g) + g.min < SIZE_LIMIT
    ensures !Overruns(h, ptr, size, g)
  {
    hide FreePayload, FreeAddrs, NoFreePair, Aligned, Request, Distinct, IndexAt;
    if Tested(h, ptr, size, g) {
      var i := IndexAt(h.bs, ptr.value - g.hd);
      RoomCounted(h.bs, g, i);
      WithinEnd(h.bs, g, i + 1);
      SmallRoomSeen(h.bs[i].Payload(g), h.bs[i + 1].Payload(g), Request(size, g), g);
      TestExactIff(h.bs[i].Payload(g), h.bs[i + 1].Payload(g), Request(size, g), g);
    }
  }

  // ----- Whole runs

  datatype Op = Malloc(size: nat) | Resize(ptr: Option<nat>, size: nat) | Release(ptr: Option<nat>)

  /** What the source demands of a caller: a pointer passed in is null or live. */
  predicate Legal(h: Heap, g: Area, op: Op) {
    match op
    case Malloc(size) => size < SIZE_LIMIT
    case Resize(ptr, size) => size < SIZE_LIMIT && (ptr.Some? ==> Live(h.bs, ptr.value, g))
    case Release(ptr) => ptr.Some? ==> Live(h.bs, ptr.value, g)
  }

  function Step(h: Heap, g: Area, op: Op): Heap {
    match op
    case Malloc(size) => AllocSpec(h, size, g).0
    case Resize(ptr, size) => ReallocCode(h, ptr, size, g).0
    case Release(ptr) => FreeSpec(h, ptr, g)
  }

  function Run(h: Heap, g: Area, ops: seq<Op>): Heap
    decreases |ops|
  {
    if ops == [] then h else Run(Step(h, g, ops[0]), g, ops[1..])
  }

  predicate LegalRun(h: Heap, g: Area, ops: seq<Op>)
    decreases |ops|
  {
    ops == [] || (Legal(h, g, ops[0]) && LegalRun(Step(h, g, ops[0]), g, ops[1..]))
  }

  ghost predicate SafeRun(h: Heap, g: Area, ops: seq<Op>)
    decreases |ops|
  {
    ops == []
        || (!(ops[0].Resize? && Overruns(h, ops[0].ptr, ops[0].size, g)) && SafeRun(Step(h, g, ops[0]), g, ops[1..]))
  }

  /** The heap is sound before every call of the run and at its end. */
  ghost predicate SoundRun(h: Heap, g: Area, ops: seq<Op>)
    decreases |ops|
  {
    Sound(h, g) && (ops == [] || SoundRun(Step(h, g, ops[0]), g, ops[1..]))
  }

  lemma StepSoundIff(h: Heap, g: Area, op: Op)
    requires Sound(h, g) && Counted(g) && Legal(h, g, op)
    ensures Sound(Step(h, g, op), g) <==> !(op.Resize? && Overruns(h, op.ptr, op.size, g))
  {
    hide Sound, FreePayload, AllocSpec, FreeSpec, ReallocCode, Overruns, Live;
    match op {
      case Malloc(size) => AllocMeaning(h, g, size);
      case Release(ptr) => if ptr.Some? { FreeMeaning(h, g, ptr.value); } else { FreeNull(h, g); }
      case Resize(ptr, size) => SoundIff(h, g, ptr, size);
    }
  }

  /**
   The invariant lasts through a run of calls exactly if none of them overruns: the blocks tile
   the pool without two free neighbours and the free list holds exactly the free blocks.
   */
  lemma {:induction false} RunKeepsIff(h: Heap, g: Area, ops: seq<Op>)
    requires Sound(h, g) && Counted(g) && LegalRun(h, g, ops)
    ensures SoundRun(h, g, ops) <==> SafeRun(h, g, ops)
    decreases |ops|
  {
    hide Sound, Step, Legal, Overruns, Counted;
    if ops != [] {
      StepSoundIff(h, g, ops[0]);
      if Sound(Step(h, g, ops[0]), g) {
        RunKeepsIff(Step(h, g, ops[0]), g, ops[1..]);
      } else {
        NotSound(Step(h, g, ops[0]), g, ops[1..]);
      }
    }
  }

  lemma NotSound(h: Heap, g: Area, ops: seq<Op>)
    requires !Sound(h, g)
    ensures !SoundRun(h, g, ops)
  {
  }

  /** After every safe run, then, the pool accounts for every byte. */
  lemma {:induction false} RunKeeps(h: Heap, g: Area, ops: seq<Op>)
    requires Sound(h, g) && Counted(g) && LegalRun(h, g, ops) && SafeRun(h, g, ops)
    ensures var h' := Run(h, g, ops);
            Sound(h', g) && PoolSize(g) - FreePayload(h'.bs, g) == UsedPayload(h'.bs, g) + g.hd * (|h'.bs| + 1)
    decreases |ops|
  {
    hide Sound, FreePayload, UsedPayload, Step, Legal, Overruns, Counted;
    if ops == [] {
      PoolAccounts(h, g);
    } else {
      StepSoundIff(h, g, ops[0]);
      RunKeeps(Step(h, g, ops[0]), g, ops[1..]);
    }
  }

  // ----- The greatest use

  /** The bytes of the pool that are not free payload. */
  function Level(h: Heap, g: Area): int { PoolSize(g) - FreePayload(h.bs, g) }

  /** The most bytes in use at any moment of a call; a block that moves is there twice for a while. */
  function PeakOfStep(h: Heap, g: Area, op: Op): int {
    match op
    case Malloc(size) => Level(Step(h, g, op), g)
    case Release(_) => Level(h, g)
    case Resize(ptr, size) =>
      if size == 0 then Level(h, g)
      else if ReallocCode(h, ptr, size, g).1 == ptr then Max(Level(h, g), Level(Step(h, g, op), g))
      else Level(AllocSpec(h, size, g).0, g)
  }

  function Peak(h: Heap, g: Area, ops: seq<Op>): int
    decreases |ops|
  {
    if ops == [] then Level(h, g) else Max(PeakOfStep(h, g, ops[0]), Peak(Step(h, g, ops[0]), g, ops[1..]))
  }

  lemma StepPeak(h: Heap, g: Area, op: Op)
    requires Sound(h, g) && Counted(g) && Legal(h, g, op) && Sound(Step(h, g, op), g)
    ensures Step(h, g, op).max == Max(h.max, PeakOfStep(h, g, op))
  {
    hide FreePayload, FreeAddrs, NoFreePair, Aligned, AllocSpec, Distinct, Elems, Tiled, Live, ReallocCode, FreeSpec;
    match op {
      case Malloc(size) => AllocMeaning(h, g, size);
      case Release(ptr) => if ptr.Some? { FreeMeaning(h, g, ptr.value); } else { FreeNull(h, g); }
      case Resize(ptr, size) =>
        AllocMeaning(h, g, size);
        if ptr.None? { ReallocNullIsAlloc(h, g, size); }
        else if size == 0 { FreeMeaning(h, g, ptr.value); ResizeZero(h, g, ptr.value); }
        else { ResizePeak(h, g, ptr.value, size); }
    }
  }

  lemma ResizeZero(h: Heap, g: Area, ptr: nat)
    ensures ReallocCode(h, Some(ptr), 0, g) == (FreeSpec(h, Some(ptr), g), None)
  {
  }

  lemma ResizePeak(h: Heap, g: Area, ptr: nat, size: nat)
    requires Sound(h, g) && Counted(g) && Live(h.bs, ptr, g) && 0 < size < SIZE_LIMIT
    requires Sound(ReallocCode(h, Some(ptr), size, g).0, g)
    ensures var op := Resize(Some(ptr), size); Step(h, g, op).max == Max(h.max, PeakOfStep(h, g, op))
  {
    hide FreePayload, FreeAddrs, NoFreePair, Aligned, AllocSpec, Distinct, Elems, Tiled, FreeSpec, Request, TestPasses,
      Grown, Shrunk;
    var n, i := Request(size, g), IndexAt(h.bs, ptr - g.hd);
    RequestAgain(size, g);
    AlignUpCovers(size);
    AllocAgain(h, g, size);
    LiveAt(h.bs, ptr, g);
    if n > h.bs[i].Payload(g) {
      if CodeGrows(h.bs, i, n, g) {
        SoundIff(h, g, Some(ptr), size);
        GrowMeaning(h, g, ptr, n);
      } else {
        AllocMeaning(h, g, size);
        MovesAway(h, g, ptr, n);
        MoveMeaning(h, g, ptr, n);
      }
    } else if n + g.hd + g.min < h.bs[i].Payload(g) {
      ShrinkMeaning(h, g, ptr, n);
    }
  }

  lemma AllocAgain(h: Heap, g: Area, size: nat)
    requires size < SIZE_LIMIT
    ensures AllocSpec(h, Request(size, g), g) == AllocSpec(h, size, g)
  {
    RequestAgain(size, g);
  }

  /**
   After every safe run max_used_size is the greatest number of bytes in use at any moment of it, or
   what it was.
   */
  lemma {:induction false} RunPeak(h: Heap, g: Area, ops: seq<Op>)
    requires Sound(h, g) && Counted(g) && LegalRun(h, g, ops) && SafeRun(h, g, ops)
    ensures Run(h, g, ops).max == Max(h.max, Peak(h, g, ops))
    decreases |ops|
  {
    hide FreePayload, Step, Legal, Overruns, Counted, WellFormed, Aligned, Distinct, Elems, FreeAddrs, PeakOfStep;
    if ops != [] {
      StepSoundIff(h, g, ops[0]);
      StepPeak(h, g, ops[0]);
      RunPeak(Step(h, g, ops[0]), g, ops[1..]);
    }
  }

  // ----- The order of the free list

  /** `a` comes first, and the others keep their order, at most one having left. */
  ghost predicate FrontAdded(fl: seq<int>, fl': seq<int>, a: int) {
    fl' != [] && fl'[0] == a && ShorterBy(fl, fl'[1..])
  }

  ghost predicate ShorterBy(fl: seq<int>, fl': seq<int>) {
    fl' == fl || exists k :: 0 <= k < |fl| && fl' == fl[..k] + fl[k + 1..]
  }

  lemma WithoutShorter(fl: seq<int>, a: int)
    ensures ShorterBy(fl, Without(fl, a))
  {
    if a in fl { WithoutIs(fl, a); }
  }

  /** What an allocation cuts off comes first in the free list; otherwise its block only leaves it. */
  lemma AllocOrder(h: Heap, g: Area, size: nat)
    requires Sound(h, g) && size < SIZE_LIMIT && AllocSpec(h, size, g).1.Some?
    ensures var (h', r) := AllocSpec(h, size, g);
            if |h'.bs| > |h.bs| then FrontAdded(h.fl, h'.fl, r.value + Request(size, g)) else ShorterBy(h.fl, h'.fl)
  {
    hide Request, Without, FreePayload, FreeAddrs, Tiled, NoFreePair, Aligned, Distinct;
    var k := FirstListed(h.bs, h.fl, Request(size, g), g);
    WithoutShorter(h.fl, h.fl[k]);
    TakenLength(h.bs, IndexAt(h.bs, h.fl[k]), Request(size, g), g);
  }

  lemma TakenLength(bs: seq<Block>, i: nat, n: nat, g: Area)
    requires i < |bs|
    ensures |Take(bs, i, n, g)| == if bs[i].Payload(g) >= n + g.hd + g.min then |bs| + 1 else |bs|
  {
  }

  /** What a resize in place leaves free comes first in the free list. */
  lemma ReallocOrder(h: Heap, g: Area, ptr: nat, size: nat)
    requires Sound(h, g) && Live(h.bs, ptr, g) && 0 < size < SIZE_LIMIT && !Overruns(h, Some(ptr), size, g)
    requires var (h', r) := ReallocCode(h, Some(ptr), size, g); r == Some(ptr) && h' != h
    ensures FrontAdded(h.fl, ReallocCode(h, Some(ptr), size, g).0.fl, ptr + Request(size, g))
  {
    hide Request, Without, FreePayload, FreeAddrs, Tiled, NoFreePair, Aligned, Distinct, TestPasses, Shrunk, Grown,
      AllocSpec, FreeSpec;
    LiveAt(h.bs, ptr, g);
    MovesAway(h, g, ptr, Request(size, g));
    var i := IndexAt(h.bs, ptr - g.hd);
    if i + 1 < |h.bs| { WithoutShorter(h.fl, h.bs[i + 1].addr); }
  }

  /** A released block comes first, unless it joins a block before it; then none comes in. */
  lemma FreeOrder(h: Heap, g: Area, ptr: nat)
    requires Sound(h, g) && Live(h.bs, ptr, g)
    ensures var (fl, i) := (FreeSpec(h, Some(ptr), g).fl, IndexAt(h.bs, ptr - g.hd));
            if i == 0 || h.bs[i - 1].used then FrontAdded(h.fl, fl, ptr - g.hd) else ShorterBy(h.fl, fl)
  {
    hide Without, FreePayload, FreeAddrs, Tiled, NoFreePair, Aligned, Distinct, Freed;
    LiveAt(h.bs, ptr, g);
    var i := IndexAt(h.bs, ptr - g.hd);
    if i + 1 < |h.bs| { WithoutShorter(h.fl, h.bs[i + 1].addr); }
  }

  /** A block just released is the first to be handed out again, if it did not join a block before it. */
  lemma FreedReused(h: Heap, g: Area, ptr: nat, size: nat)
    requires Sound(h, g) && Live(h.bs, ptr, g) && size < SIZE_LIMIT && Request(size, g) <= Room(h.bs, ptr, g)
    requires Request(size, g) < FreePayload(FreeSpec(h, Some(ptr), g).bs, g)
    requires var i := IndexAt(h.bs, ptr - g.hd); i == 0 || h.bs[i - 1].used
    ensures AllocSpec(FreeSpec(h, Some(ptr), g), size, g).1 == Some(ptr)
  {
    hide FreePayload, Request, Granted, Sound, UsedSet, Freed, FreedList, Without, FirstListed;
    LiveAt(h.bs, ptr, g);
    var i, h' := IndexAt(h.bs, ptr - g.hd), FreeSpec(h, Some(ptr), g);
    FreeMeaning(h, g, ptr);
    FreedFirst(h, g, i);
    assert h'.bs == Freed(h.bs, i) && h'.fl == FreedList(h.bs, h.fl, i);
    FirstFits(h', g, i, Request(size, g));
  }

  lemma FirstFits(h: Heap, g: Area, i: nat, n: nat)
    requires Sound(h, g) && i < |h.bs| && h.fl != [] && h.fl[0] == h.bs[i].addr && Fits(h.bs[i], n, g)
    ensures FirstListed(h.bs, h.fl, n, g) == 0 && IndexAt(h.bs, h.fl[0]) == i
  {
    hide IndexAt;
    IndexAtUnique(h.bs, g, i);
  }

  /** A released block that joins none before it heads the free list, no shorter than it was. */
  lemma FreedFirst(h: Heap, g: Area, i: nat)
    requires Sound(h, g) && i < |h.bs| && (i == 0 || h.bs[i - 1].used)
    ensures var bs, fl := Freed(h.bs, i), FreedList(h.bs, h.fl, i);
            && i < |bs| && bs[i].addr == h.bs[i].addr && !bs[i].used && bs[i].Payload(g) >= h.bs[i].Payload(g)
            && fl != [] && fl[0] == h.bs[i].addr
  {
    hide FreePayload, FreeAddrs, NoFreePair, Aligned, Distinct, Elems, Without;
    if i + 1 < |h.bs| { FollowsAt(h.bs, g, i); }
  }

  lemma FollowsAt(bs: seq<Block>, g: Area, i: nat)
    requires Tiled(bs, g) && i + 1 < |bs|
    ensures bs[i].next == bs[i + 1].addr
  {
    assert Link(bs, i);
  }

  /** A pool with 2^31 free bytes behind a small block: enlarging the block past them passes the test. */
  const BIG := Area(0x8000_00d4, 56, 12)

  lemma OverrunReached()
    ensures var h, ops := Heap([Block(0, BIG.end, false)], [0], 112), [Malloc(100), Resize(Some(56), 0x9000_0000)];
            && Sound(h, BIG) && Counted(BIG) && LegalRun(h, BIG, ops)
            && !SafeRun(h, BIG, ops) && !Sound(Run(h, BIG, ops), BIG)
  {
    var h := Heap([Block(0, BIG.end, false)], [0], 112);
    var op1, op2 := Malloc(100), Resize(Some(56), 0x9000_0000);
    var ops := [op1, op2];
    OneFree(h);
    var h1 := Step(h, BIG, op1);
    StepSoundIff(h, BIG, op1);
    FirstTaken(h);
    StepSoundIff(h1, BIG, op2);
    assert ops[1..] == [op2] && ops[1..][1..] == [];
    assert Run(h1, BIG, [op2]) == Run(Step(h1, BIG, op2), BIG, [op2][1..]);
  }

  lemma OneFree(h: Heap)
    requires h == Heap([Block(0, BIG.end, false)], [0], 112)
    ensures Sound(h, BIG) && FreePayload(h.bs, BIG) == 0x8000_009c
  {
    FreeOfOne(h.bs[0], BIG);
    assert Elems([0]) == {0};
  }

  lemma FirstTaken(h: Heap)
    requires h == Heap([Block(0, BIG.end, false)], [0], 112) && FreePayload(h.bs, BIG) == 0x8000_009c
    ensures var h1 := Step(h, BIG, Malloc(100));
            && h1.bs == [Block(0, 156, true), Block(156, BIG.end, false)]
            && Live(h1.bs, 56, BIG) && Overruns(h1, Some(56), 0x9000_0000, BIG)
  {
    assert IndexAt(h.bs, 0) == 0 && FitsAt(h.bs, h.fl[0], 100, BIG);
    assert FirstListed(h.bs, h.fl, 100, BIG) == 0;
    var h1 := Step(h, BIG, Malloc(100));
    assert h1.bs == [Block(0, 156, true), Block(156, BIG.end, false)];
    assert IndexAt(h1.bs, 0) == 0;
  }

  lemma FreeNull(h: Heap, g: Area)
    ensures FreeSpec(h, None, g) == h
  {
  }

  lemma ReallocNull(h: Heap, g: Area, size: nat)
    requires Sound(h, g) && size < SIZE_LIMIT
    ensures Sound(ReallocSpec(h, None, size, g).0, g)
  {
    hide Sound, AllocSpec, Request;
    RequestAgain(size, g);
    AllocMeaning(h, g, Request(size, g));
  }
}
