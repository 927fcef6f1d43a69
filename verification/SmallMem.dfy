/**
 The small memory manager of rt-thread/src/mem.c: an address-ordered list of blocks whose
 headers lie in the managed memory itself, first-fit allocation from a cached lowest free
 block, and coalescing on release.
 */
module SmallMem {
  import opened Common
  import opened Blocks
  import opened Payloads
  import opened SmallMemRuns

  /**
   struct rt_small_mem_item. `pool` says that pool_ptr names this manager, `used` is its lowest
   bit; offsets are relative to heap_ptr.
   */
  datatype Header = Header(pool: bool, used: bool, next: nat, prev: nat)

  /** SIZEOF_STRUCT_MEM on a 64-bit CPU with memory tracing on. */
  const HDR: header := 40
  /** MIN_SIZE_ALIGNED on a 64-bit CPU. */
  const MIN: words := 24

  // ----- Headers that spell out a block sequence

  ghost predicate HeaderOf(hdr: map<nat, Header>, bs: seq<Block>, i: int)
    requires 0 <= i < |bs|
  {
    && bs[i].addr in hdr
    && hdr[bs[i].addr] == Header(true, bs[i].used, bs[i].next, if i == 0 then 0 else bs[i - 1].addr)
  }

  /** The end marker is in use and points at itself; its `prev` is not kept up to date. */
  ghost predicate EndMarker(hdr: map<nat, Header>, g: Area) {
    g.end in hdr && hdr[g.end].pool && hdr[g.end].used && hdr[g.end].next == g.end
  }

  ghost predicate Spells(hdr: map<nat, Header>, bs: seq<Block>, g: Area) {
    (forall i :: 0 <= i < |bs| ==> HeaderOf(hdr, bs, i)) && EndMarker(hdr, g)
  }

  // ----- Header updates and the sequence they spell

  /** Marking block `i` used or free. */
  lemma MarkSpells(hdr: map<nat, Header>, bs: seq<Block>, g: Area, i: nat, u: bool)
    requires Tiled(bs, g) && Spells(hdr, bs, g) && i < |bs|
    ensures HeaderOf(hdr, bs, i)
    ensures Spells(hdr[bs[i].addr := hdr[bs[i].addr].(pool := true, used := u)], bs[i := bs[i].(used := u)], g)
  {
    assert HeaderOf(hdr, bs, i);
    var cs := bs[i := bs[i].(used := u)];
    var h := hdr[bs[i].addr := hdr[bs[i].addr].(pool := true, used := u)];
    forall j | 0 <= j < |cs| ensures HeaderOf(h, cs, j) {
      assert HeaderOf(hdr, bs, j);
      if j < i { Ordered(bs, g, j, i); } else if i < j { Ordered(bs, g, i, j); }
    }
    WithinEnd(bs, g, i);
  }

  /** The three stores with which plug_holes folds the block at `n` into the block at `m` before it. */
  function Folded(hdr: map<nat, Header>, m: nat, n: nat): map<nat, Header>
    requires m in hdr && n in hdr && hdr[n].next in hdr
  {
    var nn := hdr[n].next;
    var h1 := hdr[n := hdr[n].(pool := false, used := false)];
    var h2 := h1[m := h1[m].(next := nn)];
    h2[nn := h2[nn].(prev := m)]
  }

  /** The successor of block `i`: another block or the end marker. */
  lemma NextHeader(hdr: map<nat, Header>, bs: seq<Block>, g: Area, i: nat)
    requires Tiled(bs, g) && Spells(hdr, bs, g) && i < |bs|
    ensures HeaderOf(hdr, bs, i)
    ensures bs[i].next == AddrAt(bs, g, i + 1) && bs[i].next in hdr
    ensures bs[i].next <= g.end && (bs[i].next == g.end <==> i + 1 == |bs|)
    ensures i + 1 < |bs| ==> hdr[bs[i].next].used == bs[i + 1].used && hdr[bs[i].next].next == bs[i + 1].next
    ensures hdr[bs[i].next].pool
  {
    if i + 1 < |bs| {
      assert Link(bs, i) && HeaderOf(hdr, bs, i + 1);
      WithinEnd(bs, g, i + 1);
    }
    assert HeaderOf(hdr, bs, i);
  }

  lemma FoldSpells(hdr: map<nat, Header>, bs: seq<Block>, g: Area, i: nat)
    requires Tiled(bs, g) && Spells(hdr, bs, g) && i + 1 < |bs|
    ensures bs[i].addr in hdr && bs[i].next in hdr && hdr[bs[i].next].next in hdr
    ensures Spells(Folded(hdr, bs[i].addr, bs[i].next), MergeAt(bs, i), g)
  {
    NextHeader(hdr, bs, g, i);
    NextHeader(hdr, bs, g, i + 1);
    var ms, h := MergeAt(bs, i), Folded(hdr, bs[i].addr, bs[i].next);
    forall j | 0 <= j < |ms| ensures HeaderOf(h, ms, j) {
      var k := if j <= i then j else j + 1;
      assert HeaderOf(hdr, bs, k);
      if k < i { Ordered(bs, g, k, i); Ordered(bs, g, i, i + 1); }
      if i + 2 < k { Ordered(bs, g, i + 2, k); }
      if i + 2 < |bs| { Ordered(bs, g, i + 1, i + 2); }
    }
  }

  /** The stores with which a block is cut at `mid`; the end marker is not told about its new predecessor. */
  function Cut(hdr: map<nat, Header>, g: Area, m: nat, mid: nat): map<nat, Header>
    requires m in hdr && hdr[m].next in hdr
  {
    var nn := hdr[m].next;
    var h1 := hdr[mid := Header(true, false, nn, m)];
    var h2 := h1[m := h1[m].(next := mid)];
    if nn != g.end then h2[nn := h2[nn].(prev := mid)] else h2
  }

  lemma CutSpells(hdr: map<nat, Header>, bs: seq<Block>, g: Area, i: nat, size: nat)
    requires Tiled(bs, g) && Spells(hdr, bs, g) && i < |bs| && bs[i].Payload(g) >= size + g.hd
    ensures bs[i].addr in hdr && hdr[bs[i].addr].next in hdr
    ensures var h := Cut(hdr, g, bs[i].addr, bs[i].addr + g.hd + size);
            && bs[i].addr in h && h[bs[i].addr].pool && h[bs[i].addr].used == bs[i].used
            && Spells(h[bs[i].addr := h[bs[i].addr].(used := true)], Split(bs, i, size, g), g)
  {
    NextHeader(hdr, bs, g, i);
    var ss := Split(bs, i, size, g);
    var h0 := Cut(hdr, g, bs[i].addr, bs[i].addr + g.hd + size);
    var h := h0[bs[i].addr := h0[bs[i].addr].(used := true)];
    forall j | 0 <= j < |ss| ensures HeaderOf(h, ss, j) {
      var k := if j <= i then j else j - 1;
      assert HeaderOf(hdr, bs, k);
      if k < i { Ordered(bs, g, k, i); }
      if i + 1 < k { Ordered(bs, g, i + 1, k); }
      if i < k { Ordered(bs, g, i, k); }
    }
  }

  // ----- The lowest free block

  lemma FirstFreeIs(bs: seq<Block>, k: nat)
    requires k <= |bs| && (k < |bs| ==> !bs[k].used) && forall j :: 0 <= j < k ==> bs[j].used
    ensures FirstFree(bs) == k
  {
  }

  lemma FoldLowest(bs: seq<Block>, g: Area, i: nat)
    requires Tiled(bs, g) && i + 1 < |bs| && !bs[i].used && !bs[i + 1].used
    ensures AddrAt(bs, g, FirstFree(bs)) <= bs[i].addr < bs[i].next
    ensures AddrAt(MergeAt(bs, i), g, FirstFree(MergeAt(bs, i))) == AddrAt(bs, g, FirstFree(bs))
  {
    hide FirstFree, Link;
    if FirstFree(bs) < i { Ordered(bs, g, FirstFree(bs), i); }
    SameLowest(bs, g, i, MergeAt(bs, i));
  }

  lemma SameLowest(bs: seq<Block>, g: Area, i: nat, ms: seq<Block>)
    requires i < |bs| && i < |ms| && !bs[i].used && !ms[i].used && bs[i].addr == ms[i].addr
    requires forall j :: 0 <= j < i ==> bs[j] == ms[j]
    ensures FirstFree(bs) <= i && AddrAt(ms, g, FirstFree(ms)) == AddrAt(bs, g, FirstFree(bs))
  {
    hide FirstFree;
    FirstFreeIs(ms, FirstFree(bs));
  }

  // ----- Setting up

  /** RT_ALIGN_DOWN in rt_ubase_t arithmetic. */
  function AlignDown(a: nat): nat { a % SIZE_LIMIT - a % SIZE_LIMIT % ALIGN }

  /**
   What rt_smem_init finds room for in `size` bytes at address `begin`: the payload bytes of the
   whole area, behind a record of `record` bytes and between two headers; or nothing.
   */
  function RoomFound(begin: nat, size: nat, record: nat): Option<nat> {
    var start := (AlignUp(begin) + record) % SIZE_LIMIT;
    var end := AlignDown(begin + size);
    if end > 2 * HDR && end - 2 * HDR >= start then Some((end - AlignUp(start) - 2 * HDR) % SIZE_LIMIT) else None
  }

  /**
   The record and the area found lie in the memory given, aligned, and use it up to its last
   word. Nothing is found exactly if not even an empty area fits, or the memory reaches the last
   address there is.
   */
  lemma RoomFoundIff(begin: nat, size: nat, record: nat)
    requires 0 < size && begin + size <= SIZE_LIMIT
    requires 0 < record && record % ALIGN == 0 && begin + record < SIZE_LIMIT - 2 * ALIGN
    ensures var low, end := AlignUp(begin) + record, begin + size - (begin + size) % ALIGN;
            match RoomFound(begin, size, record)
            case None => begin + size == SIZE_LIMIT || low + 2 * HDR > end
            case Some(memSize) =>
              memSize % ALIGN == 0 == low % ALIGN && begin + record <= low
                  && low + memSize + 2 * HDR == end <= begin + size
  {
    hide AlignUp, AlignDown;
    LowAligned(begin, record);
    EndAligned(begin + size);
    var low, end := AlignUp(begin) + record, begin + size - (begin + size) % ALIGN;
    if begin + size < SIZE_LIMIT && low + 2 * HDR <= end { NoTurn(end - low - 2 * HDR); }
  }

  lemma LowAligned(begin: nat, record: nat)
    requires record % ALIGN == 0 && begin + record < SIZE_LIMIT - 2 * ALIGN
    ensures var low := AlignUp(begin) + record;
            begin + record <= low < SIZE_LIMIT && low % ALIGN == 0 && low % SIZE_LIMIT == low && AlignUp(low) == low
  {
    hide AlignUp;
    var low := AlignUp(begin) + record;
    AlignUpCovers(begin);
    NoTurn(low);
    Multiples(AlignUp(begin), record);
    AlignUpCovers(low);
    Closest(low, AlignUp(low));
  }

  lemma Multiples(x: nat, y: nat)
    requires x % ALIGN == 0 == y % ALIGN
    ensures (x + y) % ALIGN == 0
  {
  }

  /** Two multiples less than one unit apart are the same. */
  lemma Closest(x: nat, y: nat)
    requires x % ALIGN == 0 == y % ALIGN && x <= y < x + ALIGN
    ensures x == y
  {
  }

  lemma EndAligned(end: nat)
    requires end <= SIZE_LIMIT
    ensures AlignDown(end) == if end == SIZE_LIMIT then 0 else end - end % ALIGN
  {
  }

  lemma NoTurn(x: nat)
    requires x < SIZE_LIMIT
    ensures x % SIZE_LIMIT == x
  {
  }

  // ----- The manager

  class Allocator {
    /** mem_size_aligned. */
    const memSize: nat
    const g := Area(memSize + HDR, HDR, MIN)
    /** The bytes at heap_ptr. Headers lie among them: a header store overwrites HDR bytes. */
    const mem: array<byte>
    /** The headers readable at each offset. */
    var hdr: map<nat, Header>
    var lfree: nat
    var used: int
    var max: int
    ghost var blocks: seq<Block>

    /** The offset of heap_end. */
    function End(): nat { memSize + HDR }

    ghost predicate Laid()
      reads this
    {
      mem.Length == End() + HDR && Tiled(blocks, g) && Aligned(blocks) && Spells(hdr, blocks, g)
    }

    /** Everything the invariant says, except that free neighbours are merged and bytes counted. */
    ghost predicate Shaped()
      reads this
    {
      Laid() && lfree == AddrAt(blocks, g, FirstFree(blocks))
    }

    ghost predicate Valid()
      reads this
    {
      Shaped() && NoFreePair(blocks) && 0 <= used == UsedBytes(blocks) <= max
    }

    ghost function Model(): Heap
      reads this
    {
      Heap(blocks, max)
    }

    constructor (memSize: nat)
      requires memSize % ALIGN == 0
      ensures Valid() && this.memSize == memSize && fresh(mem)
      ensures Model() == Heap([Block(0, memSize + HDR, false)], 0)
    {
      var end := memSize + HDR;
      this.memSize := memSize;
      mem := new byte[end + HDR];
      hdr := map[0 := Header(true, false, end, 0), end := Header(true, true, end, end)];
      lfree := 0;
      used, max := 0, 0;
      blocks := [Block(0, end, false)];
      new;
      assert HeaderOf(hdr, blocks, 0);
      assert UsedBytes(blocks) == UsedBytes(blocks[1..]);
    }

    method SetHeader(off: nat, h: Header)
      requires off + HDR <= mem.Length
      modifies `hdr, mem
      ensures hdr == old(hdr)[off := h]
      ensures forall p :: 0 <= p < mem.Length && !(off <= p < off + HDR) ==> mem[p] == old(mem[p])
    {
      hdr := hdr[off := h];
      for k := 0 to HDR
        invariant hdr == old(hdr)[off := h]
        invariant forall p :: 0 <= p < mem.Length && !(off <= p < off + HDR) ==> mem[p] == old(mem[p])
      {
        mem[off + k] := *;
      }
    }

    /** One half of plug_holes: the free block at `m` swallows the free block at `n` that follows it. */
    method Absorb(m: nat, n: nat, ghost i: nat)
      requires Laid() && i + 1 < |blocks| && blocks[i].addr == m && blocks[i].next == n
      requires !blocks[i].used && !blocks[i + 1].used
      modifies `hdr, `lfree, `blocks, mem
      ensures Laid() && blocks == MergeAt(old(blocks), i)
      ensures lfree == if old(lfree) == n then m else old(lfree)
      ensures Kept(old(mem[..]), mem[..], UsedSet(old(blocks)), g)
    {
      ghost var bs := blocks;
      NextHeader(hdr, bs, g, i);
      NextHeader(hdr, bs, g, i + 1);
      FoldSpells(hdr, bs, g, i);
      MergeAtTiled(bs, g, i);
      MergeAligned(bs, i);
      HeaderMissesPayload(bs, g, i, m);
      HeaderMissesPayload(bs, g, i + 1, n);
      HeaderMissesPayload(bs, g, i + 2, hdr[n].next);
      if lfree == n {
        lfree := m;
      }
      var nn := hdr[n].next;
      SetHeader(n, hdr[n].(pool := false, used := false));
      SetHeader(m, hdr[m].(next := nn));
      SetHeader(nn, hdr[nn].(prev := m));
      blocks := MergeAt(bs, i);
    }

    /** plug_holes. */
    method PlugHoles(m: nat, ghost i: nat)
      requires Shaped() && i < |blocks| && blocks[i].addr == m && !blocks[i].used
      modifies `hdr, `lfree, `blocks, mem
      ensures Shaped() && blocks == Coalesced(old(blocks), i)
      ensures Kept(old(mem[..]), mem[..], UsedSet(old(blocks)), g)
    {
      ghost var bs := blocks;
      NextHeader(hdr, bs, g, i);
      assert 0 <= m < End();
      // plug hole forward
      var n := hdr[m].next;
      if m != n && !hdr[n].used && n != End() {
        MergeAtUsed(bs, i);
        FoldLowest(bs, g, i);
        Absorb(m, n, i);
      }
      // plug hole backward
      ghost var fs := blocks;
      assert fs[..i] == bs[..i] && !fs[i].used && fs[i].addr == m;
      assert HeaderOf(hdr, fs, i);
      var q := hdr[m].prev;
      if i > 0 {
        assert fs[i - 1] == fs[..i][i - 1] == bs[i - 1];
        assert HeaderOf(hdr, fs, i - 1) && Link(fs, i - 1);
      }
      if q != m && !hdr[q].used {
        FoldLowest(fs, g, i - 1);
        Absorb(q, m, i - 1);
      }
    }

    /** rt_smem_free; the assertions are the source's. */
    method Free(rmem: Option<nat>)
      requires Valid() && (rmem.Some? ==> Live(blocks, rmem.value, g))
      modifies `hdr, `lfree, `used, `blocks, mem
      ensures Valid() && Model() == FreeSpec(old(Model()), rmem, g)
      ensures Kept(old(mem[..]), mem[..], UsedSet(blocks), g)
    {
      hide Coalesced, UsedBytes, UsedSet, FirstFree, Tiled, Aligned, NoFreePairBut, Apart, Link, Guarded, Kept,
        LivePtrs;
      if rmem.None? {
        KeptSelf(mem[..], UsedSet(blocks), g);
        return;
      }
      ghost var i := IndexAt(blocks, rmem.value - HDR);
      ghost var off := blocks[i := blocks[i].(used := false)];
      var m := rmem.value - HDR;
      FreeStep(blocks, g, i, off);
      NextHeader(hdr, blocks, g, i);
      assert hdr[m].pool && hdr[m].used;
      assert hdr[hdr[m].next].pool;
      MarkSpells(hdr, blocks, g, i, false);
      HeaderMissesPayload(off, g, i, m);
      SetHeader(m, hdr[m].(pool := true, used := false));
      ghost var m1 := mem[..];
      StoreKept(old(mem[..]), m1, m, UsedSet(off), g);
      if m < lfree {
        lfree := m;
      }
      used := used - (hdr[m].next - m);
      blocks := off;
      PlugHoles(m, i);
      KeptThrough(old(mem[..]), m1, mem[..], UsedSet(off), g);
    }

    /** Cuts the block at `m` in two: a free block with its header at `mid` takes the rest. */
    method CutBlock(m: nat, mid: nat, ghost i: nat)
      requires Laid() && i < |blocks| && blocks[i].addr == m
      requires m + HDR <= mid && mid + HDR <= blocks[i].next
      modifies `hdr, mem
      ensures m in old(hdr) && old(hdr)[m].next in old(hdr) && hdr == Cut(old(hdr), g, m, mid)
      ensures forall p :: 0 <= p < mem.Length
                          && (Guarded(UsedSet(blocks[i := blocks[i].(used := false)]), p, g) || m + HDR <= p < mid)
                          ==> mem[p] == old(mem[p])
    {
      NextHeader(hdr, blocks, g, i);
      MarkTiled(blocks, g, i, false);
      ghost var off := blocks[i := blocks[i].(used := false)];
      HeaderMissesPayload(off, g, i, m);
      HeaderMissesPayload(off, g, i, mid);
      HeaderMissesPayload(off, g, i + 1, blocks[i].next);
      SetHeader(mid, Header(true, false, hdr[m].next, m));
      SetHeader(m, hdr[m].(next := mid));
      if hdr[mid].next != memSize + HDR {
        SetHeader(hdr[mid].next, hdr[hdr[mid].next].(prev := mid));
      }
    }

    /** Hands out the free block at `ptr`, which has room for `n` bytes. */
    method Grant(ptr: nat, n: nat, ghost i: nat)
      requires Valid() && i < |blocks| && blocks[i].addr == ptr && Fits(blocks[i], n, g) && n % ALIGN == 0
      modifies `hdr, `lfree, `used, `max, `blocks, mem
      ensures Valid() && blocks == Take(old(blocks), i, n, g) && max == Max(old(max), UsedBytes(blocks))
      ensures Kept(old(mem[..]), mem[..], UsedSet(old(blocks)), g)
    {
      hide UsedBytes, UsedSet, FirstFree, Tiled, Aligned, Apart, Link, Cut, MergeAt, Coalesced;
      ghost var bs, ts := blocks, Take(blocks, i, n, g);
      NextHeader(hdr, bs, g, i);
      TakeLowest(bs, g, i, n);
      TakeMeaning(bs, g, i, n, ts[i]);
      TakeAligned(bs, i, n, g);
      HeaderMissesPayload(bs, g, i, ptr);
      assert bs == bs[i := bs[i].(used := false)];
      if hdr[ptr].next - (ptr + HDR) >= n + HDR + MIN {
        var ptr2 := ptr + HDR + n;
        CutSpells(hdr, bs, g, i, n);
        CutBlock(ptr, ptr2, i);
        used := used + n + HDR;
      } else {
        MarkSpells(hdr, bs, g, i, true);
        used := used + (hdr[ptr].next - ptr);
      }
      if max < used {
        max := used;
      }
      SetHeader(ptr, hdr[ptr].(pool := true, used := true));
      blocks := ts;
      if ptr == lfree {
        AdvanceLowest(i);
      }
    }

    /** Moves lfree from a block that is in use to the next free one. */
    method AdvanceLowest(ghost i: nat)
      requires Laid() && i < |blocks| && lfree == blocks[i].addr && forall j :: 0 <= j < i ==> blocks[j].used
      modifies `lfree
      ensures Shaped()
    {
      ghost var k := i;
      NextHeader(hdr, blocks, g, k);
      while hdr[lfree].used && lfree != End()
        invariant i <= k <= |blocks| && lfree == AddrAt(blocks, g, k)
        invariant lfree in hdr && (k < |blocks| ==> hdr[lfree].used == blocks[k].used)
        invariant k == |blocks| ==> hdr[lfree].used
        invariant forall j :: 0 <= j < k ==> blocks[j].used
        decreases |blocks| - k
      {
        assert k < |blocks|;
        NextHeader(hdr, blocks, g, k);
        lfree := hdr[lfree].next;
        k := k + 1;
      }
      if k < |blocks| { WithinEnd(blocks, g, k); }
      FirstFreeIs(blocks, k);
      assert lfree == End() || !hdr[lfree].used;
    }

    /** rt_smem_alloc. */
    method Alloc(size: nat) returns (r: Option<nat>)
      requires Valid() && size < SIZE_LIMIT
      modifies `hdr, `lfree, `used, `max, `blocks, mem
      ensures Valid() && (Model(), r) == AllocSpec(old(Model()), size, g)
      ensures Kept(old(mem[..]), mem[..], UsedSet(old(blocks)), g)
    {
      hide UsedBytes, UsedSet, Take, Apart, Link, Guarded, Aligned, Kept, HeaderOf, NoFreePair;
      KeptSelf(mem[..], UsedSet(blocks), g);
      if size == 0 {
        return None;
      }
      var n := AlignUp(size);
      if n < MIN {
        n := MIN;
      }
      AlignUpCovers(size);
      if n > memSize {
        NoneFits(blocks, g, n, |blocks|);
        return None;
      }
      var ptr := lfree;
      ghost var i := FirstFree(blocks);
      while ptr <= memSize - n
        invariant unchanged(this) && mem[..] == old(mem[..]) && Valid()
        invariant 0 <= i <= |blocks| && ptr == AddrAt(blocks, g, i)
        invariant forall j :: 0 <= j < i ==> !Fits(blocks[j], n, g)
        decreases |blocks| - i
      {
        assert i < |blocks|;
        NextHeader(hdr, blocks, g, i);
        if !hdr[ptr].used && hdr[ptr].next - (ptr + HDR) >= n {
          assert FirstFit(blocks, n, g) == i;
          Grant(ptr, n, i);
          return Some(ptr + HDR);
        }
        ptr := hdr[ptr].next;
        i := i + 1;
      }
      NoneFits(blocks, g, n, i);
      return None;
    }

    /** The part of rt_smem_realloc that cuts the block at `m` down to `n` bytes. */
    method Shrink(m: nat, n: nat, ghost i: nat)
      requires Valid() && i < |blocks| && blocks[i].addr == m && blocks[i].used
      requires n % ALIGN == 0 && n + HDR + MIN < blocks[i].Payload(g)
      modifies `hdr, `lfree, `used, `blocks, mem
      ensures Valid() && blocks == Shrunk(old(blocks), i, n, g) && max == old(max)
      ensures Kept(old(mem[..]), mem[..], UsedSet(blocks), g)
    {
      hide UsedBytes, UsedSet, FirstFree, Tiled, Aligned, Apart, Link, Cut, MergeAt, Coalesced, HeaderOf;
      ghost var bs, ss := blocks, Split(blocks, i, n, g);
      ShrinkStep(bs, g, i, n);
      SplitLowest(bs, g, i, n);
      NextHeader(hdr, bs, g, i);
      CutSpells(hdr, bs, g, i, n);
      used := used - (hdr[m].next - m - HDR - n);
      var mid := m + HDR + n;
      CutBlock(m, mid, i);
      assert hdr == hdr[m := hdr[m].(used := true)];
      blocks := ss;
      if mid < lfree {
        lfree := mid;
      }
      PlugHoles(mid, i + 1);
    }

    /** The part of rt_smem_realloc that moves the block at `ptr` to a new one. */
    method Move(ptr: nat, size: nat, n: nat) returns (r: Option<nat>)
      requires Valid() && Live(blocks, ptr, g) && 0 < n < SIZE_LIMIT && AlignUp(n) == n
      requires size == Room(blocks, ptr, g)
      modifies `hdr, `lfree, `used, `max, `blocks, mem
      ensures Valid()
      ensures var (h1, r1) := AllocSpec(old(Model()), n, g);
              r == r1 && Model() == if r.None? then h1 else FreeSpec(h1, Some(ptr), g)
      ensures Kept(old(mem[..]), mem[..], UsedSet(old(blocks)) * UsedSet(blocks), g)
      ensures r.Some? ==> Carried(old(mem[..]), mem[..], ptr, r.value, Min(size, n))
    {
      hide UsedSet, AlignUp, Live, AllocSpec, FreeSpec, BlockAt, Kept, Copied, Carried, GivesWay, UsedBytes, Tiled,
        NoFreePair, Aligned, Spells;
      assert mem.Length == g.end + HDR && Sound(Model(), g);
      hide Valid, Sound;
      ghost var h, m0 := Model(), mem[..];
      r := Alloc(n);
      if r.Some? {
        ghost var h1, m1 := Model(), mem[..];
        ghost var us, vs, b, c := MoveFacts(h, h1, g, ptr, n, r.value, |m0|);
        var len := if size < n then size else n;
        CopyRoom(us, vs, b, c, len, |m0|, g);
        Copy(r.value, ptr, len);
        ghost var m2 := mem[..];
        Free(Some(ptr));
        ghost var m3 := mem[..];
        CopyKept(m0, m1, m2, m3, us, vs, b, c, ptr, r.value, len, g);
      } else {
        KeptFewer(m0, mem[..], UsedSet(h.bs), UsedSet(blocks), g);
      }
    }

    /** rt_memcpy between two payloads that do not overlap. */
    method Copy(dst: nat, src: nat, len: nat)
      requires dst + len <= mem.Length && src + len <= mem.Length && (dst + len <= src || src + len <= dst)
      modifies mem
      ensures mem[..] == Copied(old(mem[..]), dst, src, len)
    {
      ghost var m0 := mem[..];
      for k := 0 to len
        invariant mem[..] == Copied(m0, dst, src, k)
      {
        CopiedNext(m0, dst, src, k);
        assert mem[..][src + k] == m0[src + k];
        mem[dst + k] := mem[src + k];
      }
    }

    /** rt_smem_realloc on a block in use, with the size already aligned. */
    method Resize(ptr: nat, n: nat) returns (r: Option<nat>)
      requires Valid() && Live(blocks, ptr, g) && 0 < n < SIZE_LIMIT && AlignUp(n) == n && n <= memSize
      modifies `hdr, `lfree, `used, `max, `blocks, mem
      ensures Valid() && (Model(), r) == ResizeSpec(old(Model()), ptr, n, g)
      ensures Kept(old(mem[..]), mem[..], UsedSet(old(blocks)) * UsedSet(blocks), g)
      ensures r.Some? ==> Carried(old(mem[..]), mem[..], ptr, r.value, Min(Room(old(blocks), ptr, g), n))
    {
      hide UsedBytes, UsedSet, FirstFit, Take, Freed, Shrunk, FirstFree, AllocSpec, FreeSpec, Kept, HeaderOf, Tiled,
        Aligned, AddrAt, NoFreePair;
      ghost var m0, us := mem[..], UsedSet(blocks);
      var m := ptr - HDR;
      ghost var i := IndexAt(blocks, m);
      BlockHeader(hdr, blocks, g, ptr);
      var payload := hdr[m].next - m - HDR;
      if payload == n {
        KeptSelf(m0, us * us, g);
        return Some(ptr);
      }
      if n + HDR + MIN < payload {
        AlignUpCovers(n);
        ShrunkMeaning(blocks, g, i, n);
        Shrink(m, n, i);
        KeptBlock(m0, mem[..], UsedSet(blocks), Block(m, m + HDR + n, true), n, g);
        KeptFewer(m0, mem[..], UsedSet(blocks), us, g);
        assert UsedSet(blocks) * us == us * UsedSet(blocks);
        return Some(ptr);
      }
      r := Move(ptr, payload, n);
    }

    /**
     rt_smem_realloc. The first bytes of the block survive, every other live block keeps all its
     bytes, and a request that fails leaves the old block as it was.
     */
    method Realloc(rmem: Option<nat>, size: nat) returns (r: Option<nat>)
      requires Valid() && size < SIZE_LIMIT && (rmem.Some? ==> Live(blocks, rmem.value, g))
      modifies `hdr, `lfree, `used, `max, `blocks, mem
      ensures Valid() && (Model(), r) == ReallocSpec(old(Model()), g, rmem, size)
      ensures Kept(old(mem[..]), mem[..], UsedSet(old(blocks)) * UsedSet(blocks), g)
      ensures rmem.Some? && r.Some? ==>
                Carried(old(mem[..]), mem[..], rmem.value, r.value,
                    Min(Room(old(blocks), rmem.value, g), AlignUp(size)))
    {
      hide UsedBytes, UsedSet, AllocSpec, FreeSpec, ResizeSpec, Kept, Live, Tiled, Aligned, Spells, NoFreePair,
        FirstFree;
      var n := AlignUp(size);
      AlignUpCovers(size);
      ghost var m0, us := mem[..], UsedSet(blocks);
      if n > memSize {
        KeptSelf(m0, us * us, g);
        return None;
      }
      if n == 0 {
        Free(rmem);
        KeptFewer(m0, mem[..], UsedSet(blocks), us, g);
        assert UsedSet(blocks) * us == us * UsedSet(blocks);
        return None;
      }
      if rmem.None? {
        r := Alloc(n);
        KeptFewer(m0, mem[..], us, UsedSet(blocks), g);
        return;
      }
      r := Resize(rmem.value, n);
    }
  }

  /** The header in front of a live payload. */
  lemma BlockHeader(hdr: map<nat, Header>, bs: seq<Block>, g: Area, ptr: int)
    requires Tiled(bs, g) && Spells(hdr, bs, g) && Live(bs, ptr, g)
    ensures var b, i := BlockAt(bs, ptr, g), IndexAt(bs, ptr - g.hd);
            && i < |bs| && b == bs[i] && b.used && b.addr + g.hd == ptr && b.next <= g.end && 0 <= b.Payload(g)
            && b.addr in hdr && hdr[b.addr].next == b.next
  {
    NextHeader(hdr, bs, g, IndexAt(bs, ptr - g.hd));
  }

  /** The blocks involved in a move from `ptr` to `q`: old block `b`, new block `c`. */
  lemma MoveFacts(h: Heap, h1: Heap, g: Area, ptr: nat, n: nat, q: nat, top: int)
    returns (us: set<Block>, vs: set<Block>, b: Block, c: Block)
    requires Sound(h, g) && Live(h.bs, ptr, g) && 0 < n < SIZE_LIMIT && AlignUp(n) == n
    requires AllocSpec(h, n, g) == (h1, Some(q)) && top >= g.end
    ensures us == UsedSet(h.bs) && vs == UsedSet(FreeSpec(h1, Some(ptr), g).bs)
    ensures Live(h1.bs, ptr, g) && b.addr + g.hd == ptr && c.addr + g.hd == q
    ensures GivesWay(us, vs, b, c, Min(Room(h.bs, ptr, g), n), top, g)
  {
    hide UsedBytes, FirstFit, Take, Freed, Aligned, NoFreePair, IndexAt, AlignUp, Link, AllocSpec, FreeSpec;
    AllocMeaning(h, g, n);
    MoveMeaning(h, g, ptr, n);
    LiveWithin(h.bs, g, ptr);
    LiveWithin(h1.bs, g, q);
    b, c := BlockAt(h.bs, ptr, g), BlockAt(h1.bs, q, g);
    us, vs := UsedSet(h.bs), UsedSet(FreeSpec(h1, Some(ptr), g).bs);
    ApartFromAll(h1.bs, g, c);
    assert forall d :: d in us ==> d in UsedSet(h1.bs);
  }

  /** What a resize in place means for the counters, before neighbours are merged. */
  lemma ShrinkStep(bs: seq<Block>, g: Area, i: nat, n: nat)
    requires WellFormed(bs, g) && Aligned(bs) && i < |bs| && bs[i].used
    requires n % ALIGN == 0 && n + g.hd + g.min < bs[i].Payload(g)
    ensures var ss, off := Split(bs, i, n, g), bs[i := bs[i].(used := false)];
            && Tiled(ss, g) && Aligned(ss)
            && UsedSet(ss) == UsedSet(off) + {Block(bs[i].addr, bs[i].addr + g.hd + n, true)}
            && UsedSet(Coalesced(ss, i + 1)) == UsedSet(ss)
    ensures NoFreePair(Coalesced(Split(bs, i, n, g), i + 1))
    ensures 0 <= UsedBytes(Coalesced(Split(bs, i, n, g), i + 1)) == UsedBytes(bs) - (bs[i].Payload(g) - n)
  {
    hide Aligned, UsedSet, UsedBytes, Coalesced, Link, Apart;
    var ss, off := Split(bs, i, n, g), bs[i := bs[i].(used := false)];
    SplitTiled(bs, g, i, n);
    SplitAligned(bs, i, n, g);
    SplitUsed(bs, i, n, g, off);
    SplitApart(bs, i, n, g, ss);
    CoalescedKeeps(ss, g, i + 1);
    ShrunkMeaning(bs, g, i, n);
    UsedBytesBound(Coalesced(ss, i + 1), g, 0);
    assert Coalesced(ss, i + 1)[0..] == Coalesced(ss, i + 1);
  }

  lemma SplitLowest(bs: seq<Block>, g: Area, i: nat, n: nat)
    requires Tiled(bs, g) && i < |bs| && bs[i].used && bs[i].Payload(g) >= n + g.hd
    ensures AddrAt(Split(bs, i, n, g), g, FirstFree(Split(bs, i, n, g)))
         == Min(bs[i].addr + g.hd + n, AddrAt(bs, g, FirstFree(bs)))
  {
    var f := FirstFree(bs);
    FirstFreeIs(Split(bs, i, n, g), if f < i then f else i + 1);
    if f < i {
      Ordered(bs, g, f, i);
    } else {
      if f < |bs| { Ordered(bs, g, i, f); } else { WithinEnd(bs, g, i); }
    }
  }

  /** Where the lowest free block is once block `i` is handed out. */
  lemma TakeLowest(bs: seq<Block>, g: Area, i: nat, n: nat)
    requires Tiled(bs, g) && i < |bs| && Fits(bs[i], n, g)
    ensures var ts := Take(bs, i, n, g);
            && i < |ts| && ts[i].addr == bs[i].addr
            && if bs[i].addr == AddrAt(bs, g, FirstFree(bs)) then forall j :: 0 <= j < i ==> ts[j].used
               else AddrAt(ts, g, FirstFree(ts)) == AddrAt(bs, g, FirstFree(bs))
  {
    var f, ts := FirstFree(bs), Take(bs, i, n, g);
    assert f <= i;
    if f < i {
      Ordered(bs, g, f, i);
      FirstFreeIs(ts, f);
    }
  }

  /** Past the address where the search stops no block has the room. */
  lemma NoneFits(bs: seq<Block>, g: Area, n: nat, i: nat)
    requires Tiled(bs, g) && i <= |bs| && forall j :: 0 <= j < i && n + g.hd <= g.end ==> !Fits(bs[j], n, g)
    requires AddrAt(bs, g, i) + n > g.end - g.hd
    ensures FirstFit(bs, n, g) == |bs|
  {
    var k := FirstFit(bs, n, g);
    if k < |bs| {
      WithinEnd(bs, g, k);
      if i < k { Ordered(bs, g, i, k); }
    }
  }

  /** What freeing block `i` means for the counters, before neighbours are merged. */
  lemma FreeStep(bs: seq<Block>, g: Area, i: nat, off: seq<Block>)
    requires WellFormed(bs, g) && Aligned(bs) && i < |bs| && bs[i].used && off == bs[i := bs[i].(used := false)]
    ensures Tiled(off, g) && Aligned(off) && NoFreePairBut(off, i)
    ensures WellFormed(Coalesced(off, i), g) && UsedSet(Coalesced(off, i)) == UsedSet(off)
    ensures UsedBytes(Coalesced(off, i)) == UsedBytes(bs) - (bs[i].next - bs[i].addr)
    ensures 0 <= UsedBytes(Coalesced(off, i))
    ensures AddrAt(off, g, FirstFree(off)) == Min(bs[i].addr, AddrAt(bs, g, FirstFree(bs)))
  {
    MarkTiled(bs, g, i, false);
    forall j | 0 <= j < |off| - 1 && j != i && j + 1 != i ensures Apart(off, j) { assert Apart(bs, j); }
    CoalescedKeeps(off, g, i);
    assert bs == bs[i := bs[i].(used := true)];
    MarkUsed(bs, g, i, bs, off);
    UsedBytesBound(Coalesced(off, i), g, 0);
    assert Coalesced(off, i)[0..] == Coalesced(off, i);
    var f := FirstFree(bs);
    FirstFreeIs(off, if i < f then i else f);
    if i < f {
      if f < |bs| { Ordered(bs, g, i, f); } else { WithinEnd(bs, g, i); }
    } else if f < i {
      Ordered(bs, g, f, i);
    }
  }
}
