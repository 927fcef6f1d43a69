/**
 A managed area seen as a sequence of adjacent blocks, as the small memory manager
 (rt-thread/src/mem.c) and the memory heap (rt-thread/src/memheap.c) both keep it: what taking,
 releasing, cutting and merging blocks do to the sequence.
 */
module Blocks {
  import opened Common

  /** RT_ALIGN_SIZE. */
  const ALIGN := 4
  /** One more than the largest rt_size_t on a 64-bit CPU. */
  const SIZE_LIMIT := 0x1_0000_0000_0000_0000

  type words = n: int | 0 <= n < SIZE_LIMIT - ALIGN && n % ALIGN == 0
  type header = n: words | 0 < n witness ALIGN

  /** Where the blocks end, how long a block header is, and the least payload worth a block of its own. */
  datatype Area = Area(end: nat, hd: header, min: words)

  /** A block runs from its header at `addr` to the header of the next block at `next`. */
  datatype Block = Block(addr: nat, next: nat, used: bool) {
    function Payload(g: Area): int { next - addr - g.hd }
  }

  // ----- Well-formed block sequences

  /** Block `i` ends where block `i + 1` begins. */
  ghost predicate Link(bs: seq<Block>, i: int)
    requires 0 <= i < |bs| - 1
  {
    bs[i].next == bs[i + 1].addr
  }

  /** Blocks `i` and `i + 1` are not both free. */
  ghost predicate Apart(bs: seq<Block>, i: int)
    requires 0 <= i < |bs| - 1
  {
    bs[i].used || bs[i + 1].used
  }

  ghost predicate Tiled(bs: seq<Block>, g: Area) {
    && |bs| > 0 && bs[0].addr == 0 && bs[|bs| - 1].next == g.end
    && (forall i :: 0 <= i < |bs| - 1 ==> Link(bs, i))
    && (forall i :: 0 <= i < |bs| ==> bs[i].addr + g.hd <= bs[i].next)
  }

  ghost predicate NoFreePair(bs: seq<Block>) {
    forall i :: 0 <= i < |bs| - 1 ==> Apart(bs, i)
  }

  ghost predicate WellFormed(bs: seq<Block>, g: Area) {
    Tiled(bs, g) && NoFreePair(bs)
  }

  ghost predicate Aligned(bs: seq<Block>) {
    forall i :: 0 <= i < |bs| ==> bs[i].addr % ALIGN == 0 == bs[i].next % ALIGN
  }

  ghost function UsedSet(bs: seq<Block>): set<Block> {
    set b | b in bs && b.used
  }

  lemma {:induction false} WithinEnd(bs: seq<Block>, g: Area, j: nat)
    requires Tiled(bs, g) && j < |bs|
    ensures bs[j].next <= g.end
    decreases |bs| - j
  {
    if j < |bs| - 1 {
      WithinEnd(bs, g, j + 1);
      assert Link(bs, j);
    }
  }

  /** Blocks lie in address order and do not overlap. */
  lemma {:induction false} Ordered(bs: seq<Block>, g: Area, i: nat, j: nat)
    requires Tiled(bs, g) && i < j < |bs|
    ensures bs[i].next <= bs[j].addr
    decreases j - i
  {
    assert Link(bs, i);
    if i + 1 < j { Ordered(bs, g, i + 1, j); }
  }

  /** An address lies in at most one block. */
  lemma OneBlock(bs: seq<Block>, g: Area, i: nat, j: nat)
    requires Tiled(bs, g) && i < |bs| && j < |bs|
    requires bs[i].addr <= bs[j].addr < bs[i].next
    ensures i == j
  {
    if i < j { Ordered(bs, g, i, j); } else if j < i { Ordered(bs, g, j, i); }
  }

  /**
   A well-formed block sequence is determined by its used blocks: the free blocks are exactly
   the gaps between them, each gap being one block.
   */
  lemma UsedBlocksDetermine(bs: seq<Block>, cs: seq<Block>, g: Area)
    requires WellFormed(bs, g) && WellFormed(cs, g)
    requires UsedSet(bs) == UsedSet(cs)
    ensures bs == cs
  {
    PrefixDetermined(bs, cs, g, |bs|);
    if |bs| < |cs| {
      assert cs[|bs| - 1] == cs[..|bs|][|bs| - 1];
      Ordered(cs, g, |bs| - 1, |cs| - 1);
    }
  }

  lemma {:induction false} PrefixDetermined(bs: seq<Block>, cs: seq<Block>, g: Area, n: nat)
    requires WellFormed(bs, g) && WellFormed(cs, g)
    requires UsedSet(bs) == UsedSet(cs)
    requires n <= |bs|
    ensures n <= |cs| && bs[..n] == cs[..n]
  {
    if n > 0 {
      var i := n - 1;
      PrefixDetermined(bs, cs, g, i);
      if i > 0 {
        assert bs[i - 1] == bs[..i][i - 1] == cs[..i][i - 1] == cs[i - 1];
        assert Link(bs, i - 1);
        WithinEnd(bs, g, i);
        assert i < |cs|;
        assert Link(cs, i - 1);
      }
      assert bs[i].addr == cs[i].addr;
      NotLonger(bs, cs, g, i);
      NotLonger(cs, bs, g, i);
      assert bs[..n] == bs[..i] + [bs[i]] && cs[..n] == cs[..i] + [cs[i]];
    }
  }

  lemma NotLonger(bs: seq<Block>, cs: seq<Block>, g: Area, i: nat)
    requires WellFormed(bs, g) && WellFormed(cs, g)
    requires UsedSet(bs) == UsedSet(cs)
    requires i < |bs| && i < |cs| && bs[i].addr == cs[i].addr
    ensures bs[i].used ==> bs[i] == cs[i]
    ensures !bs[i].used && !cs[i].used ==> cs[i].next <= bs[i].next
  {
    if bs[i].used {
      assert bs[i] in UsedSet(bs);
      var j :| 0 <= j < |cs| && cs[j] == bs[i];
      OneBlock(cs, g, i, j);
    } else if !cs[i].used && bs[i].next < cs[i].next {
      WithinEnd(cs, g, i);
      assert Apart(bs, i) && Link(bs, i);
      assert bs[i + 1] in UsedSet(bs);
      var j :| 0 <= j < |cs| && cs[j] == bs[i + 1];
      OneBlock(cs, g, i, j);
    }
  }

  // ----- Sizes

  /** RT_ALIGN(size, RT_ALIGN_SIZE) in rt_size_t arithmetic, which wraps. */
  function AlignUp(size: nat): nat
  {
    (size + ALIGN - 1) % SIZE_LIMIT / ALIGN * ALIGN
  }

  /** The payload an allocation of `size` bytes asks for. */
  function Request(size: nat, g: Area): nat {
    if AlignUp(size) < g.min then g.min else AlignUp(size)
  }

  /** The alignment rounds up by less than one unit, except that the last three sizes wrap to zero. */
  lemma AlignUpCovers(size: nat)
    requires size < SIZE_LIMIT
    ensures AlignUp(size) % ALIGN == 0 && forall g: Area :: Request(size, g) % ALIGN == 0
    ensures size <= AlignUp(size) <==> size <= SIZE_LIMIT - ALIGN
    ensures size <= AlignUp(size) ==> AlignUp(size) < size + ALIGN
    ensures AlignUp(AlignUp(size)) == AlignUp(size)
  {
  }

  /** A payload of `r` bytes is aligned, and holds `size` bytes and the least payload there is. */
  ghost predicate Enough(r: nat, size: nat, min: nat) { r % ALIGN == 0 && size <= r && min <= r }

  /** No aligned payload is shorter. */
  ghost predicate LeastEnough(r: nat, size: nat, min: nat) {
    Enough(r, size, min) && forall q :: Enough(q, size, min) ==> r <= q
  }

  /** An allocation asks for the least payload that is enough; the last three sizes ask for the least there is. */
  lemma RequestIsLeast(size: nat, g: Area)
    requires size < SIZE_LIMIT
    ensures if size <= SIZE_LIMIT - ALIGN then LeastEnough(Request(size, g), size, g.min) else Request(size, g) == g.min
    ensures size <= SIZE_LIMIT - ALIGN ==> Request(size, g) < Max(size + ALIGN, g.min + 1)
  {
    AlignUpCovers(size);
  }

  /** The bytes `parent.used` accounts for: the spans, headers included, of the used blocks. */
  function UsedBytes(bs: seq<Block>): int {
    if bs == [] then 0 else (if bs[0].used then bs[0].next - bs[0].addr else 0) + UsedBytes(bs[1..])
  }

  lemma {:induction false} UsedBytesConcat(bs: seq<Block>, cs: seq<Block>)
    ensures UsedBytes(bs + cs) == UsedBytes(bs) + UsedBytes(cs)
  {
    if bs == [] {
      assert bs + cs == cs;
    } else {
      UsedBytesConcat(bs[1..], cs);
      assert (bs + cs)[1..] == bs[1..] + cs;
    }
  }

  lemma {:induction false} UsedBytesBound(bs: seq<Block>, g: Area, n: nat)
    requires Tiled(bs, g) && n <= |bs|
    ensures 0 <= UsedBytes(bs[n..]) <= g.end - AddrAt(bs, g, n)
    decreases |bs| - n
  {
    if n < |bs| {
      assert n + 1 < |bs| ==> Link(bs, n);
      UsedBytesBound(bs, g, n + 1);
      assert bs[n..][1..] == bs[n + 1..];
    }
  }

  // ----- Searches

  /** The address of block `k`, or the end of the heap past the last one. */
  function AddrAt(bs: seq<Block>, g: Area, k: nat): nat {
    if k < |bs| then bs[k].addr else g.end
  }

  function FirstFree(bs: seq<Block>, from: nat := 0): (k: nat)
    requires from <= |bs|
    ensures from <= k <= |bs| && (k < |bs| ==> !bs[k].used)
    ensures forall j :: from <= j < k ==> bs[j].used
    decreases |bs| - from
  {
    if from == |bs| || !bs[from].used then from else FirstFree(bs, from + 1)
  }

  predicate Fits(b: Block, size: nat, g: Area) { !b.used && b.Payload(g) >= size }

  function FirstFit(bs: seq<Block>, size: nat, g: Area, from: nat := 0): (k: nat)
    requires from <= |bs|
    ensures from <= k <= |bs| && (k < |bs| ==> Fits(bs[k], size, g))
    ensures forall j :: from <= j < k ==> !Fits(bs[j], size, g)
    decreases |bs| - from
  {
    if from == |bs| || Fits(bs[from], size, g) then from else FirstFit(bs, size, g, from + 1)
  }

  function IndexAt(bs: seq<Block>, addr: int, from: nat := 0): (k: nat)
    requires from <= |bs|
    ensures from <= k <= |bs| && (k < |bs| ==> bs[k].addr == addr)
    ensures forall j :: from <= j < k ==> bs[j].addr != addr
    decreases |bs| - from
  {
    if from == |bs| || bs[from].addr == addr then from else IndexAt(bs, addr, from + 1)
  }

  lemma IndexAtUnique(bs: seq<Block>, g: Area, i: nat)
    requires Tiled(bs, g) && i < |bs|
    ensures IndexAt(bs, bs[i].addr) == i
  {
    OneBlock(bs, g, IndexAt(bs, bs[i].addr), i);
  }

  /** `ptr` is the payload address of a block handed out and not yet given back. */
  predicate Live(bs: seq<Block>, ptr: int, g: Area) {
    var i := IndexAt(bs, ptr - g.hd);
    i < |bs| && bs[i].used
  }

  // ----- The three changes of a block sequence

  /** Block `i` keeps `size` bytes of payload, in use; a free block takes the rest. */
  function Split(bs: seq<Block>, i: nat, size: nat, g: Area): seq<Block>
    requires i < |bs|
  {
    var mid := bs[i].addr + g.hd + size;
    bs[..i] + [Block(bs[i].addr, mid, true), Block(mid, bs[i].next, false)] + bs[i + 1..]
  }

  /** Block `i` swallows block `i + 1`. */
  function MergeAt(bs: seq<Block>, i: nat): seq<Block>
    requires i + 1 < |bs|
  {
    bs[..i] + [Block(bs[i].addr, bs[i + 1].next, bs[i].used)] + bs[i + 2..]
  }

  /** The free block `i` swallows a free successor, then a free predecessor swallows it. */
  function Coalesced(bs: seq<Block>, i: nat): seq<Block>
    requires i < |bs|
  {
    var fs := if i + 1 < |bs| && !bs[i + 1].used then MergeAt(bs, i) else bs;
    if i > 0 && !bs[i - 1].used then MergeAt(fs, i - 1) else fs
  }

  function Take(bs: seq<Block>, k: nat, size: nat, g: Area): seq<Block>
    requires k < |bs|
  {
    if bs[k].Payload(g) >= size + g.hd + g.min then Split(bs, k, size, g) else bs[k := bs[k].(used := true)]
  }

  function Freed(bs: seq<Block>, i: nat): seq<Block>
    requires i < |bs|
  {
    Coalesced(bs[i := bs[i].(used := false)], i)
  }

  function Shrunk(bs: seq<Block>, i: nat, size: nat, g: Area): seq<Block>
    requires i < |bs|
  {
    Coalesced(Split(bs, i, size, g), i + 1)
  }

  lemma MergeAtTiled(bs: seq<Block>, g: Area, i: nat)
    requires Tiled(bs, g) && i + 1 < |bs|
    ensures Tiled(MergeAt(bs, i), g)
  {
    var ms := MergeAt(bs, i);
    assert Link(bs, i);
    forall j | 0 <= j < |ms| - 1 ensures Link(ms, j) {
      assert if j < i then Link(bs, j) else Link(bs, j + 1);
    }
    assert i < |ms| - 1 ==> ms[|ms| - 1] == bs[|bs| - 1];
  }

  lemma MergeAtUsed(bs: seq<Block>, i: nat)
    requires i + 1 < |bs| && !bs[i].used && !bs[i + 1].used
    ensures UsedSet(MergeAt(bs, i)) == UsedSet(bs)
    ensures UsedBytes(MergeAt(bs, i)) == UsedBytes(bs)
  {
    var ms := MergeAt(bs, i);
    var pair := [bs[i], bs[i + 1]];
    assert bs == bs[..i] + (pair + bs[i + 2..]) && ms == bs[..i] + ([ms[i]] + bs[i + 2..]);
    UsedBytesConcat(bs[..i], pair + bs[i + 2..]);
    UsedBytesConcat(bs[..i], [ms[i]] + bs[i + 2..]);
    UsedBytesConcat(pair, bs[i + 2..]);
    UsedBytesConcat([ms[i]], bs[i + 2..]);
    forall b ensures b in UsedSet(ms) <==> b in UsedSet(bs) {
      assert b in bs <==> b in bs[..i] || b == bs[i] || b == bs[i + 1] || b in bs[i + 2..];
      assert b in ms <==> b in bs[..i] || b == ms[i] || b in bs[i + 2..];
    }
  }

  /** No two free neighbours, except that one of a pair may be block `i`. */
  ghost predicate NoFreePairBut(bs: seq<Block>, i: int) {
    forall j :: 0 <= j < |bs| - 1 && j != i && j + 1 != i ==> Apart(bs, j)
  }

  lemma PlugForward(bs: seq<Block>, g: Area, i: nat, fs: seq<Block>)
    requires Tiled(bs, g) && i < |bs| && !bs[i].used && NoFreePairBut(bs, i)
    requires fs == if i + 1 < |bs| && !bs[i + 1].used then MergeAt(bs, i) else bs
    ensures Tiled(fs, g) && i < |fs| && !fs[i].used && fs[..i] == bs[..i]
    ensures forall j :: 0 <= j < |fs| - 1 && j + 1 != i ==> Apart(fs, j)
    ensures UsedSet(fs) == UsedSet(bs) && UsedBytes(fs) == UsedBytes(bs)
  {
    hide UsedBytes, UsedSet;
    if i + 1 < |bs| && !bs[i + 1].used {
      MergeAtTiled(bs, g, i);
      MergeAtUsed(bs, i);
      forall j | 0 <= j < |fs| - 1 && j + 1 != i ensures Apart(fs, j) {
        assert if j < i then Apart(bs, j) else Apart(bs, j + 1);
      }
    } else {
      forall j | 0 <= j < |fs| - 1 && j + 1 != i ensures Apart(fs, j) {
      }
    }
  }

  lemma PlugBackward(fs: seq<Block>, g: Area, i: nat, gs: seq<Block>)
    requires Tiled(fs, g) && i < |fs| && !fs[i].used
    requires forall j :: 0 <= j < |fs| - 1 && j + 1 != i ==> Apart(fs, j)
    requires gs == if i > 0 && !fs[i - 1].used then MergeAt(fs, i - 1) else fs
    ensures WellFormed(gs, g)
    ensures UsedSet(gs) == UsedSet(fs) && UsedBytes(gs) == UsedBytes(fs)
  {
    hide UsedBytes, UsedSet;
    if i > 0 && !fs[i - 1].used {
      MergeAtTiled(fs, g, i - 1);
      MergeAtUsed(fs, i - 1);
      forall j | 0 <= j < |gs| - 1 ensures Apart(gs, j) {
        assert if j + 1 < i then Apart(fs, j) else Apart(fs, j + 1);
      }
    } else {
      forall j | 0 <= j < |gs| - 1 ensures Apart(gs, j) {
      }
    }
  }

  lemma CoalescedKeeps(bs: seq<Block>, g: Area, i: nat)
    requires Tiled(bs, g) && i < |bs| && !bs[i].used && NoFreePairBut(bs, i)
    ensures WellFormed(Coalesced(bs, i), g)
    ensures UsedSet(Coalesced(bs, i)) == UsedSet(bs)
    ensures UsedBytes(Coalesced(bs, i)) == UsedBytes(bs)
  {
    hide UsedBytes, UsedSet;
    var fs := if i + 1 < |bs| && !bs[i + 1].used then MergeAt(bs, i) else bs;
    PlugForward(bs, g, i, fs);
    assert i > 0 ==> fs[i - 1] == fs[..i][i - 1] == bs[..i][i - 1] == bs[i - 1];
    PlugBackward(fs, g, i, Coalesced(bs, i));
  }

  lemma SplitTiled(bs: seq<Block>, g: Area, i: nat, size: nat)
    requires Tiled(bs, g) && i < |bs| && bs[i].Payload(g) >= size + g.hd
    ensures Tiled(Split(bs, i, size, g), g)
  {
    var ss := Split(bs, i, size, g);
    forall j | 0 <= j < |ss| - 1 ensures Link(ss, j) {
      if j < i {
        assert Link(bs, j);
      } else if j > i {
        assert j < |bs| - 1 + 1;
        assert j - 1 < |bs| - 1 ==> Link(bs, j - 1);
      }
    }
    assert i + 1 < |ss| - 1 ==> ss[|ss| - 1] == bs[|bs| - 1];
  }

  lemma SplitApart(bs: seq<Block>, i: nat, size: nat, g: Area, ss: seq<Block>)
    requires NoFreePair(bs) && i < |bs| && ss == Split(bs, i, size, g)
    ensures forall j :: 0 <= j < |ss| - 1 && j != i + 1 ==> Apart(ss, j)
  {
    forall j | 0 <= j < |ss| - 1 && j != i + 1 ensures Apart(ss, j) {
      if j + 1 < i { assert Apart(bs, j); } else if j > i { assert Apart(bs, j - 1); }
    }
  }

  lemma SplitUsed(bs: seq<Block>, i: nat, size: nat, g: Area, fs: seq<Block>)
    requires i < |bs| && fs == bs[i := bs[i].(used := false)]
    ensures UsedSet(Split(bs, i, size, g)) == UsedSet(fs) + {Block(bs[i].addr, bs[i].addr + g.hd + size, true)}
    ensures UsedBytes(Split(bs, i, size, g)) == UsedBytes(fs) + g.hd + size
  {
    var ss := Split(bs, i, size, g);
    var pair := [ss[i], ss[i + 1]];
    assert fs == bs[..i] + ([fs[i]] + bs[i + 1..]) && ss == bs[..i] + (pair + bs[i + 1..]);
    UsedBytesConcat(bs[..i], [fs[i]] + bs[i + 1..]);
    UsedBytesConcat(bs[..i], pair + bs[i + 1..]);
    UsedBytesConcat([fs[i]], bs[i + 1..]);
    UsedBytesConcat(pair, bs[i + 1..]);
    assert pair[1..] == [ss[i + 1]];
    forall b ensures b in UsedSet(ss) <==> b in UsedSet(fs) || b == ss[i] {
      assert b in fs <==> b in bs[..i] || b == fs[i] || b in bs[i + 1..];
      assert b in ss <==> b in bs[..i] || b == ss[i] || b == ss[i + 1] || b in bs[i + 1..];
    }
  }

  lemma MarkTiled(bs: seq<Block>, g: Area, i: nat, u: bool)
    requires Tiled(bs, g) && i < |bs|
    ensures Tiled(bs[i := bs[i].(used := u)], g)
  {
    var cs := bs[i := bs[i].(used := u)];
    forall j | 0 <= j < |cs| - 1 ensures Link(cs, j) { assert Link(bs, j); }
  }

  /** Marking one block used adds it to the used blocks; marking it free removes it. */
  lemma MarkUsed(bs: seq<Block>, g: Area, i: nat, on: seq<Block>, off: seq<Block>)
    requires Tiled(bs, g) && i < |bs|
    requires on == bs[i := bs[i].(used := true)] && off == bs[i := bs[i].(used := false)]
    ensures UsedSet(on) == UsedSet(off) + {on[i]} && on[i] !in UsedSet(off)
    ensures UsedBytes(on) == UsedBytes(off) + on[i].next - on[i].addr
  {
    var pre, post := bs[..i], bs[i + 1..];
    assert on == pre + ([on[i]] + post) && off == pre + ([off[i]] + post);
    UsedBytesConcat(pre, [on[i]] + post);
    UsedBytesConcat(pre, [off[i]] + post);
    MarkUsedSet(pre, post, on[i], off[i]);
    if on[i] in UsedSet(off) {
      var j :| 0 <= j < |off| && off[j] == on[i];
      OneBlock(bs, g, i, j);
    }
  }

  lemma MarkUsedSet(pre: seq<Block>, post: seq<Block>, on: Block, off: Block)
    requires on.used && !off.used
    ensures UsedSet(pre + ([on] + post)) == UsedSet(pre + ([off] + post)) + {on}
  {
    forall b ensures b in UsedSet(pre + ([on] + post)) <==> b in UsedSet(pre + ([off] + post)) || b == on {
      assert b in pre + ([on] + post) <==> b in pre || b == on || b in post;
      assert b in pre + ([off] + post) <==> b in pre || b == off || b in post;
    }
  }

  // ----- What each change means: the used blocks change by exactly the block concerned

  /** An allocation adds one block, at the address of block `k` and with at least `size` bytes of payload. */
  lemma TakeMeaning(bs: seq<Block>, g: Area, k: nat, size: nat, b: Block)
    requires WellFormed(bs, g) && k < |bs| && Fits(bs[k], size, g) && b == Take(bs, k, size, g)[k]
    ensures WellFormed(Take(bs, k, size, g), g)
    ensures b.addr == bs[k].addr && b.used && size <= b.Payload(g) < size + g.hd + g.min
    ensures UsedSet(Take(bs, k, size, g)) == UsedSet(bs) + {b} && b !in UsedSet(bs)
    ensures UsedBytes(Take(bs, k, size, g)) == UsedBytes(bs) + b.next - b.addr
  {
    hide UsedBytes;
    var ts := Take(bs, k, size, g);
    assert bs[k := bs[k].(used := false)] == bs;
    if bs[k].Payload(g) >= size + g.hd + g.min {
      SplitTiled(bs, g, k, size);
      SplitUsed(bs, k, size, g, bs);
      SplitApart(bs, k, size, g, ts);
      assert k < |bs| - 1 ==> Apart(bs, k);
      if b in UsedSet(bs) {
        var j :| 0 <= j < |bs| && bs[j] == b;
        OneBlock(bs, g, k, j);
      }
    } else {
      MarkTiled(bs, g, k, true);
      MarkUsed(bs, g, k, ts, bs);
      forall j | 0 <= j < |ts| - 1 ensures Apart(ts, j) { assert Apart(bs, j); }
    }
  }

  /** A release removes one block. */
  lemma FreedMeaning(bs: seq<Block>, g: Area, i: nat)
    requires WellFormed(bs, g) && i < |bs| && bs[i].used
    ensures WellFormed(Freed(bs, i), g)
    ensures UsedSet(Freed(bs, i)) == UsedSet(bs) - {bs[i]}
    ensures UsedBytes(Freed(bs, i)) == UsedBytes(bs) - (bs[i].next - bs[i].addr)
  {
    hide UsedBytes, UsedSet;
    var off := bs[i := bs[i].(used := false)];
    MarkTiled(bs, g, i, false);
    assert bs == bs[i := bs[i].(used := true)];
    MarkUsed(bs, g, i, bs, off);
    forall j | 0 <= j < |off| - 1 && j != i && j + 1 != i ensures Apart(off, j) { assert Apart(bs, j); }
    CoalescedKeeps(off, g, i);
  }

  /** A resize in place replaces one block by a shorter one at the same address. */
  lemma ShrunkMeaning(bs: seq<Block>, g: Area, i: nat, size: nat)
    requires WellFormed(bs, g) && i < |bs| && bs[i].used && bs[i].Payload(g) >= size + g.hd
    ensures WellFormed(Shrunk(bs, i, size, g), g)
    ensures UsedSet(Shrunk(bs, i, size, g)) ==
            UsedSet(bs) - {bs[i]} + {Block(bs[i].addr, bs[i].addr + g.hd + size, true)}
    ensures UsedBytes(Shrunk(bs, i, size, g)) == UsedBytes(bs) - (bs[i].Payload(g) - size)
  {
    hide UsedBytes, UsedSet;
    var ss := Split(bs, i, size, g);
    var off := bs[i := bs[i].(used := false)];
    SplitTiled(bs, g, i, size);
    SplitUsed(bs, i, size, g, off);
    assert bs == bs[i := bs[i].(used := true)];
    MarkUsed(bs, g, i, bs, off);
    SplitApart(bs, i, size, g, ss);
    CoalescedKeeps(ss, g, i + 1);
  }

  // ----- Alignment

  lemma TakeAligned(bs: seq<Block>, k: nat, size: nat, g: Area)
    requires Aligned(bs) && k < |bs| && size % ALIGN == 0
    ensures Aligned(Take(bs, k, size, g))
  {
    SplitAligned(bs, k, size, g);
  }

  lemma SplitAligned(bs: seq<Block>, k: nat, size: nat, g: Area)
    requires Aligned(bs) && k < |bs| && size % ALIGN == 0
    ensures Aligned(Split(bs, k, size, g))
  {
    var ss := Split(bs, k, size, g);
    assert (bs[k].addr + g.hd + size) % ALIGN == 0;
    forall j | 0 <= j < |ss| ensures ss[j].addr % ALIGN == 0 == ss[j].next % ALIGN {
      assert if j < k then ss[j] == bs[j] else j <= k + 1 || ss[j] == bs[j - 1];
    }
  }

  lemma CoalescedAligned(bs: seq<Block>, i: nat)
    requires Aligned(bs) && i < |bs|
    ensures Aligned(Coalesced(bs, i))
  {
    var fs := if i + 1 < |bs| && !bs[i + 1].used then MergeAt(bs, i) else bs;
    if i + 1 < |bs| && !bs[i + 1].used { MergeAligned(bs, i); }
    if i > 0 && !bs[i - 1].used { MergeAligned(fs, i - 1); }
  }

  lemma FreedAligned(bs: seq<Block>, i: nat)
    requires Aligned(bs) && i < |bs|
    ensures Aligned(Freed(bs, i))
  {
    CoalescedAligned(bs[i := bs[i].(used := false)], i);
  }

  lemma ShrunkAligned(bs: seq<Block>, i: nat, size: nat, g: Area)
    requires Aligned(bs) && i < |bs| && size % ALIGN == 0
    ensures Aligned(Shrunk(bs, i, size, g))
  {
    SplitAligned(bs, i, size, g);
    CoalescedAligned(Split(bs, i, size, g), i + 1);
  }

  lemma MergeAligned(bs: seq<Block>, i: nat)
    requires Aligned(bs) && i + 1 < |bs|
    ensures Aligned(MergeAt(bs, i))
  {
    var ms := MergeAt(bs, i);
    forall j | 0 <= j < |ms| ensures ms[j].addr % ALIGN == 0 == ms[j].next % ALIGN {
      assert if j < i then ms[j] == bs[j] else j == i || ms[j] == bs[j + 1];
    }
  }

  // ----- Live payloads

  /** Payload addresses handed out and not yet given back. */
  ghost function LivePtrs(bs: seq<Block>, g: Area): set<int> {
    set b | b in UsedSet(bs) :: b.addr + g.hd
  }

  /** The live block whose payload is at `ptr`. */
  function BlockAt(bs: seq<Block>, ptr: int, g: Area): Block
    requires Live(bs, ptr, g)
  {
    bs[IndexAt(bs, ptr - g.hd)]
  }

  /** The payload bytes of the live block at `ptr`. */
  function Room(bs: seq<Block>, ptr: int, g: Area): int
    requires Live(bs, ptr, g)
  {
    BlockAt(bs, ptr, g).Payload(g)
  }

  lemma LiveAt(bs: seq<Block>, ptr: int, g: Area)
    requires Live(bs, ptr, g)
    ensures var i := IndexAt(bs, ptr - g.hd);
            i < |bs| && bs[i].used && bs[i].addr == ptr - g.hd && BlockAt(bs, ptr, g) == bs[i]
  {
  }

  lemma LiveIsBlock(bs: seq<Block>, g: Area, ptr: int)
    requires Tiled(bs, g)
    ensures Live(bs, ptr, g) <==> ptr in LivePtrs(bs, g)
    ensures Live(bs, ptr, g) ==> BlockAt(bs, ptr, g) in UsedSet(bs) && BlockAt(bs, ptr, g).addr + g.hd == ptr
  {
    if ptr in LivePtrs(bs, g) {
      var b :| b in UsedSet(bs) && b.addr + g.hd == ptr;
      BlockIsAt(bs, g, b);
    }
    if Live(bs, ptr, g) { assert BlockAt(bs, ptr, g) in UsedSet(bs); }
  }

  lemma BlockIsAt(bs: seq<Block>, g: Area, b: Block)
    requires Tiled(bs, g) && b in UsedSet(bs)
    ensures Live(bs, b.addr + g.hd, g) && BlockAt(bs, b.addr + g.hd, g) == b
  {
    var i :| 0 <= i < |bs| && bs[i] == b;
    IndexAtUnique(bs, g, i);
  }

  /** The used blocks of `after` are those of `before` and one new block, with its payload at `ptr`. */
  ghost predicate Gains(before: seq<Block>, after: seq<Block>, ptr: int, g: Area) {
    && Live(after, ptr, g) && BlockAt(after, ptr, g) !in UsedSet(before) && BlockAt(after, ptr, g).addr + g.hd == ptr
    && UsedSet(after) == UsedSet(before) + {BlockAt(after, ptr, g)}
  }

  /** The used blocks of `after` are those of `before` with the block at `ptr` replaced by one at `q`. */
  ghost predicate Resized(before: seq<Block>, after: seq<Block>, ptr: int, q: int, g: Area)
    requires Live(before, ptr, g)
  {
    && Live(after, q, g)
    && var b, c := BlockAt(before, ptr, g), BlockAt(after, q, g);
    && c.addr + g.hd == q
    && UsedSet(after) == UsedSet(before) - {b} + {c}
    && (ptr == q || c !in UsedSet(before))
  }

  /** ... and a block that keeps its place does not grow. */
  ghost predicate Replaces(before: seq<Block>, after: seq<Block>, ptr: int, q: int, g: Area)
    requires Live(before, ptr, g)
  {
    Resized(before, after, ptr, q, g) && (ptr == q ==> BlockAt(after, q, g).next <= BlockAt(before, ptr, g).next)
  }
}
