/**
 The bytes of a managed area: which of them belong to the payloads of given blocks, and what
 header stores and copies do to those.
 */
module Payloads {
  import opened Common
  import opened Blocks

  type byte = b: int | 0 <= b < 256

  /** A payload byte of a block in use. */
  ghost predicate Guarded(us: set<Block>, p: int, g: Area) {
    exists b :: b in us && b.addr + g.hd <= p < b.next
  }

  /** Every payload byte of the blocks `us` is the same in both memories. */
  ghost predicate Kept(m0: seq<byte>, m1: seq<byte>, us: set<Block>, g: Area) {
    |m0| == |m1| && forall p :: 0 <= p < |m0| && Guarded(us, p, g) ==> m1[p] == m0[p]
  }

  lemma KeptFewer(m0: seq<byte>, m1: seq<byte>, us: set<Block>, vs: set<Block>, g: Area)
    requires Kept(m0, m1, us, g)
    ensures Kept(m0, m1, us * vs, g)
  {
    forall p | 0 <= p < |m0| && Guarded(us * vs, p, g) ensures m1[p] == m0[p] {
      var d :| d in us * vs && d.addr + g.hd <= p < d.next;
      assert Guarded(us, p, g);
    }
  }

  /** The first bytes of a kept block read the same. */
  lemma KeptBlock(m0: seq<byte>, m1: seq<byte>, us: set<Block>, b: Block, len: int, g: Area)
    requires Kept(m0, m1, us, g) && b in us && 0 <= len <= b.Payload(g) && b.next <= |m0|
    ensures m1[b.addr + g.hd..b.addr + g.hd + len] == m0[b.addr + g.hd..b.addr + g.hd + len]
  {
    var x := b.addr + g.hd;
    var s0, s1 := m0[x..x + len], m1[x..x + len];
    forall k | 0 <= k < len ensures s1[k] == s0[k] { assert Guarded(us, x + k, g); }
  }

  lemma KeptSelf(m: seq<byte>, us: set<Block>, g: Area)
    ensures Kept(m, m, us, g)
  {
  }

  lemma KeptLength(m0: seq<byte>, m1: seq<byte>, us: set<Block>, g: Area)
    requires Kept(m0, m1, us, g)
    ensures |m1| == |m0|
  {
  }

  lemma KeptThrough(m0: seq<byte>, m1: seq<byte>, m2: seq<byte>, us: set<Block>, g: Area)
    requires Kept(m0, m1, us, g) && Kept(m1, m2, us, g)
    ensures Kept(m0, m2, us, g)
  {
  }

  /** A header store that misses the payloads keeps them. */
  lemma StoreKept(m0: seq<byte>, m1: seq<byte>, off: nat, us: set<Block>, g: Area)
    requires |m0| == |m1|
    requires forall p :: 0 <= p < |m0| && !(off <= p < off + g.hd) ==> m1[p] == m0[p]
    requires forall p :: off <= p < off + g.hd ==> !Guarded(us, p, g)
    ensures Kept(m0, m1, us, g)
  {
  }

  /** The memory after `len` bytes are copied from `src` to `dst`. */
  function Copied(m: seq<byte>, dst: nat, src: nat, len: nat): seq<byte>
    requires dst + len <= |m| && src + len <= |m|
  {
    m[..dst] + m[src..src + len] + m[dst + len..]
  }

  /** The `len` bytes that were at `src` are at `dst`. */
  ghost predicate Carried(m0: seq<byte>, m1: seq<byte>, src: nat, dst: nat, len: int) {
    && 0 <= len && src + len <= |m0| && dst + len <= |m1|
    && m1[dst..dst + len] == m0[src..src + len]
  }

  lemma CopiedNext(m: seq<byte>, dst: nat, src: nat, k: nat)
    requires dst + k < |m| && src + k < |m|
    ensures Copied(m, dst, src, k)[dst + k := m[src + k]] == Copied(m, dst, src, k + 1)
    ensures dst + k < src || src + k < dst ==> Copied(m, dst, src, k)[src + k] == m[src + k]
  {
  }

  /** A header at a block boundary, at the end, or anywhere inside a free block hits no payload in use. */
  lemma HeaderMissesPayload(bs: seq<Block>, g: Area, i: nat, off: nat)
    requires Tiled(bs, g) && i <= |bs|
    requires off == AddrAt(bs, g, i) || (i < |bs| && !bs[i].used && bs[i].addr <= off && off + g.hd <= bs[i].next)
    ensures forall p :: off <= p < off + g.hd ==> !Guarded(UsedSet(bs), p, g)
  {
    forall p | off <= p < off + g.hd ensures !Guarded(UsedSet(bs), p, g) {
      if Guarded(UsedSet(bs), p, g) {
        var b :| b in UsedSet(bs) && b.addr + g.hd <= p < b.next;
        var j :| 0 <= j < |bs| && bs[j] == b;
        if i == |bs| { WithinEnd(bs, g, j); }
        else if i < j { Ordered(bs, g, i, j); }
        else if j < i { Ordered(bs, g, j, i); }
        assert false;
      }
    }
  }

  lemma LiveWithin(bs: seq<Block>, g: Area, ptr: int)
    requires Tiled(bs, g) && Live(bs, ptr, g)
    ensures var b := BlockAt(bs, ptr, g);
            b in UsedSet(bs) && b.addr + g.hd == ptr && ptr + b.Payload(g) <= g.end && 0 <= b.Payload(g)
  {
    LiveIsBlock(bs, g, ptr);
    WithinEnd(bs, g, IndexAt(bs, ptr - g.hd));
  }

  /** Two different used blocks do not overlap. */
  lemma ApartFromAll(bs: seq<Block>, g: Area, c: Block)
    requires Tiled(bs, g) && c in UsedSet(bs)
    ensures forall d :: d in UsedSet(bs) && d != c ==> d.next <= c.addr || c.next <= d.addr
  {
    var j :| 0 <= j < |bs| && bs[j] == c;
    forall d | d in UsedSet(bs) && d != c ensures d.next <= c.addr || c.next <= d.addr {
      var i :| 0 <= i < |bs| && bs[i] == d;
      if i < j { Ordered(bs, g, i, j); } else { Ordered(bs, g, j, i); }
    }
  }

  /** Block `b` is in use and gives way to block `c`, which overlaps none; `len` bytes fit in both. */
  ghost predicate GivesWay(us: set<Block>, vs: set<Block>, b: Block, c: Block, len: int, top: int, g: Area) {
    && b in us && c !in us && vs == us - {b} + {c} && b.next <= top && c.next <= top
    && 0 <= len <= b.Payload(g) && len <= c.Payload(g)
    && forall d :: d in us ==> d.next <= c.addr || c.next <= d.addr
  }

  lemma CopyRoom(us: set<Block>, vs: set<Block>, b: Block, c: Block, len: int, top: int, g: Area)
    requires GivesWay(us, vs, b, c, len, top, g)
    ensures var src, dst := b.addr + g.hd, c.addr + g.hd;
            0 <= len && src + len <= top && dst + len <= top && (dst + len <= src || src + len <= dst)
  {
  }

  /** The bytes of the other blocks, and the copied ones, through the steps of a move. */
  lemma CopyKept(m0: seq<byte>, m1: seq<byte>, m2: seq<byte>, m3: seq<byte>, us: set<Block>, vs: set<Block>,
                 b: Block, c: Block, src: nat, dst: nat, len: nat, g: Area)
    requires src == b.addr + g.hd && dst == c.addr + g.hd && GivesWay(us, vs, b, c, len, |m0|, g)
    requires Kept(m0, m1, us, g) && Kept(m2, m3, vs, g)
    requires src + len <= |m1| && dst + len <= |m1| && m2 == Copied(m1, dst, src, len)
    ensures Kept(m0, m3, us * vs, g)
    ensures Carried(m0, m3, src, dst, len)
  {
    forall p | 0 <= p < |m0| && Guarded(us * vs, p, g) ensures m3[p] == m0[p] {
      var d :| d in us * vs && d.addr + g.hd <= p < d.next;
      assert Guarded(us, p, g) && Guarded(vs, p, g);
    }
    var s0, s3 := m0[src..src + len], m3[dst..dst + len];
    forall k | 0 <= k < len ensures s3[k] == s0[k] {
      assert Guarded(us, src + k, g) && Guarded(vs, dst + k, g);
    }
  }
}
