/**
 The slab allocator of rt-thread/src/slab.c, step by step: zones found through the page usage
 table, the loops over that table, and the search that unlinks a zone. Proved to do what
 SlabRuns says. A pointer is modelled by the zone and the index of its chunk, or by its page.
 */
module Slab {
  import opened Common
  import opened RtList
  import SlabPages
  import opened SlabPageList
  import opened SlabRuns

  /** PAGE_TYPE_FREE, PAGE_TYPE_SMALL and PAGE_TYPE_LARGE. */
  datatype PageType = FREE | SMALL | LARGE

  /** `struct rt_slab_memusage`: the offset of the page in its zone, or the number of pages allocated. */
  datatype Usage = Usage(kind: PageType, size: nat)

  /** The page a pointer points into. */
  function PageOf(zones: map<int, Zone>, p: Ptr): int {
    match p
    case Pages(at) => at
    case Chunk(z, i) =>
      if z in zones && zones[z].chunk > 0 then z + (Offset(zones[z].chunk) + i * zones[z].chunk) / PAGE else z
  }

  /** The usage table leads from any page of a zone to the zone. */
  ghost predicate ZoneMarked(usage: map<int, Usage>, c: Config, z: int) {
    forall p :: z <= p < z + c.zonePages ==> p in usage && usage[p] == Usage(SMALL, p - z)
  }

  ghost predicate UsageOk(usage: map<int, Usage>, s: State, c: Config) {
    && (forall z :: z in s.zones ==> ZoneMarked(usage, c, z))
    && (forall at :: at in s.large ==> at in usage && usage[at] == Usage(LARGE, s.large[at]))
  }

  /** Marks on pages that belong to no other zone or large allocation do not disturb theirs. */
  lemma UsageKept(usage: map<int, Usage>, usage': map<int, Usage>, s: State, s': State, c: Config, a: int)
    requires UsageOk(usage, s, c) && PagesOk(s, c) && PagesOk(s', c) && Configured(c)
    requires forall z :: z in s'.zones && z != a ==> z in s.zones
    requires forall at :: at in s'.large && at != a ==> at in s.large && s'.large[at] == s.large[at]
    requires forall p :: p in usage && !OwnedBy(s, c, a, p) && !OwnedBy(s', c, a, p) ==>
               p in usage' && usage'[p] == usage[p]
    requires a in s'.zones ==> ZoneMarked(usage', c, a)
    requires a in s'.large ==> a in usage' && usage'[a] == Usage(LARGE, s'.large[a])
    ensures UsageOk(usage', s', c)
  {
    forall z | z in s'.zones && z != a ensures ZoneMarked(usage', c, z) {
      assert ZoneMarked(usage, c, z);
      forall p | z <= p < z + c.zonePages ensures p in usage' && usage'[p] == Usage(SMALL, p - z) {
        assert OwnedBy(s, c, z, p) && OwnedBy(s', c, z, p);
        assert !OwnedBy(s, c, a, p) && !OwnedBy(s', c, a, p);
      }
    }
    forall at | at in s'.large && at != a ensures at in usage' && usage'[at] == Usage(LARGE, s'.large[at]) {
      LargeSpan(s, c, at);
      LargeSpan(s', c, at);
      assert OwnedBy(s, c, at, at) && OwnedBy(s', c, at, at);
      assert !OwnedBy(s, c, a, at) && !OwnedBy(s', c, a, at);
    }
  }

  class SlabHeap {
    const c: Config
    const pager: PageList
    var zones: map<int, Zone>
    /** zone_array. */
    var lists: seq<seq<int>>
    /** zone_free and zone_free_cnt. */
    var zoneFree: seq<int>
    var zoneFreeCnt: nat
    var memusage: map<int, Usage>
    ghost var large: map<int, nat>

    ghost function Model(): State
      reads this, pager
    {
      State(zones, lists, zoneFree, pager.rs, large)
    }

    ghost predicate Valid()
      reads this, pager
    {
      && Configured(c) && pager.Valid() && Sound(Model(), c)
      && zoneFreeCnt == |zoneFree| && UsageOk(memusage, Model(), c)
    }

    /** rt_slab_init, once the memory is aligned and the usage table has its pages. */
    constructor (c: Config)
      requires Configured(c)
      ensures Valid() && this.c == c && fresh(pager)
      ensures Model() == State(map[], seq(NZONES, _ => []), [], [SlabPages.Run(c.first, c.total - c.first)], map[])
    {
      this.c := c;
      var p := new PageList();
      p.PageFree(c.first, c.total - c.first);
      pager := p;
      zones, lists, zoneFree, zoneFreeCnt, memusage, large := map[], seq(NZONES, _ => []), [], 0, map[], map[];
      new;
      InitialSound(Model(), c);
    }

    /** rt_slab_alloc of pages. */
    method AllocPages(npages: nat) returns (r: Option<Ptr>)
      requires Valid()
      modifies this, pager
      ensures Valid() && (Model(), r) == if npages == 0 then (old(Model()), None) else LargeAlloc(old(Model()), npages)
    {
      hide SlabPages.AllocSpec, ZonesOk, PagesOk;
      ghost var s0 := Model();
      if npages > 0 {
        LargeSound(s0, c, npages);
        SlabPages.AllocMeaning(pager.rs, npages);
      }
      NoPages(pager.rs);
      var chunk := pager.PageAlloc(npages);
      if chunk == None { return None; }
      ghost var usage0 := memusage;
      memusage := memusage[chunk.value := Usage(LARGE, npages)];
      large := large[chunk.value := npages];
      LargeSpan(Model(), c, chunk.value);
      UsageKept(usage0, memusage, s0, Model(), c, chunk.value);
      return Some(Pages(chunk.value));
    }

    /** The part of rt_slab_alloc that takes a chunk of a zone with room. */
    method TakeChunk(zi: nat) returns (r: Option<Ptr>)
      requires Valid() && zi < NZONES && lists[zi] != []
      modifies `zones, `lists
      ensures Valid() && lists != [] && old(lists[zi][0]) in old(zones) && (Model(), r) == FromList(old(Model()), zi)
    {
      hide ZonesOk, PagesOk, Distinct;
      ghost var s0 := Model();
      FromListSound(s0, c, zi);
      ListHead(s0, c, zi);
      var z := lists[zi][0];
      RoomHas(s0, c, z, zi);
      assert zones[z].nfree > 0;
      zones := zones[z := zones[z].(nfree := zones[z].nfree - 1)];
      if zones[z].nfree == 0 { lists := lists[zi := lists[zi][1..]]; }
      var i;
      if zones[z].uindex + 1 != zones[z].nmax {
        i := zones[z].uindex + 1;
        zones := zones[z := zones[z].(uindex := i)];
      } else {
        // RoomHas: the chunk is on the free chunk list.
        i := zones[z].freeChunks[0];
        zones := zones[z := zones[z].(freeChunks := zones[z].freeChunks[1..])];
      }
      assert zones == s0.zones[z := Taken(s0.zones[z]).0];
      assert UsageOk(memusage, Model(), c);
      return Some(Chunk(z, i));
    }

    /** The loop that marks the pages of a zone. */
    method MarkZone(z: int)
      modifies `memusage
      ensures ZoneMarked(memusage, c, z) && forall p :: p in old(memusage) && !(z <= p < z + c.zonePages) ==>
                p in memusage && memusage[p] == old(memusage)[p]
    {
      var off := 0;
      while off < c.zonePages
        invariant 0 <= off <= c.zonePages
        invariant forall p :: z <= p < z + off ==> p in memusage && memusage[p] == Usage(SMALL, p - z)
        invariant forall p :: p in old(memusage) && !(z <= p < z + c.zonePages) ==>
                    p in memusage && memusage[p] == old(memusage)[p]
      {
        memusage := memusage[z + off := Usage(SMALL, off)];
        off := off + 1;
      }
    }

    /** rt_slab_alloc of a chunk. */
    method AllocChunk(zi: nat, size: nat) returns (r: Option<Ptr>)
      requires Valid() && zi < NZONES && size == ChunkOf(zi) && 8 <= size <= c.limit
      modifies this, pager
      ensures Valid() && |old(lists)| == NZONES && Offset(size) <= c.zonePages * PAGE
              && (old(lists[zi]) != [] ==> old(lists[zi][0]) in old(zones))
      ensures (Model(), r) == SmallAlloc(old(Model()), c, zi, size)
    {
      hide SlabPages.AllocSpec, ZonesOk, PagesOk, Distinct, ChunkOf, Offset;
      ghost var s0 := Model();
      SmallSound(s0, c, zi, size);
      OffsetFits(c, size);
      ListHead(s0, c, zi);
      if lists[zi] != [] {
        r := TakeChunk(zi);
        return;
      }
      var z: int;
      ghost var usage0 := memusage;
      if zoneFree != [] {
        z := zoneFree[0];
        SpareHas(s0, c, z);
        zoneFree := zoneFree[1..];
        zoneFreeCnt := zoneFreeCnt - 1;
      } else {
        SlabPages.AllocMeaning(pager.rs, c.zonePages);
        var b := pager.PageAlloc(c.zonePages);
        if b == None { return None; }
        z := b.value;
        MarkZone(z);
      }
      zones := zones[z := Fresh(c, zi, size)];
      lists := lists[zi := [z] + lists[zi]];
      ZoneSpan(Model(), c, z);
      UsageKept(usage0, memusage, s0, Model(), c, z);
      return Some(Chunk(z, 0));
    }

    /** rt_slab_alloc. Rounding a size up to pages may wrap, to none: then the call fails as it should. */
    method Alloc(size: nat) returns (r: Option<Ptr>)
      requires Valid() && size < SIZE_LIMIT
      modifies this, pager
      ensures Valid() && Sound(old(Model()), c) && (Model(), r) == SlabAlloc(old(Model()), c, size)
    {
      if size == 0 { return None; }
      if size >= c.limit {
        WrappedFails(Model(), c, size);
        r := AllocPages((size + PAGE - 1) % SIZE_LIMIT / PAGE);
        return;
      }
      ZoneIndexFits(size);
      ChunkBelow(size, c);
      var (zi, chunk) := ZoneIndex(size);
      r := AllocChunk(zi, chunk);
    }

    /** rt_slab_free: what the pointer is, and the zone it belongs to, are read from the usage table. */
    method Free(p: Ptr)
      requires Valid() && Live(Model(), p)
      modifies this, pager
      ensures Valid() && Sound(old(Model()), c)
              && (p.Chunk? ==> p.zone in old(zones) && old(zones)[p.zone].zi < |old(lists)|)
      ensures Model() == SlabFree(old(Model()), c, p)
    {
      hide ZonesOk, PagesOk, UsageOk, Live;
      SlabFreeMeaning(Model(), c, p);
      UsageFinds(memusage, Model(), c, p);
      var page := PageOf(zones, p);
      var kup := memusage[page];
      if kup.kind == LARGE {
        FreePages(p.at, kup.size);
      } else {
        var z := page - kup.size;
        assert z == p.zone;
        ReleaseChunk(z, p.index);
      }
    }

    /** rt_slab_free of pages. */
    method FreePages(at: int, size: nat)
      requires Valid() && at in large && size == large[at]
      modifies this, pager
      ensures Valid() && Model() == SlabFree(old(Model()), c, Pages(at))
    {
      hide SlabPages.FreeSpec, SlabPages.IsFree, ZonesOk, PagesOk;
      ghost var s0, usage0 := Model(), memusage;
      OwnedPages(s0, c, at);
      FreePagesSound(s0, c, at);
      memusage := memusage[at := memusage[at].(size := 0)];
      pager.PageFree(at, size);
      large := large - {at};
      UsageKept(usage0, memusage, s0, Model(), c, at);
    }

    /** rt_slab_free of a chunk. */
    method ReleaseChunk(z: int, i: int)
      requires Valid() && Live(Model(), Chunk(z, i))
      modifies this, pager
      ensures Valid() && z in old(zones) && old(zones)[z].zi < |old(lists)|
              && Model() == FreeChunk(old(Model()), c, z, i)
    {
      hide SlabPages.FreeSpec, SlabPages.IsFree, ZonesOk, PagesOk, Distinct, Without, UsageOk;
      ghost var s0, usage0 := Model(), memusage;
      FreeChunkSound(s0, c, z, i);
      RelistedOk(s0, c, z, i);
      var x := zones[z];
      zones := zones[z := x.(freeChunks := [i] + x.freeChunks, nfree := x.nfree + 1)];
      if x.nfree == 0 { lists := lists[x.zi := [z] + lists[x.zi]]; }
      var l := lists[x.zi];
      assert l == Relisted(s0, z);
      Ends(l, z);
      OwnedZone(s0, c, z);
      if x.nfree + 1 == x.nmax && (l[|l| - 1] != z || l[0] != z) {
        Retire(x.zi, z);
        assert lists == s0.lists[x.zi := Without(l, z)];
        assert zones == s0.zones[z := Refilled(x, i)] || zones == s0.zones - {z};
      } else {
        assert lists == s0.lists[x.zi := l];
      }
      ChunkUsage(usage0, memusage, s0, c, z, i);
    }

    /**
     The part of rt_slab_free for a zone that became free while another has room: it is spare now,
     or its pages go back.
     */
    method Retire(zi: nat, z: int)
      requires pager.Valid() && zi < |lists| && z in lists[zi] && zoneFreeCnt == |zoneFree| && c.zonePages > 0
      requires z >= 0 && forall p :: z <= p < z + c.zonePages ==> !SlabPages.IsFree(pager.rs, p)
      modifies this, pager
      ensures pager.Valid() && zoneFreeCnt == |zoneFree| && lists == old(lists)[zi := Without(old(lists)[zi], z)]
              && large == old(large)
      ensures |old(zoneFree)| + 1 <= THRESH ==>
                zones == old(zones) && zoneFree == [z] + old(zoneFree) && pager.rs == old(pager.rs)
                    && memusage == old(memusage)
      ensures |old(zoneFree)| + 1 > THRESH ==>
                zones == old(zones) - {z} && zoneFree == old(zoneFree)
                    && pager.rs == SlabPages.FreeSpec(old(pager.rs), z, c.zonePages)
      ensures forall p :: p in old(memusage) && !(z <= p < z + c.zonePages) ==>
                p in memusage && memusage[p] == old(memusage)[p]
    {
      hide SlabPages.FreeSpec, SlabPages.IsFree, Without;
      Unlink(zi, z);
      zoneFree := [z] + zoneFree;
      zoneFreeCnt := zoneFreeCnt + 1;
      if zoneFreeCnt > THRESH {
        zoneFree := zoneFree[1..];
        zoneFreeCnt := zoneFreeCnt - 1;
        ClearZone(z);
        pager.PageFree(z, c.zonePages);
        zones := zones - {z};
      }
    }

    /** The search loop that unlinks a zone from the list of its size: it ends because the zone is there. */
    method Unlink(zi: nat, z: int)
      requires zi < |lists| && z in lists[zi]
      modifies `lists
      ensures lists == old(lists)[zi := Without(old(lists)[zi], z)]
    {
      var l, k := lists[zi], 0;
      while l[k] != z
        invariant 0 <= k <= IndexOf(l, z) < |l|
        decreases |l| - k
      {
        k := k + 1;
      }
      lists := lists[zi := l[..k] + l[k + 1..]];
    }

    /** The loop that marks the pages of a zone free. */
    method ClearZone(z: int)
      modifies `memusage
      ensures forall p :: p in old(memusage) && !(z <= p < z + c.zonePages) ==>
                p in memusage && memusage[p] == old(memusage)[p]
    {
      var i := 0;
      while i < c.zonePages
        invariant 0 <= i <= c.zonePages
        invariant forall p :: p in old(memusage) && !(z <= p < z + c.zonePages) ==>
                    p in memusage && memusage[p] == old(memusage)[p]
      {
        memusage := memusage[z + i := Usage(FREE, 0)];
        i := i + 1;
      }
    }
  }

  /** The usage table after a chunk of zone `z` came back. */
  lemma ChunkUsage(usage: map<int, Usage>, usage': map<int, Usage>, s: State, c: Config, z: int, i: int)
    requires Sound(s, c) && Configured(c) && UsageOk(usage, s, c) && Live(s, Chunk(z, i)) && s.zones[z].zi < |s.lists|
    requires Sound(FreeChunk(s, c, z, i), c)
    requires forall p :: p in usage && !(z <= p < z + c.zonePages) ==> p in usage' && usage'[p] == usage[p]
    requires z in FreeChunk(s, c, z, i).zones ==> usage' == usage
    ensures UsageOk(usage', FreeChunk(s, c, z, i), c)
  {
    hide ZonesOk, PagesOk, Without;
    ZoneSpan(s, c, z);
    UsageKept(usage, usage', s, FreeChunk(s, c, z, i), c, z);
  }

  /** The zone is alone on its list exactly if it is both the first and the last. */
  lemma Ends(l: seq<int>, z: int)
    requires Distinct(l) && z in l
    ensures |l| >= 1 && (l[|l| - 1] != z || l[0] != z <==> |l| >= 2)
  {
  }

  lemma OwnedPages(s: State, c: Config, at: int)
    requires PagesOk(s, c) && at in s.large
    ensures at >= 0 && s.large[at] > 0 && at !in s.zones
            && forall p :: at <= p < at + s.large[at] ==> !SlabPages.IsFree(s.pages, p)
  {
    assert OwnedBy(s, c, at, at);
    forall p | at <= p < at + s.large[at] ensures !SlabPages.IsFree(s.pages, p) { assert OwnedBy(s, c, at, p); }
  }

  lemma OwnedZone(s: State, c: Config, z: int)
    requires PagesOk(s, c) && Configured(c) && z in s.zones
    ensures z >= 0 && z !in s.large && forall p :: z <= p < z + c.zonePages ==> !SlabPages.IsFree(s.pages, p)
  {
    assert OwnedBy(s, c, z, z);
    forall p | z <= p < z + c.zonePages ensures !SlabPages.IsFree(s.pages, p) { assert OwnedBy(s, c, z, p); }
  }

  /** The usage table tells pages from chunks, and leads from a chunk to its zone. */
  lemma UsageFinds(usage: map<int, Usage>, s: State, c: Config, p: Ptr)
    requires Sound(s, c) && Configured(c) && UsageOk(usage, s, c) && Live(s, p)
    ensures var page := PageOf(s.zones, p);
            page in usage && if p.Pages? then usage[page] == Usage(LARGE, s.large[p.at])
                             else usage[page] == Usage(SMALL, page - p.zone)
  {
    if p.Chunk? {
      var x := s.zones[p.zone];
      assert ZoneOk(c, x) && x.chunk > 0;
      var b := p.zone * PAGE + Offset(x.chunk) + p.index * x.chunk;
      CoversPage(s, c, p, b);
      assert b / PAGE == PageOf(s.zones, p);
      assert ZoneMarked(usage, c, p.zone);
    }
  }

  /** A zone on a list has a chunk to give. */
  lemma RoomHas(s: State, c: Config, z: int, zi: int)
    requires ZonesOk(s, c) && HasRoom(s, z, zi)
    ensures z in s.zones && ZoneOk(c, s.zones[z]) && s.zones[z].nfree > 0
    ensures s.zones[z].uindex + 1 == s.zones[z].nmax ==> s.zones[z].freeChunks != []
  {
    TakenOk(c, s.zones[z]);
  }

  lemma SpareHas(s: State, c: Config, z: int)
    requires ZonesOk(s, c) && s.spare != [] && z == s.spare[0]
    ensures z in s.zones
  {
    assert z in s.spare;
  }

  lemma ZoneSpan(s: State, c: Config, z: int)
    requires z in s.zones && PagesOk(s, c)
    ensures z !in s.large && forall p :: OwnedBy(s, c, z, p) <==> z <= p < z + c.zonePages
  {
  }

  lemma InitialSound(s: State, c: Config)
    requires Configured(c)
             && s == State(map[], seq(NZONES, _ => []), [], [SlabPages.Run(c.first, c.total - c.first)], map[])
    ensures Sound(s, c)
  {
    assert SlabPages.Canonical(s.pages);
    forall p ensures c.first <= p < c.total <==> SlabPages.IsFree(s.pages, p) || exists a :: OwnedBy(s, c, a, p) {
      assert SlabPages.InRun(s.pages[0], p) <==> c.first <= p < c.total;
    }
    forall zi | 0 <= zi < NZONES ensures ListOk(s, zi) {
    }
  }

  lemma LargeSpan(s: State, c: Config, a: int)
    requires PagesOk(s, c) && a in s.large
    ensures forall p :: OwnedBy(s, c, a, p) <==> a <= p < a + s.large[a]
    ensures a !in s.zones && s.large[a] > 0
  {
  }
}
