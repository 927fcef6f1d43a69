/**
 How much memory the slab allocator of rt-thread/src/slab.c keeps and wastes: a chunk is little
 larger than its request, and at most one zone of each chunk size stays without a chunk in use.
 */
module SlabZones {
  import opened Common
  import opened RtList
  import opened SlabPages
  import opened SlabRuns
  import ReadyBits

  // ----- Waste

  /**
   What is handed out exceeds the request by at most 7 bytes or an eighth of it, or by less than a
   page. A small request fails exactly if no zone of its size has room, none is spare, and no free
   pages make one; and a request for nothing always.
   */
  lemma AllocWaste(s: State, c: Config, n: nat)
    requires Sound(s, c) && Configured(c)
    ensures var (s', r) := SlabAlloc(s, c, n);
            && (n == 0 ==> r.None?)
            && (r.Some? && n < c.limit ==>
                  var w := SizeOf(s', r.value) - n; r.value.Chunk? && 0 <= w && (w <= 7 || 8 * w <= n))
            && (r.Some? && n >= c.limit ==> r.value.Pages? && 0 <= SizeOf(s', r.value) - n < PAGE)
            && (0 < n < c.limit ==>
                  n < 16384 &&
                  (r.None? <==>
                     && (forall z :: !HasRoom(s, z, ZoneIndex(n).0)) && s.spare == []
                     && forall a :: !AllFree(s.pages, a, c.zonePages)))
  {
    hide AllocSpec, IsFree, Canonical, ZoneOk, Distinct, Offset, ChunkOf, SmallAlloc, ZoneIndex, AllFree, Hands;
    if n >= c.limit {
      LargeSound(s, c, PagesFor(n));
    } else if n > 0 {
      ZoneIndexFits(n);
      ChunkBelow(n, c);
      SmallSound(s, c, ZoneIndex(n).0, ZoneIndex(n).1);
      assert ListOk(s, ZoneIndex(n).0);
      NoneListed(s, ZoneIndex(n).0);
    }
  }

  lemma NoneListed(s: State, zi: nat)
    requires zi < |s.lists| && ListOk(s, zi)
    ensures s.lists[zi] == [] <==> forall z :: !HasRoom(s, z, zi)
  {
    if s.lists[zi] == [] {
      forall z ensures !HasRoom(s, z, zi) { assert z !in s.lists[zi]; }
    } else {
      assert s.lists[zi][0] in s.lists[zi] && HasRoom(s, s.lists[zi][0], zi);
    }
  }

  /** A zone has as many chunks as fit behind its header, the first of which is handed out. */
  lemma FreshMeaning(c: Config, zi: nat, size: nat)
    requires Configured(c) && 8 <= size <= c.limit
    ensures Offset(size) <= c.zonePages * PAGE
    ensures var x := Fresh(c, zi, size);
            && ZONE_HEADER <= Offset(size) < ZONE_HEADER + Max(size, 8)
            && Offset(size) + x.nmax * size <= c.zonePages * PAGE < Offset(size) + x.nmax * size + size
            && x.nfree == x.nmax - 1 && x.uindex == 0 && x.freeChunks == [] && x.chunk == size && x.zi == zi
  {
    hide ReadyBits.Or;
    OffsetFits(c, size);
    DivFacts(ZONE_HEADER + size - 1, size);
    DivFacts(c.zonePages * PAGE - Offset(size), size);
  }

  /** Every chunk is aligned to eight bytes. */
  lemma ChunksAlignedToEight(n: nat, z: nat, i: nat)
    requires 0 < n < 16384
    ensures ZoneIndex(n).1 > 0 && (z * PAGE + Offset(ZoneIndex(n).1) + i * ZoneIndex(n).1) % 8 == 0
  {
    hide ReadyBits.Or, PowerOfTwo;
    ZoneIndexFits(n);
    var size := ZoneIndex(n).1;
    MultipleOfEight(n);
    PageOfEight(z);
    TimesMultiple(8, size, i);
    assert i * size == size * i;
    TimesMultiple(8, size, (ZONE_HEADER + size - 1) / size);
    var k := (ZONE_HEADER + size - 1) / size;
    assert k * size == size * k;
    assert Offset(size) % 8 == 0;
    SumOfMultiples(8, z * PAGE, Offset(size), i * size);
  }

  lemma PageOfEight(z: nat)
    ensures z * PAGE % 8 == 0
  {
    TimesMultiple(8, PAGE, z);
    assert PAGE * z == z * PAGE;
  }

  lemma MultipleOfEight(n: nat)
    requires 0 < n < 16384
    ensures ZoneIndex(n).1 % 8 == 0
  {
    hide ZoneIndex, ChunkOf;
    ZoneIndexFits(n);
    ChunkOfEight(ZoneIndex(n).0);
  }

  lemma ChunkOfEight(zi: nat)
    requires zi < NZONES
    ensures ChunkOf(zi) % 8 == 0
  {
  }

  /** No pages are taken for a chunk while a zone of its size has room or any zone is spare. */
  lemma PagesLast(s: State, c: Config, n: nat)
    requires Sound(s, c) && Configured(c) && 0 < n < c.limit && n < 16384
    requires s.spare != [] || exists z :: HasRoom(s, z, ZoneIndex(n).0)
    ensures SlabAlloc(s, c, n).1.Some? && SlabAlloc(s, c, n).0.pages == s.pages
  {
    hide AllocSpec, IsFree, Canonical, ZoneOk, Distinct, Offset, ChunkOf, ZoneIndex;
    ZoneIndexFits(n);
    ChunkBelow(n, c);
    assert ListOk(s, ZoneIndex(n).0);
    NoneListed(s, ZoneIndex(n).0);
  }

  /** A zone hands out in order the chunks it never handed out, and after them the one that came back last. */
  lemma TakenOrder(c: Config, x: Zone)
    requires ZoneOk(c, x) && x.nfree > 0
    ensures var (y, i) := Taken(x);
            if x.uindex + 1 < x.nmax then i == x.uindex + 1 == y.uindex && y.freeChunks == x.freeChunks
            else x.freeChunks == [i] + y.freeChunks && y.uindex == x.uindex
  {
    hide Offset, ChunkOf;
    TakenOk(c, x);
  }

  /** A zone that goes spare is the first that comes back; others keep their order. */
  lemma SpareLast(s: State, c: Config, z: int, i: int)
    requires Sound(s, c) && Configured(c) && Live(s, Chunk(z, i))
    ensures ZoneOk(c, s.zones[z]) && s.zones[z].zi < |s.lists|
    ensures var s' := FreeChunk(s, c, z, i);
            && (z in s'.spare ==> s'.spare == [z] + s.spare) && (z !in s'.spare ==> s'.spare == s.spare)
            && (z !in s'.zones ==> |s.spare| == THRESH)
  {
    hide Offset, ChunkOf, Without, FreeSpec;
    assert ZoneOk(c, s.zones[z]);
  }

  /** A small allocation with no zone of its size with room takes the first spare zone. */
  lemma SpareFirst(s: State, c: Config, n: nat)
    requires Sound(s, c) && Configured(c) && 0 < n < c.limit && n < 16384 && s.spare != []
    requires forall z :: !HasRoom(s, z, ZoneIndex(n).0)
    ensures var (s', r) := SlabAlloc(s, c, n); r == Some(Chunk(s.spare[0], 0)) && s'.spare == s.spare[1..]
  {
    hide AllocSpec, IsFree, Canonical, ZoneOk, Distinct, Offset, ChunkOf, ZoneIndex;
    ZoneIndexFits(n);
    ChunkBelow(n, c);
    assert ListOk(s, ZoneIndex(n).0);
    NoneListed(s, ZoneIndex(n).0);
  }

  /** A chunk released in a zone that had none free is the first of its size to be handed out again. */
  lemma FullZoneReused(s: State, c: Config, z: int, i: int)
    requires Sound(s, c) && Configured(c) && Live(s, Chunk(z, i)) && s.zones[z].nfree == 0
    ensures ZoneOk(c, s.zones[z]) && s.zones[z].zi < |s.lists|
    ensures var s' := FreeChunk(s, c, z, i);
            && s'.lists[s.zones[z].zi] == [z] + s.lists[s.zones[z].zi]
            && z in s'.zones && FromList(s', s.zones[z].zi).1 == Some(Chunk(z, i))
  {
    hide Offset, ChunkOf, Without, FreeSpec;
    var x := s.zones[z];
    assert ZoneOk(c, x) && x.freeChunks == [] && x.uindex + 1 == x.nmax;
  }

  // ----- Zones without a chunk in use

  /** All chunks of the zone are free, and it is not spare. */
  ghost predicate Idle(s: State, z: int) {
    z in s.zones && z !in s.spare && s.zones[z].nfree == s.zones[z].nmax
  }

  /** At most one zone of each chunk size is idle. */
  ghost predicate IdleOnce(s: State) {
    forall z, w :: Idle(s, z) && Idle(s, w) && s.zones[z].zi == s.zones[w].zi ==> z == w
  }

  lemma NotMoreFree(c: Config, x: Zone)
    requires ZoneOk(c, x)
    ensures x.nfree <= x.nmax && x.nmax >= 2
    ensures x.nfree == x.nmax <==> forall i :: 0 <= i <= x.uindex ==> i in x.freeChunks
  {
    hide Offset, ChunkOf;
    AllBelow(x.freeChunks, x.uindex + 1);
    if forall i :: 0 <= i <= x.uindex ==> i in x.freeChunks {
      BelowCount(x.uindex + 1);
      ElemsCount(x.freeChunks);
      SubsetCount(Below(x.uindex + 1), Elems(x.freeChunks));
    }
  }

  /** A step after which no zone is idle that was not. */
  lemma FewerIdle(s: State, s': State)
    requires IdleOnce(s) && forall z :: Idle(s', z) ==> Idle(s, z) && s'.zones[z].zi == s.zones[z].zi
    ensures IdleOnce(s')
  {
  }

  lemma AllocIdle(s: State, c: Config, n: nat)
    requires Sound(s, c) && Configured(c) && IdleOnce(s)
    ensures IdleOnce(SlabAlloc(s, c, n).0)
  {
    hide AllocSpec, IsFree, Canonical, ZoneOk, Distinct, Offset, ChunkOf, ZoneIndex, Taken, Fresh, IdleOnce;
    var s' := SlabAlloc(s, c, n).0;
    if 0 < n < c.limit {
      ZoneIndexFits(n);
      ChunkBelow(n, c);
      var (zi, size) := ZoneIndex(n);
      OffsetFits(c, size);
      ListHead(s, c, zi);
      FreshOk(c, zi, size);
      FreshBusy(c, zi, size);
      if s.lists[zi] != [] { TakenBusy(c, s.zones[s.lists[zi][0]]); }
      forall z | Idle(s', z) ensures Idle(s, z) && s'.zones[z].zi == s.zones[z].zi {
      }
    }
    FewerIdle(s, s');
  }

  lemma FreshBusy(c: Config, zi: nat, size: nat)
    requires Configured(c) && size > 0 && Offset(size) <= c.zonePages * PAGE
    requires ZoneOk(c, Fresh(c, zi, size))
    ensures var x := Fresh(c, zi, size); x.nfree < x.nmax
  {
  }

  lemma TakenBusy(c: Config, x: Zone)
    requires ZoneOk(c, x) && x.nfree > 0
    ensures Taken(x).0.nfree < Taken(x).0.nmax
  {
    hide Offset, ChunkOf;
    NotMoreFree(c, x);
  }

  lemma FreeIdle(s: State, c: Config, p: Ptr)
    requires Sound(s, c) && Configured(c) && Live(s, p) && IdleOnce(s)
    ensures p.Chunk? ==> p.zone in s.zones && s.zones[p.zone].zi < |s.lists|
    ensures IdleOnce(SlabFree(s, c, p))
  {
    hide FreeSpec, IsFree, Canonical, ZoneOk, Distinct, IdleOnce, FreeChunk;
    match p
    case Pages(at) => FewerIdle(s, SlabFree(s, c, p));
    case Chunk(z, i) =>
      RelistedOk(s, c, z, i);
      ChunkIdle(s, c, z, i);
  }

  /** A zone that becomes idle stays only if no other zone of its size has room, hence none is idle. */
  lemma ChunkIdle(s: State, c: Config, z: int, i: int)
    requires Sound(s, c) && Configured(c) && Live(s, Chunk(z, i)) && IdleOnce(s) && s.zones[z].zi < |s.lists|
    ensures IdleOnce(FreeChunk(s, c, z, i))
  {
    hide FreeSpec, IsFree, Canonical, ZoneOk, Distinct, Without;
    RelistedOk(s, c, z, i);
    var (s', l) := (FreeChunk(s, c, z, i), Relisted(s, z));
    var x := s.zones[z];
    if x.nfree + 1 == x.nmax && |l| < 2 {
      forall w | Idle(s, w) && w != z ensures s.zones[w].zi != x.zi {
        assert ZoneOk(c, s.zones[w]);
        NotMoreFree(c, s.zones[w]);
        if s.zones[w].zi == x.zi {
          assert HasRoom(s, w, x.zi) && w in l && z in l;
          TwoMembers(l, w, z);
        }
      }
    }
    forall w | Idle(s', w) && w != z ensures Idle(s, w) && s'.zones[w] == s.zones[w] {
    }
    forall v, w | Idle(s', v) && Idle(s', w) && s'.zones[v].zi == s'.zones[w].zi ensures v == w {
    }
  }

  lemma TwoMembers(l: seq<int>, a: int, b: int)
    requires a in l && b in l && a != b
    ensures |l| >= 2
  {
  }

  lemma {:induction false} RunIdle(s: State, c: Config, ops: seq<Op>)
    requires Sound(s, c) && Configured(c) && LegalRun(s, c, ops) && IdleOnce(s)
    ensures IdleOnce(SlabRuns.Run(s, c, ops)) && Sound(SlabRuns.Run(s, c, ops), c)
    decreases |ops|
  {
    hide SlabAlloc, SlabFree, Live, Sound, IdleOnce;
    if ops != [] {
      match ops[0]
      case Malloc(n) =>
        SlabAllocMeaning(s, c, n);
        AllocIdle(s, c, n);
        RunIdle(SlabAlloc(s, c, n).0, c, ops[1..]);
      case Release(p) =>
        SlabFreeMeaning(s, c, p);
        FreeIdle(s, c, p);
        RunIdle(SlabFree(s, c, p), c, ops[1..]);
    }
  }

  /**
   After any run from a state without zones: once no chunk of two zones is in use, they are one, or
   have different chunk sizes, or one of them is spare. So at most 72 zones and 2 spare ones are
   kept when nothing is in use.
   */
  lemma ReturnedZones(s: State, c: Config, ops: seq<Op>, z: int, w: int)
    requires Sound(s, c) && Configured(c) && LegalRun(s, c, ops) && s.zones == map[]
    requires var s' := SlabRuns.Run(s, c, ops);
             && z in s'.zones && w in s'.zones && z !in s'.spare && w !in s'.spare
             && s'.zones[z].chunk == s'.zones[w].chunk
             && forall i :: !Live(s', Chunk(z, i)) && !Live(s', Chunk(w, i))
    ensures z == w && |SlabRuns.Run(s, c, ops).spare| <= THRESH
  {
    hide LegalRun, PagesOk;
    RunIdle(s, c, ops);
    var s' := SlabRuns.Run(s, c, ops);
    NothingLive(s', c, z);
    NothingLive(s', c, w);
    ChunkOfInjective(s'.zones[z].zi, s'.zones[w].zi);
  }

  lemma NothingLive(s: State, c: Config, z: int)
    requires Sound(s, c) && z in s.zones && z !in s.spare && forall i :: !Live(s, Chunk(z, i))
    ensures Idle(s, z) && s.zones[z].zi < NZONES && s.zones[z].chunk == ChunkOf(s.zones[z].zi)
  {
    assert ZoneOk(c, s.zones[z]);
    forall i | 0 <= i <= s.zones[z].uindex ensures i in s.zones[z].freeChunks { assert !Live(s, Chunk(z, i)); }
    NotMoreFree(c, s.zones[z]);
  }
}
