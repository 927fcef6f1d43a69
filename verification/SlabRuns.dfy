/**
 The slab allocator of rt-thread/src/slab.c on top of its page allocator: zones of equal chunks,
 lists of zones with room by chunk size, a few spare zones, and large allocations in pages.
 */
module SlabRuns {
  import opened Common
  import opened RtList
  import opened SlabPages
  import ReadyBits

  /** RT_MM_PAGE_SIZE, RT_SLAB_NZONES, ZONE_RELEASE_THRESH, and `struct rt_slab_zone` on a 64-bit CPU. */
  const PAGE := 4096
  const NZONES := 72
  const THRESH := 2
  const ZONE_HEADER := 56

  /**
   Pages `first` up to `total` are managed; a zone has `zonePages` of them; larger requests than
   `limit` get pages.
   */
  datatype Config = Config(first: nat, total: nat, zonePages: nat, limit: nat)

  /**
   What rt_slab_init computes: the bytes of the heap are counted in 32 bits; zones have 32 to
   128 KB, and chunks less than a quarter of a zone, at most 16 KB.
   */
  predicate Configured(c: Config) {
    && c.first < c.total <= 0x1_0000_0000 / PAGE && c.zonePages in {8, 16, 32}
       && c.limit == Min(c.zonePages * PAGE / 4, 16384)
  }

  // ----- Chunk sizes

  /** zoneindex: the index of the zone list, and the chunk size. */
  function ZoneIndex(n: nat): (int, nat)
    requires n < 16384
  {
    if n < 128 then var b := (n + 7) / 8 * 8; (b / 8 - 1, b)
    else if n < 256 then var b := (n + 15) / 16 * 16; (b / 16 + 7, b)
    else if n < 8192 then
      if n < 512 then var b := (n + 31) / 32 * 32; (b / 32 + 15, b)
      else if n < 1024 then var b := (n + 63) / 64 * 64; (b / 64 + 23, b)
      else if n < 2048 then var b := (n + 127) / 128 * 128; (b / 128 + 31, b)
      else if n < 4096 then var b := (n + 255) / 256 * 256; (b / 256 + 39, b)
      else var b := (n + 511) / 512 * 512; (b / 512 + 47, b)
    else var b := (n + 1023) / 1024 * 1024; (b / 1024 + 55, b)
  }

  /** The chunk size that belongs to an index. */
  function ChunkOf(zi: nat): nat {
    if zi < 16 then (zi + 1) * 8
    else if zi < 24 then (zi - 7) * 16
    else if zi < 32 then (zi - 15) * 32
    else if zi < 40 then (zi - 23) * 64
    else if zi < 48 then (zi - 31) * 128
    else if zi < 56 then (zi - 39) * 256
    else if zi < 64 then (zi - 47) * 512
    else (zi - 55) * 1024
  }

  /** The index is in range; its chunks are large enough, and waste at most 7 bytes or an eighth of the request. */
  ghost predicate WellIndexed(n: nat)
    requires n < 16384
  {
    var (zi, size) := ZoneIndex(n);
        0 <= zi < NZONES && size == ChunkOf(zi) && n <= size && (size - n <= 7 || 8 * (size - n) <= n)
  }

  lemma ZoneIndexFits(n: nat)
    requires 0 < n < 16384
    ensures WellIndexed(n)
  {
    if n < 512 { SmallFits(n); } else { LargeFits(n); }
  }

  lemma SmallFits(n: nat)
    requires 0 < n < 512
    ensures WellIndexed(n)
  {
    if n < 128 { FitsClass(n, (n + 7) / 8, 8); }
    else if n < 256 { FitsClass(n, (n + 15) / 16, 16); }
    else { FitsClass(n, (n + 31) / 32, 32); }
  }

  lemma LargeFits(n: nat)
    requires 512 <= n < 16384
    ensures WellIndexed(n)
  {
    if n < 1024 { FitsClass(n, (n + 63) / 64, 64); }
    else if n < 2048 { FitsClass(n, (n + 127) / 128, 128); }
    else if n < 4096 { FitsClass(n, (n + 255) / 256, 256); }
    else if n < 8192 { FitsClass(n, (n + 511) / 512, 512); }
    else { FitsClass(n, (n + 1023) / 1024, 1024); }
  }

  /** `q` chunk units of `u` bytes hold `n` bytes, with less than a unit to spare. */
  lemma FitsClass(n: nat, q: nat, u: nat)
    requires u in {8, 16, 32, 64, 128, 256, 512, 1024} && q * u < n + u <= q * u + u
    ensures q * u / u == q && n <= q * u < n + u
  {
  }

  /** Two requests share an index exactly when they share a chunk size. */
  lemma ZoneIndexBySize(m: nat, n: nat)
    requires 0 < m < 16384 && 0 < n < 16384
    ensures ZoneIndex(m).0 == ZoneIndex(n).0 <==> ZoneIndex(m).1 == ZoneIndex(n).1
  {
    ZoneIndexFits(m);
    ZoneIndexFits(n);
    if ZoneIndex(m).1 == ZoneIndex(n).1 { ChunkOfInjective(ZoneIndex(m).0, ZoneIndex(n).0); }
  }

  lemma ChunkOfInjective(zi: nat, zj: nat)
    requires zi < NZONES && zj < NZONES && ChunkOf(zi) == ChunkOf(zj)
    ensures zi == zj
  {
  }

  // ----- Zones

  /** The test of the source for a power of two, and where the chunks of a zone begin. */
  function Offset(size: nat): nat
    requires size > 0
  {
    if ReadyBits.Or(size, size - 1) + 1 == size * 2 then (ZONE_HEADER + size - 1) / size * size
    else (ZONE_HEADER + 7) / 8 * 8
  }

  /** A zone header. Chunks up to `uindex` were handed out at some time; those of `freeChunks` came back. */
  datatype Zone = Zone(zi: nat, chunk: nat, nmax: nat, nfree: nat, uindex: nat, freeChunks: seq<int>)

  /** A request below the limit gets a chunk size within it. */
  lemma ChunkBelow(n: nat, c: Config)
    requires Configured(c) && 0 < n < c.limit
    ensures n < 16384 && 8 <= ZoneIndex(n).1 <= c.limit
  {
    ZoneIndexFits(n);
    assert c.limit in {8192, 16384};
  }

  /** A zone just made, with its first chunk handed out. */
  function Fresh(c: Config, zi: nat, size: nat): Zone
    requires size > 0 && Offset(size) <= c.zonePages * PAGE
  {
    var room: nat := c.zonePages * PAGE - Offset(size);
    DivFacts(room, size);
    var nmax := room / size;
    Zone(zi, size, nmax, if nmax > 0 then nmax - 1 else 0, 0, [])
  }

  /** What was handed out: pages from one on, or a chunk of a zone. */
  datatype Ptr = Pages(at: int) | Chunk(zone: int, index: int)

  /**
   The zones by their first pages, the lists of zones with room, the spare zones, the free pages,
   and the large allocations by their first pages.
   */
  datatype State = State(zones: map<int, Zone>, lists: seq<seq<int>>, spare: seq<int>, pages: seq<Run>,
                         large: map<int, nat>)

  ghost predicate Live(s: State, p: Ptr) {
    match p
    case Pages(at) => at in s.large
    case Chunk(z, i) => z in s.zones && z !in s.spare && 0 <= i <= s.zones[z].uindex && i !in s.zones[z].freeChunks
  }

  /** The free chunks are those that came back and those never handed out. */
  ghost predicate ZoneOk(c: Config, x: Zone) {
    && x.zi < NZONES && x.chunk == ChunkOf(x.zi) && Offset(x.chunk) + x.nmax * x.chunk <= c.zonePages * PAGE
       && x.nmax >= 2
    && x.uindex < x.nmax && x.nfree == x.nmax - 1 - x.uindex + |x.freeChunks|
    && Distinct(x.freeChunks) && forall i :: i in x.freeChunks ==> 0 <= i <= x.uindex
  }

  ghost predicate HasRoom(s: State, z: int, zi: int) {
    z in s.zones && z !in s.spare && s.zones[z].zi == zi && s.zones[z].nfree > 0
  }

  /** A zone is on the list of its size exactly if it has a free chunk and is not spare. */
  ghost predicate ListOk(s: State, zi: int)
    requires 0 <= zi < |s.lists|
  {
    Distinct(s.lists[zi]) && forall z :: z in s.lists[zi] <==> HasRoom(s, z, zi)
  }

  /** How many pages the zone or the large allocation at `a` has. */
  function Span(s: State, c: Config, a: int): nat {
    if a in s.zones then c.zonePages else if a in s.large then s.large[a] else 0
  }

  ghost predicate OwnedBy(s: State, c: Config, a: int, p: int) { a <= p < a + Span(s, c, a) }

  /** Every managed page is free or belongs to one zone or one large allocation. */
  ghost predicate PagesOk(s: State, c: Config) {
    && Canonical(s.pages) && s.zones.Keys !! s.large.Keys && (forall a :: a in s.large ==> s.large[a] > 0)
    && (forall a, p :: OwnedBy(s, c, a, p) ==> !IsFree(s.pages, p))
    && (forall a, b, p :: OwnedBy(s, c, a, p) && OwnedBy(s, c, b, p) ==> a == b)
    && forall p :: c.first <= p < c.total <==> IsFree(s.pages, p) || exists a :: OwnedBy(s, c, a, p)
  }

  ghost predicate ZonesOk(s: State, c: Config) {
    && |s.lists| == NZONES && (forall zi :: 0 <= zi < NZONES ==> ListOk(s, zi))
    && Distinct(s.spare) && |s.spare| <= THRESH && (forall z :: z in s.spare ==> z in s.zones)
    && forall z :: z in s.zones && z !in s.spare ==> ZoneOk(c, s.zones[z])
  }

  ghost predicate Sound(s: State, c: Config) { PagesOk(s, c) && ZonesOk(s, c) }

  // ----- The calls

  function Taken(x: Zone): (Zone, int) {
    var y := x.(nfree := if x.nfree > 0 then x.nfree - 1 else 0);
    if x.uindex + 1 != x.nmax then (y.(uindex := x.uindex + 1), x.uindex + 1)
    else if x.freeChunks == [] then (y, 0)
    else (y.(freeChunks := x.freeChunks[1..]), x.freeChunks[0])
  }

  /** A chunk of a zone with room. */
  function FromList(s: State, zi: nat): (State, Option<Ptr>)
    requires zi < |s.lists| && s.lists[zi] != [] && s.lists[zi][0] in s.zones
  {
    var z := s.lists[zi][0];
    var (x, i) := Taken(s.zones[z]);
    (s.(zones := s.zones[z := x], lists := if x.nfree == 0 then s.lists[zi := s.lists[zi][1..]] else s.lists),
        Some(Chunk(z, i)))
  }

  /** The first chunk of a fresh zone at `z`. */
  function FromFresh(s: State, c: Config, zi: nat, size: nat, z: int): (State, Option<Ptr>)
    requires zi < |s.lists| && size > 0 && Offset(size) <= c.zonePages * PAGE
  {
    (s.(zones := s.zones[z := Fresh(c, zi, size)], lists := s.lists[zi := [z] + s.lists[zi]]), Some(Chunk(z, 0)))
  }

  lemma ListHead(s: State, c: Config, zi: nat)
    requires ZonesOk(s, c) && zi < NZONES
    ensures |s.lists| == NZONES
    ensures s.lists[zi] != [] ==> HasRoom(s, s.lists[zi][0], zi)
  {
    assert ListOk(s, zi);
    if s.lists[zi] != [] { assert s.lists[zi][0] in s.lists[zi]; }
  }

  /** rt_slab_alloc of a chunk. */
  function SmallAlloc(s: State, c: Config, zi: nat, size: nat): (State, Option<Ptr>)
    requires |s.lists| == NZONES && zi < NZONES && size > 0 && Offset(size) <= c.zonePages * PAGE
    requires s.lists[zi] != [] ==> s.lists[zi][0] in s.zones
  {
    if s.lists[zi] != [] then FromList(s, zi)
    else if s.spare != [] then FromFresh(s.(spare := s.spare[1..]), c, zi, size, s.spare[0])
    else
      var (pages, a) := AllocSpec(s.pages, c.zonePages);
      if a.None? then (s, None) else FromFresh(s.(pages := pages), c, zi, size, a.value)
  }

  /** rt_slab_alloc of pages. */
  function LargeAlloc(s: State, n: nat): (State, Option<Ptr>) {
    var (pages, a) := AllocSpec(s.pages, n);
    if a.None? then (s, None) else (s.(pages := pages, large := s.large[a.value as int := n]), Some(Pages(a.value)))
  }

  function PagesFor(n: nat): nat { (n + PAGE - 1) / PAGE }

  /** One more than the largest rt_size_t on a 64-bit CPU. */
  const SIZE_LIMIT := 0x1_0000_0000_0000_0000

  /** RT_ALIGN(n, RT_MM_PAGE_SIZE) >> RT_MM_PAGE_BITS in rt_size_t arithmetic, which wraps. */
  function PagesSeen(n: nat): nat { (n + PAGE - 1) % SIZE_LIMIT / PAGE }

  /** A request that wraps asks for no pages; and there never are as many as it really needs. */
  lemma WrappedFails(s: State, c: Config, n: nat)
    requires PagesOk(s, c) && Configured(c) && c.limit <= n < SIZE_LIMIT
    ensures PagesSeen(n) == PagesFor(n) > 0 || (PagesSeen(n) == 0 && LargeAlloc(s, PagesFor(n)) == (s, None))
  {
    hide IsFree, Canonical, AllocSpec;
    if n + PAGE - 1 >= SIZE_LIMIT {
      var k := PagesFor(n);
      AllocMeaning(s.pages, k);
      forall a ensures !AllFree(s.pages, a, k) { TooMany(s, c, a, k); }
    }
  }

  lemma TooMany(s: State, c: Config, a: int, k: nat)
    requires PagesOk(s, c) && k > c.total
    ensures !AllFree(s.pages, a, k)
  {
    hide IsFree, Canonical;
    var p := if a < c.first then a else a + k - 1;
    assert !IsFree(s.pages, p) && a <= p < a + k;
  }

  /** rt_slab_alloc. */
  function SlabAlloc(s: State, c: Config, n: nat): (State, Option<Ptr>)
    requires Sound(s, c) && Configured(c)
  {
    if n == 0 then (s, None)
    else if n >= c.limit then LargeAlloc(s, PagesFor(n))
    else
      ZoneIndexFits(n);
      ChunkBelow(n, c);
      OffsetFits(c, ZoneIndex(n).1);
      ListHead(s, c, ZoneIndex(n).0);
      SmallAlloc(s, c, ZoneIndex(n).0, ZoneIndex(n).1)
  }

  /** rt_slab_free of a chunk. */
  function FreeChunk(s: State, c: Config, z: int, i: int): State
    requires z in s.zones && s.zones[z].zi < |s.lists|
  {
    var x := s.zones[z].(freeChunks := [i] + s.zones[z].freeChunks, nfree := s.zones[z].nfree + 1);
    var l := if s.zones[z].nfree == 0 then [z] + s.lists[x.zi] else s.lists[x.zi];
    var s1 := s.(zones := s.zones[z := x]);
    if x.nfree == x.nmax && |l| >= 2 then
      var s2 := s1.(lists := s.lists[x.zi := Without(l, z)]);
      if |s.spare| + 1 <= THRESH then s2.(spare := [z] + s.spare)
      else s2.(zones := s.zones - {z}, pages := FreeSpec(s.pages, if z < 0 then 0 else z, c.zonePages))
    else s1.(lists := s.lists[x.zi := l])
  }

  /** rt_slab_free. */
  function SlabFree(s: State, c: Config, p: Ptr): State
    requires p.Chunk? ==> p.zone in s.zones && s.zones[p.zone].zi < |s.lists|
  {
    match p
    case Pages(at) =>
      if at in s.large && at >= 0 then s.(large := s.large - {at}, pages := FreeSpec(s.pages, at, s.large[at])) else s
    case Chunk(z, i) => FreeChunk(s, c, z, i)
  }

  lemma DivFacts(a: nat, d: nat)
    requires d > 0
    ensures 0 <= a / d && a / d * d <= a < a / d * d + d
    ensures a >= 2 * d ==> a / d >= 2
  {
    var q, r := a / d, a % d;
    assert a == d * q + r;
    if q == 0 { assert a == r; } else if q == 1 { assert a == d + r; }
  }

  /** A zone holds its header and at least two chunks. */
  lemma OffsetFits(c: Config, size: nat)
    requires Configured(c) && 8 <= size <= c.limit
    ensures Offset(size) <= c.zonePages * PAGE && (c.zonePages * PAGE - Offset(size)) / size >= 2
    ensures var x := Fresh(c, 0, size); Offset(size) + x.nmax * size <= c.zonePages * PAGE
  {
    hide ReadyBits.Or;
    DivFacts(ZONE_HEADER + size - 1, size);
    DivFacts(c.zonePages * PAGE - Offset(size), size);
  }

  // ----- Alignment

  ghost predicate PowerOfTwo(n: nat) {
    n == 1 || (n > 1 && n % 2 == 0 && PowerOfTwo(n / 2))
  }

  /** The bit trick of the source recognizes exactly the powers of two. */
  lemma {:induction false} TestIsPower(n: nat)
    requires n > 0
    ensures ReadyBits.Or(n, n - 1) + 1 == n * 2 <==> PowerOfTwo(n)
    decreases n
  {
    if n > 1 {
      if n % 2 == 0 {
        assert (n - 1) / 2 == n / 2 - 1;
        TestIsPower(n / 2);
      } else {
        assert (n - 1) / 2 == n / 2;
        OrSelf(n / 2);
      }
    }
  }

  lemma {:induction false} OrSelf(g: nat)
    ensures ReadyBits.Or(g, g) == g
  {
    if g > 0 { OrSelf(g / 2); }
  }

  lemma {:induction false} PowerDivides(n: nat, m: nat)
    requires PowerOfTwo(n) && PowerOfTwo(m) && n <= m
    ensures m % n == 0
    decreases n
  {
    if n > 1 {
      PowerDivides(n / 2, m / 2);
      QuotientAndRest(m / 2, n / 2);
      Regroup(2, n / 2, m / 2 / (n / 2));
      MultipleOf(m, n, m / 2 / (n / 2));
    }
  }

  lemma MultipleOf(a: nat, d: nat, q: nat)
    requires d > 0 && a == d * q
    ensures a % d == 0
  {
    QuotientAndRest(a, d);
    NoRest(d, q, a / d, a % d);
  }

  lemma QuotientAndRest(a: nat, d: nat)
    requires d > 0
    ensures a == d * (a / d) + a % d && 0 <= a % d < d && 0 <= a / d
  {
  }

  lemma NoRest(d: nat, q: nat, k: nat, r: nat)
    requires d > 0 && d * q == d * k + r && r < d
    ensures r == 0
  {
    if k < q { ChunkEnd(k, q, d); }
    if q < k { ChunkEnd(q, k, d); }
  }

  lemma SumOfMultiples(d: nat, x: nat, y: nat, z: nat)
    requires d > 0 && x % d == 0 && y % d == 0 && z % d == 0
    ensures (x + y + z) % d == 0
  {
    QuotientAndRest(x, d);
    QuotientAndRest(y, d);
    QuotientAndRest(z, d);
    Distribute(d, x / d, y / d, z / d);
    MultipleOf(x + y + z, d, x / d + y / d + z / d);
  }

  lemma Distribute(d: int, i: int, j: int, k: int)
    ensures d * i + d * j + d * k == d * (i + j + k)
  {
  }

  lemma TimesMultiple(d: nat, x: nat, q: nat)
    requires d > 0 && x % d == 0
    ensures x * q % d == 0
  {
    QuotientAndRest(x, d);
    Regroup(d, x / d, q);
    MultipleOf(x * q, d, x / d * q);
  }

  lemma Regroup(d: int, i: int, q: int)
    ensures d * i * q == d * (i * q)
  {
  }

  lemma PageIsPower()
    ensures PowerOfTwo(PAGE)
  {
    assert PowerOfTwo(1) && PowerOfTwo(2) && PowerOfTwo(4) && PowerOfTwo(8) && PowerOfTwo(16) && PowerOfTwo(32);
    assert PowerOfTwo(64) && PowerOfTwo(128) && PowerOfTwo(256) && PowerOfTwo(512) && PowerOfTwo(1024)
        && PowerOfTwo(2048);
  }

  /**
   Chunk `i` of a zone at page `z`, for a chunk size that is a power of two and no more than a
   page, lies at a multiple of its size.
   */
  lemma ChunksAligned(size: nat, z: nat, i: nat)
    requires 0 < size <= PAGE && PowerOfTwo(size)
    ensures (z * PAGE + Offset(size) + i * size) % size == 0
  {
    hide PowerOfTwo, ReadyBits.Or;
    TestIsPower(size);
    PageIsPower();
    PowerDivides(size, PAGE);
    TimesMultiple(size, PAGE, z);
    assert PAGE * z == z * PAGE;
    var k := (ZONE_HEADER + size - 1) / size;
    assert Offset(size) == k * size == size * k;
    MultipleOf(Offset(size), size, k);
    MultipleOf(i * size, size, i);
    SumOfMultiples(size, z * PAGE, Offset(size), i * size);
  }

  // ----- Pages

  lemma NotOwned(s: State, c: Config, a: int)
    requires PagesOk(s, c) && Configured(c) && IsFree(s.pages, a)
    ensures a !in s.zones && a !in s.large
  {
    if a in s.zones || a in s.large { assert OwnedBy(s, c, a, a); }
  }

  /** A zone or a large allocation at `a` gets its pages from the free ones. */
  lemma RegionGained(s: State, s': State, c: Config, a: nat, n: nat)
    requires PagesOk(s, c) && n > 0 && AllocSpec(s.pages, n) == (s'.pages, Some(a))
    requires s'.zones.Keys !! s'.large.Keys && forall b :: b in s'.large ==> s'.large[b] > 0
    requires Span(s, c, a) == 0 && Span(s', c, a) == n && forall b :: b != a ==> Span(s', c, b) == Span(s, c, b)
    ensures PagesOk(s', c)
  {
    hide AllocSpec, IsFree, Canonical;
    AllocMeaning(s.pages, n);
    forall b, p ensures OwnedBy(s', c, b, p) <==> OwnedBy(s, c, b, p) || (b == a && a <= p < a + n) {
    }
    forall p | a <= p < a + n ensures IsFree(s.pages, p) && !IsFree(s'.pages, p) && forall b :: !OwnedBy(s, c, b, p) {
      assert IsFree(s.pages, p);
    }
    forall b, p | OwnedBy(s', c, b, p) ensures !IsFree(s'.pages, p) {
      if b != a { assert OwnedBy(s, c, b, p); }
    }
    forall b, d, p | OwnedBy(s', c, b, p) && OwnedBy(s', c, d, p) ensures b == d {
      if b != a && d != a { assert OwnedBy(s, c, b, p) && OwnedBy(s, c, d, p); }
    }
    forall p ensures c.first <= p < c.total <==> IsFree(s'.pages, p) || exists b :: OwnedBy(s', c, b, p) {
      if a <= p < a + n { assert OwnedBy(s', c, a, p) && IsFree(s.pages, p); }
      if b :| OwnedBy(s, c, b, p) { assert OwnedBy(s', c, b, p); }
      if b :| OwnedBy(s', c, b, p) { assert b != a ==> OwnedBy(s, c, b, p); }
    }
  }

  /** The zone or large allocation at `a` gives its pages back. */
  lemma RegionLost(s: State, s': State, c: Config, a: nat)
    requires PagesOk(s, c) && Span(s, c, a) > 0 && s'.pages == FreeSpec(s.pages, a, Span(s, c, a))
    requires s'.zones.Keys !! s'.large.Keys && forall b :: b in s'.large ==> s'.large[b] > 0
    requires Span(s', c, a) == 0 && forall b :: b != a ==> Span(s', c, b) == Span(s, c, b)
    ensures PagesOk(s', c)
  {
    hide FreeSpec, IsFree, Canonical;
    var n := Span(s, c, a);
    forall p | a <= p < a + n ensures !IsFree(s.pages, p) { assert OwnedBy(s, c, a, p); }
    FreeMeaning(s.pages, a, n);
    forall b, p ensures OwnedBy(s', c, b, p) <==> OwnedBy(s, c, b, p) && b != a {
    }
    forall b, p | OwnedBy(s', c, b, p) ensures !IsFree(s'.pages, p) {
      assert OwnedBy(s, c, b, p) && b != a && !OwnedBy(s, c, a, p);
    }
    forall p ensures c.first <= p < c.total <==> IsFree(s'.pages, p) || exists b :: OwnedBy(s', c, b, p) {
      if a <= p < a + n { assert OwnedBy(s, c, a, p); }
      if b :| OwnedBy(s, c, b, p) { assert b != a ==> OwnedBy(s', c, b, p); }
      if b :| OwnedBy(s', c, b, p) { assert OwnedBy(s, c, b, p); }
    }
  }

  lemma RegionsSame(s: State, s': State, c: Config)
    requires PagesOk(s, c) && s'.pages == s.pages && s'.large == s.large && s'.zones.Keys == s.zones.Keys
    ensures PagesOk(s', c)
  {
    hide IsFree, Canonical;
    forall b, p ensures OwnedBy(s', c, b, p) <==> OwnedBy(s, c, b, p) {
    }
    forall p ensures c.first <= p < c.total <==> IsFree(s'.pages, p) || exists b :: OwnedBy(s', c, b, p) {
      if b :| OwnedBy(s, c, b, p) { assert OwnedBy(s', c, b, p); }
      if b :| OwnedBy(s', c, b, p) { assert OwnedBy(s, c, b, p); }
    }
  }

  // ----- Allocation

  /** What every allocation does to the pointers handed out. */
  ghost predicate Hands(s: State, s': State, p: Ptr) {
    !Live(s, p) && forall q :: Live(s', q) <==> Live(s, q) || q == p
  }

  lemma LargeSound(s: State, c: Config, n: nat)
    requires Sound(s, c) && Configured(c) && n > 0
    ensures var (s', r) := LargeAlloc(s, n);
            Sound(s', c) &&
            if r.Some? then r.value.Pages? && Hands(s, s', r.value) && s'.large == s.large[r.value.at := n] else s' == s
  {
    hide AllocSpec, IsFree, Canonical, ZoneOk, Distinct;
    AllocMeaning(s.pages, n);
    var (s', r) := LargeAlloc(s, n);
    if r.Some? {
      var a: nat := r.value.at;
      assert IsFree(s.pages, a) by { assert AllFree(s.pages, a, n); }
      NotOwned(s, c, a);
      RegionGained(s, s', c, a, n);
      ZonesSame(s, s', c);
    }
  }

  /** The zone part does not depend on pages and large allocations. */
  lemma ZonesSame(s: State, s': State, c: Config)
    requires ZonesOk(s, c) && s'.zones == s.zones && s'.lists == s.lists && s'.spare == s.spare
    ensures ZonesOk(s', c)
  {
    hide ZoneOk;
    forall zi | 0 <= zi < NZONES ensures ListOk(s', zi) {
      assert ListOk(s, zi);
      forall z ensures HasRoom(s', z, zi) <==> HasRoom(s, z, zi) {
      }
    }
  }

  /** A zone with room has a chunk to give: from the end of those handed out, or from those that came back. */
  lemma TakenOk(c: Config, x: Zone)
    requires ZoneOk(c, x) && x.nfree > 0
    ensures x.uindex + 1 == x.nmax ==> x.freeChunks != []
    ensures var (y, i) := Taken(x);
            && ZoneOk(c, y) && y.zi == x.zi && y.nfree == x.nfree - 1 && 0 <= i <= y.uindex
               && (i <= x.uindex ==> i in x.freeChunks)
            && forall j :: (0 <= j <= y.uindex && j !in y.freeChunks) <==>
                 (0 <= j <= x.uindex && j !in x.freeChunks) || j == i
  {
    hide Offset, ChunkOf, Distinct;
    if x.uindex + 1 == x.nmax {
      var fs := x.freeChunks;
      ListTail(fs);
      assert fs[0] in fs;
    } else {
      forall j ensures (0 <= j <= x.uindex + 1 && j !in x.freeChunks) <==>
            (0 <= j <= x.uindex && j !in x.freeChunks) || j == x.uindex + 1 {
      }
    }
  }

  lemma FromListSound(s: State, c: Config, zi: nat)
    requires Sound(s, c) && zi < NZONES && s.lists[zi] != []
    ensures s.lists[zi][0] in s.zones
    ensures var (s', r) := FromList(s, zi);
            Sound(s', c) && r.Some? && r.value.Chunk? && Hands(s, s', r.value) && s.zones[r.value.zone].zi == zi
  {
    hide ZoneOk, Distinct;
    ListHead(s, c, zi);
    var z := s.lists[zi][0];
    var (x, i) := Taken(s.zones[z]);
    TakenOk(c, s.zones[z]);
    hide Taken;
    var (s', r) := FromList(s, zi);
    RegionsSame(s, s', c);
    forall zj | 0 <= zj < NZONES ensures ListOk(s', zj) {
      assert ListOk(s, zj);
      if x.nfree == 0 && zj == zi { ListTail(s.lists[zi]); }
      forall w ensures HasRoom(s', w, zj) <==> HasRoom(s, w, zj) && !(w == z && x.nfree == 0) {
      }
    }
  }

  lemma ListTail(l: seq<int>)
    requires Distinct(l) && l != []
    ensures Distinct(l[1..]) && forall w :: w in l[1..] <==> w in l && w != l[0]
  {
    assert l == [l[0]] + l[1..];
    forall j | 0 <= j < |l[1..]| ensures l[1..][j] != l[0] { assert l[0] != l[j + 1]; }
    forall i, j | 0 <= i < j < |l[1..]| ensures l[1..][i] != l[1..][j] { assert l[i + 1] != l[j + 1]; }
  }

  /** A fresh zone at `z`, which is no zone in use. */
  lemma FreshZones(s: State, c: Config, zi: nat, size: nat, z: int)
    requires ZonesOk(s, c) && Configured(c) && zi < NZONES && size == ChunkOf(zi) && 8 <= size <= c.limit
    requires (z in s.zones ==> z in s.spare)
    ensures Offset(size) <= c.zonePages * PAGE
    ensures var s1 := s.(spare := Without(s.spare, z));
            var (s', r) := FromFresh(s1, c, zi, size, z);
            ZonesOk(s', c) && r == Some(Chunk(z, 0)) && Hands(s, s', r.value)
  {
    hide Distinct, Without, ChunkOf, Offset;
    OffsetFits(c, size);
    var s1 := s.(spare := Without(s.spare, z));
    var s' := FromFresh(s1, c, zi, size, z).0;
    var x := s'.zones[z];
    WithoutMembers(s.spare, z);
    WithoutShorter(s.spare, z);
    FreshOk(c, zi, size);
    forall zj | 0 <= zj < NZONES ensures ListOk(s', zj) {
      assert ListOk(s, zj);
      assert !HasRoom(s, z, zj);
      if zj == zi { ConsDistinct(z, s.lists[zi]); }
      forall w ensures HasRoom(s', w, zj) <==> HasRoom(s, w, zj) || (w == z && zj == zi) {
      }
    }
    forall w | w in s'.zones && w !in s'.spare ensures ZoneOk(c, s'.zones[w]) {
    }
  }

  lemma WithoutShorter(l: seq<int>, z: int)
    ensures |Without(l, z)| <= |l|
  {
  }

  lemma ConsDistinct(z: int, l: seq<int>)
    requires Distinct(l) && z !in l
    ensures Distinct([z] + l)
  {
  }

  lemma FreshOk(c: Config, zi: nat, size: nat)
    requires Configured(c) && zi < NZONES && size == ChunkOf(zi) && 8 <= size <= c.limit
    ensures Offset(size) <= c.zonePages * PAGE && ZoneOk(c, Fresh(c, zi, size)) && Fresh(c, zi, size).nfree > 0
  {
    OffsetFits(c, size);
  }

  lemma WithoutHead(l: seq<int>)
    requires l != []
    ensures Without(l, l[0]) == l[1..]
  {
    assert IndexOf(l, l[0]) == 0;
  }

  lemma SmallSound(s: State, c: Config, zi: nat, size: nat)
    requires Sound(s, c) && Configured(c) && zi < NZONES && size == ChunkOf(zi) && 8 <= size <= c.limit
    ensures Offset(size) <= c.zonePages * PAGE && (s.lists[zi] != [] ==> s.lists[zi][0] in s.zones)
    ensures var (s', r) := SmallAlloc(s, c, zi, size);
            && Sound(s', c)
            && (if r.Some?
                then && r.value.Chunk? && Hands(s, s', r.value)
                     && r.value.zone in s'.zones && s'.zones[r.value.zone].chunk == size
                else s' == s)
            && (r.None? <==> s.lists[zi] == [] && s.spare == [] && forall a :: !AllFree(s.pages, a, c.zonePages))
  {
    hide AllocSpec, IsFree, Canonical, ZoneOk, Distinct, Offset, ChunkOf, FromList, FromFresh;
    OffsetFits(c, size);
    ListHead(s, c, zi);
    if s.lists[zi] != [] {
      FromListSound(s, c, zi);
      FromListChunk(s, c, zi);
    } else if s.spare != [] {
      var z := s.spare[0];
      assert z in s.spare;
      WithoutHead(s.spare);
      FreshZones(s, c, zi, size, z);
      FreshSpan(s.(spare := s.spare[1..]), c, zi, size, z);
      RegionsSame(s, FromFresh(s.(spare := s.spare[1..]), c, zi, size, z).0, c);
    } else {
      AllocMeaning(s.pages, c.zonePages);
      var (pages, a) := AllocSpec(s.pages, c.zonePages);
      if a.Some? {
        assert IsFree(s.pages, a.value) by { assert AllFree(s.pages, a.value, c.zonePages); }
        NotOwned(s, c, a.value);
        var s1 := s.(pages := pages);
        ZonesSame(s, s1, c);
        assert Without(s1.spare, a.value) == s1.spare;
        FreshZones(s1, c, zi, size, a.value);
        FreshSpan(s1, c, zi, size, a.value);
        RegionGained(s, FromFresh(s1, c, zi, size, a.value).0, c, a.value, c.zonePages);
      }
    }
  }

  lemma FromListChunk(s: State, c: Config, zi: nat)
    requires Sound(s, c) && zi < NZONES && s.lists[zi] != [] && s.lists[zi][0] in s.zones
    ensures var (s', r) := FromList(s, zi);
            r.Some? && r.value.Chunk? && r.value.zone in s'.zones && s'.zones[r.value.zone].chunk == ChunkOf(zi)
  {
    ListHead(s, c, zi);
  }

  lemma FreshSpan(s: State, c: Config, zi: nat, size: nat, z: int)
    requires zi < |s.lists| && size > 0 && Offset(size) <= c.zonePages * PAGE
    ensures var (s', r) := FromFresh(s, c, zi, size, z);
            && r == Some(Chunk(z, 0)) && s'.zones.Keys == s.zones.Keys + {z} && s'.large == s.large
               && s'.pages == s.pages
            && s'.zones[z].chunk == size
               && (forall b :: b != z ==> Span(s', c, b) == Span(s, c, b)) && Span(s', c, z) == c.zonePages
  {
  }

  /**
   An allocation hands out memory that was not handed out, of at least the requested size, and
   leaves what was handed out alone. A small one fails exactly when no zone has room, no zone is
   spare and no run of free pages is long enough; a large one when there are not enough adjacent pages.
   */
  lemma SlabAllocMeaning(s: State, c: Config, n: nat)
    requires Sound(s, c) && Configured(c)
    ensures var (s', r) := SlabAlloc(s, c, n);
            && Sound(s', c)
            && if r.Some? then Hands(s, s', r.value) && n <= SizeOf(s', r.value) else s' == s
    ensures n >= c.limit ==> (SlabAlloc(s, c, n).1.None? <==> forall a :: !AllFree(s.pages, a, PagesFor(n)))
  {
    hide AllocSpec, IsFree, Canonical, ZoneOk, Distinct, Offset, ChunkOf, SmallAlloc, ZoneIndex, AllFree, Hands;
    if n >= c.limit {
      var k := PagesFor(n);
      LargeSound(s, c, k);
      AllocMeaning(s.pages, k);
    } else if n > 0 {
      ZoneIndexFits(n);
      ChunkBelow(n, c);
      SmallSound(s, c, ZoneIndex(n).0, ZoneIndex(n).1);
    }
  }

  function SizeOf(s: State, p: Ptr): nat {
    match p
    case Pages(at) => if at in s.large then s.large[at] * PAGE else 0
    case Chunk(z, i) => if z in s.zones then s.zones[z].chunk else 0
  }

  // ----- Release

  ghost predicate TakesBack(s: State, s': State, p: Ptr) {
    Live(s, p) && forall q :: Live(s', q) <==> Live(s, q) && q != p
  }

  lemma FreePagesSound(s: State, c: Config, at: nat)
    requires Sound(s, c) && Configured(c) && at in s.large
    ensures var s' := SlabFree(s, c, Pages(at)); Sound(s', c) && TakesBack(s, s', Pages(at))
  {
    hide FreeSpec, IsFree, Canonical, ZoneOk, Distinct;
    var s' := SlabFree(s, c, Pages(at));
    RegionLost(s, s', c, at);
    ZonesSame(s, s', c);
  }

  /** The zone after a chunk came back. */
  function Refilled(x: Zone, i: int): Zone { x.(freeChunks := [i] + x.freeChunks, nfree := x.nfree + 1) }

  lemma RefilledOk(c: Config, x: Zone, i: int)
    requires ZoneOk(c, x) && 0 <= i <= x.uindex && i !in x.freeChunks
    ensures ZoneOk(c, Refilled(x, i)) && Refilled(x, i).nfree <= x.nmax
    ensures Refilled(x, i).nfree == x.nmax ==> forall j :: 0 <= j <= x.uindex ==> j in [i] + x.freeChunks
    ensures forall j :: j in [i] + x.freeChunks <==> j == i || j in x.freeChunks
  {
    hide Offset, ChunkOf;
    ConsDistinct(i, x.freeChunks);
    var fs := [i] + x.freeChunks;
    AllBelow(fs, x.uindex + 1);
  }

  /** Distinct numbers below `n` are at most `n`, and all of them if they are `n`. */
  lemma AllBelow(fs: seq<int>, n: nat)
    requires Distinct(fs) && forall i :: i in fs ==> 0 <= i < n
    ensures |fs| <= n && (|fs| == n ==> forall i :: 0 <= i < n ==> i in fs)
  {
    var es := Elems(fs);
    BelowCount(n);
    ElemsCount(fs);
    SubsetCount(es, Below(n));
    if |fs| == n {
      forall i | 0 <= i < n ensures i in fs {
        if i !in fs { SubsetCount(es, Below(n) - {i}); }
      }
    }
  }

  ghost function Below(n: nat): set<int> {
    if n == 0 then {} else Below(n - 1) + {n - 1}
  }

  lemma {:induction false} BelowCount(n: nat)
    ensures |Below(n)| == n && forall i :: i in Below(n) <==> 0 <= i < n
  {
    if n > 0 { BelowCount(n - 1); }
  }

  lemma {:induction false} ElemsCount(fs: seq<int>)
    requires Distinct(fs)
    ensures |Elems(fs)| == |fs|
    decreases |fs|
  {
    if fs != [] {
      ListTail(fs);
      ElemsCount(fs[1..]);
      assert Elems(fs) == Elems(fs[1..]) + {fs[0]};
    }
  }

  lemma SubsetCount(a: set<int>, b: set<int>)
    requires a <= b
    ensures |a| <= |b|
  {
    assert a + (b - a) == b;
    assert |a + (b - a)| == |a| + |b - a|;
  }

  /** The list of the zone's size, the zone on it. */
  function Relisted(s: State, z: int): seq<int>
    requires z in s.zones && s.zones[z].zi < |s.lists|
  {
    var x := s.zones[z];
    if x.nfree == 0 then [z] + s.lists[x.zi] else s.lists[x.zi]
  }

  lemma RelistedOk(s: State, c: Config, z: int, i: int)
    requires ZonesOk(s, c) && Live(s, Chunk(z, i))
    ensures ZoneOk(c, s.zones[z]) && s.zones[z].zi < NZONES == |s.lists|
    ensures var l := Relisted(s, z); Distinct(l) && forall w :: w in l <==> w == z || HasRoom(s, w, s.zones[z].zi)
  {
    hide ZoneOk, Distinct;
    ZoneOkHas(c, s.zones[z]);
    var zi := s.zones[z].zi;
    assert ListOk(s, zi);
    if s.zones[z].nfree == 0 {
      assert !HasRoom(s, z, zi);
      ConsDistinct(z, s.lists[zi]);
    } else {
      assert HasRoom(s, z, zi);
    }
  }

  lemma ZoneOkHas(c: Config, x: Zone)
    requires ZoneOk(c, x)
    ensures x.zi < NZONES
  {
  }

  lemma FreeChunkSound(s: State, c: Config, z: int, i: int)
    requires Sound(s, c) && Configured(c) && Live(s, Chunk(z, i))
    ensures s.zones[z].zi < |s.lists|
    ensures var s' := FreeChunk(s, c, z, i); Sound(s', c) && TakesBack(s, s', Chunk(z, i))
  {
    hide ZoneOk, Distinct, IsFree, Canonical, FreeSpec, Without, Refilled;
    RelistedOk(s, c, z, i);
    RefilledOk(c, s.zones[z], i);
    RefilledIs(s.zones[z], i);
    var x, l, zi := Refilled(s.zones[z], i), Relisted(s, z), s.zones[z].zi;
    var s' := FreeChunk(s, c, z, i);
    if x.nfree == x.nmax && |l| >= 2 {
      WithoutMembers(l, z);
      var s1 := s.(zones := s.zones[z := x], lists := s.lists[zi := Without(l, z)], spare := [z] + s.spare);
      if |s.spare| + 1 <= THRESH {
        assert s' == s1;
        RegionsSame(s, s', c);
        ConsDistinct(z, s.spare);
      } else {
        assert OwnedBy(s, c, z, z);
        RegionLost(s, s', c, z);
      }
      forall zj | 0 <= zj < NZONES ensures ListOk(s', zj) {
        assert ListOk(s, zj);
        forall w ensures HasRoom(s', w, zj) <==> HasRoom(s, w, zj) && w != z {
        }
      }
    } else {
      RegionsSame(s, s', c);
      forall zj | 0 <= zj < NZONES ensures ListOk(s', zj) {
        assert ListOk(s, zj);
        forall w ensures HasRoom(s', w, zj) <==> HasRoom(s, w, zj) || (w == z && zj == zi) {
        }
      }
    }
  }

  lemma RefilledIs(x: Zone, i: int)
    ensures Refilled(x, i) == x.(freeChunks := [i] + x.freeChunks, nfree := x.nfree + 1)
  {
  }

  // ----- Runs

  datatype Op = Malloc(n: nat) | Release(p: Ptr)

  ghost predicate LegalRun(s: State, c: Config, ops: seq<Op>)
    requires Sound(s, c) && Configured(c)
    decreases |ops|
  {
    ops == [] ||
    match ops[0]
    case Malloc(n) => SlabAllocMeaning(s, c, n); LegalRun(SlabAlloc(s, c, n).0, c, ops[1..])
    case Release(p) => Live(s, p) && (SlabFreeMeaning(s, c, p); LegalRun(SlabFree(s, c, p), c, ops[1..]))
  }

  /** A release takes back just what it is given. */
  lemma SlabFreeMeaning(s: State, c: Config, p: Ptr)
    requires Sound(s, c) && Configured(c) && Live(s, p)
    ensures p.Chunk? ==> p.zone in s.zones && s.zones[p.zone].zi < |s.lists|
    ensures Sound(SlabFree(s, c, p), c) && TakesBack(s, SlabFree(s, c, p), p)
  {
    hide ZoneOk, FreeChunk;
    match p
    case Pages(at) =>
      assert OwnedBy(s, c, at, at);
      FreePagesSound(s, c, at);
    case Chunk(z, i) => FreeChunkSound(s, c, z, i);
  }

  ghost function Run(s: State, c: Config, ops: seq<Op>): State
    requires Sound(s, c) && Configured(c) && LegalRun(s, c, ops)
    decreases |ops|
  {
    if ops == [] then s
    else match ops[0]
         case Malloc(n) => SlabAllocMeaning(s, c, n); Run(SlabAlloc(s, c, n).0, c, ops[1..])
         case Release(p) => SlabFreeMeaning(s, c, p); Run(SlabFree(s, c, p), c, ops[1..])
  }

  /** The bytes of what was handed out. */
  ghost predicate Covers(s: State, p: Ptr, b: int) {
    match p
    case Pages(at) => at in s.large && at * PAGE <= b < at * PAGE + s.large[at] * PAGE
    case Chunk(z, i) =>
      z in s.zones && s.zones[z].chunk > 0 &&
      var x := s.zones[z];
      z * PAGE + Offset(x.chunk) + i * x.chunk <= b < z * PAGE + Offset(x.chunk) + i * x.chunk + x.chunk
  }

  /** A byte handed out lies in a page of the zone or large allocation it was handed out from. */
  lemma CoversPage(s: State, c: Config, p: Ptr, b: int)
    requires Sound(s, c) && Configured(c) && Live(s, p) && Covers(s, p, b)
    ensures OwnedBy(s, c, if p.Pages? then p.at else p.zone, b / PAGE)
  {
    match p
    case Pages(at) =>
    case Chunk(z, i) =>
      var x := s.zones[z];
      assert ZoneOk(c, x);
      ChunkEnd(i, x.nmax, x.chunk);
  }

  lemma ChunkEnd(i: nat, j: nat, d: nat)
    requires i < j
    ensures 0 <= i * d && i * d + d <= j * d
  {
    assert (i + 1) * d <= j * d;
  }

  /** After any run of calls no byte belongs to two pointers handed out. */
  lemma {:induction false} RunApart(s: State, c: Config, ops: seq<Op>, p: Ptr, q: Ptr, b: int)
    requires Sound(s, c) && Configured(c) && LegalRun(s, c, ops)
    ensures var s' := Run(s, c, ops);
            Sound(s', c) && (Live(s', p) && Live(s', q) && Covers(s', p, b) && Covers(s', q, b) ==> p == q)
    decreases |ops|
  {
    hide SlabAlloc, SlabFree, Live, Covers, Sound;
    if ops == [] {
      if Live(s, p) && Live(s, q) && Covers(s, p, b) && Covers(s, q, b) { OneOwner(s, c, p, q, b); }
    } else {
      match ops[0]
      case Malloc(n) =>
        SlabAllocMeaning(s, c, n);
        RunApart(SlabAlloc(s, c, n).0, c, ops[1..], p, q, b);
      case Release(r) =>
        SlabFreeMeaning(s, c, r);
        RunApart(SlabFree(s, c, r), c, ops[1..], p, q, b);
    }
  }

  lemma OneOwner(s: State, c: Config, p: Ptr, q: Ptr, b: int)
    requires Sound(s, c) && Configured(c) && Live(s, p) && Live(s, q) && Covers(s, p, b) && Covers(s, q, b)
    ensures p == q
  {
    CoversPage(s, c, p, b);
    CoversPage(s, c, q, b);
    if p.Chunk? && q.Chunk? {
      var d := s.zones[p.zone].chunk;
      if p.index < q.index { ChunkEnd(p.index, q.index, d); }
      if q.index < p.index { ChunkEnd(q.index, p.index, d); }
    }
  }
}
