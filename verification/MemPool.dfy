/**
 The memory pool of rt-thread/src/mempool.c: fixed blocks on a list linked through the blocks
 themselves, and threads that wait for one. Block `k` lies at `k * (block_size + sizeof(void *))`.
 */
module MemPool {
  import opened Common
  import opened Blocks
  import opened RtList
  import opened Chains
  import opened Wakeups

  /** The free blocks in list order, the blocks handed out, and the waiting threads. */
  datatype State = State(free: seq<int>, live: set<int>, blocks: Pool)

  /** Every block is free or handed out, once; the count is right; no wakeup is lost. */
  ghost predicate Consistent(s: State, total: nat) {
    && Distinct(s.free) && (forall b :: b in s.free ==> 0 <= b < total && b !in s.live)
    && (forall b :: b in s.live ==> 0 <= b < total) && |s.free| + |s.live| == total
    && s.blocks.units == |s.free| && Wakeups.Sound(s.blocks)
  }

  datatype Op = Alloc(t: int, wait: bool) | Free(b: int) | Timeout(t: int)

  /** rt_mp_alloc from where its thread looks at the pool; a thread that waits goes to the front of the list. */
  function AllocSpec(s: State, t: int, wait: bool): (State, Option<int>) {
    if s.free != [] && s.blocks.units > 0 then
      (State(s.free[1..], s.live + {s.free[0]}, Taken(s.blocks, t)), Some(s.free[0]))
    else if wait then (s.(blocks := Await(s.blocks, t, 0)), None)
    else (s.(blocks := GivenUp(s.blocks, t)), None)
  }

  /** rt_mp_free. */
  function FreeSpec(s: State, b: int): State {
    State([b] + s.free, s.live - {b}, Put(s.blocks))
  }

  ghost predicate Possible(s: State, op: Op) {
    match op
    case Alloc(t, _) => t !in s.blocks.waiters
    case Free(b) => b in s.live
    case Timeout(t) => t in s.blocks.waiters
  }

  function Step(s: State, op: Op): State {
    match op
    case Alloc(t, wait) => AllocSpec(s, t, wait).0
    case Free(b) => FreeSpec(s, b)
    case Timeout(t) => s.(blocks := Expired(s.blocks, t))
  }

  lemma StepKeeps(s: State, total: nat, op: Op)
    requires Consistent(s, total) && Possible(s, op)
    ensures Consistent(Step(s, op), total)
  {
    hide Wakeups.Sound, Taken, Put;
    match op
    case Alloc(t, wait) =>
      if s.free != [] {
        GrantKeeps(s, total, t);
      } else if wait { AwaitSound(s.blocks, t, 0); } else { GivenUpSound(s.blocks, t); }
    case Free(b) =>
      PutSound(s.blocks);
      TakenFrame(s.blocks, b);
    case Timeout(t) => ExpiredSound(s.blocks, t);
  }

  /**
   A thread gets a block exactly if one is free, whoever was resumed for it: one that nobody had, and
   that is its own from then on. A block given back is the next to be handed out.
   */
  lemma AllocMeaning(s: State, total: nat, t: int, wait: bool)
    requires Consistent(s, total) && Possible(s, Alloc(t, wait))
    ensures var (s', r) := AllocSpec(s, t, wait);
            && (r.Some? <==> |s.live| < total)
            && if r.Some? then 0 <= r.value < total && r.value !in s.live && s'.live == s.live + {r.value}
               else s'.live == s.live && s'.free == s.free
                    && s'.blocks.waiters == if wait then [t] + s.blocks.waiters else s.blocks.waiters
    ensures forall b :: b in s.live ==> AllocSpec(FreeSpec(s, b), t, wait).1 == Some(b)
  {
    hide Wakeups.Sound, Distinct;
    if s.free != [] { assert s.free[0] in s.free; }
  }

  /** A thread whose time is up leaves the wait list, and the others keep their order; no block moves. */
  lemma TimeoutMeaning(s: State, t: int)
    requires Possible(s, Timeout(t))
    ensures var (s', ws) := (Step(s, Timeout(t)), s.blocks.waiters);
            && s'.free == s.free && s'.live == s.live && s'.blocks.woken == s.blocks.woken
            && exists k :: 0 <= k < |ws| && ws[k] == t && s'.blocks.waiters == ws[..k] + ws[k + 1..]
  {
    hide Expired;
    ExpiredMeaning(s.blocks, t);
  }

  /** A release takes back its block and resumes the thread that began to wait last, and nobody else. */
  lemma FreeMeaning(s: State, total: nat, b: int)
    requires Consistent(s, total) && b in s.live
    ensures var s' := FreeSpec(s, b);
            && s'.live == s.live - {b} && (forall c :: c in s'.free <==> c == b || c in s.free)
            && s.blocks.waiters == s.blocks.waiters[..Min(1, |s.blocks.waiters|)] + s'.blocks.waiters
            && s'.blocks.woken == s.blocks.woken + set t | t in s.blocks.waiters[..Min(1, |s.blocks.waiters|)]
  {
    hide Wakeups.Sound, Distinct;
  }

  lemma GrantKeeps(s: State, total: nat, t: int)
    requires Consistent(s, total) && s.free != []
    ensures Consistent(State(s.free[1..], s.live + {s.free[0]}, Taken(s.blocks, t)), total)
  {
    hide Wakeups.Sound, Taken;
    TakenSound(s.blocks, t);
    TakenFrame(s.blocks, t);
    FirstOnce(s, total);
    var b := s.free[0];
    assert s.free == [b] + s.free[1..] && b in s.free;
    assert |s.live + {b}| == |s.live| + 1;
    forall c | c in s.free[1..] ensures 0 <= c < total && c !in s.live + {b} { assert c in s.free; }
    forall i, j | 0 <= i < j < |s.free[1..]| ensures s.free[1..][i] != s.free[1..][j] {
      assert s.free[i + 1] != s.free[j + 1];
    }
  }

  lemma TakenFrame(p: Pool, t: int)
    ensures p.units > 0 ==> Taken(p, t).units == p.units - 1
    ensures Put(p).units == p.units + 1
  {
  }

  ghost predicate PossibleRun(s: State, ops: seq<Op>)
    decreases |ops|
  {
    ops == [] || (Possible(s, ops[0]) && PossibleRun(Step(s, ops[0]), ops[1..]))
  }

  ghost function Run(s: State, ops: seq<Op>): State
    requires PossibleRun(s, ops)
    decreases |ops|
  {
    if ops == [] then s else Run(Step(s, ops[0]), ops[1..])
  }

  /**
   In every interleaving blocks are conserved, and a thread waits only while there are no more
   free blocks than resumed threads on their way.
   */
  lemma {:induction false} RunKeeps(s: State, total: nat, ops: seq<Op>)
    requires Consistent(s, total) && PossibleRun(s, ops)
    ensures var s' := Run(s, ops);
            && Consistent(s', total) && |s'.free| + |s'.live| == total
            && (s'.blocks.waiters != [] ==> |s'.free| <= |s'.blocks.woken|)
    decreases |ops|
  {
    hide Step;
    if ops != [] {
      StepKeeps(s, total, ops[0]);
      RunKeeps(Step(s, ops[0]), total, ops[1..]);
    }
  }

  // ----- The order in which waiting threads are resumed

  /** The pool with the number of waits begun so far, and the number of each thread's last wait. */
  datatype Log = Log(s: State, waits: nat, since: map<int, nat>)

  function Logged(l: Log, op: Op): Log {
    var s' := Step(l.s, op);
    if op.Alloc? && AllocSpec(l.s, op.t, op.wait).1.None? && op.wait
    then Log(s', l.waits + 1, l.since[op.t := l.waits])
    else l.(s := s')
  }

  ghost function LoggedRun(l: Log, ops: seq<Op>): (r: Log)
    requires PossibleRun(l.s, ops)
    ensures r.s == Run(l.s, ops)
    decreases |ops|
  {
    if ops == [] then l else LoggedRun(Logged(l, ops[0]), ops[1..])
  }

  ghost predicate Later(since: map<int, nat>, t: int, u: int) { t in since && u in since && since[t] > since[u] }

  /** The waiting threads, the one whose wait began last in front. */
  ghost predicate LatestFirst(ws: seq<int>, since: map<int, nat>, waits: nat) {
    && (forall t :: t in ws ==> t in since && since[t] < waits)
    && forall i, j :: 0 <= i < j < |ws| ==> Later(since, ws[i], ws[j])
  }

  lemma WaitFirst(ws: seq<int>, since: map<int, nat>, waits: nat, t: int)
    requires LatestFirst(ws, since, waits) && t !in ws
    ensures LatestFirst([t] + ws, since[t := waits], waits + 1)
  {
    var ws', since' := [t] + ws, since[t := waits];
    forall i, j | 0 <= i < j < |ws'| ensures Later(since', ws'[i], ws'[j]) {
      assert ws'[j] == ws[j - 1] && ws[j - 1] in ws;
      if i > 0 { assert ws[i - 1] in ws && Later(since, ws[i - 1], ws[j - 1]); }
    }
  }

  lemma FewerWait(ws: seq<int>, since: map<int, nat>, waits: nat, k: nat)
    requires LatestFirst(ws, since, waits) && k < |ws|
    ensures LatestFirst(ws[..k] + ws[k + 1..], since, waits)
  {
    var ws' := ws[..k] + ws[k + 1..];
    forall t | t in ws' ensures t in ws {
    }
    forall i, j | 0 <= i < j < |ws'| ensures Later(since, ws'[i], ws'[j]) {
      assert Later(since, ws[if i < k then i else i + 1], ws[if j < k then j else j + 1]);
    }
  }

  lemma LoggedKeeps(l: Log, op: Op)
    requires LatestFirst(l.s.blocks.waiters, l.since, l.waits) && Possible(l.s, op)
    ensures var l' := Logged(l, op); LatestFirst(l'.s.blocks.waiters, l'.since, l'.waits)
  {
    hide LatestFirst, Without;
    var ws, l' := l.s.blocks.waiters, Logged(l, op);
    match op
    case Alloc(t, wait) =>
      if l'.waits != l.waits {
        assert l'.s.blocks.waiters == [t] + ws;
        WaitFirst(ws, l.since, l.waits, t);
      }
    case Free(b) =>
      if ws != [] {
        FewerWait(ws, l.since, l.waits, 0);
        assert ws[..0] + ws[1..] == ws[1..];
      }
    case Timeout(t) =>
      WithoutIs(ws, t);
      FewerWait(ws, l.since, l.waits, IndexOf(ws, t));
  }

  /**
   After every run a block that is given back resumes, of all the threads that wait, the one
   whose wait began last.
   */
  lemma {:induction false} RunResumesLatest(l: Log, ops: seq<Op>, b: int)
    requires LatestFirst(l.s.blocks.waiters, l.since, l.waits) && PossibleRun(l.s, ops)
    requires var s := Run(l.s, ops); b in s.live && s.blocks.waiters != []
    ensures var l', s' := LoggedRun(l, ops), FreeSpec(Run(l.s, ops), b);
            exists t ::
              && t in l'.s.blocks.waiters && s'.blocks.woken == l'.s.blocks.woken + {t}
              && forall u :: u in l'.s.blocks.waiters && u != t ==> Later(l'.since, t, u)
    decreases |ops|
  {
    hide Step, Possible;
    if ops == [] {
      var ws := l.s.blocks.waiters;
      var t := ws[0];
      forall u | u in ws && u != t ensures Later(l.since, t, u) {
        var i :| 0 <= i < |ws| && ws[i] == u;
        assert Later(l.since, ws[0], ws[i]);
      }
      assert t in ws && FreeSpec(l.s, b).blocks.woken == l.s.blocks.woken + {t};
    } else {
      LoggedKeeps(l, ops[0]);
      RunResumesLatest(Logged(l, ops[0]), ops[1..], b);
    }
  }

  // ----- Setting up a pool

  /** The size of a pointer, which stands in front of every block. */
  const LINK_SIZE := 8

  /** The distance of two blocks, in rt_size_t arithmetic. */
  function Stride(blockSize: nat): nat { (AlignUp(blockSize) + LINK_SIZE) % SIZE_LIMIT }

  /** The byte offset of the pointer that the loop of rt_mp_init stores for block `k`, and of the one after the loop. */
  function StoreAt(k: int, stride: nat): nat { k % SIZE_LIMIT * stride % SIZE_LIMIT }

  predicate InArea(offset: nat, area: nat) { offset + LINK_SIZE <= area }

  lemma Turns(x: nat, k: nat)
    requires x < SIZE_LIMIT
    ensures (SIZE_LIMIT * k + x) % SIZE_LIMIT == x
  {
  }

  lemma LastStore(stride: nat)
    requires 0 < stride < SIZE_LIMIT
    ensures StoreAt(-1, stride) == SIZE_LIMIT - stride
  {
    assert (SIZE_LIMIT - 1) * stride == SIZE_LIMIT * (stride - 1) + (SIZE_LIMIT - stride);
    Turns(SIZE_LIMIT - stride, stride - 1);
  }

  lemma StoreWithin(k: nat, total: nat, stride: nat, area: nat)
    requires k < total && total * stride <= area && 0 < stride && area < SIZE_LIMIT
    ensures k * stride + stride <= total * stride && StoreAt(k, stride) == k * stride
  {
    Times(k, total - 1, stride);
    Times(total - 1, total, stride);
    assert k <= k * stride;
    assert k % SIZE_LIMIT == k;
  }

  lemma Times(i: nat, j: nat, d: nat)
    requires i <= j
    ensures i * d <= j * d && (i + 1) * d == i * d + d
  {
    assert (j - i) * d >= 0;
  }

  ghost predicate StoresIn(area: nat, stride: nat, total: nat) {
    (forall k :: 0 <= k < total ==> InArea(StoreAt(k, stride), area)) && InArea(StoreAt(total - 1, stride), area)
  }

  /** `total` blocks fit in the area and not one more: what the division of rt_mp_init gives. */
  predicate Divides(area: nat, stride: nat, total: nat) { total * stride <= area < total * stride + stride }

  lemma StoresInIff(area: nat, stride: nat, total: nat)
    requires Divides(area, stride, total) && 0 < stride < SIZE_LIMIT && area < SIZE_LIMIT
    requires area % ALIGN == 0 == stride % ALIGN
    ensures StoresIn(area, stride, total) <==>
              if total >= 1 then stride >= LINK_SIZE else SIZE_LIMIT - stride + LINK_SIZE <= area
  {
    hide StoreAt;
    if total == 0 {
      LastStore(stride);
    } else {
      StoreWithin(total - 1, total, stride, area);
      if stride >= LINK_SIZE {
        forall k | 0 <= k < total ensures InArea(StoreAt(k, stride), area) { StoreWithin(k, total, stride, area); }
      } else {
        assert stride == 4 && area == total * 4;
      }
    }
  }

  /**
   rt_mp_init does not test that a block fits. All its stores lie in the area exactly if one
   does and the distance of two blocks, which may wrap, holds a pointer; or if no block fits and
   the store after the loop, one distance before the area, wraps into it.
   */
  lemma InitStoresIff(size: nat, blockSize: nat, total: nat)
    requires 0 < size < SIZE_LIMIT && 0 < blockSize < SIZE_LIMIT && Stride(blockSize) != 0
    requires Divides(size - size % ALIGN, Stride(blockSize), total)
    ensures StoresIn(size - size % ALIGN, Stride(blockSize), total) <==>
              if total >= 1
              then Stride(blockSize) >= LINK_SIZE
              else SIZE_LIMIT - Stride(blockSize) + LINK_SIZE <= size - size % ALIGN
  {
    hide StoresIn, Divides, Stride;
    StrideAligned(blockSize);
    StoresInIff(size - size % ALIGN, Stride(blockSize), total);
  }

  lemma StrideAligned(blockSize: nat)
    ensures Stride(blockSize) % ALIGN == 0 && Stride(blockSize) < SIZE_LIMIT
  {
    assert AlignUp(blockSize) % ALIGN == 0;
  }

  class MemoryPool {
    const total: nat
    /** The first word of each free block. */
    var next: map<int, Option<int>>
    /** The blocks whose first word holds the pool. */
    var owned: set<int>
    var blockList: Option<int>
    var freeCount: nat
    var waiters: seq<int>
    ghost var s: State

    ghost predicate Valid()
      reads this
    {
      && Consistent(s, total) && (total > 0 ==> Chain(next, blockList, s.free))
      && freeCount == |s.free| && owned == s.live && waiters == s.blocks.waiters
    }

    /** rt_mp_init: the loop that links the blocks. With no block the last store is the one for block -1. */
    constructor (total: nat)
      ensures Valid() && this.total == total && |s.free| == total && s.live == {} && s.blocks == Pool(total, [], {})
    {
      this.total := total;
      owned, freeCount, waiters := {}, total, [];
      blockList := Some(0);
      next := map[];
      s := State([], {}, Pool(0, [], {}));
      new;
      var offset := 0;
      while offset < total
        invariant 0 <= offset <= total && blockList == Some(0) && owned == {} && freeCount == total && waiters == []
        invariant forall b :: 0 <= b < offset ==> b in next && next[b] == Some(b + 1)
      {
        next := next[offset := Some(offset + 1)];
        offset := offset + 1;
      }
      next := next[offset - 1 := None];
      ghost var free := seq(total, b requires 0 <= b < total => b);
      s := State(free, {}, Pool(total, [], {}));
      forall i | 0 <= i < |free| ensures Hop(next, free, i) {
      }
    }

    /** rt_mp_alloc from where its thread looks at the pool. */
    method Allocate(t: int, wait: bool) returns (r: Option<int>)
      requires Valid() && t !in waiters
      modifies this
      ensures Valid() && (s, r) == AllocSpec(old(s), t, wait)
    {
      hide Consistent, Chain, Inserted;
      StepKeeps(s, total, Alloc(t, wait));
      UnitsAre(s, total);
      if total > 0 { ChainNone(next, blockList, s.free); }
      if freeCount == 0 {
        if !wait {
          s := AllocSpec(s, t, wait).0;
          return None;
        }
        waiters := Inserted(waiters, 0, t);
        s := AllocSpec(s, t, wait).0;
        return None;
      }
      freeCount := freeCount - 1;
      var b := blockList.value;
      ChainHead(next, blockList, s.free);
      FirstOnce(s, total);
      blockList := next[b];
      next := next - {b};
      ChainFrame(old(next), next, blockList, s.free[1..]);
      owned := owned + {b};
      s := AllocSpec(s, t, wait).0;
      return Some(b);
    }

    /** rt_mp_free. */
    method Release(b: int)
      requires Valid() && b in owned
      modifies this
      ensures Valid() && s == FreeSpec(old(s), b)
    {
      StepKeeps(s, total, Free(b));
      freeCount := freeCount + 1;
      ChainPush(next, blockList, s.free, b);
      next := next[b := blockList];
      owned := owned - {b};
      blockList := Some(b);
      if waiters != [] { waiters := waiters[1..]; }
      s := FreeSpec(s, b);
    }
  }

  lemma UnitsAre(s: State, total: nat)
    requires Consistent(s, total)
    ensures s.blocks.units == |s.free| <= total
  {
  }

  lemma FirstOnce(s: State, total: nat)
    requires Consistent(s, total) && s.free != []
    ensures s.free[0] !in s.free[1..]
  {
    forall j | 0 <= j < |s.free[1..]| ensures s.free[1..][j] != s.free[0] { assert s.free[0] != s.free[j + 1]; }
  }
}
