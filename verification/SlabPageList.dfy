/** The page list of rt-thread/src/slab.c as the source keeps it: each run linked through its first page. */
module SlabPageList {
  import opened Common
  import opened RtList
  import opened Chains
  import opened SlabPages

  /** The first pages of the runs. */
  ghost function Starts(rs: seq<Run>): (ns: seq<int>)
    ensures |ns| == |rs| && forall i :: 0 <= i < |rs| ==> ns[i] == rs[i].at
  {
    seq(|rs|, i requires 0 <= i < |rs| => rs[i].at)
  }

  lemma StartsDistinct(rs: seq<Run>)
    requires Canonical(rs)
    ensures Distinct(Starts(rs))
  {
    forall i, j | 0 <= i < j < |rs| ensures rs[i].at != rs[j].at { RunsApart(rs, i, j); }
  }

  /** What is left of a run of which `n` pages are taken. */
  function Rest(r: Run, n: nat): seq<Run> {
    if r.pages > n then [Run(r.at + n, r.pages - n)] else []
  }

  /** The allocation in terms of the run the search stops at. */
  lemma {:induction false} AllocAt(rs: seq<Run>, n: nat, k: nat)
    requires n > 0 && k < |rs| && rs[k].pages >= n && forall j :: 0 <= j < k ==> rs[j].pages < n
    ensures AllocSpec(rs, n) == (rs[..k] + Rest(rs[k], n) + rs[k + 1..], Some(rs[k].at))
    decreases k
  {
    if k > 0 {
      var ts := rs[1..];
      assert ts[k - 1] == rs[k];
      AllocAt(ts, n, k - 1);
      hide Rest;
      assert rs[..k] == [rs[0]] + ts[..k - 1] && ts[k..] == rs[k + 1..];
      assert [rs[0]] + (ts[..k - 1] + Rest(rs[k], n) + ts[k..]) == rs[..k] + Rest(rs[k], n) + rs[k + 1..];
    } else {
      assert rs[..0] + Rest(rs[0], n) == Rest(rs[0], n);
      assert [] + rs[1..] == rs[1..];
    }
  }

  lemma {:induction false} AllocNone(rs: seq<Run>, n: nat)
    requires forall j :: 0 <= j < |rs| ==> rs[j].pages < n
    ensures AllocSpec(rs, n) == (rs, None)
  {
    if n > 0 && rs != [] {
      AllocNone(rs[1..], n);
      assert rs == [rs[0]] + rs[1..];
    }
  }

  /** The run is wholly before the pages, and does not touch them. */
  predicate Passed(b: Run, at: nat, n: nat) {
    b.at + b.pages != at && b.at < at + n
  }

  lemma {:induction false} FreeAt(rs: seq<Run>, at: nat, n: nat, k: nat)
    requires k <= |rs| && forall j :: 0 <= j < k ==> Passed(rs[j], at, n)
    ensures FreeSpec(rs, at, n) == rs[..k] + FreeSpec(rs[k..], at, n)
    decreases k
  {
    if k > 0 {
      var ts := rs[1..];
      FreeAt(ts, at, n, k - 1);
      assert ts[k - 1..] == rs[k..];
      assert rs[..k] == [rs[0]] + ts[..k - 1];
    } else {
      assert rs[..0] == [] && rs[0..] == rs;
    }
  }

  class PageList {
    var pageList: Option<int>
    /** `next` and `page` in the first page of each free run. */
    var next: map<int, Option<int>>
    var page: map<int, nat>
    ghost var rs: seq<Run>

    ghost predicate Valid()
      reads this
    {
      Canonical(rs) && Chain(next, pageList, Starts(rs)) && forall i :: 0 <= i < |rs| ==> Sized(page, rs, i)
    }

    constructor ()
      ensures Valid() && rs == []
    {
      pageList, next, page := None, map[], map[];
      rs := [];
    }

    /** The store through `prev`. */
    method Store(prev: Option<int>, to: Option<int>)
      modifies `pageList, `next
      ensures if prev.None? then pageList == to && next == old(next)
              else pageList == old(pageList) && next == old(next)[prev.value := to]
    {
      if prev.None? { pageList := to; } else { next := next[prev.value := to]; }
    }

    /** rt_slab_page_alloc. */
    method PageAlloc(npages: nat) returns (b: Option<int>)
      requires Valid()
      modifies this
      ensures Valid() && rs == AllocSpec(old(rs), npages).0
      ensures b == AllocSpec(old(rs), npages).1
    {
      hide Chain, Canonical, AllocSpec;
      NoPages(rs);
      if npages == 0 { return None; }
      AllocMeaning(rs, npages);
      StartsDistinct(rs);
      StartsDistinct(AllocSpec(rs, npages).0);
      var prev: Option<int> := None;
      b := pageList;
      ghost var k := 0;
      ChainAt(next, pageList, Starts(rs), 0);
      while b != None
        invariant Valid() && rs == old(rs) && 0 <= k <= |rs| && Before(prev, Starts(rs), k)
                  && b == (if k < |rs| then Some(rs[k].at) else None)
        invariant forall j :: 0 <= j < k ==> rs[j].pages < npages
        decreases |rs| - k
      {
        assert Sized(page, rs, k);
        ChainAt(next, pageList, Starts(rs), k);
        if page[b.value] > npages {
          AllocAt(rs, npages, k);
          SplitRun(prev, b.value, npages, k);
          return b;
        }
        if page[b.value] == npages {
          AllocAt(rs, npages, k);
          DropRun(prev, b.value, k);
          return b;
        }
        prev := b;
        b := next[b.value];
        k := k + 1;
        ChainAt(next, pageList, Starts(rs), k);
      }
      AllocNone(rs, npages);
    }

    /** The stores of rt_slab_page_alloc that cut pages off the front of a longer run. */
    method SplitRun(prev: Option<int>, b: int, npages: nat, ghost k: nat)
      requires Valid() && k < |rs| && b == rs[k].at && Before(prev, Starts(rs), k) && 0 < npages < rs[k].pages
      requires Canonical(rs[..k] + [Run(rs[k].at + npages, rs[k].pages - npages)] + rs[k + 1..])
      modifies this
      ensures Valid() && rs == old(rs)[..k] + [Run(b + npages, old(rs)[k].pages - npages)] + old(rs)[k + 1..]
    {
      hide Chain, Canonical;
      ghost var rs0, next0, head0, page0 := rs, next, pageList, page;
      assert Sized(page, rs, k);
      ChainAt(next, pageList, Starts(rs), k);
      var n := b + npages;
      next := next[n := next[b]];
      page := page[n := page[b] - npages];
      Store(prev, Some(n));
      rs := rs0[..k] + [Run(n, rs0[k].pages - npages)] + rs0[k + 1..];
      Replaced(rs0, rs, k, next0, head0, prev, next, pageList);
      forall i | 0 <= i < |rs| ensures Sized(page, rs, i) { if i != k { assert Sized(page0, rs0, i); } }
    }

    /** The store of rt_slab_page_alloc that takes a whole run out. */
    method DropRun(prev: Option<int>, b: int, ghost k: nat)
      requires Valid() && k < |rs| && b == rs[k].at && Before(prev, Starts(rs), k)
               && Canonical(rs[..k] + [] + rs[k + 1..])
      modifies this
      ensures Valid() && rs == old(rs)[..k] + [] + old(rs)[k + 1..]
    {
      ghost var rs0, next0, head0 := rs, next, pageList;
      ChainAt(next, pageList, Starts(rs), k);
      StartsDistinct(rs);
      Store(prev, next[b]);
      rs := rs0[..k] + rs0[k + 1..];
      assert rs == rs0[..k] + [] + rs0[k + 1..];
      StartsDistinct(rs);
      assert Starts(rs) == Starts(rs0)[..k] + [] + Starts(rs0)[k + 1..];
      ChainSplice(next0, head0, Starts(rs0), k, k + 1, [], next0[b], next, pageList);
      forall i | 0 <= i < |rs| ensures Sized(page, rs, i) { assert Sized(page, rs0, if i < k then i else i + 1); }
    }

    /** rt_slab_page_free. The asserts in the loop are the source's. */
    method PageFree(at: nat, npages: nat)
      requires Valid() && npages > 0 && forall p :: at <= p < at + npages ==> !IsFree(rs, p)
      modifies this
      ensures Valid() && rs == FreeSpec(old(rs), at, npages)
    {
      hide Chain, Canonical, FreeSpec, IsFree;
      FreeMeaning(rs, at, npages);
      RunElsewhere(rs, at, npages);
      var prev: Option<int>, b := None, pageList;
      ghost var k := 0;
      ChainAt(next, pageList, Starts(rs), 0);
      while b != None
        invariant Valid() && rs == old(rs) && 0 <= k <= |rs| && Before(prev, Starts(rs), k)
        invariant b == (if k < |rs| then Some(rs[k].at) else None)
        invariant forall j :: 0 <= j < k ==> Passed(rs[j], at, npages)
        decreases |rs| - k
      {
        assert Sized(page, rs, k);
        ChainAt(next, pageList, Starts(rs), k);
        HasPages(rs, k);
        assert page[b.value] > 0;
        assert b.value > at || b.value + page[b.value] <= at;
        if b.value + page[b.value] == at {
          FreeAt(rs, at, npages, k);
          JoinAfter(b.value, at, npages, k);
          return;
        }
        if b.value == at + npages {
          FreeAt(rs, at, npages, k);
          JoinBefore(prev, b.value, at, npages, k);
          return;
        }
        if b.value > at + npages { break; }
        prev := b;
        b := next[b.value];
        k := k + 1;
        ChainAt(next, pageList, Starts(rs), k);
      }
      FreeAt(rs, at, npages, k);
      InsertRun(prev, b, at, npages, k);
    }

    /** The stores of rt_slab_page_free for pages that follow run `k`, which may join it to the next run. */
    method JoinAfter(b: int, at: nat, npages: nat, ghost k: nat)
      requires Valid() && k < |rs| && b == rs[k].at && b + rs[k].pages == at
      requires Canonical(rs[..k] + FreeSpec(rs[k..], at, npages))
      modifies `next, `page, `rs
      ensures Valid() && rs == old(rs)[..k] + FreeSpec(old(rs)[k..], at, npages)
    {
      hide Chain, Canonical, FreeSpec;
      ghost var rs0, next0, page0 := rs, next, page;
      assert Sized(page, rs, k);
      ChainAt(next, pageList, Starts(rs), k);
      StartsDistinct(rs);
      JoinedIs(rs, at, npages, k);
      page := page[b := page[b] + npages];
      rs := rs0[..k] + FreeSpec(rs0[k..], at, npages);
      if next[b] == Some(b + page[b]) {
        assert Sized(page0, rs0, k + 1);
        ChainAt(next, pageList, Starts(rs0), k + 1);
        page := page[b := page[b] + page[next[b].value]];
        next := next[b := next[next[b].value]];
        Absorbed(rs0, rs, k, next0, pageList, next, page0, page);
      } else {
        Extended(rs0, rs, k, next0, pageList, page0, page);
      }
    }

    /** The stores of rt_slab_page_free for pages that precede run `k`. */
    method JoinBefore(prev: Option<int>, b: int, at: nat, npages: nat, ghost k: nat)
      requires Valid() && k < |rs| && b == rs[k].at == at + npages && npages > 0 && Before(prev, Starts(rs), k)
      requires Canonical(rs[..k] + FreeSpec(rs[k..], at, npages))
      modifies this
      ensures Valid() && rs == old(rs)[..k] + FreeSpec(old(rs)[k..], at, npages)
    {
      hide Chain, Canonical;
      ghost var rs0, next0, head0, page0 := rs, next, pageList, page;
      assert Sized(page, rs, k);
      ChainAt(next, pageList, Starts(rs), k);
      ReplacedIs(rs, at, npages, k);
      page := page[at := page[b] + npages];
      next := next[at := next[b]];
      Store(prev, Some(at));
      rs := rs0[..k] + FreeSpec(rs0[k..], at, npages);
      Replaced(rs0, rs, k, next0, head0, prev, next, pageList);
      forall i | 0 <= i < |rs| ensures Sized(page, rs, i) { if i != k { assert Sized(page0, rs0, i); } }
    }

    /** The stores of rt_slab_page_free for pages that touch no run. */
    method InsertRun(prev: Option<int>, b: Option<int>, at: nat, npages: nat, ghost k: nat)
      requires Valid() && k <= |rs| && Before(prev, Starts(rs), k) && b == (if k < |rs| then Some(rs[k].at) else None)
      requires k < |rs| ==> rs[k].at > at + npages
      requires Canonical(rs[..k] + FreeSpec(rs[k..], at, npages))
      modifies this
      ensures Valid() && rs == old(rs)[..k] + FreeSpec(old(rs)[k..], at, npages)
    {
      hide Chain, Canonical;
      ghost var rs0, next0, head0, page0 := rs, next, pageList, page;
      ChainAt(next, pageList, Starts(rs), k);
      InsertedIs(rs, at, npages, k);
      page := page[at := npages];
      next := next[at := b];
      Store(prev, Some(at));
      rs := rs0[..k] + FreeSpec(rs0[k..], at, npages);
      InsertedChain(rs0, rs, k, at, b, next0, head0, prev, next, pageList);
      forall i | 0 <= i < |rs| ensures Sized(page, rs, i) {
        if i != k { assert Sized(page0, rs0, if i < k then i else i - 1); }
      }
    }
  }

  lemma HasPages(rs: seq<Run>, k: nat)
    requires Canonical(rs) && k < |rs|
    ensures rs[k].pages > 0
  {
  }

  lemma JoinedIs(rs: seq<Run>, at: nat, n: nat, k: nat)
    requires k < |rs| && rs[k].at + rs[k].pages == at
    ensures var b, fs := rs[k], rs[..k] + FreeSpec(rs[k..], at, n);
            if k + 1 < |rs| && at + n == rs[k + 1].at
            then fs == rs[..k] + [Run(b.at, b.pages + n + rs[k + 1].pages)] + rs[k + 2..]
            else fs == rs[..k] + [Run(b.at, b.pages + n)] + rs[k + 1..]
  {
    var ts := rs[k..];
    assert ts[0] == rs[k] && ts[1..] == rs[k + 1..];
    if k + 1 < |rs| { assert ts[1] == rs[k + 1] && ts[2..] == rs[k + 2..]; }
  }

  lemma ReplacedIs(rs: seq<Run>, at: nat, n: nat, k: nat)
    requires k < |rs| && rs[k].at == at + n && n > 0
    ensures rs[..k] + FreeSpec(rs[k..], at, n) == rs[..k] + [Run(at, rs[k].pages + n)] + rs[k + 1..]
  {
    var ts := rs[k..];
    assert ts[0] == rs[k] && ts[1..] == rs[k + 1..];
  }

  lemma InsertedIs(rs: seq<Run>, at: nat, n: nat, k: nat)
    requires k <= |rs| && (k < |rs| ==> rs[k].at > at + n)
    ensures rs[..k] + FreeSpec(rs[k..], at, n) == rs[..k] + [Run(at, n)] + rs[k..]
  {
    var ts := rs[k..];
    if k < |rs| { assert ts[0] == rs[k]; } else { assert ts == []; }
  }

  /** The first page of run `i` says how long it is. */
  ghost predicate Sized(page: map<int, nat>, rs: seq<Run>, i: nat)
    requires i < |rs|
  {
    rs[i].at in page && page[rs[i].at] == rs[i].pages
  }

  /** Run `k` gives way to a run with another start, and the links follow. */
  lemma Replaced(rs0: seq<Run>, rs: seq<Run>, k: nat, next0: map<int, Option<int>>, head0: Option<int>,
                 prev: Option<int>,
                 next: map<int, Option<int>>, head: Option<int>)
    requires Canonical(rs0) && Canonical(rs) && k < |rs0| && |rs| == |rs0|
    requires forall i :: 0 <= i < |rs| && i != k ==> rs[i] == rs0[i]
    requires Chain(next0, head0, Starts(rs0)) && Before(prev, Starts(rs0), k) && rs0[k].at in next0
    requires var n := rs[k].at; var next1 := next0[n := next0[rs0[k].at]];
             if prev.None? then head == Some(n) && next == next1
             else head == head0 && next == next1[prev.value := Some(n)]
    ensures Chain(next, head, Starts(rs))
    ensures forall i :: 0 <= i < |rs0| && i != k ==> rs0[i].at != rs[k].at
  {
    hide Chain, Canonical;
    var n := rs[k].at;
    NewStart(rs0, rs, k, n);
    ChainAt(next0, head0, Starts(rs0), k);
    assert Starts(rs) == Starts(rs0)[..k] + [n] + Starts(rs0)[k + 1..];
    assert MidHop(next, [n], 0, next0[rs0[k].at]);
    forall i | 0 <= i < k - 1 ensures SameHop(next0, next, Starts(rs0)[i]) {
      assert Starts(rs0)[i] != Starts(rs0)[k - 1];
    }
    forall i | k + 1 <= i < |rs0| ensures SameHop(next0, next, Starts(rs0)[i]) {
      if k > 0 { assert Starts(rs0)[k - 1] != Starts(rs0)[i]; }
    }
    ChainSplice(next0, head0, Starts(rs0), k, k + 1, [n], next0[rs0[k].at], next, head);
  }

  /** Run `k` becomes longer. */
  lemma Extended(rs0: seq<Run>, rs: seq<Run>, k: nat, next: map<int, Option<int>>, head: Option<int>,
                 page0: map<int, nat>, page: map<int, nat>)
    requires Canonical(rs0) && k < |rs0| && Chain(next, head, Starts(rs0))
    requires |rs| == |rs0| && rs[k].at == rs0[k].at && forall i :: 0 <= i < |rs| && i != k ==> rs[i] == rs0[i]
    requires page == page0[rs[k].at := rs[k].pages] && forall i :: 0 <= i < |rs0| ==> Sized(page0, rs0, i)
    ensures Chain(next, head, Starts(rs)) && forall i :: 0 <= i < |rs| ==> Sized(page, rs, i)
  {
    assert Starts(rs) == Starts(rs0);
    StartsDistinct(rs0);
    forall i | 0 <= i < |rs| ensures Sized(page, rs, i) {
      if i != k { assert Sized(page0, rs0, i); assert Starts(rs0)[i] != Starts(rs0)[k]; }
    }
  }

  /** Run `k` swallows the next one. */
  lemma Absorbed(rs0: seq<Run>, rs: seq<Run>, k: nat, next0: map<int, Option<int>>, head: Option<int>,
                 next: map<int, Option<int>>,
                 page0: map<int, nat>, page: map<int, nat>)
    requires Canonical(rs0) && Canonical(rs) && k + 1 < |rs0| && Chain(next0, head, Starts(rs0))
    requires |rs| == |rs0| - 1 && rs == rs0[..k] + [rs[k]] + rs0[k + 2..] && rs[k].at == rs0[k].at
             && rs0[k + 1].at in next0
    requires next == next0[rs0[k].at := next0[rs0[k + 1].at]]
    requires rs0[k].at in page && page[rs0[k].at] == rs[k].pages
    requires forall a :: a in page0 && a != rs0[k].at ==> a in page && page[a] == page0[a]
    requires forall i :: 0 <= i < |rs0| ==> Sized(page0, rs0, i)
    ensures Chain(next, head, Starts(rs)) && forall i :: 0 <= i < |rs| ==> Sized(page, rs, i)
  {
    hide Chain, Canonical;
    var b := rs0[k].at;
    StartsDistinct(rs);
    StartsDistinct(rs0);
    ChainAt(next0, head, Starts(rs0), k);
    ChainAt(next0, head, Starts(rs0), k + 1);
    assert Starts(rs) == Starts(rs0)[..k] + [b] + Starts(rs0)[k + 2..];
    assert MidHop(next, [b], 0, next[b]);
    forall i | 0 <= i < |rs0| && i != k ensures SameHop(next0, next, Starts(rs0)[i]) {
      assert Starts(rs0)[i] != Starts(rs0)[k];
    }
    ChainSplice(next0, head, Starts(rs0), k, k + 2, [b], next[b], next, head);
    forall i | 0 <= i < |rs| ensures Sized(page, rs, i) {
      if i != k { assert Sized(page0, rs0, if i < k then i else i + 1); assert Starts(rs)[i] != Starts(rs)[k]; }
    }
  }

  /** A run enters before run `k`. */
  lemma InsertedChain(rs0: seq<Run>, rs: seq<Run>, k: nat, at: nat, b: Option<int>, next0: map<int, Option<int>>,
                      head0: Option<int>,
                      prev: Option<int>, next: map<int, Option<int>>, head: Option<int>)
    requires Canonical(rs0) && Canonical(rs) && k <= |rs0| && k < |rs| && rs == rs0[..k] + [rs[k]] + rs0[k..]
             && rs[k].at == at
    requires Chain(next0, head0, Starts(rs0)) && Before(prev, Starts(rs0), k)
    requires b == if k < |rs0| then Some(rs0[k].at) else None
    requires var next1 := next0[at := b];
             if prev.None? then head == Some(at) && next == next1
             else head == head0 && next == next1[prev.value := Some(at)]
    ensures Chain(next, head, Starts(rs)) && forall i :: 0 <= i < |rs0| ==> rs0[i].at != at
  {
    hide Chain, Canonical;
    StartsDistinct(rs);
    StartsDistinct(rs0);
    assert Starts(rs) == Starts(rs0)[..k] + [at] + Starts(rs0)[k..];
    forall i | 0 <= i < |rs0| ensures rs0[i].at != at {
      assert Starts(rs)[if i < k then i else i + 1] != Starts(rs)[k];
    }
    assert MidHop(next, [at], 0, b);
    forall i | 0 <= i < |rs0| && i != k - 1 ensures SameHop(next0, next, Starts(rs0)[i]) {
      if k > 0 { assert i < k - 1 || i > k - 1; assert Starts(rs0)[i] != Starts(rs0)[k - 1]; }
    }
    ChainSplice(next0, head0, Starts(rs0), k, k, [at], b, next, head);
  }

  lemma NoPages(rs: seq<Run>)
    ensures AllocSpec(rs, 0) == (rs, None)
  {
  }

  /** The start of a changed run is the start of no other run. */
  lemma NewStart(rs0: seq<Run>, rs: seq<Run>, k: nat, n: nat)
    requires Canonical(rs0) && Canonical(rs) && k < |rs0| && k < |rs| == |rs0| && rs[k].at == n
    requires forall i :: 0 <= i < |rs| && i != k ==> rs[i] == rs0[i]
    ensures Distinct(Starts(rs)) && Distinct(Starts(rs0)) && forall i :: 0 <= i < |rs0| && i != k ==> rs0[i].at != n
  {
    StartsDistinct(rs);
    StartsDistinct(rs0);
    forall i | 0 <= i < |rs0| && i != k ensures rs0[i].at != n { assert Starts(rs)[i] != Starts(rs)[k]; }
  }
}
