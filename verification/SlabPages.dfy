/**
 The page allocator under the slab allocator of rt-thread/src/slab.c: a list of runs of free
 pages, kept sorted and with adjacent runs joined.
 */
module SlabPages {
  import opened Common

  /** `pages` free pages from page `at` on. */
  datatype Run = Run(at: nat, pages: nat)

  /** Runs `i` and `i + 1` are in order with at least a page between them. */
  ghost predicate Gap(rs: seq<Run>, i: int)
    requires 0 <= i < |rs| - 1
  {
    rs[i].at + rs[i].pages < rs[i + 1].at
  }

  /** Sorted and maximally joined. */
  ghost predicate Canonical(rs: seq<Run>) {
    && (forall i :: 0 <= i < |rs| ==> rs[i].pages > 0)
    && (forall i :: 0 <= i < |rs| - 1 ==> Gap(rs, i))
  }

  ghost predicate InRun(r: Run, p: int) { r.at <= p < r.at + r.pages }

  /** Page `p` is free. */
  ghost predicate IsFree(rs: seq<Run>, p: int) {
    exists i :: 0 <= i < |rs| && InRun(rs[i], p)
  }

  lemma {:induction false} RunsApart(rs: seq<Run>, i: nat, j: nat)
    requires Canonical(rs) && i < j < |rs|
    ensures rs[i].at + rs[i].pages < rs[j].at
    decreases j - i
  {
    assert Gap(rs, i);
    if i + 1 < j { RunsApart(rs, i + 1, j); }
  }

  lemma CanonicalTail(rs: seq<Run>)
    requires Canonical(rs) && rs != []
    ensures Canonical(rs[1..]) && forall p :: IsFree(rs, p) <==> InRun(rs[0], p) || IsFree(rs[1..], p)
    ensures forall p :: IsFree(rs[1..], p) ==> p > rs[0].at + rs[0].pages
    ensures |rs| > 1 ==> rs[0].at + rs[0].pages < rs[1].at == rs[1..][0].at
  {
    var ts := rs[1..];
    if |rs| > 1 { assert Gap(rs, 0); }
    forall i | 0 <= i < |ts| - 1 ensures Gap(ts, i) { assert Gap(rs, i + 1); }
    forall p ensures IsFree(rs, p) <==> InRun(rs[0], p) || IsFree(ts, p) {
      if IsFree(rs, p) {
        var i :| 0 <= i < |rs| && InRun(rs[i], p);
        if i > 0 { assert InRun(ts[i - 1], p); }
      }
      if IsFree(ts, p) {
        var i :| 0 <= i < |ts| && InRun(ts[i], p);
        assert InRun(rs[i + 1], p);
      }
    }
    forall p | IsFree(ts, p) ensures p > rs[0].at + rs[0].pages {
      var i :| 0 <= i < |ts| && InRun(ts[i], p);
      RunsApart(rs, 0, i + 1);
    }
  }

  lemma CanonicalCons(r: Run, ts: seq<Run>)
    requires Canonical(ts) && r.pages > 0 && (ts != [] ==> r.at + r.pages < ts[0].at)
    ensures Canonical([r] + ts) && forall p :: IsFree([r] + ts, p) <==> InRun(r, p) || IsFree(ts, p)
  {
    var rs := [r] + ts;
    forall i | 0 <= i < |rs| - 1 ensures Gap(rs, i) { if i > 0 { assert Gap(ts, i - 1); } }
    CanonicalTail(rs);
    assert rs[1..] == ts;
  }

  /** The list is determined by which pages are free. */
  lemma {:induction false} FreePagesDetermine(rs: seq<Run>, qs: seq<Run>)
    requires Canonical(rs) && Canonical(qs) && forall p :: IsFree(rs, p) <==> IsFree(qs, p)
    ensures rs == qs
    decreases |rs|
  {
    if rs == [] {
      if qs != [] { assert InRun(qs[0], qs[0].at) && IsFree(qs, qs[0].at); }
    } else {
      CanonicalTail(rs);
      assert InRun(rs[0], rs[0].at) && IsFree(rs, rs[0].at);
      var i :| 0 <= i < |qs| && InRun(qs[i], rs[0].at);
      CanonicalTail(qs);
      assert InRun(qs[0], qs[0].at) && IsFree(qs, qs[0].at);
      assert rs[0].at == qs[0].at;
      SameLength(rs, qs);
      SameLength(qs, rs);
      forall p ensures IsFree(rs[1..], p) <==> IsFree(qs[1..], p) {
        assert IsFree(rs, p) <==> IsFree(qs, p);
      }
      FreePagesDetermine(rs[1..], qs[1..]);
      assert rs == [rs[0]] + rs[1..] && qs == [qs[0]] + qs[1..];
    }
  }

  lemma SameLength(rs: seq<Run>, qs: seq<Run>)
    requires Canonical(rs) && Canonical(qs) && rs != [] && qs != [] && rs[0].at == qs[0].at
    requires forall p :: IsFree(rs, p) <==> IsFree(qs, p)
    ensures rs[0].pages <= qs[0].pages
  {
    CanonicalTail(rs);
    CanonicalTail(qs);
    var p := qs[0].at + qs[0].pages;
    assert !IsFree(qs, p);
    assert InRun(rs[0], p) ==> IsFree(rs, p);
  }

  // ----- Allocation

  /** rt_slab_page_alloc: the first run that is long enough gives its first pages. */
  function AllocSpec(rs: seq<Run>, n: nat): (seq<Run>, Option<nat>) {
    if n == 0 || rs == [] then (rs, None)
    else if rs[0].pages > n then ([Run(rs[0].at + n, rs[0].pages - n)] + rs[1..], Some(rs[0].at))
    else if rs[0].pages == n then (rs[1..], Some(rs[0].at))
    else var (ts, a) := AllocSpec(rs[1..], n); ([rs[0]] + ts, a)
  }

  /** `n` adjacent pages from `a` on are free. */
  ghost predicate AllFree(rs: seq<Run>, a: int, n: nat) {
    forall p :: a <= p < a + n ==> IsFree(rs, p)
  }

  /** Adjacent free pages lie in one run. */
  lemma {:induction false} OneRun(rs: seq<Run>, a: int, n: nat)
    requires Canonical(rs) && n > 0 && AllFree(rs, a, n)
    ensures exists i :: 0 <= i < |rs| && rs[i].at <= a && a + n <= rs[i].at + rs[i].pages
    decreases |rs|
  {
    assert IsFree(rs, a);
    CanonicalTail(rs);
    if InRun(rs[0], a) {
      var q := rs[0].at + rs[0].pages;
      assert !IsFree(rs, q);
      assert !(a <= q < a + n);
    } else {
      forall p | a <= p < a + n ensures IsFree(rs[1..], p) { assert IsFree(rs, p); }
      OneRun(rs[1..], a, n);
      var i :| 0 <= i < |rs[1..]| && rs[1..][i].at <= a && a + n <= rs[1..][i].at + rs[1..][i].pages;
      assert rs[i + 1] == rs[1..][i];
    }
  }

  /**
   Pages are allocated at the lowest place where enough adjacent pages are free, and the call
   fails exactly when there is none. Just these pages leave the list, which stays sorted and joined.
   */
  lemma {:induction false} AllocMeaning(rs: seq<Run>, n: nat)
    requires Canonical(rs) && n > 0
    ensures var (rs', r) := AllocSpec(rs, n);
            && Canonical(rs')
            && (r.None? ==> rs' == rs)
            && (r.Some? ==>
                  && AllFree(rs, r.value, n)
                  && forall p :: IsFree(rs', p) <==> IsFree(rs, p) && !(r.value <= p < r.value + n))
    ensures var (rs', r) := AllocSpec(rs, n);
            && (r.None? <==> forall a :: !AllFree(rs, a, n))
            && (r.Some? ==> forall a :: AllFree(rs, a, n) ==> r.value <= a)
    ensures AllocSpec(rs, n).0 != [] && rs != [] ==> rs[0].at <= AllocSpec(rs, n).0[0].at
    decreases |rs|
  {
    if rs == [] {
      forall a ensures !AllFree(rs, a, n) { assert !IsFree(rs, a); }
    } else {
      var (rs', r) := AllocSpec(rs, n);
      CanonicalTail(rs);
      if rs[0].pages >= n {
        if rs[0].pages > n { CanonicalCons(Run(rs[0].at + n, rs[0].pages - n), rs[1..]); }
        forall p | rs[0].at <= p < rs[0].at + n ensures IsFree(rs, p) { assert InRun(rs[0], p); }
        assert AllFree(rs, rs[0].at, n);
        forall a | AllFree(rs, a, n) ensures rs[0].at <= a { assert IsFree(rs, a); }
      } else {
        AllocMeaning(rs[1..], n);
        var (ts, a) := AllocSpec(rs[1..], n);
        CanonicalCons(rs[0], ts);
        AllocInTail(rs, n);
        if a.Some? { assert IsFree(rs[1..], a.value); }
      }
    }
  }

  lemma AllocInTail(rs: seq<Run>, n: nat)
    requires Canonical(rs) && rs != [] && 0 < n && rs[0].pages < n
    ensures forall a :: AllFree(rs, a, n) <==> AllFree(rs[1..], a, n)
  {
    CanonicalTail(rs);
    forall a ensures AllFree(rs, a, n) <==> AllFree(rs[1..], a, n) {
      if AllFree(rs, a, n) {
        OneRun(rs, a, n);
        var i :| 0 <= i < |rs| && rs[i].at <= a && a + n <= rs[i].at + rs[i].pages;
        forall p | a <= p < a + n ensures IsFree(rs[1..], p) { assert InRun(rs[1..][i - 1], p); }
      }
      if AllFree(rs[1..], a, n) {
        forall p | a <= p < a + n ensures IsFree(rs, p) { assert IsFree(rs[1..], p); }
      }
    }
  }

  // ----- Release

  /** rt_slab_page_free, from the run at the head of the list on. */
  function FreeSpec(rs: seq<Run>, at: nat, n: nat): seq<Run> {
    if rs == [] then [Run(at, n)]
    else
      var b := rs[0];
      if b.at + b.pages == at then
        if |rs| > 1 && at + n == rs[1].at then [Run(b.at, b.pages + n + rs[1].pages)] + rs[2..]
        else [Run(b.at, b.pages + n)] + rs[1..]
      else if b.at == at + n then [Run(at, b.pages + n)] + rs[1..]
      else if b.at > at + n then [Run(at, n)] + rs
      else [b] + FreeSpec(rs[1..], at, n)
  }

  /** Releasing pages that are not free adds just them, joined with the runs they touch. */
  lemma {:induction false} FreeMeaning(rs: seq<Run>, at: nat, n: nat)
    requires Canonical(rs) && n > 0 && forall p :: at <= p < at + n ==> !IsFree(rs, p)
    ensures Canonical(FreeSpec(rs, at, n))
    ensures forall p :: IsFree(FreeSpec(rs, at, n), p) <==> IsFree(rs, p) || at <= p < at + n
    ensures FreeSpec(rs, at, n) != [] && FreeSpec(rs, at, n)[0].at == if rs != [] && rs[0].at < at then rs[0].at else at
    decreases |rs|
  {
    if rs == [] {
      CanonicalCons(Run(at, n), []);
      assert [Run(at, n)] + [] == [Run(at, n)];
    } else {
      hide IsFree, Canonical;
      CanonicalTail(rs);
      RunElsewhere(rs, at, n);
      var b := rs[0];
      if b.at + b.pages == at {
        JoinsHead(rs, at, n);
      } else if b.at == at + n {
        CanonicalCons(Run(at, b.pages + n), rs[1..]);
      } else if b.at > at + n {
        CanonicalCons(Run(at, n), rs);
      } else {
        FreeMeaning(rs[1..], at, n);
        CanonicalCons(b, FreeSpec(rs[1..], at, n));
      }
    }
  }

  lemma JoinsHead(rs: seq<Run>, at: nat, n: nat)
    requires Canonical(rs) && n > 0 && rs != [] && rs[0].at + rs[0].pages == at
    requires forall i :: 0 <= i < |rs| ==> rs[i].at + rs[i].pages <= at || at + n <= rs[i].at
    ensures Canonical(FreeSpec(rs, at, n)) && FreeSpec(rs, at, n) != [] && FreeSpec(rs, at, n)[0].at == rs[0].at
    ensures forall p :: IsFree(FreeSpec(rs, at, n), p) <==> IsFree(rs, p) || at <= p < at + n
  {
    var b := rs[0];
    CanonicalTail(rs);
    if |rs| > 1 && at + n == rs[1].at {
      CanonicalTail(rs[1..]);
      assert rs[1..][1..] == rs[2..];
      CanonicalCons(Run(b.at, b.pages + n + rs[1].pages), rs[2..]);
    } else {
      CanonicalCons(Run(b.at, b.pages + n), rs[1..]);
    }
  }

  /** A run lies wholly before or after pages that are not free. */
  lemma RunElsewhere(rs: seq<Run>, at: nat, n: nat)
    requires Canonical(rs) && n > 0 && forall p :: at <= p < at + n ==> !IsFree(rs, p)
    ensures forall i :: 0 <= i < |rs| ==> rs[i].at + rs[i].pages <= at || at + n <= rs[i].at
  {
    forall i | 0 <= i < |rs| ensures rs[i].at + rs[i].pages <= at || at + n <= rs[i].at {
      var r := rs[i];
      var p := if r.at < at then at else r.at;
      if InRun(r, p) && at <= p < at + n { assert IsFree(rs, p); }
    }
  }

  /** Releasing what was allocated restores the list exactly. */
  lemma FreeUndoesAlloc(rs: seq<Run>, n: nat)
    requires Canonical(rs) && n > 0 && AllocSpec(rs, n).1.Some?
    ensures FreeSpec(AllocSpec(rs, n).0, AllocSpec(rs, n).1.value, n) == rs
  {
    AllocMeaning(rs, n);
    var (ts, a) := AllocSpec(rs, n);
    FreeMeaning(ts, a.value, n);
    forall p ensures IsFree(FreeSpec(ts, a.value, n), p) <==> IsFree(rs, p) {
      if a.value <= p < a.value + n { assert IsFree(rs, p); }
    }
    FreePagesDetermine(FreeSpec(ts, a.value, n), rs);
  }
}
