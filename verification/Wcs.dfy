/**
 The memoised search of rt-thread/tools/WCS.py over the shared dictionaries of the call graph,
 proved to compute what WcsPaths states.
 */
module Wcs {
  import opened Common
  import opened WcsPaths

  datatype Stack = Unbounded | Size(bytes: nat)

  class Analysis {
    const g: Graph
    /** The entries in the order of the dictionaries: globals, then locals. */
    const order: seq<Id>
    var rCalls: map<Id, seq<Id>>
    var unresolved: map<Id, set<string>>
    var wcs: map<Id, Stack>
    /** The list `parents` that the recursive calls share. */
    var parents: seq<Id>

    /** Sizes given by hand are known from the start. */
    constructor (g: Graph, order: seq<Id>)
      requires forall f :: f in g <==> f in order
      ensures this.g == g && this.order == order && parents == [] && rCalls == map[] && unresolved == map[]
      ensures wcs == map f | f in g && g[f].manual.Some? :: Size(g[f].manual.value)
    {
      this.g, this.order := g, order;
      rCalls, unresolved, parents := map[], map[], [];
      wcs := map f | f in g && g[f].manual.Some? :: Size(g[f].manual.value);
    }

    /** The calls of `f` that were found are in r_calls, the others in unresolved_calls. */
    ghost predicate ResolvedAt(f: Id)
      reads this
    {
      f in g && f in rCalls && f in unresolved && unresolved[f] == Missing(g, f)
      && forall h :: h in rCalls[f] <==> exists name :: name in g[f].calls && Find(g, g[f].tu, name) == Some(h)
    }

    /** resolve_all_calls. */
    method ResolveAllCalls()
      requires forall f :: f in g <==> f in order
      modifies `rCalls, `unresolved
      ensures forall f :: f in g ==> ResolvedAt(f)
    {
      for i := 0 to |order|
        invariant forall j :: 0 <= j < i ==> ResolvedAt(order[j])
      {
        assert order[i] in order;
        ResolveCalls(order[i]);
      }
    }

    /** resolve_calls. */
    method ResolveCalls(f: Id)
      requires f in g
      modifies `rCalls, `unresolved
      ensures ResolvedAt(f)
      ensures forall h :: old(ResolvedAt(h)) ==> ResolvedAt(h)
    {
      hide Find;
      rCalls, unresolved := rCalls[f := []], unresolved[f := {}];
      var calls := g[f].calls;
      for i := 0 to |calls|
        invariant f in rCalls && f in unresolved
        invariant forall h :: h in rCalls[f] <==> exists j :: 0 <= j < i && Find(g, g[f].tu, calls[j]) == Some(h)
        invariant forall name :: name in unresolved[f] <==>
                    exists j :: 0 <= j < i && calls[j] == name && Find(g, g[f].tu, name).None?
        invariant forall h :: h != f && h in old(rCalls) && h in old(unresolved) ==>
                                && h in rCalls && h in unresolved
                                && rCalls[h] == old(rCalls)[h] && unresolved[h] == old(unresolved)[h]
      {
        var found := Find(g, g[f].tu, calls[i]);
        if found.Some? {
          rCalls := rCalls[f := rCalls[f] + [found.value]];
        } else {
          unresolved := unresolved[f := unresolved[f] + {calls[i]}];
        }
      }
      assert unresolved[f] == Missing(g, f);
      forall h ensures h in rCalls[f] <==> exists name :: name in calls && Find(g, g[f].tu, name) == Some(h) {
        if name :| name in calls && Find(g, g[f].tu, name) == Some(h) {
          var j :| 0 <= j < |calls| && calls[j] == name;
        }
      }
      assert ResolvedAt(f);
    }

    ghost predicate Memo()
      reads this
    {
      MemoOk(g, rCalls, unresolved, wcs, parents)
    }

    /** calc_wcs. */
    method CalcWcs(f: Id)
      requires Memo() && Chain(g, parents, f)
      modifies `wcs, `unresolved, `parents
      ensures Memo() && parents == old(parents) && f in wcs
      ensures Kept(old(wcs), old(unresolved), wcs, unresolved, parents)
      decreases |g.Keys| - |parents|, 3
    {
      hide Bad, Chain, MemoOk, Gathered, RightAt, Missing, Calls, Kept;
      ghost var stack, wcs0, un0 := parents, wcs, unresolved;
      KeptAll(wcs, unresolved, parents);
      if f in wcs { return; }
      ChainFacts(g, parents, f);
      MemoFacts(g, rCalls, unresolved, wcs, parents, f);
      if g[f].hasPtrCall {
        PtrRight(g, f, unresolved[f]);
        Record(g, rCalls, unresolved, wcs, parents, f, Unbounded);
        KeptRecord(wcs0, un0, wcs, unresolved, parents, f, Unbounded);
        wcs := wcs[f := Unbounded];
        return;
      }
      if f in parents {
        RightIfBad(g, f, unresolved[f]);
        Record(g, rCalls, unresolved, wcs, parents, f, Unbounded);
        KeptRecord(wcs0, un0, wcs, unresolved, parents, f, Unbounded);
        wcs := wcs[f := Unbounded];
        return;
      }
      Push(g, rCalls, unresolved, wcs, parents, f);
      GatheredNone(g, f, rCalls[f], wcs, unresolved);
      var callMax, bounded := Callees(f);
      if !bounded {
        Record(g, rCalls, unresolved, wcs, parents + [f], f, Unbounded);
        Pop(g, rCalls, unresolved, wcs[f := Unbounded], parents, f);
        KeptRecord(wcs0, un0, wcs, unresolved, parents, f, Unbounded);
        wcs := wcs[f := Unbounded];
        return;
      }
      Total(g, rCalls, unresolved, wcs, parents, f, callMax);
      // The entry is not there yet: a recorded "unbounded" is never overwritten.
      assert f !in wcs;
      Record(g, rCalls, unresolved, wcs, parents + [f], f, Size(callMax + g[f].localStack));
      Pop(g, rCalls, unresolved, wcs[f := Size(callMax + g[f].localStack)], parents, f);
      KeptRecord(wcs0, un0, wcs, unresolved, parents, f, Size(callMax + g[f].localStack));
      wcs := wcs[f := Size(callMax + g[f].localStack)];
    }

    /** The recursive call, with the caller on the stack of parents. */
    method Visit(f: Id, h: Id)
      requires MemoOk(g, rCalls, unresolved, wcs, parents + [f]) && Chain(g, parents, f) && f !in parents
      requires f in g && g[f].manual.None? && |parents| < |g.Keys| && f in rCalls && h in rCalls[f]
      modifies `wcs, `unresolved, `parents
      ensures MemoOk(g, rCalls, unresolved, wcs, parents + [f]) && parents == old(parents) && h in wcs && Calls(g, f, h)
      ensures Kept(old(wcs), old(unresolved), wcs, unresolved, parents + [f])
      decreases |g.Keys| - |parents|, 1
    {
      hide Chain, MemoOk, Calls, Kept;
      ChainPush(g, rCalls, unresolved, wcs, parents, f, h);
      parents := parents + [f];
      CalcWcs(h);
      parents := parents[..|parents| - 1];
      assert parents == old(parents) && parents + [f] == old(parents) + [f];
    }

    /** The loop of calc_wcs over the callees, until one is unbounded. */
    method Callees(f: Id) returns (callMax: nat, bounded: bool)
      requires MemoOk(g, rCalls, unresolved, wcs, parents + [f]) && Chain(g, parents, f) && f !in parents && f !in wcs
      requires f in g && g[f].manual.None? && |parents| < |g.Keys|
      requires f in rCalls && Gathered(g, f, rCalls[f], 0, wcs, unresolved, 0)
      modifies `wcs, `unresolved, `parents
      ensures MemoOk(g, rCalls, unresolved, wcs, parents + [f]) && parents == old(parents) && f in rCalls
              && f in unresolved
      ensures Kept(old(wcs), old(unresolved), wcs, unresolved, parents) && (f in wcs ==> wcs[f] == Unbounded)
      ensures bounded ==> Gathered(g, f, rCalls[f], |rCalls[f]|, wcs, unresolved, callMax)
      ensures !bounded ==> RightAt(g, f, Unbounded, unresolved[f])
      decreases |g.Keys| - |parents|, 2
    {
      hide Bad, Chain, MemoOk, Gathered, RightAt, Missing, Calls, Kept;
      ghost var stack, wcs0, un0 := parents, wcs, unresolved;
      KeptAll(wcs, unresolved, parents);
      callMax, bounded := 0, true;
      var k := 0;
      while k < |rCalls[f]|
        invariant 0 <= k <= |rCalls[f]| && parents == stack && MemoOk(g, rCalls, unresolved, wcs, parents + [f])
        invariant Kept(wcs0, un0, wcs, unresolved, parents) && (f in wcs ==> wcs[f] == Unbounded)
        invariant Gathered(g, f, rCalls[f], k, wcs, unresolved, callMax)
      {
        var h := rCalls[f][k];
        ghost var wcs1, un1 := wcs, unresolved;
        Visit(f, h);
        KeptTrans(wcs0, un0, wcs1, un1, wcs, unresolved, parents, f);
        if wcs[h] == Unbounded {
          CalleeUnbounded(g, rCalls, unresolved, wcs, parents + [f], f, h);
          bounded := false;
          return;
        }
        GatheredSame(g, f, rCalls[f], k, wcs1, un1, wcs, unresolved, callMax, parents);
        GatheredStep(g, rCalls, wcs, unresolved, parents, f, k, callMax);
        callMax := if wcs[h].bytes > callMax then wcs[h].bytes else callMax;
        KeptMissing(wcs0, un0, wcs, unresolved, parents, f, unresolved[f] + unresolved[h]);
        unresolved := unresolved[f := unresolved[f] + unresolved[h]];
        k := k + 1;
      }
      MemoFacts(g, rCalls, unresolved, wcs, parents + [f], f);
    }

    /** calc_all_wcs: every function gets its entry, and every entry is right. */
    method CalcAllWcs()
      requires Memo() && parents == [] && forall f :: f in g <==> f in order
      modifies `wcs, `unresolved, `parents
      ensures wcs.Keys >= g.Keys && forall f :: f in g ==> f in unresolved && RightAt(g, f, wcs[f], unresolved[f])
    {
      hide MemoOk, RightAt, Chain, Kept;
      for i := 0 to |order|
        invariant Memo() && parents == [] && forall j :: 0 <= j < i ==> order[j] in wcs
      {
        assert order[i] in order;
        ChainStart(g, order[i]);
        ghost var wcs0, un0 := wcs, unresolved;
        CalcWcs(order[i]);
        KeptHas(wcs0, un0, wcs, unresolved, order[..i]);
      }
      AllRight(g, rCalls, unresolved, wcs, parents);
      forall f | f in g ensures f in wcs { assert f in order; }
    }

    /** The analysis from the beginning. */
    method Run()
      requires parents == [] && (forall f :: f in g <==> f in order)
      requires wcs == map f | f in g && g[f].manual.Some? :: Size(g[f].manual.value)
      modifies this
      ensures wcs.Keys >= g.Keys && forall f :: f in g ==> f in unresolved && RightAt(g, f, wcs[f], unresolved[f])
    {
      ResolveAllCalls();
      forall f | f in wcs ensures f in unresolved && RightAt(g, f, wcs[f], unresolved[f]) {
        assert ResolvedAt(f);
        ManualRight(g, f);
      }
      forall f | f in g ensures f in rCalls && f in unresolved && unresolved[f] == Missing(g, f) {
        assert ResolvedAt(f);
      }
      forall f, h | f in g && g[f].manual.None? ensures h in rCalls[f] <==> Calls(g, f, h) { assert ResolvedAt(f); }
      CalcAllWcs();
    }
  }

  /** A record is right: unbounded, or the worst use and all names missing below. */
  ghost predicate RightAt(g: Graph, f: Id, w: Stack, missing: set<string>) {
    match w
    case Unbounded => Bad(g, f)
    case Size(n) => !Bad(g, f) && Worst(g, f, n) && forall name :: name in missing <==> MissingFrom(g, f, name)
  }

  /**
   What was recorded stays as it is, with the names missing below it; of the functions being
   searched the names stay, and they can only be recorded as unbounded.
   */
  ghost predicate Kept(wcs: map<Id, Stack>, un: map<Id, set<string>>, wcs': map<Id, Stack>, un': map<Id, set<string>>,
                       parents: seq<Id>) {
    && (forall h :: h in wcs ==> h in wcs' && wcs'[h] == wcs[h])
    && (forall h :: h in parents && h in wcs' && h !in wcs ==> wcs'[h] == Unbounded)
    && (forall h :: h in un && (h in wcs || h in parents) ==> h in un' && un'[h] == un[h])
  }

  lemma KeptAll(wcs: map<Id, Stack>, un: map<Id, set<string>>, parents: seq<Id>)
    ensures Kept(wcs, un, wcs, un, parents)
  {
  }

  lemma KeptTrans(wcs0: map<Id, Stack>, un0: map<Id, set<string>>, wcs1: map<Id, Stack>, un1: map<Id, set<string>>,
                  wcs2: map<Id, Stack>, un2: map<Id, set<string>>, parents: seq<Id>, f: Id)
    requires Kept(wcs0, un0, wcs1, un1, parents) && Kept(wcs1, un1, wcs2, un2, parents + [f])
    requires f in wcs1 ==> wcs1[f] == Unbounded
    ensures Kept(wcs0, un0, wcs2, un2, parents) && (f in wcs2 ==> wcs2[f] == Unbounded)
  {
    assert forall h :: h in parents + [f] <==> h in parents || h == f;
  }

  lemma KeptRecord(wcs0: map<Id, Stack>, un0: map<Id, set<string>>, wcs: map<Id, Stack>, un: map<Id, set<string>>,
                   parents: seq<Id>, f: Id, w: Stack)
    requires Kept(wcs0, un0, wcs, un, parents) && f !in wcs0 && (f in parents ==> w == Unbounded)
    ensures Kept(wcs0, un0, wcs[f := w], un, parents)
  {
  }

  lemma KeptMissing(wcs0: map<Id, Stack>, un0: map<Id, set<string>>, wcs: map<Id, Stack>, un: map<Id, set<string>>,
                    parents: seq<Id>, f: Id, names: set<string>)
    requires Kept(wcs0, un0, wcs, un, parents) && f !in wcs0 && f !in parents
    ensures Kept(wcs0, un0, wcs, un[f := names], parents)
  {
  }

  /** Everything recorded is right; what is neither recorded nor being searched is untouched. */
  ghost predicate MemoOk(g: Graph, rCalls: map<Id, seq<Id>>, unresolved: map<Id, set<string>>, wcs: map<Id, Stack>,
                         parents: seq<Id>) {
    && (forall f :: f in g ==> f in rCalls && f in unresolved)
    && (forall f, h :: f in g && g[f].manual.None? ==> (h in rCalls[f] <==> Calls(g, f, h)))
    && (forall f :: f in wcs ==> f in g && f in unresolved && RightAt(g, f, wcs[f], unresolved[f]))
    && (forall f :: f in g && f !in wcs ==> g[f].manual.None?)
    && (forall f :: f in g && f !in wcs && f !in parents ==> unresolved[f] == Missing(g, f))
  }

  /** The functions being searched are a chain of calls that leads to `f`, without repetition. */
  ghost predicate Chain(g: Graph, parents: seq<Id>, f: Id) {
    !Repeats(parents) && f in g && Path(g, (parents + [f])[0], parents + [f])
  }

  /** The callees before `k` are recorded as bounded, and `max` and the names gathered are theirs. */
  ghost predicate Gathered(g: Graph, f: Id, rs: seq<Id>, k: int, wcs: map<Id, Stack>, unresolved: map<Id, set<string>>,
                           max: nat) {
    && 0 <= k <= |rs| && f in g && f in unresolved
    && (forall j :: 0 <= j < k ==> rs[j] in wcs && rs[j] in unresolved && wcs[rs[j]].Size? && wcs[rs[j]].bytes <= max)
    && (max == 0 || exists j :: 0 <= j < k && wcs[rs[j]].bytes == max)
    && forall name :: name in unresolved[f] <==>
         name in Missing(g, f) || exists j :: 0 <= j < k && name in unresolved[rs[j]]
  }

  // ----- Steps of the search

  lemma ManualRight(g: Graph, f: Id)
    requires f in g && g[f].manual.Some?
    ensures RightAt(g, f, Size(g[f].manual.value), Missing(g, f))
  {
    ManualIs(g, f);
    forall name ensures name in Missing(g, f) <==> MissingFrom(g, f, name) { MissingCallee(g, f, name); }
  }

  lemma ChainStart(g: Graph, f: Id)
    requires f in g
    ensures Chain(g, [], f)
  {
    PathOne(g, f);
    assert [] + [f] == [f];
  }

  lemma {:induction false} NoRepeatsShort(p: seq<Id>, keys: set<Id>)
    requires !Repeats(p) && forall h :: h in p ==> h in keys
    ensures |p| <= |keys|
    decreases |p|
  {
    if p != [] {
      var x, q := p[|p| - 1], p[..|p| - 1];
      forall i | 0 <= i < |q| ensures q[i] != x { assert p[i] == q[i]; }
      forall i, j | 0 <= i < j < |q| ensures q[i] != q[j] { assert p[i] == q[i] && p[j] == q[j]; }
      NoRepeatsShort(q, keys - {x});
    }
  }

  lemma ChainFacts(g: Graph, parents: seq<Id>, f: Id)
    requires Chain(g, parents, f)
    ensures f in g && (f in parents ==> Bad(g, f)) && (f !in parents ==> |parents| < |g.Keys|)
  {
    var p := parents + [f];
    if f in parents {
      var i :| 0 <= i < |parents| && parents[i] == f;
      assert p[i] == p[|p| - 1];
      BackEdgeBad(g, p[0], p, i);
    } else {
      assert !Repeats(p);
      forall h | h in p ensures h in g.Keys {
      }
      NoRepeatsShort(p, g.Keys);
    }
  }

  lemma MemoFacts(g: Graph, rCalls: map<Id, seq<Id>>, unresolved: map<Id, set<string>>, wcs: map<Id, Stack>,
                  parents: seq<Id>, f: Id)
    requires MemoOk(g, rCalls, unresolved, wcs, parents) && f in g
    ensures f in rCalls && f in unresolved && (f !in wcs ==> g[f].manual.None?)
    ensures f !in wcs && f !in parents ==> unresolved[f] == Missing(g, f)
  {
  }

  lemma Record(g: Graph, rCalls: map<Id, seq<Id>>, unresolved: map<Id, set<string>>, wcs: map<Id, Stack>,
               parents: seq<Id>, f: Id, w: Stack)
    requires MemoOk(g, rCalls, unresolved, wcs, parents) && f in g && f in unresolved && RightAt(g, f, w, unresolved[f])
    ensures MemoOk(g, rCalls, unresolved, wcs[f := w], parents)
  {
    hide RightAt;
  }

  lemma Push(g: Graph, rCalls: map<Id, seq<Id>>, unresolved: map<Id, set<string>>, wcs: map<Id, Stack>,
             parents: seq<Id>, f: Id)
    requires MemoOk(g, rCalls, unresolved, wcs, parents)
    ensures MemoOk(g, rCalls, unresolved, wcs, parents + [f])
  {
    hide RightAt;
  }

  lemma Pop(g: Graph, rCalls: map<Id, seq<Id>>, unresolved: map<Id, set<string>>, wcs: map<Id, Stack>, parents: seq<Id>,
            f: Id)
    requires MemoOk(g, rCalls, unresolved, wcs, parents + [f]) && f in wcs
    ensures MemoOk(g, rCalls, unresolved, wcs, parents)
  {
    hide RightAt;
    assert forall h :: h in parents + [f] <==> h in parents || h == f;
  }

  lemma ChainPush(g: Graph, rCalls: map<Id, seq<Id>>, unresolved: map<Id, set<string>>, wcs: map<Id, Stack>,
                  parents: seq<Id>, f: Id, h: Id)
    requires Chain(g, parents, f) && f !in parents && g[f].manual.None?
    requires MemoOk(g, rCalls, unresolved, wcs, parents + [f]) && f in rCalls && h in rCalls[f]
    ensures Chain(g, parents + [f], h) && Calls(g, f, h)
  {
    var p, q := parents + [f], parents + [f] + [h];
    assert Calls(g, f, h);
    forall i | 0 <= i < |q| - 1 ensures Edge(g, q, i) { if i < |p| - 1 { assert Edge(g, p, i); } }
    assert q[0] == p[0];
    forall i, j | 0 <= i < j < |p| ensures p[i] != p[j] { if j < |parents| { assert parents[i] != parents[j]; } }
  }

  lemma CalleeUnbounded(g: Graph, rCalls: map<Id, seq<Id>>, unresolved: map<Id, set<string>>, wcs: map<Id, Stack>,
                        parents: seq<Id>, f: Id, h: Id)
    requires MemoOk(g, rCalls, unresolved, wcs, parents) && Calls(g, f, h) && h in wcs && wcs[h] == Unbounded
    ensures f in unresolved && RightAt(g, f, Unbounded, unresolved[f])
  {
    BadCallee(g, f);
  }

  lemma GatheredSame(g: Graph, f: Id, rs: seq<Id>, k: int, wcs: map<Id, Stack>, un: map<Id, set<string>>,
                     wcs': map<Id, Stack>, un': map<Id, set<string>>,
                     max: nat, parents: seq<Id>)
    requires Gathered(g, f, rs, k, wcs, un, max) && Kept(wcs, un, wcs', un', parents + [f])
    ensures Gathered(g, f, rs, k, wcs', un', max)
  {
    assert f in parents + [f];
    assert forall j :: 0 <= j < k ==> un'[rs[j]] == un[rs[j]];
  }

  lemma GatheredStep(g: Graph, rCalls: map<Id, seq<Id>>, wcs: map<Id, Stack>, unresolved: map<Id, set<string>>,
                     parents: seq<Id>, f: Id, k: nat, max: nat)
    requires MemoOk(g, rCalls, unresolved, wcs, parents + [f]) && f in rCalls && k < |rCalls[f]|
    requires Gathered(g, f, rCalls[f], k, wcs, unresolved, max) && (f in wcs ==> wcs[f] == Unbounded)
    requires rCalls[f][k] in wcs && wcs[rCalls[f][k]].Size?
    ensures rCalls[f][k] in unresolved
    ensures var h := rCalls[f][k];
            var un := unresolved[f := unresolved[f] + unresolved[h]];
            && MemoOk(g, rCalls, un, wcs, parents + [f])
            && Gathered(g, f, rCalls[f], k + 1, wcs, un, if wcs[h].bytes > max then wcs[h].bytes else max)
  {
    var h := rCalls[f][k];
    KnownHas(g, rCalls, unresolved, wcs, parents + [f], h);
    MoreMissing(g, rCalls, unresolved, wcs, parents, f, unresolved[f] + unresolved[h]);
    GatheredOne(g, f, rCalls[f], k, wcs, unresolved, max);
  }

  lemma KnownHas(g: Graph, rCalls: map<Id, seq<Id>>, unresolved: map<Id, set<string>>, wcs: map<Id, Stack>,
                 parents: seq<Id>, h: Id)
    requires MemoOk(g, rCalls, unresolved, wcs, parents) && h in wcs
    ensures h in unresolved && RightAt(g, h, wcs[h], unresolved[h])
  {
  }

  lemma MoreMissing(g: Graph, rCalls: map<Id, seq<Id>>, unresolved: map<Id, set<string>>, wcs: map<Id, Stack>,
                    parents: seq<Id>, f: Id, names: set<string>)
    requires MemoOk(g, rCalls, unresolved, wcs, parents + [f]) && f in unresolved && (f in wcs ==> wcs[f] == Unbounded)
    ensures MemoOk(g, rCalls, unresolved[f := names], wcs, parents + [f])
  {
    if f in wcs { RightUnbounded(g, f, unresolved[f], names); }
    hide RightAt, Bad, Missing, Calls;
  }

  lemma RightUnbounded(g: Graph, f: Id, names: set<string>, names': set<string>)
    ensures RightAt(g, f, Unbounded, names) ==> RightAt(g, f, Unbounded, names')
  {
  }

  lemma GatheredOne(g: Graph, f: Id, rs: seq<Id>, k: nat, wcs: map<Id, Stack>, unresolved: map<Id, set<string>>,
                    max: nat)
    requires Gathered(g, f, rs, k, wcs, unresolved, max) && (f in wcs ==> wcs[f] == Unbounded)
    requires k < |rs| && rs[k] in wcs && wcs[rs[k]].Size? && rs[k] in unresolved
    ensures var un := unresolved[f := unresolved[f] + unresolved[rs[k]]];
            Gathered(g, f, rs, k + 1, wcs, un, if wcs[rs[k]].bytes > max then wcs[rs[k]].bytes else max)
  {
    hide Missing;
    var un := unresolved[f := unresolved[f] + unresolved[rs[k]]];
    forall j | 0 <= j <= k ensures rs[j] in un && un[rs[j]] == unresolved[rs[j]] {
      assert rs[j] != f;
    }
    forall name ensures name in un[f] <==> name in Missing(g, f) || exists j :: 0 <= j < k + 1 && name in un[rs[j]] {
      if j :| 0 <= j < k && name in unresolved[rs[j]] { assert name in un[rs[j]]; }
      if name in unresolved[rs[k]] { assert name in un[rs[k]]; }
    }
  }

  lemma KeptHas(wcs: map<Id, Stack>, un: map<Id, set<string>>, wcs': map<Id, Stack>, un': map<Id, set<string>>,
                fs: seq<Id>)
    requires Kept(wcs, un, wcs', un', []) && forall f :: f in fs ==> f in wcs
    ensures forall f :: f in fs ==> f in wcs'
  {
  }

  lemma AllRight(g: Graph, rCalls: map<Id, seq<Id>>, unresolved: map<Id, set<string>>, wcs: map<Id, Stack>,
                 parents: seq<Id>)
    requires MemoOk(g, rCalls, unresolved, wcs, parents)
    ensures forall f :: f in wcs ==> f in unresolved && RightAt(g, f, wcs[f], unresolved[f])
  {
  }

  /** When all callees are recorded as bounded, so is the function, with the greatest of them and its own stack. */
  lemma Total(g: Graph, rCalls: map<Id, seq<Id>>, unresolved: map<Id, set<string>>, wcs: map<Id, Stack>,
              parents: seq<Id>, f: Id, max: nat)
    requires MemoOk(g, rCalls, unresolved, wcs, parents + [f]) && f in rCalls
    requires Gathered(g, f, rCalls[f], |rCalls[f]|, wcs, unresolved, max)
    requires g[f].manual.None? && !g[f].hasPtrCall && (f in wcs ==> wcs[f] == Unbounded)
    ensures f !in wcs && f in unresolved && RightAt(g, f, Size(max + g[f].localStack), unresolved[f])
  {
    hide MemoOk, Bad, Worst, MissingFrom, Missing, Calls, PtrCaller;
    var rs := rCalls[f];
    CalleesAre(g, rCalls, unresolved, wcs, parents + [f], f);
    forall h | h in rs ensures h in wcs && h in unresolved && wcs[h].Size? && wcs[h].bytes <= max
        && RightAt(g, h, wcs[h], unresolved[h]) {
      var j :| 0 <= j < |rs| && rs[j] == h;
      KnownHas(g, rCalls, unresolved, wcs, parents + [f], h);
    }
    BadCallee(g, f);
    NotPtr(g, f);
    if f in wcs { KnownHas(g, rCalls, unresolved, wcs, parents + [f], f); }
    if max > 0 {
      var j :| 0 <= j < |rs| && wcs[rs[j]].bytes == max;
      assert rs[j] in rs;
    }
    WorstCallee(g, f, max);
    forall name ensures name in unresolved[f] <==> MissingFrom(g, f, name) {
      MissingCallee(g, f, name);
      if j :| 0 <= j < |rs| && name in unresolved[rs[j]] { assert rs[j] in rs && Calls(g, f, rs[j]); }
      if h :| Calls(g, f, h) && MissingFrom(g, h, name) {
        var j :| 0 <= j < |rs| && rs[j] == h;
        assert name in unresolved[rs[j]];
      }
    }
  }

  lemma PtrRight(g: Graph, f: Id, names: set<string>)
    requires f in g && g[f].manual.None? && g[f].hasPtrCall
    ensures RightAt(g, f, Unbounded, names)
  {
    BadCallee(g, f);
  }

  lemma RightIfBad(g: Graph, f: Id, names: set<string>)
    requires Bad(g, f)
    ensures RightAt(g, f, Unbounded, names)
  {
  }

  lemma GatheredNone(g: Graph, f: Id, rs: seq<Id>, wcs: map<Id, Stack>, unresolved: map<Id, set<string>>)
    requires f in g && f in unresolved && unresolved[f] == Missing(g, f)
    ensures Gathered(g, f, rs, 0, wcs, unresolved, 0)
  {
  }

  lemma NotPtr(g: Graph, f: Id)
    requires f in g && !g[f].hasPtrCall
    ensures !PtrCaller(g, f)
  {
  }

  lemma CalleesAre(g: Graph, rCalls: map<Id, seq<Id>>, unresolved: map<Id, set<string>>, wcs: map<Id, Stack>,
                   parents: seq<Id>, f: Id)
    requires MemoOk(g, rCalls, unresolved, wcs, parents) && f in g && g[f].manual.None? && f in rCalls
    ensures forall h :: h in rCalls[f] <==> Calls(g, f, h)
  {
  }
}
