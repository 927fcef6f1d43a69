/**
 What the worst-case stack analysis of rt-thread/tools/WCS.py is to compute: for each function
 of a call graph, a maximum over call paths, or "unbounded".
 */
module WcsPaths {
  import opened Common

  /** A global function, or a local one of a translation unit. */
  datatype Id = Global(name: string) | Local(name: string, tu: string)

  /**
   What was read of a function: the translation unit, the names it calls, whether it calls through
   a pointer, its own stack, and a size given by hand.
   */
  datatype Function = Function(tu: string, calls: seq<string>, hasPtrCall: bool, localStack: nat, manual: Option<nat>)

  type Graph = map<Id, Function>

  /** find_fxn: a global function hides a local one of the same name. */
  function Find(g: Graph, tu: string, name: string): Option<Id> {
    if Global(name) in g then Some(Global(name))
    else if Local(name, tu) in g then Some(Local(name, tu))
    else None
  }

  /**
   The function found is in the graph, has the name, and is seen from the translation unit; a local one
   is found only where there is no global one. None is found exactly if none is seen.
   */
  lemma FindMeaning(g: Graph, tu: string, name: string)
    ensures var r := Find(g, tu, name);
            && (r.None? <==> forall h: Id :: h in g && h.name == name ==> h.Local? && h.tu != tu)
            && (r.Some? ==>
                  && r.value in g && r.value.name == name && (r.value.Local? ==> r.value.tu == tu)
                  && (r.value.Local? <==> forall h: Id :: h in g && h.name == name ==> h.Local?))
  {
    if h :| h in g && h.name == name && h.Global? { assert h == Global(name); }
    if h :| h in g && h.name == name && h.Local? && h.tu == tu { assert h == Local(name, tu); }
  }

  ghost predicate Calls(g: Graph, f: Id, h: Id) {
    f in g && g[f].manual.None? && exists name :: name in g[f].calls && Find(g, g[f].tu, name) == Some(h)
  }

  /** The names a function calls that no function is found for. */
  ghost function Missing(g: Graph, f: Id): set<string>
    requires f in g
  {
    set name | name in g[f].calls && Find(g, g[f].tu, name).None?
  }

  // ----- Call paths

  ghost predicate Edge(g: Graph, p: seq<Id>, i: int)
    requires 0 <= i < |p| - 1
  {
    Calls(g, p[i], p[i + 1])
  }

  /** A chain of calls from `f`. The calls of a function sized by hand are not followed. */
  ghost predicate Path(g: Graph, f: Id, p: seq<Id>) {
    && |p| > 0 && p[0] == f
    && (forall i :: 0 <= i < |p| ==> p[i] in g)
    && forall i :: 0 <= i < |p| - 1 ==> Edge(g, p, i)
  }

  ghost predicate Repeats(p: seq<Id>) {
    exists i, j :: 0 <= i < j < |p| && p[i] == p[j]
  }

  ghost predicate PtrCaller(g: Graph, f: Id)
    requires f in g
  {
    g[f].manual.None? && g[f].hasPtrCall
  }

  /** A chain of calls reaches a call through a pointer, or a recursion. */
  ghost predicate Bad(g: Graph, f: Id) {
    exists p :: Path(g, f, p) && (PtrCaller(g, p[|p| - 1]) || Repeats(p))
  }

  function Cost(g: Graph, f: Id): nat
    requires f in g
  {
    if g[f].manual.Some? then g[f].manual.value else g[f].localStack
  }

  ghost function Sum(g: Graph, p: seq<Id>): nat
    requires forall i :: 0 <= i < |p| ==> p[i] in g
  {
    if p == [] then 0 else Cost(g, p[0]) + Sum(g, p[1..])
  }

  /** `n` is the greatest stack use of a chain of calls from `f`. */
  ghost predicate Worst(g: Graph, f: Id, n: nat) {
    (exists p :: Path(g, f, p) && Sum(g, p) == n) && forall p :: Path(g, f, p) ==> Sum(g, p) <= n
  }

  /** A name is missing somewhere on the chains of calls from `f`. */
  ghost predicate MissingFrom(g: Graph, f: Id, name: string) {
    exists p :: Path(g, f, p) && name in Missing(g, p[|p| - 1])
  }

  // ----- Paths and callees

  lemma PathTail(g: Graph, f: Id, p: seq<Id>)
    requires Path(g, f, p) && |p| > 1
    ensures Calls(g, f, p[1]) && Path(g, p[1], p[1..])
  {
    assert Edge(g, p, 0);
    forall i | 0 <= i < |p[1..]| - 1 ensures Edge(g, p[1..], i) { assert Edge(g, p, i + 1); }
  }

  lemma PathCons(g: Graph, f: Id, h: Id, p: seq<Id>)
    requires Calls(g, f, h) && Path(g, h, p)
    ensures Path(g, f, [f] + p) && Sum(g, [f] + p) == Cost(g, f) + Sum(g, p)
  {
    var q := [f] + p;
    forall i | 0 <= i < |q| - 1 ensures Edge(g, q, i) { if i > 0 { assert Edge(g, p, i - 1); } }
    assert q[1..] == p;
  }

  lemma PathOne(g: Graph, f: Id)
    requires f in g
    ensures Path(g, f, [f]) && Sum(g, [f]) == Cost(g, f)
  {
    assert [f][1..] == [];
  }

  /** A function is bad exactly when it calls through a pointer or calls a bad function. */
  lemma BadCallee(g: Graph, f: Id)
    requires f in g
    ensures Bad(g, f) <==> PtrCaller(g, f) || exists h :: Calls(g, f, h) && Bad(g, h)
  {
    if Bad(g, f) && !PtrCaller(g, f) {
      var p :| Path(g, f, p) && (PtrCaller(g, p[|p| - 1]) || Repeats(p));
      PathTail(g, f, p);
      if !Repeats(p[1..]) && !PtrCaller(g, p[|p| - 1]) {
        RepeatsSplit(p);
        var j :| 0 < j < |p| && p[j] == p[0];
        CycleBad(g, f, p, j);
      }
      assert p[1..][|p[1..]| - 1] == p[|p| - 1];
      assert Bad(g, p[1]);
    }
    if PtrCaller(g, f) { PathOne(g, f); assert [f][|[f]| - 1] == f; }
    if h :| Calls(g, f, h) && Bad(g, h) {
      var p :| Path(g, h, p) && (PtrCaller(g, p[|p| - 1]) || Repeats(p));
      PathCons(g, f, h, p);
      var q := [f] + p;
      assert q[|q| - 1] == p[|p| - 1];
      if Repeats(p) {
        var i, j :| 0 <= i < j < |p| && p[i] == p[j];
        assert q[i + 1] == q[j + 1];
      }
      assert Bad(g, f);
    }
  }

  lemma RepeatsSplit(p: seq<Id>)
    requires |p| > 0 && Repeats(p)
    ensures Repeats(p[1..]) || exists j :: 0 < j < |p| && p[j] == p[0]
  {
    var i, k :| 0 <= i < k < |p| && p[i] == p[k];
    if i > 0 { assert p[1..][i - 1] == p[1..][k - 1]; }
  }

  /** When a path comes back to its start, the first callee is on the cycle too. */
  lemma CycleBad(g: Graph, f: Id, p: seq<Id>, j: nat)
    requires Path(g, f, p) && 0 < j < |p| && p[j] == f
    ensures Bad(g, p[1])
  {
    var q := p[1..j + 1] + [p[1]];
    forall i | 0 <= i < |q| - 1 ensures Edge(g, q, i) {
      if i < j - 1 { assert Edge(g, p, i + 1); } else { assert Edge(g, p, 0); }
    }
    assert q[0] == q[|q| - 1] == p[1];
    assert Path(g, p[1], q) && Repeats(q);
  }

  /** The path up to a function that is already on it closes a cycle. */
  lemma BackEdgeBad(g: Graph, start: Id, p: seq<Id>, i: nat)
    requires Path(g, start, p) && i < |p| - 1 && p[i] == p[|p| - 1]
    ensures Bad(g, p[i])
  {
    var q := p[i..];
    forall k | 0 <= k < |q| - 1 ensures Edge(g, q, k) { assert Edge(g, p, i + k); }
    assert q[0] == q[|q| - 1];
    assert Path(g, p[i], q) && Repeats(q);
  }

  /** The worst use of a function, given that of each callee: `m` is the greatest of these, or zero. */
  lemma WorstCallee(g: Graph, f: Id, m: nat)
    requires f in g && g[f].manual.None?
    requires forall h :: Calls(g, f, h) ==> exists n: nat :: n <= m && Worst(g, h, n)
    requires m == 0 || exists h :: Calls(g, f, h) && Worst(g, h, m)
    ensures Worst(g, f, m + g[f].localStack)
  {
    if m > 0 {
      var h :| Calls(g, f, h) && Worst(g, h, m);
      var p :| Path(g, h, p) && Sum(g, p) == m;
      PathCons(g, f, h, p);
    } else {
      PathOne(g, f);
    }
    forall p | Path(g, f, p) ensures Sum(g, p) <= m + g[f].localStack {
      if |p| > 1 {
        PathTail(g, f, p);
        assert p == [f] + p[1..];
      } else {
        assert p == [f];
        PathOne(g, f);
      }
    }
  }

  lemma MissingCallee(g: Graph, f: Id, name: string)
    requires f in g
    ensures MissingFrom(g, f, name) <==> name in Missing(g, f) || exists h :: Calls(g, f, h) && MissingFrom(g, h, name)
  {
    if MissingFrom(g, f, name) {
      var p :| Path(g, f, p) && name in Missing(g, p[|p| - 1]);
      if |p| > 1 {
        PathTail(g, f, p);
        assert p[1..][|p[1..]| - 1] == p[|p| - 1];
        assert MissingFrom(g, p[1], name);
      }
    }
    if name in Missing(g, f) { PathOne(g, f); assert [f][|[f]| - 1] == f; }
    if h :| Calls(g, f, h) && MissingFrom(g, h, name) {
      var p :| Path(g, h, p) && name in Missing(g, p[|p| - 1]);
      PathCons(g, f, h, p);
      var q := [f] + p;
      assert q[|q| - 1] == p[|p| - 1];
      assert MissingFrom(g, f, name);
    }
  }

  /** A function sized by hand is never bad, and its size is its worst use. */
  lemma ManualIs(g: Graph, f: Id)
    requires f in g && g[f].manual.Some?
    ensures !Bad(g, f) && Worst(g, f, g[f].manual.value)
  {
    forall p | Path(g, f, p) ensures p == [f] {
      if |p| > 1 { PathTail(g, f, p); }
    }
    PathOne(g, f);
  }
}
