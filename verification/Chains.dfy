/** Singly linked lists in a store of `next` links, each seen as the sequence of its nodes. */
module Chains {
  import opened Common
  import opened RtList

  /** Following `next` from `p` one meets the nodes `ns`, and then nothing. */
  ghost predicate Chain(next: map<int, Option<int>>, p: Option<int>, ns: seq<int>) {
    && p == (if ns == [] then None else Some(ns[0]))
    && forall i :: 0 <= i < |ns| ==> Hop(next, ns, i)
  }

  ghost predicate Hop(next: map<int, Option<int>>, ns: seq<int>, i: int)
    requires 0 <= i < |ns|
  {
    ns[i] in next && next[ns[i]] == if i + 1 < |ns| then Some(ns[i + 1]) else None
  }

  lemma ChainFrame(next: map<int, Option<int>>, next': map<int, Option<int>>, p: Option<int>, ns: seq<int>)
    requires Chain(next, p, ns)
    requires forall i :: 0 <= i < |ns| && ns[i] in next ==> ns[i] in next' && next'[ns[i]] == next[ns[i]]
    ensures Chain(next', p, ns)
  {
    forall i | 0 <= i < |ns| ensures Hop(next', ns, i) { assert Hop(next, ns, i); }
  }

  lemma ChainHead(next: map<int, Option<int>>, p: Option<int>, ns: seq<int>)
    requires Chain(next, p, ns) && ns != []
    ensures p == Some(ns[0]) && ns[0] in next && Chain(next, next[ns[0]], ns[1..])
  {
    assert Hop(next, ns, 0);
    forall i | 0 <= i < |ns[1..]| ensures Hop(next, ns[1..], i) { assert Hop(next, ns, i + 1); }
  }

  lemma ChainPush(next: map<int, Option<int>>, p: Option<int>, ns: seq<int>, n: int)
    requires Chain(next, p, ns) && n !in ns
    ensures Chain(next[n := p], Some(n), [n] + ns)
  {
    var next', ns' := next[n := p], [n] + ns;
    forall i | 0 <= i < |ns'| ensures Hop(next', ns', i) {
      if i > 0 { assert Hop(next, ns, i - 1) && ns[i - 1] in ns; }
    }
  }

  lemma ChainAppend(next: map<int, Option<int>>, p: Option<int>, ns: seq<int>, n: int)
    requires Chain(next, p, ns) && ns != [] && n !in ns && Distinct(ns) && n in next && next[n] == None
    ensures Chain(next[ns[|ns| - 1] := Some(n)], p, ns + [n])
  {
    var next', ns' := next[ns[|ns| - 1] := Some(n)], ns + [n];
    forall i | 0 <= i < |ns'| ensures Hop(next', ns', i) {
      if i < |ns| - 1 { assert Hop(next, ns, i) && ns[i] != ns[|ns| - 1]; }
      if i < |ns| { assert Hop(next, ns, i); }
    }
  }

  lemma ChainNone(next: map<int, Option<int>>, p: Option<int>, ns: seq<int>)
    requires Chain(next, p, ns)
    ensures p == None <==> ns == []
  {
  }

  lemma ChainOne(next: map<int, Option<int>>, n: int)
    requires n in next && next[n] == None
    ensures Chain(next, Some(n), [] + [n])
  {
    assert [] + [n] == [n];
  }

  function Last(ns: seq<int>): Option<int> { if ns == [] then None else Some(ns[|ns| - 1]) }

  /** A list reached through `*prev`: the head of the list, or the `next` of the node `prev`. */
  ghost predicate Before(p: Option<int>, ns: seq<int>, k: int) {
    0 <= k <= |ns| && p == if k == 0 then None else Some(ns[k - 1])
  }

  /** `*prev` holds the node at `k`, or nothing. */
  lemma ChainAt(next: map<int, Option<int>>, head: Option<int>, ns: seq<int>, k: nat)
    requires Chain(next, head, ns) && k <= |ns|
    ensures k > 0 ==> ns[k - 1] in next
    ensures (if k == 0 then head else next[ns[k - 1]]) == if k < |ns| then Some(ns[k]) else None
    ensures k < |ns| ==> ns[k] in next && next[ns[k]] == if k + 1 < |ns| then Some(ns[k + 1]) else None
  {
    if k > 0 { assert Hop(next, ns, k - 1); }
    if k < |ns| { assert Hop(next, ns, k); }
  }

  ghost predicate MidHop(next: map<int, Option<int>>, mid: seq<int>, i: int, last: Option<int>)
    requires 0 <= i < |mid|
  {
    mid[i] in next && next[mid[i]] == if i + 1 < |mid| then Some(mid[i + 1]) else last
  }

  ghost predicate SameHop(next: map<int, Option<int>>, next': map<int, Option<int>>, n: int) {
    n in next ==> n in next' && next'[n] == next[n]
  }

  /** The nodes from `k` up to `l` are replaced by `mid`, whose last node goes on to the node at `l`. */
  lemma ChainSplice(next: map<int, Option<int>>, head: Option<int>, ns: seq<int>, k: nat, l: nat, mid: seq<int>,
                    last: Option<int>,
                    next': map<int, Option<int>>, head': Option<int>)
    requires Chain(next, head, ns) && k <= l <= |ns| && Distinct(ns[..k] + mid + ns[l..])
    requires last == if l < |ns| then Some(ns[l]) else None
    requires var to := if mid != [] then Some(mid[0]) else last;
             if k == 0 then head' == to else head' == head && ns[k - 1] in next' && next'[ns[k - 1]] == to
    requires forall i :: 0 <= i < |mid| ==> MidHop(next', mid, i, last)
    requires forall i :: 0 <= i < k - 1 ==> SameHop(next, next', ns[i])
    requires forall i :: l <= i < |ns| ==> SameHop(next, next', ns[i])
    ensures Chain(next', head', ns[..k] + mid + ns[l..])
  {
    var qs := ns[..k] + mid + ns[l..];
    var m := k + |mid|;
    forall i | 0 <= i < k ensures qs[i] == ns[i] {
    }
    forall i | k <= i < m ensures qs[i] == mid[i - k] {
    }
    forall i | m <= i < |qs| ensures qs[i] == ns[l + (i - m)] {
    }
    forall i | 0 <= i < k ensures Hop(next', qs, i) {
      assert Hop(next, ns, i);
      assert i < k - 1 ==> SameHop(next, next', ns[i]);
    }
    forall i | k <= i < m ensures Hop(next', qs, i) {
      assert MidHop(next', mid, i - k, last);
    }
    forall i | m <= i < |qs| ensures Hop(next', qs, i) {
      assert Hop(next, ns, l + (i - m)) && SameHop(next, next', ns[l + (i - m)]);
    }
    if k > 0 { assert Hop(next, ns, 0); }
  }
}
