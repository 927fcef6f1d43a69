/**
 The circular doubly linked lists of rt-thread/include/rtservice.h. A node is an integer; a
 store holds the `next` and `prev` links of every node. A list and its head node are the
 sequence of nodes met from the head, and the four operations are proved to act on that
 sequence, so that other models may speak of sequences.
 */
module RtList {
  datatype Links = Links(next: map<int, int>, prev: map<int, int>)

  function After(k: int, n: int): int { if k + 1 == n then 0 else k + 1 }

  ghost predicate Chained(s: Links, r: seq<int>, k: int)
    requires 0 <= k < |r|
  {
    var j := After(k, |r|);
    r[k] in s.next && s.next[r[k]] == r[j] && r[j] in s.prev && s.prev[r[j]] == r[k]
  }

  ghost predicate Distinct(r: seq<int>) {
    forall i, j :: 0 <= i < j < |r| ==> r[i] != r[j]
  }

  /** The nodes met from `r[0]` through `next` are `r`, and back to `r[0]`; `prev` runs the other way. */
  ghost predicate Ring(s: Links, r: seq<int>) {
    |r| > 0 && Distinct(r) && forall k :: 0 <= k < |r| ==> Chained(s, r, k)
  }

  /** rt_list_init. */
  function Init(s: Links, l: int): Links {
    Links(s.next[l := l], s.prev[l := l])
  }

  /** rt_list_insert_after. */
  function InsertAfter(s: Links, l: int, n: int): Links
    requires l in s.next
  {
    var s1 := s.(prev := s.prev[s.next[l] := n]);
    var s2 := s1.(next := s1.next[n := s1.next[l]]);
    Links(s2.next[l := n], s2.prev[n := l])
  }

  /** rt_list_insert_before. */
  function InsertBefore(s: Links, l: int, n: int): Links
    requires l in s.prev
  {
    var s1 := s.(next := s.next[s.prev[l] := n]);
    var s2 := s1.(prev := s1.prev[n := s1.prev[l]]);
    Links(s2.next[n := l], s2.prev[l := n])
  }

  /** rt_list_remove without the store that makes the node a list of its own. */
  function Unlink(s: Links, n: int): Links
    requires n in s.next && n in s.prev
  {
    Links(s.next[s.prev[n] := s.next[n]], s.prev[s.next[n] := s.prev[n]])
  }

  /** rt_list_remove. */
  function Remove(s: Links, n: int): Links
    requires n in s.next && n in s.prev
  {
    Init(Unlink(s, n), n)
  }

  lemma RingInit(s: Links, l: int)
    ensures Ring(Init(s, l), [l])
  {
    assert Chained(Init(s, l), [l], 0);
  }

  /** Links of other nodes do not matter to a list. */
  lemma RingFrame(s: Links, t: Links, r: seq<int>)
    requires Ring(s, r)
    requires forall a :: a in r && a in s.next ==> a in t.next && t.next[a] == s.next[a]
    requires forall a :: a in r && a in s.prev ==> a in t.prev && t.prev[a] == s.prev[a]
    ensures Ring(t, r)
  {
    forall k | 0 <= k < |r| ensures Chained(t, r, k) {
      assert Chained(s, r, k);
      assert r[k] in r && r[After(k, |r|)] in r;
    }
  }

  lemma RingHas(s: Links, r: seq<int>, k: nat)
    requires Ring(s, r) && k < |r|
    ensures r[k] in s.next && r[k] in s.prev
    ensures s.next[r[k]] == r[After(k, |r|)]
    ensures s.prev[r[k]] == r[if k == 0 then |r| - 1 else k - 1]
  {
    assert Chained(s, r, k) && Chained(s, r, if k == 0 then |r| - 1 else k - 1);
  }

  /** Inserting after the node at `k` puts the new node at `k + 1`. */
  lemma RingInsertAfter(s: Links, r: seq<int>, k: nat, n: int)
    requires Ring(s, r) && k < |r| && n !in r
    ensures r[k] in s.next && Ring(InsertAfter(s, r[k], n), r[..k + 1] + [n] + r[k + 1..])
  {
    RingHas(s, r, k);
    var t, q := InsertAfter(s, r[k], n), r[..k + 1] + [n] + r[k + 1..];
    forall j | 0 <= j < |q| ensures Chained(t, q, j) {
      if j <= k { assert Chained(s, r, j); } else if j > k + 1 { assert Chained(s, r, j - 1); }
    }
  }

  /** Inserting before the head appends; before another node it puts the new node in its place. */
  lemma RingInsertBefore(s: Links, r: seq<int>, k: nat, n: int)
    requires Ring(s, r) && k < |r| && n !in r
    ensures r[k] in s.prev
    ensures Ring(InsertBefore(s, r[k], n), if k == 0 then r + [n] else r[..k] + [n] + r[k..])
  {
    RingHas(s, r, k);
    var p := if k == 0 then |r| - 1 else k - 1;
    RingHas(s, r, p);
    RingInsertAfter(s, r, p, n);
    assert InsertBefore(s, r[k], n) == InsertAfter(s, r[p], n);
    assert k == 0 ==> r + [n] == r[..p + 1] + [n] + r[p + 1..];
  }

  /** Removing a node other than the head takes it out of the sequence. */
  lemma RingUnlink(s: Links, r: seq<int>, k: nat)
    requires Ring(s, r) && 0 < k < |r|
    ensures r[k] in s.next && r[k] in s.prev && Ring(Unlink(s, r[k]), r[..k] + r[k + 1..])
  {
    RingHas(s, r, k);
    var t, q := Unlink(s, r[k]), r[..k] + r[k + 1..];
    forall j | 0 <= j < |q| ensures Chained(t, q, j) {
      assert if j < k then Chained(s, r, j) else Chained(s, r, j + 1);
      if j == k - 1 { assert Chained(s, r, k); }
    }
  }

  /** After rt_list_remove the node is a list of its own and the rest is as if it had never been there. */
  lemma RingRemove(s: Links, r: seq<int>, k: nat)
    requires Ring(s, r) && 0 < k < |r|
    ensures r[k] in s.next && r[k] in s.prev
    ensures Ring(Remove(s, r[k]), r[..k] + r[k + 1..]) && Ring(Remove(s, r[k]), [r[k]])
  {
    RingUnlink(s, r, k);
    RingFrame(Unlink(s, r[k]), Remove(s, r[k]), r[..k] + r[k + 1..]);
    RingInit(Unlink(s, r[k]), r[k]);
  }

  /** Removing a node just inserted restores the list. */
  lemma RemoveUndoesInsert(s: Links, r: seq<int>, k: nat, n: int)
    requires Ring(s, r) && k < |r| && n !in r
    ensures r[k] in s.next
    ensures var t := InsertAfter(s, r[k], n); n in t.next && n in t.prev && Ring(Remove(t, n), r)
  {
    RingInsertAfter(s, r, k, n);
    var q, t := r[..k + 1] + [n] + r[k + 1..], InsertAfter(s, r[k], n);
    RingRemove(t, q, k + 1);
    assert q[..k + 1] + q[k + 2..] == r;
  }

  // ----- Sequences of distinct nodes

  function IndexOf(fl: seq<int>, a: int, from: nat := 0): (k: nat)
    requires from <= |fl|
    ensures from <= k <= |fl| && (k < |fl| ==> fl[k] == a) && forall j :: from <= j < k ==> fl[j] != a
    decreases |fl| - from
  {
    if from == |fl| || fl[from] == a then from else IndexOf(fl, a, from + 1)
  }

  function Without(fl: seq<int>, a: int): seq<int> {
    var k := IndexOf(fl, a);
    if k < |fl| then fl[..k] + fl[k + 1..] else fl
  }

  ghost function Elems(fl: seq<int>): set<int> { set a | a in fl }

  lemma WithoutMeaning(fl: seq<int>, a: int)
    requires Distinct(fl)
    ensures Distinct(Without(fl, a)) && Elems(Without(fl, a)) == Elems(fl) - {a}
  {
    var k := IndexOf(fl, a);
    if k < |fl| {
      assert fl == fl[..k] + [a] + fl[k + 1..];
      forall x ensures x in Without(fl, a) <==> x in fl && x != a {
        assert x in fl <==> x in fl[..k] || x == a || x in fl[k + 1..];
      }
    }
  }

  lemma PushMeaning(fl: seq<int>, a: int)
    requires Distinct(fl) && a !in Elems(fl)
    ensures Distinct([a] + fl) && Elems([a] + fl) == Elems(fl) + {a}
  {
    forall x ensures x in [a] + fl <==> x in fl || x == a {
    }
    assert forall i :: 0 <= i < |fl| ==> fl[i] in Elems(fl);
  }

  function Inserted(fl: seq<int>, k: nat, a: int): seq<int>
    requires k <= |fl|
  {
    fl[..k] + [a] + fl[k..]
  }

  lemma InsertedMeaning(fl: seq<int>, k: nat, a: int)
    requires k <= |fl|
    ensures forall x :: x in Inserted(fl, k, a) <==> x == a || x in fl
  {
    forall x ensures x in Inserted(fl, k, a) <==> x == a || x in fl {
      assert fl == fl[..k] + fl[k..];
      assert x in fl <==> x in fl[..k] || x in fl[k..];
    }
  }

  lemma InsertedDistinct(fl: seq<int>, k: nat, a: int)
    requires k <= |fl| && Distinct(fl) && a !in fl
    ensures Distinct(Inserted(fl, k, a))
  {
  }

  lemma EmptyDistinct()
    ensures Distinct([])
  {
  }

  lemma FirstLeaves(ws: seq<int>)
    requires Distinct(ws) && ws != []
    ensures Distinct(ws[1..]) && ws[0] !in ws[1..] && forall t :: t in ws <==> t == ws[0] || t in ws[1..]
  {
    assert ws == [ws[0]] + ws[1..];
    forall j | 0 <= j < |ws[1..]| ensures ws[1..][j] != ws[0] { assert ws[0] != ws[j + 1]; }
  }

  lemma WithoutMembers(fl: seq<int>, a: int)
    requires Distinct(fl)
    ensures Distinct(Without(fl, a)) && forall x :: x in Without(fl, a) <==> x != a && x in fl
  {
    WithoutMeaning(fl, a);
    forall x ensures x in Without(fl, a) <==> x != a && x in fl {
      assert x in Without(fl, a) <==> x in Elems(Without(fl, a));
      assert x in fl <==> x in Elems(fl);
    }
  }

  /** A list with its head, without the node at `k`. */
  lemma ConsCut(x: int, fl: seq<int>, k: nat)
    requires k < |fl|
    ensures ([x] + fl)[..k + 1] + ([x] + fl)[k + 2..] == [x] + (fl[..k] + fl[k + 1..])
  {
  }

  /** ... and with a node entered behind the one at `k`. */
  lemma ConsInsert(x: int, fl: seq<int>, k: nat, a: int)
    requires k <= |fl|
    ensures ([x] + fl)[..k + 1] + [a] + ([x] + fl)[k + 1..] == [x] + Inserted(fl, k, a)
  {
    assert ([x] + fl)[..k + 1] == [x] + fl[..k] && ([x] + fl)[k + 1..] == fl[k..];
  }

  lemma WithoutIs(fl: seq<int>, a: int)
    requires a in fl
    ensures var k := IndexOf(fl, a); k < |fl| && fl[k] == a && Without(fl, a) == fl[..k] + fl[k + 1..]
  {
  }
}
