/**
 The mutexes of rt-thread/src/ipc.c with priority inheritance, over any interleaving of takes,
 releases and timeouts. Each step is one section with interrupts disabled.
 A smaller number is a higher priority.
 */
module MutexRuns {
  import opened Common
  import opened RtList

  /** RT_MUTEX_HOLD_MAX. */
  const HOLD_MAX := 255
  /** The `original_priority` of a mutex without an owner. */
  const NO_PRIORITY := 0xff

  /** `BLOCKED` stands for a call that has not returned: its thread is on the wait list. */
  datatype Code = EOK | ERROR | ETIMEOUT | EFULL | BLOCKED

  datatype Wait = NoWait | Ticks | Forever

  /** `base` is the priority a thread has by itself, `prio` its current one, `stamp` the number of its last wait. */
  datatype Thread = Thread(base: nat, prio: nat, error: Code, timed: bool, stamp: nat)

  datatype Mutex = Mutex(value: nat, owner: Option<int>, original: nat, hold: nat, waiters: seq<int>)

  /** `pending` holds the threads inside a call of rt_mutex_take that was switched out, with the mutex. */
  datatype State = State(mutexes: map<int, Mutex>, threads: map<int, Thread>, pending: map<int, int>, waits: nat)

  // ----- The calls

  function Prio(ts: map<int, Thread>, t: int): nat { if t in ts then ts[t].prio else 0 }

  /** Where _ipc_list_suspend puts a thread: before the first waiter of lower priority. */
  function Place(ws: seq<int>, ts: map<int, Thread>, prio: nat, from: nat := 0): (k: nat)
    requires from <= |ws|
    ensures from <= k <= |ws| && (k < |ws| ==> prio < Prio(ts, ws[k]))
    ensures forall j :: from <= j < k ==> Prio(ts, ws[j]) <= prio
    decreases |ws| - from
  {
    if from == |ws| || prio < Prio(ts, ws[from]) then from else Place(ws, ts, prio, from + 1)
  }

  /** rt_mutex_take up to the point where it returns or its thread is switched out. */
  function TakeSpec(s: State, m: int, t: int, wait: Wait): (State, Code)
    requires m in s.mutexes && t in s.threads
  {
    var x := s.mutexes[m];
    var s1 := s.(threads := s.threads[t := s.threads[t].(error := EOK)]);
    if x.owner == Some(t) then
      if x.hold < HOLD_MAX then (s1.(mutexes := s.mutexes[m := x.(hold := x.hold + 1)]), EOK) else (s1, EFULL)
    else if x.value > 0 then
      var y := x.(value := x.value - 1, owner := Some(t), original := s.threads[t].prio, hold := x.hold + 1);
      (s1.(mutexes := s.mutexes[m := y]), EOK)
    else if wait == NoWait then
      (s.(threads := s.threads[t := s.threads[t].(error := ETIMEOUT)]), ETIMEOUT)
    else
      (Blocked(s1, m, t, wait), BLOCKED)
  }

  /** The owner inherits the priority of a thread that waits, and the thread joins the wait list. */
  function Blocked(s: State, m: int, t: int, wait: Wait): State
    requires m in s.mutexes && t in s.threads
  {
    var x, p := s.mutexes[m], s.threads[t].prio;
    var ts := if x.owner.Some? && x.owner.value in s.threads && p < s.threads[x.owner.value].prio
              then s.threads[x.owner.value := s.threads[x.owner.value].(prio := p)] else s.threads;
    State(s.mutexes[m := x.(waiters := Inserted(x.waiters, Place(x.waiters, ts, p), t))],
          ts[t := s.threads[t].(timed := wait == Ticks, stamp := s.waits)], s.pending[t := m], s.waits + 1)
  }

  /** rt_mutex_release. */
  function ReleaseSpec(s: State, m: int, t: int): (State, Code)
    requires m in s.mutexes && t in s.threads
  {
    var x := s.mutexes[m];
    if x.owner != Some(t) then (s.(threads := s.threads[t := s.threads[t].(error := ERROR)]), ERROR)
    else if x.hold > 1 then (s.(mutexes := s.mutexes[m := x.(hold := x.hold - 1)]), EOK)
    else
      var ts := s.threads[t := s.threads[t].(prio := x.original)];
      (s.(mutexes := s.mutexes[m := PassedOn(x, s.threads)], threads := ts), EOK)
  }

  /** The mutex goes to the first waiter, or becomes free. */
  function PassedOn(x: Mutex, ts: map<int, Thread>): Mutex {
    if x.waiters == [] then Mutex(x.value + 1, None, NO_PRIORITY, 0, [])
    else Mutex(x.value, Some(x.waiters[0]), Prio(ts, x.waiters[0]), 1, x.waiters[1..])
  }

  /** _thread_timeout for a thread waiting for `m`. */
  function TimeoutSpec(s: State, m: int, t: int): State
    requires m in s.mutexes && t in s.threads
  {
    s.(mutexes := s.mutexes[m := s.mutexes[m].(waiters := Without(s.mutexes[m].waiters, t))],
    threads := s.threads[t := s.threads[t].(error := ETIMEOUT)])
  }

  /** The end of a call of rt_mutex_take that was switched out. */
  function ReturnSpec(s: State, t: int): (State, Code)
    requires t in s.threads
  {
    (s.(pending := s.pending - {t}), s.threads[t].error)
  }

  // ----- The invariant

  /** Higher priority first, equal priorities in the order of their waits. */
  ghost predicate Before(ts: map<int, Thread>, t: int, u: int) {
    t in ts && u in ts && (ts[t].prio < ts[u].prio || (ts[t].prio == ts[u].prio && ts[t].stamp < ts[u].stamp))
  }

  ghost predicate Sorted(ts: map<int, Thread>, ws: seq<int>) {
    forall i, j :: 0 <= i < j < |ws| ==> Before(ts, ws[i], ws[j])
  }

  /** A waiter has its own priority. */
  ghost predicate WaiterOk(s: State, w: int) {
    w in s.threads && s.threads[w].prio == s.threads[w].base && s.threads[w].stamp < s.waits
  }

  /** The owner's priority is its own or better, and at least that of every waiter. */
  ghost predicate OwnerOk(s: State, x: Mutex, o: int) {
    && o in s.threads && x.original == s.threads[o].base && s.threads[o].prio <= s.threads[o].base
    && o !in x.waiters && forall w :: w in x.waiters ==> s.threads[o].prio <= Prio(s.threads, w)
  }

  ghost predicate MutexOk(s: State, m: int)
    requires m in s.mutexes
  {
    var x := s.mutexes[m];
    && (x.value == 1 <==> x.owner.None?) && (x.owner.None? <==> x.hold == 0) && x.value <= 1 && x.hold <= HOLD_MAX
    && (x.owner.None? ==> x.waiters == []) && (x.owner.Some? ==> OwnerOk(s, x, x.owner.value))
    && Sorted(s.threads, x.waiters) && forall w :: w in x.waiters ==> WaiterOk(s, w)
  }

  /** Thread `t` holds `m` or waits for it. */
  ghost predicate Engaged(s: State, m: int, t: int) {
    m in s.mutexes && (s.mutexes[m].owner == Some(t) || t in s.mutexes[m].waiters)
  }

  ghost predicate OwnPriority(s: State, t: int)
    requires t in s.threads
  {
    s.threads[t].prio == s.threads[t].base || exists m :: m in s.mutexes && s.mutexes[m].owner == Some(t)
  }

  ghost predicate Sound(s: State) {
    && (forall m :: m in s.mutexes ==> MutexOk(s, m))
    && (forall m, n, t :: Engaged(s, m, t) && Engaged(s, n, t) ==> m == n)
    && (forall t :: t in s.threads ==> OwnPriority(s, t))
  }

  /** A thread inside a call still waits; or was handed the mutex; or timed out. */
  ghost predicate PendingOk(s: State, t: int)
    requires t in s.pending
  {
    var m := s.pending[t];
    && m in s.mutexes && t in s.threads
    && var x, error := s.mutexes[m], s.threads[t].error;
    || (t in x.waiters && error == EOK)
    || (x.owner == Some(t) && x.hold == 1 && t !in x.waiters && error == EOK)
    || (error == ETIMEOUT && forall n :: !Engaged(s, n, t))
  }

  ghost predicate Waiting(s: State) {
    && (forall t :: t in s.pending ==> PendingOk(s, t))
    && (forall m, t :: m in s.mutexes && t in s.mutexes[m].waiters ==> t in s.pending)
  }

  // ----- Steps

  datatype Op = Take(m: int, t: int, wait: Wait) | Release(m: int, t: int) | Timeout(m: int, t: int) | Return(t: int)

  ghost predicate Suspended(s: State, t: int) {
    exists m :: m in s.mutexes && t in s.mutexes[m].waiters
  }

  /**
   Calls are made by threads that are not inside a call; only a waiter times out, and only a
   thread that was resumed returns.
   */
  ghost predicate Possible(s: State, op: Op) {
    && op.t in s.threads
    && match op
       case Take(m, t, _) => m in s.mutexes && t !in s.pending
       case Release(m, t) => m in s.mutexes && t !in s.pending
       case Timeout(m, t) => m in s.mutexes && t in s.mutexes[m].waiters && s.threads[t].timed
       case Return(t) => t in s.pending && !Suspended(s, t)
  }

  /** A thread that holds one mutex does not take another. */
  ghost predicate Disciplined(s: State, op: Op) {
    op.Take? ==> forall n :: n in s.mutexes && s.mutexes[n].owner == Some(op.t) ==> n == op.m
  }

  ghost function Step(s: State, op: Op): State
    requires Possible(s, op)
  {
    match op
    case Take(m, t, wait) => TakeSpec(s, m, t, wait).0
    case Release(m, t) => ReleaseSpec(s, m, t).0
    case Timeout(m, t) => TimeoutSpec(s, m, t)
    case Return(t) => ReturnSpec(s, t).0
  }

  /**
   A step on `m` that changes priorities only of threads engaged with no other mutex leaves the
   other mutexes in order.
   */
  lemma OthersOk(s: State, s': State, m: int, changed: set<int>)
    requires Sound(s) && m in s.mutexes && m in s'.mutexes && s'.mutexes == s.mutexes[m := s'.mutexes[m]]
    requires s'.threads.Keys == s.threads.Keys && s'.waits >= s.waits
    requires forall t :: t in s.threads && t !in changed ==>
                           && s'.threads[t].prio == s.threads[t].prio && s'.threads[t].base == s.threads[t].base
                           && s'.threads[t].stamp == s.threads[t].stamp
    requires forall n, t :: n != m && t in changed ==> !Engaged(s, n, t)
    ensures forall n :: n in s'.mutexes && n != m ==> MutexOk(s', n)
  {
    forall n | n in s'.mutexes && n != m ensures MutexOk(s', n) {
      assert MutexOk(s, n);
      var x := s.mutexes[n];
      forall w | w in x.waiters ensures WaiterOk(s', w) && w !in changed { assert WaiterOk(s, w) && Engaged(s, n, w); }
      forall i, j | 0 <= i < j < |x.waiters| ensures Before(s'.threads, x.waiters[i], x.waiters[j]) {
        assert Before(s.threads, x.waiters[i], x.waiters[j]) && x.waiters[i] in x.waiters && x.waiters[j] in x.waiters;
      }
      if x.owner.Some? { assert Engaged(s, n, x.owner.value); }
    }
  }

  /**
   A step on `m` keeps the invariant if `m` is in order afterwards and no thread newly engaged
   with `m` is engaged elsewhere.
   */
  lemma Keeps(s: State, s': State, m: int, changed: set<int>)
    requires Sound(s) && m in s.mutexes && m in s'.mutexes && s'.mutexes == s.mutexes[m := s'.mutexes[m]]
    requires s'.threads.Keys == s.threads.Keys && s'.waits >= s.waits
    requires forall t :: t in s.threads && t !in changed ==>
                           && s'.threads[t].prio == s.threads[t].prio && s'.threads[t].base == s.threads[t].base
                           && s'.threads[t].stamp == s.threads[t].stamp
    requires forall n, t :: n != m && t in changed ==> !Engaged(s, n, t)
    requires MutexOk(s', m)
    requires forall t :: Engaged(s', m, t) ==> Engaged(s, m, t) || forall n :: !Engaged(s, n, t)
    requires forall t :: t in s.threads && (t in changed || s.mutexes[m].owner == Some(t)) ==>
                           s'.threads[t].prio == s'.threads[t].base || s'.mutexes[m].owner == Some(t)
    ensures Sound(s')
  {
    hide MutexOk;
    OthersOk(s, s', m, changed);
    forall n, k, t | Engaged(s', n, t) && Engaged(s', k, t) ensures n == k {
      assert n != m ==> Engaged(s, n, t);
      assert k != m ==> Engaged(s, k, t);
    }
    forall t | t in s'.threads ensures OwnPriority(s', t) {
      assert OwnPriority(s, t);
      if t !in changed && s.mutexes[m].owner != Some(t) && s.threads[t].prio != s.threads[t].base {
        var n :| n in s.mutexes && s.mutexes[n].owner == Some(t);
        assert s'.mutexes[n].owner == Some(t);
      } else if t in changed || s.mutexes[m].owner == Some(t) {
        assert s'.threads[t].prio == s'.threads[t].base || s'.mutexes[m].owner == Some(t);
      }
    }
  }

  lemma FreeThread(s: State, m: int, t: int)
    requires Sound(s) && m in s.mutexes && t in s.threads && !Suspended(s, t) && Disciplined(s, Take(m, t, Forever))
    requires s.mutexes[m].owner != Some(t)
    ensures forall n :: !Engaged(s, n, t)
    ensures s.threads[t].prio == s.threads[t].base
  {
    forall n ensures !Engaged(s, n, t) {
    }
    assert OwnPriority(s, t);
    if m' :| m' in s.mutexes && s.mutexes[m'].owner == Some(t) { assert Engaged(s, m', t); }
  }

  lemma TakeKeeps(s: State, m: int, t: int, wait: Wait)
    requires Sound(s) && Waiting(s) && Possible(s, Take(m, t, wait)) && Disciplined(s, Take(m, t, wait))
    ensures Sound(TakeSpec(s, m, t, wait).0)
    ensures TakeSpec(s, m, t, wait).0.threads.Keys == s.threads.Keys
  {
    hide Place, Inserted, Sorted;
    var x := s.mutexes[m];
    var s' := TakeSpec(s, m, t, wait).0;
    assert MutexOk(s, m);
    NotSuspended(s, t);
    SortedSame(s, s', x.waiters, t);
    if x.owner == Some(t) {
      if x.hold == HOLD_MAX { assert s'.mutexes == s.mutexes[m := x]; }
      Keeps(s, s', m, {});
    } else {
      FreeThread(s, m, t);
      if x.value > 0 {
        Keeps(s, s', m, {});
      } else if wait == NoWait {
        assert s'.mutexes == s.mutexes[m := x];
        Keeps(s, s', m, {});
      } else {
        BlockedKeeps(s, m, t, wait);
      }
    }
  }

  lemma SortedSame(s: State, s': State, ws: seq<int>, t: int)
    requires Sorted(s.threads, ws)
    requires s'.threads.Keys == s.threads.Keys
    ensures (forall w :: w in ws && w in s.threads ==>
                           s'.threads[w].prio == s.threads[w].prio && s'.threads[w].stamp == s.threads[w].stamp) ==>
                                 Sorted(s'.threads, ws)
  {
    if forall w :: w in ws && w in s.threads ==>
                     s'.threads[w].prio == s.threads[w].prio && s'.threads[w].stamp == s.threads[w].stamp {
      forall i, j | 0 <= i < j < |ws| ensures Before(s'.threads, ws[i], ws[j]) {
        assert Before(s.threads, ws[i], ws[j]) && ws[i] in ws && ws[j] in ws;
      }
    }
  }

  lemma BlockedKeeps(s: State, m: int, t: int, wait: Wait)
    requires Sound(s) && m in s.mutexes && t in s.threads && forall n :: !Engaged(s, n, t)
    requires s.threads[t].prio == s.threads[t].base && s.mutexes[m].owner.Some? && s.mutexes[m].owner != Some(t)
    ensures var s1 := s.(threads := s.threads[t := s.threads[t].(error := EOK)]);
            Sound(Blocked(s1, m, t, wait)) && Blocked(s1, m, t, wait).threads.Keys == s.threads.Keys
  {
    hide Place, Inserted, Sorted;
    var s1 := s.(threads := s.threads[t := s.threads[t].(error := EOK)]);
    var s' := Blocked(s1, m, t, wait);
    var x, x' := s.mutexes[m], s'.mutexes[m];
    var o, p := x.owner.value, s.threads[t].prio;
    assert MutexOk(s, m) && OwnerOk(s, x, o) && Engaged(s, m, o);
    var ts := if p < s1.threads[o].prio then s1.threads[o := s1.threads[o].(prio := p)] else s1.threads;
    assert !Engaged(s, m, t);
    InsertedMeaning(x.waiters, Place(x.waiters, ts, p), t);
    forall w | w in x'.waiters ensures WaiterOk(s', w) { if w != t { assert WaiterOk(s, w); } }
    InsertedSorted(s, s', x.waiters, t, Place(x.waiters, ts, p), ts);
    assert OwnerOk(s', x', o);
    assert MutexOk(s', m);
    Keeps(s, s', m, {o, t});
  }

  /** Threads `ws` wait with the same priority and stamp in both, and `ts` has their priorities. */
  ghost predicate SameWaits(s: State, s': State, ws: seq<int>, ts: map<int, Thread>) {
    forall w :: w in ws ==>
                  && w in s.threads && w in s'.threads && w in ts && ts[w].prio == s.threads[w].prio
                  && s'.threads[w].prio == s.threads[w].prio && s'.threads[w].stamp == s.threads[w].stamp
  }

  lemma InsertedSorted(s: State, s': State, ws: seq<int>, t: int, k: nat, ts: map<int, Thread>)
    requires Sorted(s.threads, ws) && t !in ws && (forall w :: w in ws ==> WaiterOk(s, w))
    requires t in s'.threads && s'.threads[t].stamp == s.waits && k == Place(ws, ts, s'.threads[t].prio)
    requires SameWaits(s, s', ws, ts)
    ensures Sorted(s'.threads, Inserted(ws, k, t))
  {
    hide Sorted, WaiterOk, Place, SameWaits, Before;
    var ws' := Inserted(ws, k, t);
    forall i, j | 0 <= i < j < |ws'| ensures Before(s'.threads, ws'[i], ws'[j]) {
      if i == k {
        assert ws'[j] == ws[j - 1];
        JoinsBefore(s, s', ws, t, k, ts, j - 1);
      } else if j == k {
        assert ws'[i] == ws[i];
        JoinsBehind(s, s', ws, t, k, ts, i);
      } else {
        var a, b := if i < k then i else i - 1, if j < k then j else j - 1;
        assert ws'[i] == ws[a] && ws'[j] == ws[b];
        StaysBefore(s, s', ws, ts, a, b);
      }
    }
    SortedWhen(s'.threads, ws');
  }

  lemma SortedWhen(ts: map<int, Thread>, ws: seq<int>)
    requires forall i, j :: 0 <= i < j < |ws| ==> Before(ts, ws[i], ws[j])
    ensures Sorted(ts, ws)
  {
  }

  lemma JoinsBefore(s: State, s': State, ws: seq<int>, t: int, k: nat, ts: map<int, Thread>, j: nat)
    requires Sorted(s.threads, ws) && SameWaits(s, s', ws, ts) && t in s'.threads
    requires k == Place(ws, ts, s'.threads[t].prio) && k <= j < |ws|
    ensures Before(s'.threads, t, ws[j])
  {
    assert ws[k] in ws && ws[j] in ws;
    FirstLater(s.threads, ws, k, j);
  }

  lemma JoinsBehind(s: State, s': State, ws: seq<int>, t: int, k: nat, ts: map<int, Thread>, i: nat)
    requires SameWaits(s, s', ws, ts) && (forall w :: w in ws ==> WaiterOk(s, w))
    requires t in s'.threads && s'.threads[t].stamp == s.waits
    requires k == Place(ws, ts, s'.threads[t].prio) && i < k
    ensures Before(s'.threads, ws[i], t)
  {
    assert ws[i] in ws && WaiterOk(s, ws[i]);
  }

  lemma StaysBefore(s: State, s': State, ws: seq<int>, ts: map<int, Thread>, a: nat, b: nat)
    requires Sorted(s.threads, ws) && SameWaits(s, s', ws, ts) && a < b < |ws|
    ensures Before(s'.threads, ws[a], ws[b])
  {
    assert ws[a] in ws && ws[b] in ws && Before(s.threads, ws[a], ws[b]);
  }

  lemma FirstLater(ts: map<int, Thread>, ws: seq<int>, k: nat, j: nat)
    requires Sorted(ts, ws) && k <= j < |ws| && ws[k] in ts
    ensures ws[k] in ws && ws[j] in ws && ws[k] in ts && ws[j] in ts && ts[ws[k]].prio <= ts[ws[j]].prio
  {
    if k < j { assert Before(ts, ws[k], ws[j]); }
  }

  lemma NotSuspended(s: State, t: int)
    requires Waiting(s) && t !in s.pending
    ensures !Suspended(s, t)
  {
  }

  lemma TailSorted(ts: map<int, Thread>, ws: seq<int>)
    requires Sorted(ts, ws) && ws != []
    ensures Sorted(ts, ws[1..]) && forall w :: w in ws[1..] ==> Before(ts, ws[0], w)
    ensures forall w :: w in ws <==> w == ws[0] || w in ws[1..]
  {
    forall i, j | 0 <= i < j < |ws[1..]| ensures Before(ts, ws[1..][i], ws[1..][j]) {
      assert Before(ts, ws[i + 1], ws[j + 1]);
    }
    forall w | w in ws[1..] ensures Before(ts, ws[0], w) {
      var j :| 0 <= j < |ws[1..]| && ws[1..][j] == w;
      assert Before(ts, ws[0], ws[j + 1]);
    }
    assert ws == [ws[0]] + ws[1..];
  }

  lemma ReleaseKeeps(s: State, m: int, t: int)
    requires Sound(s) && m in s.mutexes && t in s.threads
    ensures Sound(ReleaseSpec(s, m, t).0)
    ensures ReleaseSpec(s, m, t).0.threads.Keys == s.threads.Keys
  {
    hide Sorted;
    var x := s.mutexes[m];
    var s' := ReleaseSpec(s, m, t).0;
    assert MutexOk(s, m);
    SortedSame(s, s', x.waiters, t);
    if x.owner != Some(t) {
      assert s'.mutexes == s.mutexes[m := x];
      Keeps(s, s', m, {});
    } else if x.hold > 1 {
      Keeps(s, s', m, {});
    } else {
      forall n | n != m ensures !Engaged(s, n, t) { assert Engaged(s, m, t); }
      if x.waiters != [] {
        TailSorted(s.threads, x.waiters);
        TailSorted(s'.threads, x.waiters);
        var w := x.waiters[0];
        assert WaiterOk(s, w);
        assert w !in x.waiters[1..];
        forall v | v in s'.mutexes[m].waiters ensures WaiterOk(s', v) { assert WaiterOk(s, v); }
      }
      assert MutexOk(s', m);
      Keeps(s, s', m, {t});
    }
  }

  lemma TimeoutKeeps(s: State, m: int, t: int)
    requires Sound(s) && m in s.mutexes && t in s.mutexes[m].waiters && t in s.threads
    ensures Sound(TimeoutSpec(s, m, t))
    ensures TimeoutSpec(s, m, t).threads.Keys == s.threads.Keys
    ensures forall n :: !Engaged(TimeoutSpec(s, m, t), n, t)
  {
    var x := s.mutexes[m];
    var s' := TimeoutSpec(s, m, t);
    assert MutexOk(s, m) && Engaged(s, m, t);
    SortedSame(s, s', x.waiters, t);
    WithoutSorted(s'.threads, x.waiters, t);
    forall w | w in s'.mutexes[m].waiters ensures WaiterOk(s', w) { assert WaiterOk(s, w); }
    Keeps(s, s', m, {});
    forall n ensures !Engaged(s', n, t) { assert n != m ==> !Engaged(s, n, t); }
  }

  lemma WithoutSorted(ts: map<int, Thread>, ws: seq<int>, t: int)
    requires Sorted(ts, ws)
    ensures Sorted(ts, Without(ws, t)) && forall w :: w in Without(ws, t) <==> w != t && w in ws
  {
    WithoutMembers(ws, t);
  }

  lemma ReturnKeeps(s: State, t: int)
    requires Sound(s) && t in s.threads
    ensures Sound(ReturnSpec(s, t).0)
  {
    var s' := ReturnSpec(s, t).0;
    forall m | m in s'.mutexes ensures MutexOk(s', m) {
      assert MutexOk(s, m);
      forall w | w in s.mutexes[m].waiters ensures WaiterOk(s', w) { assert WaiterOk(s, w); }
    }
    forall m, n, u | Engaged(s', m, u) && Engaged(s', n, u) ensures m == n {
      assert Engaged(s, m, u) && Engaged(s, n, u);
    }
    forall u | u in s'.threads ensures OwnPriority(s', u) { assert OwnPriority(s, u); }
  }

  lemma TakeWaiting(s: State, m: int, t: int, wait: Wait)
    requires Sound(s) && Waiting(s) && Possible(s, Take(m, t, wait))
    ensures Waiting(TakeSpec(s, m, t, wait).0)
  {
    hide Place, Inserted, Sorted, OwnPriority, OwnerOk, WaiterOk;
    var x := s.mutexes[m];
    var s' := TakeSpec(s, m, t, wait).0;
    assert MutexOk(s, m);
    if x.owner != Some(t) && x.value == 0 && wait != NoWait { InsertedMembers(s, m, t, wait, s'); }
    TakeCallsOk(s, m, t, wait);
    forall n, u | n in s'.mutexes && u in s'.mutexes[n].waiters ensures u in s'.pending {
      assert u == t || u in s.mutexes[n].waiters;
    }
  }

  lemma TakeCallsOk(s: State, m: int, t: int, wait: Wait)
    requires Sound(s) && Waiting(s) && Possible(s, Take(m, t, wait))
    ensures var s' := TakeSpec(s, m, t, wait).0; forall u :: u in s'.pending ==> PendingOk(s', u)
  {
    hide Place, Inserted, Sorted, OwnPriority, OwnerOk, WaiterOk;
    var x := s.mutexes[m];
    var s' := TakeSpec(s, m, t, wait).0;
    assert MutexOk(s, m);
    if x.owner != Some(t) && x.value == 0 && wait != NoWait { InsertedMembers(s, m, t, wait, s'); }
    forall u | u in s'.pending ensures PendingOk(s', u) {
      if u != t { PendingStays(s, s', u); }
    }
  }

  /** What a pending call waits for does not change for it. */
  lemma PendingStays(s: State, s': State, u: int)
    requires u in s.pending && PendingOk(s, u) && u in s'.pending && s'.pending[u] == s.pending[u]
    requires s.mutexes.Keys == s'.mutexes.Keys && u in s'.threads && s'.threads[u].error == s.threads[u].error
    requires forall n :: n in s.mutexes ==> (u in s'.mutexes[n].waiters <==> u in s.mutexes[n].waiters)
    requires forall n :: n in s.mutexes ==> (s'.mutexes[n].owner == Some(u) <==> s.mutexes[n].owner == Some(u))
    requires forall n :: n in s.mutexes && s.mutexes[n].owner == Some(u) ==> s'.mutexes[n].hold == s.mutexes[n].hold
    ensures PendingOk(s', u)
  {
    forall n ensures Engaged(s', n, u) <==> Engaged(s, n, u) {
    }
  }

  /** The first waiter is handed the mutex. */
  lemma HandedOver(s: State, s': State, m: int, t: int, u: int)
    requires Sound(s) && Waiting(s) && m in s.mutexes && t in s.threads && t !in s.pending
             && s' == ReleaseSpec(s, m, t).0
    requires var x := s.mutexes[m]; x.owner == Some(t) && x.hold == 1 && x.waiters != [] && u == x.waiters[0]
    ensures u in s.pending && PendingOk(s', u)
  {
    hide Sorted;
    assert MutexOk(s, m);
    var x := s.mutexes[m];
    TailSorted(s.threads, x.waiters);
    assert u in x.waiters && u in s.pending && Engaged(s, m, u) && PendingOk(s, u);
    assert u !in x.waiters[1..];
  }

  lemma InsertedMembers(s: State, m: int, t: int, wait: Wait, s': State)
    requires m in s.mutexes && t in s.threads && s.mutexes[m].owner != Some(t)
    requires var s1 := s.(threads := s.threads[t := s.threads[t].(error := EOK)]); s' == Blocked(s1, m, t, wait)
    ensures forall u :: u in s'.mutexes[m].waiters <==> u == t || u in s.mutexes[m].waiters
    ensures s'.mutexes[m].owner == s.mutexes[m].owner && s'.mutexes[m].hold == s.mutexes[m].hold
    ensures s'.threads[t].error == EOK
            && forall u :: u in s.threads && u != t ==> s'.threads[u].error == s.threads[u].error
  {
    var s1 := s.(threads := s.threads[t := s.threads[t].(error := EOK)]);
    var x, p := s.mutexes[m], s.threads[t].prio;
    var ts := if x.owner.Some? && x.owner.value in s.threads && p < s.threads[x.owner.value].prio
              then s1.threads[x.owner.value := s1.threads[x.owner.value].(prio := p)] else s1.threads;
    InsertedMeaning(x.waiters, Place(x.waiters, ts, p), t);
  }

  lemma ReleaseWaiting(s: State, m: int, t: int)
    requires Sound(s) && Waiting(s) && Possible(s, Release(m, t))
    ensures Waiting(ReleaseSpec(s, m, t).0)
  {
    hide Sorted;
    var x := s.mutexes[m];
    var s' := ReleaseSpec(s, m, t).0;
    assert MutexOk(s, m);
    if x.waiters != [] { TailSorted(s.threads, x.waiters); }
    forall u | u in s'.pending ensures PendingOk(s', u) {
      assert PendingOk(s, u);
      if x.owner == Some(t) && x.hold == 1 && x.waiters != [] && u == x.waiters[0] {
        HandedOver(s, s', m, t, u);
      } else {
        PendingStays(s, s', u);
      }
    }
  }

  lemma TimeoutWaiting(s: State, m: int, t: int)
    requires Sound(s) && Waiting(s) && Possible(s, Timeout(m, t))
    ensures Waiting(TimeoutSpec(s, m, t))
  {
    hide Sorted, Without;
    var x := s.mutexes[m];
    var s' := TimeoutSpec(s, m, t);
    assert MutexOk(s, m);
    TimeoutKeeps(s, m, t);
    WithoutSorted(s.threads, x.waiters, t);
    forall u | u in s'.pending ensures PendingOk(s', u) {
      assert PendingOk(s, u);
      if u != t { assert forall n :: Engaged(s', n, u) ==> Engaged(s, n, u); }
    }
  }

  lemma ReturnWaiting(s: State, t: int)
    requires Waiting(s) && Possible(s, Return(t))
    ensures Waiting(ReturnSpec(s, t).0)
  {
    var s' := ReturnSpec(s, t).0;
    forall u | u in s'.pending ensures PendingOk(s', u) {
      assert PendingOk(s, u);
      assert forall n :: Engaged(s', n, u) ==> Engaged(s, n, u);
    }
  }

  lemma StepKeeps(s: State, op: Op)
    requires Sound(s) && Waiting(s) && Possible(s, op) && Disciplined(s, op)
    ensures Sound(Step(s, op)) && Waiting(Step(s, op))
  {
    match op
    case Take(m, t, wait) => TakeKeeps(s, m, t, wait); TakeWaiting(s, m, t, wait);
    case Release(m, t) => ReleaseKeeps(s, m, t); ReleaseWaiting(s, m, t);
    case Timeout(m, t) => TimeoutKeeps(s, m, t); TimeoutWaiting(s, m, t);
    case Return(t) => ReturnKeeps(s, t); ReturnWaiting(s, t);
  }

  // ----- Whole runs

  ghost predicate PossibleRun(s: State, ops: seq<Op>)
    decreases |ops|
  {
    ops == [] || (Possible(s, ops[0]) && PossibleRun(Step(s, ops[0]), ops[1..]))
  }

  ghost predicate DisciplinedRun(s: State, ops: seq<Op>)
    requires PossibleRun(s, ops)
    decreases |ops|
  {
    ops == [] || (Disciplined(s, ops[0]) && DisciplinedRun(Step(s, ops[0]), ops[1..]))
  }

  ghost function Run(s: State, ops: seq<Op>): State
    requires PossibleRun(s, ops)
    decreases |ops|
  {
    if ops == [] then s else Run(Step(s, ops[0]), ops[1..])
  }

  /**
   At any moment of any interleaving: a mutex is free, unowned and unheld together; its owner
   runs at least at the priority of every waiter; waiters queue by priority, then by arrival;
   and a thread that owns nothing has its own priority back, whatever timed out meanwhile.
   */
  lemma {:induction false} RunSafe(s: State, ops: seq<Op>)
    requires Sound(s) && Waiting(s) && PossibleRun(s, ops) && DisciplinedRun(s, ops)
    ensures var s' := Run(s, ops);
            && Sound(s') && Waiting(s')
            && (forall m :: m in s'.mutexes ==>
                              var x := s'.mutexes[m];
                              && (x.value == 1 <==> x.owner.None?) && (x.owner.None? <==> x.hold == 0)
                              && Sorted(s'.threads, x.waiters)
                              && (x.owner.Some? ==> forall w :: w in x.waiters ==>
                                   Prio(s'.threads, x.owner.value) <= Prio(s'.threads, w)))
            && (forall t :: t in s'.threads && (forall m :: m in s'.mutexes ==> s'.mutexes[m].owner != Some(t)) ==>
                              s'.threads[t].prio == s'.threads[t].base)
    decreases |ops|
  {
    hide Waiting, Sorted, Step;
    if ops == [] {
      forall m | m in s.mutexes
        ensures (s.mutexes[m].value == 1 <==> s.mutexes[m].owner.None?)
                && (s.mutexes[m].owner.None? <==> s.mutexes[m].hold == 0)
        ensures Sorted(s.threads, s.mutexes[m].waiters)
        ensures s.mutexes[m].owner.Some? ==>
                  forall w :: w in s.mutexes[m].waiters ==>
                        Prio(s.threads, s.mutexes[m].owner.value) <= Prio(s.threads, w)
      {
        assert MutexOk(s, m);
      }
      forall t | t in s.threads && forall m :: m in s.mutexes ==> s.mutexes[m].owner != Some(t)
        ensures s.threads[t].prio == s.threads[t].base
      {
        assert OwnPriority(s, t);
      }
    } else {
      StepKeeps(s, ops[0]);
      RunSafe(Step(s, ops[0]), ops[1..]);
    }
  }

  /**
   The final release puts the thread back to its own priority and hands the mutex to the
   waiter of the best priority that has waited longest; without waiters the mutex is free.
   */
  lemma FinalRelease(s: State, m: int, t: int)
    requires Sound(s) && Possible(s, Release(m, t)) && s.mutexes[m].owner == Some(t) && s.mutexes[m].hold == 1
    ensures var s' := Step(s, Release(m, t));
            && s'.threads[t].prio == s.threads[t].base
            && (s.mutexes[m].waiters == [] ==> s'.mutexes[m] == Mutex(1, None, NO_PRIORITY, 0, []))
            && (s.mutexes[m].waiters != [] ==>
                  exists o :: o in s.mutexes[m].waiters && s'.mutexes[m].owner == Some(o) && s'.mutexes[m].value == 0
                           && forall w :: w in s.mutexes[m].waiters && w != o ==> Before(s.threads, o, w))
  {
    assert MutexOk(s, m);
    var ws := s.mutexes[m].waiters;
    if ws != [] {
      TailSorted(s.threads, ws);
      assert ws[0] in ws;
    }
  }
}
