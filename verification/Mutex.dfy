/**
 Mutexes as rt-thread/src/ipc.c changes them, step by step. The methods are proved to do what
 MutexRuns says. They never read `base`, `stamp` and `waits` otherwise than to record them:
 these are bookkeeping for the proofs.
 */
module MutexKernel {
  import opened Common
  import opened RtList
  import opened MutexNesting
  import opened MutexRuns

  class Mutexes {
    var mutexes: map<int, Mutex>
    var threads: map<int, Thread>
    ghost var pending: map<int, int>
    var waits: nat

    ghost function Model(): State
      reads this
    {
      State(mutexes, threads, pending, waits)
    }

    /** What holds however threads use the mutexes. */
    ghost predicate Valid()
      reads this
    {
      Orderly(Model())
    }

    /** What holds besides while threads are disciplined. */
    ghost predicate Inherits()
      reads this
    {
      Sound(Model()) && Waiting(Model())
    }

    lemma InheritsValid()
      requires Inherits()
      ensures Valid()
    {
      SoundOrderly(Model());
    }

    constructor ()
      ensures Valid() && Inherits() && Model() == State(map[], map[], map[], 0)
    {
      mutexes, threads, pending, waits := map[], map[], map[], 0;
    }

    /** rt_mutex_init. */
    method Init(m: int)
      requires Valid() && m !in mutexes
      modifies `mutexes
      ensures Valid() && (old(Inherits()) ==> Inherits())
      ensures Model() == old(Model()).(mutexes := old(mutexes)[m := Mutex(1, None, NO_PRIORITY, 0, [])])
    {
      ghost var s := Model();
      mutexes := mutexes[m := Mutex(1, None, NO_PRIORITY, 0, [])];
      CreatedOrderly(s, Model(), m);
      if Sound(s) && Waiting(s) { CreatedKeeps(s, Model(), m); }
    }

    /** _ipc_list_suspend with RT_IPC_FLAG_PRIO: the search loop and the insertion. */
    method Enqueue(m: int, t: int)
      requires m in mutexes && t in threads && forall w :: w in mutexes[m].waiters ==> w in threads
      modifies `mutexes
      ensures var ws := old(mutexes[m].waiters);
              var k := Place(ws, threads, threads[t].prio);
              mutexes == old(mutexes)[m := old(mutexes[m]).(waiters := Inserted(ws, k, t))]
    {
      var ws := mutexes[m].waiters;
      var n := 0;
      while n < |ws|
        invariant 0 <= n <= |ws| && forall j :: 0 <= j < n ==> Prio(threads, ws[j]) <= threads[t].prio
      {
        assert ws[n] in ws;
        if threads[t].prio < threads[ws[n]].prio { break; }
        n := n + 1;
      }
      PlaceIs(ws, threads, threads[t].prio, n);
      mutexes := mutexes[m := mutexes[m].(waiters := Inserted(ws, n, t))];
    }

    /** The part of rt_mutex_take for a mutex that is not available. */
    method Block(m: int, t: int, wait: Wait)
      requires m in mutexes && t in threads && mutexes[m].owner.Some? && mutexes[m].owner != Some(t)
      requires mutexes[m].owner.value in threads && forall w :: w in mutexes[m].waiters ==> w in threads
      modifies this
      ensures Model() == Blocked(old(Model()), m, t, wait)
    {
      hide Place, Inserted;
      var o := mutexes[m].owner.value;
      if threads[t].prio < threads[o].prio {
        threads := threads[o := threads[o].(prio := threads[t].prio)];
      }
      Enqueue(m, t);
      threads := threads[t := threads[t].(timed := wait == Ticks, stamp := waits)];
      pending, waits := pending[t := m], waits + 1;
    }

    /** rt_mutex_take until it returns or its thread is switched out. */
    method Take(m: int, t: int, wait: Wait) returns (r: Code)
      requires Valid() && m in mutexes && t in threads && t !in pending
      modifies this
      ensures Valid() && (Model(), r) == TakeSpec(old(Model()), m, t, wait)
      ensures old(Inherits()) && Harmless(old(Model()), MutexRuns.Take(m, t, wait)) ==> Inherits()
    {
      hide Blocked, Sound, Waiting, Orderly;
      ghost var s := Model();
      StepOrderly(s, MutexRuns.Take(m, t, wait));
      if Sound(s) && Waiting(s) && Harmless(s, MutexRuns.Take(m, t, wait)) { HarmlessKeeps(s, m, t, wait); }
      MutexFacts(s, m);
      threads := threads[t := threads[t].(error := EOK)];
      if mutexes[m].owner == Some(t) {
        if mutexes[m].hold < HOLD_MAX {
          mutexes := mutexes[m := mutexes[m].(hold := mutexes[m].hold + 1)];
        } else {
          return EFULL;
        }
      } else if mutexes[m].value > 0 {
        var x := mutexes[m];
        // The source's check for an overflow of `hold` here never fails: a free mutex is not held.
        assert x.hold < HOLD_MAX;
        x := x.(value := x.value - 1, owner := Some(t), original := threads[t].prio, hold := x.hold + 1);
        mutexes := mutexes[m := x];
      } else if wait == NoWait {
        threads := threads[t := threads[t].(error := ETIMEOUT)];
        assert threads == s.threads[t := s.threads[t].(error := ETIMEOUT)];
        return ETIMEOUT;
      } else {
        Block(m, t, wait);
        return BLOCKED;
      }
      return EOK;
    }

    /** rt_mutex_release. */
    method Release(m: int, t: int) returns (r: Code)
      requires Valid() && m in mutexes && t in threads && t !in pending
      modifies this
      ensures Valid() && (Model(), r) == ReleaseSpec(old(Model()), m, t)
      ensures old(Inherits()) ==> Inherits()
    {
      hide Sound, Waiting, Orderly;
      ghost var s := Model();
      StepOrderly(s, MutexRuns.Release(m, t));
      if Sound(s) && Waiting(s) { StepKeeps(s, MutexRuns.Release(m, t)); }
      MutexFacts(s, m);
      if mutexes[m].owner != Some(t) {
        threads := threads[t := threads[t].(error := ERROR)];
        return ERROR;
      }
      mutexes := mutexes[m := mutexes[m].(hold := mutexes[m].hold - 1)];
      if mutexes[m].hold == 0 {
        if mutexes[m].original != threads[t].prio {
          threads := threads[t := threads[t].(prio := mutexes[m].original)];
        }
        if mutexes[m].waiters != [] {
          var w := mutexes[m].waiters[0];
          assert w in s.mutexes[m].waiters;
          mutexes := mutexes[m := mutexes[m].(owner := Some(w), original := threads[w].prio)];
          // The source's checks for an overflow of `hold` here, and of `value` below, never fail.
          assert mutexes[m].hold < HOLD_MAX;
          mutexes := mutexes[m := mutexes[m].(hold := mutexes[m].hold + 1)];
          mutexes := mutexes[m := mutexes[m].(waiters := mutexes[m].waiters[1..])];
        } else {
          mutexes := mutexes[m := mutexes[m].(value := mutexes[m].value + 1)];
          mutexes := mutexes[m := mutexes[m].(owner := None, original := NO_PRIORITY)];
        }
        assert threads == s.threads[t := s.threads[t].(prio := s.mutexes[m].original)];
        assert mutexes == s.mutexes[m := PassedOn(s.mutexes[m], s.threads)];
      }
      return EOK;
    }

    /** _thread_timeout for a thread that waits for `m`. */
    method Timeout(m: int, t: int)
      requires Valid() && m in mutexes && t in threads && t in mutexes[m].waiters && threads[t].timed
      modifies this
      ensures Valid() && (old(Inherits()) ==> Inherits()) && Model() == TimeoutSpec(old(Model()), m, t)
    {
      hide Sound, Waiting, Orderly;
      StepOrderly(Model(), MutexRuns.Timeout(m, t));
      if Sound(Model()) && Waiting(Model()) { StepKeeps(Model(), MutexRuns.Timeout(m, t)); }
      threads := threads[t := threads[t].(error := ETIMEOUT)];
      mutexes := mutexes[m := mutexes[m].(waiters := Without(mutexes[m].waiters, t))];
    }

    /** rt_mutex_take from where its thread runs again. */
    method Resume(t: int) returns (r: Code)
      requires Valid() && t in threads && t in pending && !Suspended(Model(), t)
      modifies `pending
      ensures Valid() && (old(Inherits()) ==> Inherits()) && (Model(), r) == ReturnSpec(old(Model()), t)
      ensures old(pending)[t] in mutexes && (r == EOK <==> mutexes[old(pending)[t]].owner == Some(t))
    {
      hide Sound, Waiting, Orderly;
      ghost var s := Model();
      StepOrderly(s, Return(t));
      if Sound(s) && Waiting(s) { StepKeeps(s, Return(t)); }
      ReturnsOkIffOwner(s, t);
      pending := pending - {t};
      return threads[t].error;
    }
  }

  lemma MutexFacts(s: State, m: int)
    requires Orderly(s) && m in s.mutexes
    ensures var x := s.mutexes[m];
            && (x.owner.None? <==> x.hold == 0) && x.hold <= HOLD_MAX && (x.value > 0 <==> x.owner.None?)
            && (x.owner.Some? ==> x.owner.value in s.threads && x.owner.value !in x.waiters)
            && forall w :: w in x.waiters ==> w in s.threads
  {
    assert OwnershipOk(s, m);
    forall w | w in s.mutexes[m].waiters ensures w in s.threads { assert CallOk(s, w); }
  }

  lemma HarmlessKeeps(s: State, m: int, t: int, wait: Wait)
    requires Sound(s) && Waiting(s) && Possible(s, Take(m, t, wait)) && Harmless(s, Take(m, t, wait))
    ensures var s' := TakeSpec(s, m, t, wait).0; Sound(s') && Waiting(s')
  {
    if Disciplined(s, Take(m, t, wait)) { StepKeeps(s, Take(m, t, wait)); } else { RefusedKeeps(s, m, t); }
  }

  lemma CreatedOrderly(s: State, s': State, m: int)
    requires Orderly(s) && m !in s.mutexes && s' == s.(mutexes := s.mutexes[m := Mutex(1, None, NO_PRIORITY, 0, [])])
    ensures Orderly(s')
  {
    forall n | n in s'.mutexes ensures OwnershipOk(s', n) { assert n != m ==> OwnershipOk(s, n); }
    forall t | t in s'.pending ensures CallOk(s', t) { assert CallOk(s, t); }
  }

  lemma CreatedKeeps(s: State, s': State, m: int)
    requires Sound(s) && Waiting(s) && m !in s.mutexes
    requires s' == s.(mutexes := s.mutexes[m := Mutex(1, None, NO_PRIORITY, 0, [])])
    ensures Sound(s') && Waiting(s')
  {
    assert MutexOk(s', m);
    forall n | n in s'.mutexes && n != m ensures MutexOk(s', n) {
      assert MutexOk(s, n);
      forall w | w in s.mutexes[n].waiters ensures WaiterOk(s', w) { assert WaiterOk(s, w); }
    }
    forall n, k, t | Engaged(s', n, t) && Engaged(s', k, t) ensures n == k {
      assert Engaged(s, n, t) && Engaged(s, k, t);
    }
    forall t | t in s'.threads ensures OwnPriority(s', t) { OwnPriorityKept(s, s', t); }
    forall t | t in s'.pending ensures PendingOk(s', t) {
      assert PendingOk(s, t);
      assert forall n :: Engaged(s', n, t) ==> Engaged(s, n, t);
    }
  }

  lemma PlaceIs(ws: seq<int>, ts: map<int, Thread>, prio: nat, k: nat)
    requires k <= |ws| && (k < |ws| ==> prio < Prio(ts, ws[k])) && forall j :: 0 <= j < k ==> Prio(ts, ws[j]) <= prio
    ensures Place(ws, ts, prio) == k
  {
  }

  lemma OwnPriorityKept(s: State, s': State, t: int)
    requires t in s.threads && t in s'.threads && s'.threads[t] == s.threads[t] && OwnPriority(s, t)
    requires forall m :: m in s.mutexes ==> m in s'.mutexes && s'.mutexes[m].owner == s.mutexes[m].owner
    ensures OwnPriority(s', t)
  {
    if m :| m in s.mutexes && s.mutexes[m].owner == Some(t) { assert s'.mutexes[m].owner == Some(t); }
  }
}
