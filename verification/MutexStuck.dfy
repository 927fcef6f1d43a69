/**
 Threads of rt-thread/src/ipc.c that keep an inherited priority although they own no mutex any
 more: which single call can lead there, when all calls after it are disciplined, and that there
 is no way back.
 */
module MutexStuck {
  import opened Common
  import opened RtList
  import opened MutexNesting
  import opened MutexRuns

  /** A thread owns nothing and has a better priority than its own. */
  ghost predicate Stuck(s: State) {
    exists t :: t in s.threads && OwnsNothing(s, t) && s.threads[t].prio < s.threads[t].base
  }

  /** Every thread that owns nothing has its own priority. */
  ghost predicate GivenBack(s: State) {
    forall t :: t in s.threads && OwnsNothing(s, t) ==> s.threads[t].prio == s.threads[t].base
  }

  /** ... at the end of every disciplined continuation. */
  ghost predicate GivesBack(s: State) {
    forall ops :: PossibleRun(s, ops) && DisciplinedRun(s, ops) ==> GivenBack(Run(s, ops))
  }

  /** A disciplined continuation ends with such a thread. */
  ghost predicate Sticks(s: State) {
    exists ops :: PossibleRun(s, ops) && DisciplinedRun(s, ops) && Stuck(Run(s, ops))
  }

  // ----- What a disciplined run gives back

  /** Every mutex remembers its owner's own priority; waiters, and all who own nothing, have theirs. */
  ghost predicate Restores(s: State) {
    && Orderly(s)
    && (forall m :: m in s.mutexes && s.mutexes[m].owner.Some? ==> Remembers(s, m))
    && (forall m, w :: m in s.mutexes && w in s.mutexes[m].waiters ==> OwnsNothing(s, w))
    && forall t :: t in s.threads && OwnsNothing(s, t) ==> s.threads[t].prio == s.threads[t].base
  }

  ghost predicate Remembers(s: State, m: int)
    requires m in s.mutexes && s.mutexes[m].owner.Some?
  {
    var o := s.mutexes[m].owner.value; o in s.threads && s.mutexes[m].original == s.threads[o].base
  }

  lemma SoundRestores(s: State)
    requires Sound(s) && Waiting(s)
    ensures Restores(s)
  {
    SoundOrderly(s);
    forall m | m in s.mutexes && s.mutexes[m].owner.Some? ensures Remembers(s, m) { assert MutexOk(s, m); }
    forall m, w | m in s.mutexes && w in s.mutexes[m].waiters ensures OwnsNothing(s, w) {
      assert MutexOk(s, m) && Engaged(s, m, w);
      forall k | k in s.mutexes ensures s.mutexes[k].owner != Some(w) {
        if s.mutexes[k].owner == Some(w) { assert Engaged(s, k, w); }
      }
    }
    forall t | t in s.threads && OwnsNothing(s, t) ensures s.threads[t].prio == s.threads[t].base {
      assert OwnPriority(s, t);
    }
  }

  /** A take by a thread that owns nothing, or has its own priority and gets the mutex, or that changes nothing. */
  ghost predicate Restorable(s: State, m: int, t: int, wait: Wait)
    requires m in s.mutexes && t in s.threads
  {
    var x := s.mutexes[m];
    || x.owner == Some(t) || OwnsNothing(s, t)
    || (x.owner.None? && s.threads[t].prio == s.threads[t].base) || (x.owner.Some? && wait == NoWait)
  }

  lemma TakeRestores(s: State, m: int, t: int, wait: Wait)
    requires Restores(s) && Possible(s, Take(m, t, wait)) && Restorable(s, m, t, wait)
    ensures Restores(Step(s, Take(m, t, wait)))
  {
    hide Place, Inserted, Distinct, Blocked, Orderly;
    StepOrderly(s, Take(m, t, wait));
    MutexFacts(s, m);
    var s', x := Step(s, Take(m, t, wait)), s.mutexes[m];
    if x.owner.Some? && x.owner != Some(t) && wait != NoWait {
      BlockedRestores(s, m, t, wait);
    } else {
      TakenFrame(s, m, t, wait);
      forall k | k in s'.mutexes && s'.mutexes[k].owner.Some? ensures Remembers(s', k) {
        assert s.mutexes[k].owner.Some? ==> Remembers(s, k);
        if k == m && x.owner.None? { assert OwnsNothing(s, t) ==> s.threads[t].prio == s.threads[t].base; }
      }
      NotWaiting(s, t);
      forall k, w | k in s'.mutexes && w in s'.mutexes[k].waiters ensures OwnsNothing(s', w) {
        assert w in s.mutexes[k].waiters && OwnsNothing(s, w);
      }
      forall u | u in s'.threads && OwnsNothing(s', u) ensures s'.threads[u].prio == s'.threads[u].base {
        FewerOwned(s, s', m, u);
      }
    }
  }

  /** A thread outside all calls waits for nothing. */
  lemma NotWaiting(s: State, t: int)
    requires Orderly(s) && t !in s.pending
    ensures forall k :: k in s.mutexes ==> t !in s.mutexes[k].waiters
  {
    forall k | k in s.mutexes ensures t !in s.mutexes[k].waiters { assert OwnershipOk(s, k); }
  }

  lemma MutexFacts(s: State, m: int)
    requires Orderly(s) && m in s.mutexes
    ensures var x := s.mutexes[m];
            && (x.value > 0 <==> x.owner.None?) && x.value <= 1 && (x.owner.None? <==> x.hold == 0)
               && Distinct(x.waiters)
            && (x.owner.None? ==> x.waiters == [])
            && (x.owner.Some? ==> x.owner.value in s.threads && x.owner.value !in x.waiters)
            && forall w :: w in x.waiters ==> w in s.pending && s.pending[w] == m && w in s.threads
  {
    assert OwnershipOk(s, m);
    forall w | w in s.mutexes[m].waiters ensures w in s.threads { assert CallOk(s, w); }
  }

  /** What a take that does not wait changes. */
  lemma TakenFrame(s: State, m: int, t: int, wait: Wait)
    requires Orderly(s) && Possible(s, Take(m, t, wait))
    requires s.mutexes[m].owner.None? || s.mutexes[m].owner == Some(t) || wait == NoWait
    ensures var s', x := Step(s, Take(m, t, wait)), s.mutexes[m];
            && s'.threads.Keys == s.threads.Keys && s'.mutexes == s.mutexes[m := s'.mutexes[m]]
            && (forall u :: u in s.threads ==>
                 s'.threads[u].prio == s.threads[u].prio && s'.threads[u].base == s.threads[u].base)
            && s'.mutexes[m].waiters == x.waiters
            && (x.owner.None? ==> s'.mutexes[m].owner == Some(t) && s'.mutexes[m].original == s.threads[t].prio)
            && (x.owner.Some? ==> s'.mutexes[m].owner == x.owner && s'.mutexes[m].original == x.original)
  {
    hide Distinct, Blocked;
    assert OwnershipOk(s, m);
    var s' := Step(s, Take(m, t, wait));
    if s'.mutexes == s.mutexes { assert s'.mutexes == s.mutexes[m := s.mutexes[m]]; }
  }

  /** Who owns nothing after a step on `m` that took `m` from nobody, owned nothing before. */
  lemma FewerOwned(s: State, s': State, m: int, u: int)
    requires m in s.mutexes && m in s'.mutexes && s'.mutexes == s.mutexes[m := s'.mutexes[m]] && OwnsNothing(s', u)
    requires s.mutexes[m].owner == Some(u) ==> s'.mutexes[m].owner == Some(u)
    ensures OwnsNothing(s, u)
  {
    forall k | k in s.mutexes ensures s.mutexes[k].owner != Some(u) { assert s'.mutexes[k].owner != Some(u); }
  }

  lemma BlockedRestores(s: State, m: int, t: int, wait: Wait)
    requires Restores(s) && Possible(s, Take(m, t, wait)) && wait != NoWait && OwnsNothing(s, t)
    requires s.mutexes[m].owner.Some? && s.mutexes[m].owner != Some(t)
    ensures Restores(Step(s, Take(m, t, wait)))
  {
    hide Place, Inserted, Distinct, Orderly;
    StepOrderly(s, Take(m, t, wait));
    MutexFacts(s, m);
    WaitFrame(s, m, t, wait);
    var s', o := Step(s, Take(m, t, wait)), s.mutexes[m].owner.value;
    forall k | k in s'.mutexes && s'.mutexes[k].owner.Some? ensures Remembers(s', k) { assert Remembers(s, k); }
    forall k, w | k in s'.mutexes && w in s'.mutexes[k].waiters ensures OwnsNothing(s', w) {
      assert w == t || w in s.mutexes[k].waiters;
      assert OwnsNothing(s, w);
    }
    forall u | u in s'.threads && OwnsNothing(s', u) ensures s'.threads[u].prio == s'.threads[u].base {
      FewerOwned(s, s', m, u);
      assert u != o;
    }
  }

  /** What a take that waits changes. */
  lemma WaitFrame(s: State, m: int, t: int, wait: Wait)
    requires Orderly(s) && Possible(s, Take(m, t, wait)) && wait != NoWait
    requires s.mutexes[m].owner.Some? && s.mutexes[m].owner != Some(t)
    ensures var s', o, x := Step(s, Take(m, t, wait)), s.mutexes[m].owner.value, s.mutexes[m];
            && o in s.threads && s'.threads.Keys == s.threads.Keys && s'.pending == s.pending[t := m]
            && s'.mutexes == s.mutexes[m := x.(waiters := s'.mutexes[m].waiters)]
            && (forall w :: w in s'.mutexes[m].waiters <==> w == t || w in x.waiters)
            && (forall u :: u in s.threads ==> s'.threads[u].base == s.threads[u].base)
            && (forall u :: u in s.threads && u != o ==> s'.threads[u].prio == s.threads[u].prio)
            && s'.threads[o].prio == Min(s.threads[o].prio, s.threads[t].prio)
  {
    hide Place, Inserted, Distinct;
    MutexFacts(s, m);
    var x, p, o := s.mutexes[m], s.threads[t].prio, s.mutexes[m].owner.value;
    var s1 := s.(threads := s.threads[t := s.threads[t].(error := EOK)]);
    var ts := if p < s1.threads[o].prio then s1.threads[o := s1.threads[o].(prio := p)] else s1.threads;
    InsertedMeaning(x.waiters, Place(x.waiters, ts, p), t);
  }

  /** What a release changes: the owner, and the priority of the thread that gives the mutex up. */
  lemma ReleaseFrame(s: State, m: int, t: int)
    requires Orderly(s) && Possible(s, Release(m, t))
    ensures var s', x := Step(s, Release(m, t)), s.mutexes[m];
            && s'.threads.Keys == s.threads.Keys && s'.pending == s.pending
               && s'.mutexes == s.mutexes[m := s'.mutexes[m]]
            && (forall u :: u in s.threads ==> s'.threads[u].base == s.threads[u].base)
            && (forall u :: u in s.threads && u != t ==> s'.threads[u].prio == s.threads[u].prio)
            && (x.owner != Some(t) ==> s'.mutexes == s.mutexes && s'.threads[t].prio == s.threads[t].prio)
            && (x.owner == Some(t) && x.hold > 1 ==>
                  s'.mutexes[m] == x.(hold := x.hold - 1) && s'.threads[t].prio == s.threads[t].prio)
            && (x.owner == Some(t) && x.hold == 1 ==>
                  s'.mutexes[m] == PassedOn(x, s.threads) && s'.threads[t].prio == x.original)
  {
    assert OwnershipOk(s, m);
    var s' := Step(s, Release(m, t));
    if s'.mutexes == s.mutexes { assert s'.mutexes == s.mutexes[m := s.mutexes[m]]; }
  }

  lemma ReleaseRestores(s: State, m: int, t: int)
    requires Restores(s) && Possible(s, Release(m, t))
    ensures Restores(Step(s, Release(m, t)))
  {
    hide Orderly, Distinct;
    StepOrderly(s, Release(m, t));
    ReleaseFrame(s, m, t);
    MutexFacts(s, m);
    var s', x := Step(s, Release(m, t)), s.mutexes[m];
    if x.owner == Some(t) && x.hold == 1 {
      GivenUpRestores(s, m, t);
    } else {
      forall k | k in s'.mutexes && s'.mutexes[k].owner.Some? ensures Remembers(s', k) { assert Remembers(s, k); }
      forall k, w | k in s'.mutexes && w in s'.mutexes[k].waiters ensures OwnsNothing(s', w) {
        assert w in s.mutexes[k].waiters && OwnsNothing(s, w);
      }
      forall u | u in s'.threads && OwnsNothing(s', u) ensures s'.threads[u].prio == s'.threads[u].base {
        FewerOwned(s, s', m, u);
      }
    }
  }

  lemma GivenUpRestores(s: State, m: int, t: int)
    requires Restores(s) && Possible(s, Release(m, t)) && s.mutexes[m].owner == Some(t) && s.mutexes[m].hold == 1
    requires Orderly(Step(s, Release(m, t)))
    ensures Restores(Step(s, Release(m, t)))
  {
    hide Orderly, Distinct;
    ReleaseFrame(s, m, t);
    MutexFacts(s, m);
    var s', x := Step(s, Release(m, t)), s.mutexes[m];
    assert Remembers(s, m);
    if x.waiters != [] {
      FirstLeaves(x.waiters);
      assert x.waiters[0] in x.waiters && OwnsNothing(s, x.waiters[0]);
      WaitsOnce(s, m, x.waiters[0]);
    }
    forall k | k in s'.mutexes && s'.mutexes[k].owner.Some? ensures Remembers(s', k) {
      if k != m { assert Remembers(s, k); }
    }
    forall k, w | k in s'.mutexes && w in s'.mutexes[k].waiters ensures OwnsNothing(s', w) {
      assert w in s.mutexes[k].waiters && OwnsNothing(s, w);
    }
    forall u | u in s'.threads && OwnsNothing(s', u) ensures s'.threads[u].prio == s'.threads[u].base {
      if u != t { FewerOwned(s, s', m, u); }
    }
  }

  /** A thread waits for one mutex at most. */
  lemma WaitsOnce(s: State, m: int, w: int)
    requires Orderly(s) && m in s.mutexes && w in s.mutexes[m].waiters
    ensures forall k :: k in s.mutexes && k != m ==> w !in s.mutexes[k].waiters
  {
    forall k | k in s.mutexes && k != m ensures w !in s.mutexes[k].waiters {
      assert OwnershipOk(s, m) && OwnershipOk(s, k);
    }
  }

  lemma TimeoutRestores(s: State, m: int, t: int)
    requires Restores(s) && Possible(s, Timeout(m, t))
    ensures Restores(Step(s, Timeout(m, t)))
  {
    hide Orderly, Distinct, Without;
    StepOrderly(s, Timeout(m, t));
    MutexFacts(s, m);
    var s' := Step(s, Timeout(m, t));
    WithoutMembers(s.mutexes[m].waiters, t);
    forall k | k in s'.mutexes && s'.mutexes[k].owner.Some? ensures Remembers(s', k) { assert Remembers(s, k); }
    forall k, w | k in s'.mutexes && w in s'.mutexes[k].waiters ensures OwnsNothing(s', w) {
      assert w in s.mutexes[k].waiters && OwnsNothing(s, w);
    }
    forall u | u in s'.threads && OwnsNothing(s', u) ensures s'.threads[u].prio == s'.threads[u].base {
      FewerOwned(s, s', m, u);
    }
  }

  lemma ReturnRestores(s: State, t: int)
    requires Restores(s) && Possible(s, Return(t))
    ensures Restores(Step(s, Return(t)))
  {
    hide Orderly;
    StepOrderly(s, Return(t));
    var s' := Step(s, Return(t));
    forall k | k in s'.mutexes && s'.mutexes[k].owner.Some? ensures Remembers(s', k) { assert Remembers(s, k); }
    forall k, w | k in s'.mutexes && w in s'.mutexes[k].waiters ensures OwnsNothing(s', w) { assert OwnsNothing(s, w); }
    forall u | u in s'.threads && OwnsNothing(s', u) ensures s'.threads[u].prio == s'.threads[u].base {
      assert OwnsNothing(s, u);
    }
  }

  lemma StepRestores(s: State, op: Op)
    requires Restores(s) && Possible(s, op)
    requires op.Take? ==> op.m in s.mutexes && op.t in s.threads && Restorable(s, op.m, op.t, op.wait)
    ensures Restores(Step(s, op))
  {
    hide Step, Restores, Restorable;
    match op
    case Take(m, t, wait) => TakeRestores(s, m, t, wait);
    case Release(m, t) => ReleaseRestores(s, m, t);
    case Timeout(m, t) => TimeoutRestores(s, m, t);
    case Return(t) => ReturnRestores(s, t);
  }

  lemma DisciplinedRestorable(s: State, op: Op)
    requires Possible(s, op) && Disciplined(s, op) && op.Take?
    ensures op.m in s.mutexes && op.t in s.threads && Restorable(s, op.m, op.t, op.wait)
  {
    if s.mutexes[op.m].owner != Some(op.t) { assert OwnsNothing(s, op.t); }
  }

  lemma {:induction false} RunRestores(s: State, ops: seq<Op>)
    requires Restores(s) && PossibleRun(s, ops) && DisciplinedRun(s, ops)
    ensures Restores(Run(s, ops))
    decreases |ops|
  {
    hide Restores, Step, Possible, Disciplined, Restorable;
    if ops != [] {
      if ops[0].Take? { DisciplinedRestorable(s, ops[0]); }
      StepRestores(s, ops[0]);
      RunRestores(Step(s, ops[0]), ops[1..]);
    }
  }

  lemma RestoresGivesBack(s: State)
    requires Restores(s)
    ensures GivesBack(s) && !Sticks(s)
  {
    forall ops | PossibleRun(s, ops) && DisciplinedRun(s, ops)
      ensures GivenBack(Run(s, ops)) && !Stuck(Run(s, ops))
    {
      RunRestores(s, ops);
    }
  }

  // ----- How a thread gets stuck

  lemma SticksAfter(s: State, op: Op)
    requires Possible(s, op) && Disciplined(s, op) && Sticks(Step(s, op))
    ensures Sticks(s)
  {
    hide Possible, Disciplined, Step, Stuck;
    var ops :| PossibleRun(Step(s, op), ops) && DisciplinedRun(Step(s, op), ops) && Stuck(Run(Step(s, op), ops));
    RunCons(s, op, ops);
    assert ([op] + ops)[1..] == ops;
    assert DisciplinedRun(s, [op] + ops);
  }

  lemma StuckSticks(s: State)
    requires Stuck(s)
    ensures Sticks(s)
  {
    assert PossibleRun(s, []) && DisciplinedRun(s, []) && Run(s, []) == s;
  }

  /** Thread `t` is outside all calls and owns just the mutexes of `ms`. */
  ghost predicate Owns(s: State, t: int, ms: set<int>) {
    t in s.threads && t !in s.pending && forall k :: k in s.mutexes ==> (s.mutexes[k].owner == Some(t) <==> k in ms)
  }

  /** The last mutex of a thread remembers an inherited priority: its release leaves the thread stuck. */
  lemma {:induction false} LastReleased(s: State, m: int, t: int)
    requires Orderly(s) && m in s.mutexes && Owns(s, t, {m}) && s.mutexes[m].original < s.threads[t].base
    ensures Sticks(s)
    decreases s.mutexes[m].hold
  {
    hide Orderly, Distinct;
    var op := Release(m, t);
    var s', x := Step(s, op), s.mutexes[m];
    MutexFacts(s, m);
    ReleaseFrame(s, m, t);
    StepOrderly(s, op);
    if x.hold > 1 {
      assert Owns(s', t, {m});
      LastReleased(s', m, t);
    } else {
      NotNext(x, t);
      assert OwnsNothing(s', t);
      StuckSticks(s');
    }
    SticksAfter(s, op);
  }

  lemma NotNext(x: Mutex, t: int)
    requires t !in x.waiters
    ensures x.waiters != [] ==> x.waiters[0] != t
  {
  }

  lemma {:induction false} BothReleased(s: State, m: int, n: int, t: int)
    requires Orderly(s) && m in s.mutexes && n in s.mutexes && m != n && Owns(s, t, {m, n})
    requires s.mutexes[m].original < s.threads[t].base
    ensures Sticks(s)
    decreases s.mutexes[n].hold
  {
    hide Orderly, Distinct, Sticks;
    var op := Release(n, t);
    var s', x := Step(s, op), s.mutexes[n];
    MutexFacts(s, n);
    ReleaseFrame(s, n, t);
    StepOrderly(s, op);
    assert s'.mutexes[m] == s.mutexes[m];
    if x.hold > 1 {
      assert Owns(s', t, {m, n});
      BothReleased(s', m, n, t);
    } else {
      NotNext(x, t);
      assert Owns(s', t, {m});
      LastReleased(s', m, t);
    }
    SticksAfter(s, op);
  }

  /** Thread `t` owns `n`, has inherited a priority, and waits for `m`, whose owner can run. */
  ghost predicate Doomed(s: State, m: int, n: int, t: int) {
    && Orderly(s) && m in s.mutexes && n in s.mutexes && m != n && t in s.mutexes[m].waiters && t in s.threads
    && (forall k :: k in s.mutexes ==> (s.mutexes[k].owner == Some(t) <==> k == n))
    && s.threads[t].prio < s.threads[t].base
    && s.mutexes[m].owner.Some? && s.mutexes[m].owner.value in s.threads && !Suspended(s, s.mutexes[m].owner.value)
  }

  function Holder(s: State,
                  m: int): int { if m in s.mutexes && s.mutexes[m].owner.Some? then s.mutexes[m].owner.value else -1 }

  /**
   One by one the owners of `m` return from their calls and release it, until `t` gets it: the
   mutex then remembers the priority that `t` had inherited.
   */
  lemma {:induction false} DoomedSticks(s: State, m: int, n: int, t: int)
    requires Doomed(s, m, n, t)
    ensures Sticks(s)
    decreases IndexOf(s.mutexes[m].waiters, t), s.mutexes[m].hold, if Holder(s, m) in s.pending then 1 else 0
  {
    hide Orderly, Distinct, Sticks, IndexOf;
    var o := s.mutexes[m].owner.value;
    MutexFacts(s, m);
    if o in s.pending {
      var op := Return(o);
      StepOrderly(s, op);
      assert Doomed(Step(s, op), m, n, t) by { ReturnSuspends(s, o, o); }
      DoomedSticks(Step(s, op), m, n, t);
      SticksAfter(s, op);
    } else {
      var op := Release(m, o);
      StepOrderly(s, op);
      ReleaseFrame(s, m, o);
      if s.mutexes[m].hold > 1 {
        HoldSuspends(s, m, o);
        DoomedSticks(Step(s, op), m, n, t);
      } else {
        HandedOn(s, m, n, t);
      }
      SticksAfter(s, op);
    }
  }

  lemma ReturnSuspends(s: State, o: int, u: int)
    requires Possible(s, Return(o))
    ensures Suspended(Step(s, Return(o)), u) <==> Suspended(s, u)
  {
  }

  lemma HoldSuspends(s: State, m: int, o: int)
    requires Orderly(s) && Possible(s, Release(m, o)) && s.mutexes[m].owner == Some(o) && s.mutexes[m].hold > 1
    ensures !Suspended(s, o) ==> !Suspended(Step(s, Release(m, o)), o)
  {
    ReleaseFrame(s, m, o);
  }

  /** The final release by the owner of `m` gives it to `t`, or to one who waits before `t`. */
  lemma {:induction false} HandedOn(s: State, m: int, n: int, t: int)
    requires Doomed(s, m, n, t) && s.mutexes[m].hold == 1 && s.mutexes[m].owner.value !in s.pending
    ensures Possible(s, Release(m, s.mutexes[m].owner.value)) && Sticks(Step(s, Release(m, s.mutexes[m].owner.value)))
    decreases IndexOf(s.mutexes[m].waiters, t), 0, 0
  {
    hide Orderly, Distinct, Sticks, IndexOf;
    var o, x := s.mutexes[m].owner.value, s.mutexes[m];
    var s' := Step(s, Release(m, o));
    StepOrderly(s, Release(m, o));
    ReleaseFrame(s, m, o);
    MutexFacts(s, m);
    FirstLeaves(x.waiters);
    var w := x.waiters[0];
    WaitsOnce(s, m, w);
    assert !Suspended(s', w);
    if w == t {
      assert t in s'.pending && s'.mutexes[m].original == s'.threads[t].prio;
      var s'' := Step(s', Return(t));
      StepOrderly(s', Return(t));
      assert Owns(s'', t, {m, n});
      BothReleased(s'', m, n, t);
      SticksAfter(s', Return(t));
    } else {
      IndexTail(x.waiters, t);
      assert Doomed(s', m, n, t);
      DoomedSticks(s', m, n, t);
    }
  }

  lemma IndexTail(ws: seq<int>, t: int)
    requires ws != [] && t in ws && ws[0] != t
    ensures IndexOf(ws[1..], t) < IndexOf(ws, t)
  {
  }

  // ----- The exact condition

  /** The owner `t` of `n` waits for `m` as well; a better thread waits for `n`, and `t` inherits. */
  lemma BlockedSticks(s: State, m: int, n: int, t: int, u: int, wait: Wait)
    requires Sound(s) && Waiting(s) && Possible(s, Take(m, t, wait)) && wait != NoWait && n in s.mutexes && n != m
    requires s.mutexes[n].owner == Some(t) && s.mutexes[m].owner.Some? && s.mutexes[m].owner != Some(t)
    requires Rival(s, Take(m, t, wait), u)
    ensures Sticks(Step(s, Take(m, t, wait)))
  {
    hide Sound, Waiting, Orderly, Sticks, Doomed, Step, Rival;
    var op1, op2 := Take(m, t, wait), Take(n, u, Forever);
    RivalTakes(s, m, n, t, u, wait);
    SoundOrderly(s);
    StepOrderly(s, op1);
    var s1 := Step(s, op1);
    StepOrderly(s1, op2);
    BlockedDoomed(s, m, n, t, u, wait);
    DoomedSticks(Step(s1, op2), m, n, t);
    SticksAfter(s1, op2);
  }

  /** After a thread is blocked its rival can take what it owns. */
  lemma RivalTakes(s: State, m: int, n: int, t: int, u: int, wait: Wait)
    requires Sound(s) && Waiting(s) && Possible(s, Take(m, t, wait)) && wait != NoWait && n in s.mutexes && n != m
    requires s.mutexes[n].owner == Some(t) && s.mutexes[m].owner.Some? && s.mutexes[m].owner != Some(t)
    requires Rival(s, Take(m, t, wait), u)
    ensures var s1 := Step(s, Take(m, t, wait));
            Possible(s1, Take(n, u, Forever)) && Disciplined(s1, Take(n, u, Forever))
  {
    hide Sound, Waiting, Orderly, Distinct;
    SoundOrderly(s);
    WaitFrame(s, m, t, wait);
  }

  lemma BlockedDoomed(s: State, m: int, n: int, t: int, u: int, wait: Wait)
    requires Sound(s) && Waiting(s) && Possible(s, Take(m, t, wait)) && wait != NoWait && n in s.mutexes && n != m
    requires s.mutexes[n].owner == Some(t) && s.mutexes[m].owner.Some? && s.mutexes[m].owner != Some(t)
    requires Rival(s, Take(m, t, wait), u) && Possible(Step(s, Take(m, t, wait)), Take(n, u, Forever))
    requires Orderly(s) && Orderly(Step(s, Take(m, t, wait)))
    requires Orderly(Step(Step(s, Take(m, t, wait)), Take(n, u, Forever)))
    ensures Doomed(Step(Step(s, Take(m, t, wait)), Take(n, u, Forever)), m, n, t)
  {
    hide Sound, Waiting, Orderly, Distinct, Step;
    var o := s.mutexes[m].owner.value;
    OwnerRuns(s, m, o);
    OwnerBelow(s, n, t);
    var s1 := Step(s, Take(m, t, wait));
    WaitFrame(s, m, t, wait);
    var s2 := Step(s1, Take(n, u, Forever));
    WaitFrame(s1, n, u, Forever);
    forall k | k in s2.mutexes ensures s2.mutexes[k].owner == Some(t) <==> k == n {
      if k != n { OwnsOne(s, k, n, t); }
    }
    assert !Suspended(s2, o);
  }

  /** An owner waits for nothing. */
  lemma OwnerRuns(s: State, m: int, o: int)
    requires Sound(s) && m in s.mutexes && s.mutexes[m].owner == Some(o)
    ensures !Suspended(s, o) && o in s.threads
  {
    assert MutexOk(s, m) && Engaged(s, m, o);
    forall k | k in s.mutexes ensures o !in s.mutexes[k].waiters {
      if o in s.mutexes[k].waiters { assert Engaged(s, k, o); }
    }
  }

  lemma OwnerBelow(s: State, n: int, t: int)
    requires Sound(s) && n in s.mutexes && s.mutexes[n].owner == Some(t)
    ensures t in s.threads && s.threads[t].prio <= s.threads[t].base
  {
    assert MutexOk(s, n);
  }

  /** The owner `t` of `n` runs at an inherited priority and takes the free mutex `m` as well. */
  lemma TakenSticks(s: State, m: int, n: int, t: int, wait: Wait)
    requires Sound(s) && Waiting(s) && Possible(s, Take(m, t, wait)) && n in s.mutexes && n != m
    requires s.mutexes[n].owner == Some(t) && s.mutexes[m].owner.None? && s.threads[t].prio != s.threads[t].base
    ensures Sticks(Step(s, Take(m, t, wait)))
  {
    hide Sound, Waiting, Orderly, Distinct, Sticks;
    SoundOrderly(s);
    OwnerBelow(s, n, t);
    StepOrderly(s, Take(m, t, wait));
    TakenFrame(s, m, t, wait);
    var s' := Step(s, Take(m, t, wait));
    TakePending(s, m, t, wait);
    forall k | k in s'.mutexes ensures s'.mutexes[k].owner == Some(t) <==> k in {m, n} {
      if k != n { OwnsOne(s, k, n, t); }
    }
    BothReleased(s', m, n, t);
  }

  lemma TakePending(s: State, m: int, t: int, wait: Wait)
    requires Orderly(s) && Possible(s, Take(m, t, wait)) && s.mutexes[m].owner.None?
    ensures Step(s, Take(m, t, wait)).pending == s.pending
  {
    assert OwnershipOk(s, m);
  }

  /** A harmless take, or one that gets a second mutex while its thread has its own priority. */
  ghost predicate Safe(s: State, op: Op) {
    || Harmless(s, op)
    || (op.Take? && op.m in s.mutexes && op.t in s.threads
        && s.mutexes[op.m].owner.None? && s.threads[op.t].prio == s.threads[op.t].base)
  }

  /**
   A call can lead to a thread that owns nothing and keeps an inherited priority, all later calls
   being disciplined, exactly if it is not safe: it takes a second mutex, and waits for it, or
   gets it while its thread runs at an inherited priority. This holds wherever a better thread
   stands by.
   */
  lemma StuckIff(s: State, op: Op, u: int)
    requires Sound(s) && Waiting(s) && Possible(s, op) && Rival(s, op, u)
    ensures Sticks(Step(s, op)) <==> !Safe(s, op)
    ensures Safe(s, op) ==> GivesBack(Step(s, op))
  {
    hide Sound, Waiting, Step, Possible, Rival, Sticks, Restores, Restorable, GivesBack;
    if Safe(s, op) {
      SoundRestores(s);
      if op.Take? { SafeRestorable(s, op); }
      StepRestores(s, op);
      RestoresGivesBack(Step(s, op));
    } else {
      PossibleTake(s, op);
      var n :| n in s.mutexes && s.mutexes[n].owner == Some(op.t) && n != op.m;
      OwnsOne(s, op.m, n, op.t);
      if s.mutexes[op.m].owner.None? {
        TakenSticks(s, op.m, n, op.t, op.wait);
      } else {
        BlockedSticks(s, op.m, n, op.t, u, op.wait);
      }
    }
  }

  lemma SafeRestorable(s: State, op: Op)
    requires Safe(s, op) && op.Take? && Possible(s, op)
    ensures op.m in s.mutexes && op.t in s.threads && Restorable(s, op.m, op.t, op.wait)
  {
    if Disciplined(s, op) { DisciplinedRestorable(s, op); }
  }

  // ----- There is no way back

  /** The thread has a better priority than its own, and so remembers every mutex it owns. */
  ghost predicate Raised(s: State, t: int) {
    && t in s.threads && s.threads[t].prio < s.threads[t].base
    && forall m :: m in s.mutexes && s.mutexes[m].owner == Some(t) ==> s.mutexes[m].original < s.threads[t].base
  }

  lemma StepRaised(s: State, op: Op, t: int)
    requires Orderly(s) && Possible(s, op) && Raised(s, t)
    ensures Raised(Step(s, op), t)
  {
    hide Orderly, Distinct, Place, Inserted;
    match op
    case Take(m, u, wait) =>
      MutexFacts(s, m);
      if s.mutexes[m].owner.Some? && s.mutexes[m].owner != Some(u) && wait != NoWait {
        WaitFrame(s, m, u, wait);
      } else {
        TakenFrame(s, m, u, wait);
      }
    case Release(m, u) => MutexFacts(s, m); ReleaseFrame(s, m, u);
    case Timeout(m, u) =>
    case Return(u) =>
  }

  lemma {:induction false} RunRaised(s: State, ops: seq<Op>, t: int)
    requires Orderly(s) && PossibleRun(s, ops) && Raised(s, t)
    ensures Raised(Run(s, ops), t)
    decreases |ops|
  {
    hide Orderly, Step, Possible, Raised;
    if ops != [] {
      StepOrderly(s, ops[0]);
      StepRaised(s, ops[0], t);
      RunRaised(Step(s, ops[0]), ops[1..], t);
    }
  }

  /** A thread that owns nothing and has a better priority than its own never gets its own back, whatever threads do. */
  lemma StuckForGood(s: State, ops: seq<Op>, t: int)
    requires Orderly(s) && PossibleRun(s, ops)
    requires t in s.threads && OwnsNothing(s, t) && s.threads[t].prio < s.threads[t].base
    ensures var s' := Run(s, ops); t in s'.threads && s'.threads[t].prio < s'.threads[t].base
  {
    RunRaised(s, ops, t);
  }
}
