/**
 The mutexes of rt-thread/src/ipc.c used without any discipline. Who owns what stays in order
 over all runs; priority inheritance does not. When exactly one take is enough to lose it.
 */
module MutexNesting {
  import opened Common
  import opened RtList
  import opened MutexRuns

  // ----- What every run keeps

  ghost predicate OwnershipOk(s: State, m: int)
    requires m in s.mutexes
  {
    var x := s.mutexes[m];
    && (x.value == 1 <==> x.owner.None?) && (x.owner.None? <==> x.hold == 0) && x.value <= 1 && x.hold <= HOLD_MAX
    && (x.owner.None? ==> x.waiters == [])
       && (x.owner.Some? ==> x.owner.value in s.threads && x.owner.value !in x.waiters)
    && Distinct(x.waiters) && forall w :: w in x.waiters ==> w in s.pending && s.pending[w] == m
  }

  /** A thread inside a call still waits; or was handed the mutex, held once; or timed out and does not own it. */
  ghost predicate CallOk(s: State, t: int)
    requires t in s.pending
  {
    var m := s.pending[t];
    && m in s.mutexes && t in s.threads
    && var x, error := s.mutexes[m], s.threads[t].error;
    || (t in x.waiters && error == EOK)
    || (x.owner == Some(t) && x.hold == 1 && t !in x.waiters && error == EOK)
    || (x.owner != Some(t) && t !in x.waiters && error == ETIMEOUT)
  }

  ghost predicate Orderly(s: State) {
    (forall m :: m in s.mutexes ==> OwnershipOk(s, m)) && forall t :: t in s.pending ==> CallOk(s, t)
  }

  lemma SoundOrderly(s: State)
    requires Sound(s) && Waiting(s)
    ensures Orderly(s)
  {
    forall m | m in s.mutexes ensures OwnershipOk(s, m) {
      assert MutexOk(s, m);
      var ws := s.mutexes[m].waiters;
      forall i, j | 0 <= i < j < |ws| ensures ws[i] != ws[j] { assert Before(s.threads, ws[i], ws[j]); }
      forall w | w in ws ensures w in s.pending && s.pending[w] == m { WaitsHere(s, m, w); }
    }
    forall t | t in s.pending ensures CallOk(s, t) {
      assert PendingOk(s, t);
      if s.mutexes[s.pending[t]].owner == Some(t) { assert Engaged(s, s.pending[t], t); }
    }
  }

  lemma WaitsHere(s: State, m: int, w: int)
    requires Sound(s) && Waiting(s) && m in s.mutexes && w in s.mutexes[m].waiters
    ensures w in s.pending && s.pending[w] == m
  {
    assert MutexOk(s, m) && PendingOk(s, w) && Engaged(s, m, w);
    var n := s.pending[w];
    assert Engaged(s, n, w) ==> n == m;
  }

  /**
   A step that changes no mutex but `m`, and no error but that of `t`, which is not inside a call
   or calls for `m`.
   */
  lemma Elsewhere(s: State, s': State, m: int, t: int)
    requires Orderly(s) && m in s.mutexes && m in s'.mutexes && s'.mutexes == s.mutexes[m := s'.mutexes[m]]
    requires s'.threads.Keys == s.threads.Keys
    requires forall u :: u in s.threads && u != t ==> s'.threads[u].error == s.threads[u].error
    requires forall u :: u != t ==> (u in s'.pending <==> u in s.pending)
    requires forall u :: u in s.pending && u != t ==> s'.pending[u] == s.pending[u]
    requires t in s.pending ==> s.pending[t] == m
    ensures forall n :: n in s'.mutexes && n != m ==> OwnershipOk(s', n)
    ensures forall u :: u in s'.pending && u != t && s'.pending[u] != m ==> CallOk(s', u)
  {
    forall n | n in s'.mutexes && n != m ensures OwnershipOk(s', n) { assert OwnershipOk(s, n); }
    forall u | u in s'.pending && u != t && s'.pending[u] != m ensures CallOk(s', u) { assert CallOk(s, u); }
  }

  lemma TakeOrderly(s: State, m: int, t: int, wait: Wait)
    requires Orderly(s) && Possible(s, Take(m, t, wait))
    ensures Orderly(TakeSpec(s, m, t, wait).0)
  {
    hide Place, Inserted, Distinct, Blocked;
    var s', x := TakeSpec(s, m, t, wait).0, s.mutexes[m];
    assert OwnershipOk(s, m);
    if x.owner != Some(t) && x.value == 0 && wait != NoWait {
      BlockedWaiters(s, m, t, wait);
      var x' := s'.mutexes[m];
      assert x' == x.(waiters := x'.waiters);
      assert x.owner == Some(x.owner.value) && x.owner.value != t;
      forall w | w in x'.waiters ensures w in s'.pending && s'.pending[w] == m {
      }
      assert OwnershipOk(s', m);
    } else {
      if s'.mutexes == s.mutexes { assert s'.mutexes == s.mutexes[m := x]; }
      assert OwnershipOk(s', m);
    }
    Elsewhere(s, s', m, t);
    forall u | u in s'.pending && s'.pending[u] == m ensures CallOk(s', u) { if u != t { assert CallOk(s, u); } }
  }

  lemma BlockedWaiters(s: State, m: int, t: int, wait: Wait)
    requires Orderly(s) && Possible(s, Take(m, t, wait)) && s.mutexes[m].owner != Some(t)
    requires s.mutexes[m].value == 0 && wait != NoWait
    ensures var s' := TakeSpec(s, m, t, wait).0;
            && Distinct(s'.mutexes[m].waiters)
            && (forall u :: u in s'.mutexes[m].waiters <==> u == t || u in s.mutexes[m].waiters)
            && (forall u :: u in s.threads && u != t ==> s'.threads[u].error == s.threads[u].error)
            && s'.threads[t].error == EOK && s'.threads.Keys == s.threads.Keys && s'.pending == s.pending[t := m]
            && s'.mutexes == s.mutexes[m := s.mutexes[m].(waiters := s'.mutexes[m].waiters)]
  {
    hide Place, Inserted, Distinct;
    assert OwnershipOk(s, m);
    var x, p := s.mutexes[m], s.threads[t].prio;
    var s1 := s.(threads := s.threads[t := s.threads[t].(error := EOK)]);
    var ts := if x.owner.Some? && x.owner.value in s1.threads && p < s1.threads[x.owner.value].prio
              then s1.threads[x.owner.value := s1.threads[x.owner.value].(prio := p)] else s1.threads;
    InsertedMeaning(x.waiters, Place(x.waiters, ts, p), t);
    InsertedDistinct(x.waiters, Place(x.waiters, ts, p), t);
  }

  lemma ReleaseOrderly(s: State, m: int, t: int)
    requires Orderly(s) && Possible(s, Release(m, t))
    ensures Orderly(ReleaseSpec(s, m, t).0)
  {
    hide Distinct;
    var s', x := ReleaseSpec(s, m, t).0, s.mutexes[m];
    assert OwnershipOk(s, m);
    if x.owner != Some(t) { assert s'.mutexes == s.mutexes[m := x]; }
    if x.waiters != [] {
      FirstLeaves(x.waiters);
      assert x.waiters[0] in x.waiters && CallOk(s, x.waiters[0]);
    }
    Elsewhere(s, s', m, t);
    EmptyDistinct();
    forall u | u in s'.pending && s'.pending[u] == m ensures CallOk(s', u) { assert CallOk(s, u); }
  }

  lemma TimeoutOrderly(s: State, m: int, t: int)
    requires Orderly(s) && Possible(s, Timeout(m, t))
    ensures Orderly(TimeoutSpec(s, m, t))
  {
    hide Distinct, Without;
    var s', x := TimeoutSpec(s, m, t), s.mutexes[m];
    assert OwnershipOk(s, m);
    WithoutMembers(x.waiters, t);
    Elsewhere(s, s', m, t);
    var x' := s'.mutexes[m];
    var o := x.owner.value;
    assert x.owner == Some(o) && o !in Without(x.waiters, t);
    assert x' == x.(waiters := Without(x.waiters, t));
    forall w | w in x'.waiters ensures w in s'.pending && s'.pending[w] == m { assert w in x.waiters; }
    forall u | u in s'.pending && s'.pending[u] == m ensures CallOk(s', u) { assert CallOk(s, u); }
  }

  lemma StepOrderly(s: State, op: Op)
    requires Orderly(s) && Possible(s, op)
    ensures Orderly(Step(s, op))
  {
    hide TakeSpec, ReleaseSpec, TimeoutSpec;
    match op
    case Take(m, t, wait) => TakeOrderly(s, m, t, wait);
    case Release(m, t) => ReleaseOrderly(s, m, t);
    case Timeout(m, t) => TimeoutOrderly(s, m, t);
    case Return(t) => ReturnOrderly(s, t);
  }

  lemma ReturnOrderly(s: State, t: int)
    requires Orderly(s) && Possible(s, Return(t))
    ensures Orderly(ReturnSpec(s, t).0)
  {
    var s' := ReturnSpec(s, t).0;
    forall m | m in s'.mutexes ensures OwnershipOk(s', m) { assert OwnershipOk(s, m); }
    forall u | u in s'.pending ensures CallOk(s', u) { assert CallOk(s, u); }
  }

  /** Whatever threads do, owner, value and hold count agree, and an owner never waits for what it owns. */
  lemma {:induction false} RunOrderly(s: State, ops: seq<Op>)
    requires Orderly(s) && PossibleRun(s, ops)
    ensures Orderly(Run(s, ops))
    decreases |ops|
  {
    hide Orderly, Step;
    if ops != [] {
      StepOrderly(s, ops[0]);
      RunOrderly(Step(s, ops[0]), ops[1..]);
    }
  }

  /** A take that waited returns success exactly when its thread owns the mutex by then, and then holds it once. */
  lemma ReturnsOkIffOwner(s: State, t: int)
    requires Orderly(s) && Possible(s, Return(t))
    ensures var m := s.pending[t];
            && m in s.mutexes && ReturnSpec(s, t).1 in {EOK, ETIMEOUT}
            && (ReturnSpec(s, t).1 == EOK <==> s.mutexes[m].owner == Some(t))
            && (ReturnSpec(s, t).1 == EOK ==> s.mutexes[m].hold == 1)
    ensures Sound(s) && Waiting(s) && ReturnSpec(s, t).1 == ETIMEOUT ==> forall n :: !Engaged(s, n, t)
  {
    assert CallOk(s, t);
    if Sound(s) && Waiting(s) {
      assert PendingOk(s, t);
      if s.mutexes[s.pending[t]].owner == Some(t) { assert Engaged(s, s.pending[t], t); }
    }
  }

  // ----- When a take loses priority inheritance

  /** A mutex has an owner of lower priority than one of its waiters. */
  ghost predicate Inverted(s: State) {
    exists m, w :: m in s.mutexes && w in s.mutexes[m].waiters && Above(s, m, w)
  }

  ghost predicate Above(s: State, m: int, w: int)
    requires m in s.mutexes
  {
    var o := s.mutexes[m].owner;
    o.Some? && o.value in s.threads && w in s.threads && s.threads[w].prio < s.threads[o.value].prio
  }

  /** No disciplined continuation, of any length, ends in an inversion. */
  ghost predicate NeverInverted(s: State) {
    forall ops :: PossibleRun(s, ops) && DisciplinedRun(s, ops) ==> !Inverted(Run(s, ops))
  }

  /** A take by a thread that holds no other mutex; or one that returns at once with nothing. */
  ghost predicate Harmless(s: State, op: Op) {
    || Disciplined(s, op)
    || (op.Take? && op.wait == NoWait && op.m in s.mutexes && s.mutexes[op.m].owner.Some?
        && s.mutexes[op.m].owner != Some(op.t))
  }

  /**
   A thread outside all calls that owns nothing, of better priority than the caller and than the
   owner of what it takes.
   */
  ghost predicate Rival(s: State, op: Op, u: int) {
    && op.t in s.threads && u in s.threads && u !in s.pending && u != op.t && s.threads[u].prio < s.threads[op.t].prio
    && (forall n :: n in s.mutexes ==> s.mutexes[n].owner != Some(u))
    && (op.Take? && op.m in s.mutexes && s.mutexes[op.m].owner.Some? ==>
          s.mutexes[op.m].owner.value in s.threads ==> s.threads[u].prio < s.threads[s.mutexes[op.m].owner.value].prio)
  }

  /** A disciplined run from a state in order never inverts. */
  lemma SoundNeverInverted(s: State)
    requires Sound(s) && Waiting(s)
    ensures NeverInverted(s)
  {
    forall ops | PossibleRun(s, ops) && DisciplinedRun(s, ops) ensures !Inverted(Run(s, ops)) {
      RunSafe(s, ops);
      var s' := Run(s, ops);
      forall m, w | m in s'.mutexes && w in s'.mutexes[m].waiters ensures !Above(s', m, w) { assert MutexOk(s', m); }
    }
  }

  /**
   The owner `t` of `n` takes the free mutex `m` as well; a better thread waits for `n`; `t`
   releases `m`, and with it the priority it had inherited.
   */
  lemma NestedInverts(s: State, m: int, n: int, t: int, u: int, wait: Wait)
    requires Sound(s) && Waiting(s) && Possible(s, Take(m, t, wait)) && n in s.mutexes && n != m
    requires s.mutexes[n].owner == Some(t) && s.mutexes[m].owner.None? && Rival(s, Take(m, t, wait), u)
    ensures var s1, ops := Step(s, Take(m, t, wait)), [Take(n, u, Forever), Release(m, t)];
            PossibleRun(s1, ops) && DisciplinedRun(s1, ops) && Inverted(Run(s1, ops))
  {
    hide Sound, Waiting, Place, Inserted;
    OwnerFacts(s, n);
    OwnerFacts(s, m);
    var s1 := Step(s, Take(m, t, wait));
    assert s1.mutexes == s.mutexes[m := s1.mutexes[m]] && s1.mutexes[m].owner == Some(t) && s1.mutexes[m].hold == 1;
    assert s1.mutexes[m].original == s.threads[t].prio == s1.threads[t].prio;
    var s2 := Step(s1, Take(n, u, Forever));
    JoinsWaiters(s1, n, u);
    var s3 := Step(s2, Release(m, t));
    assert s3.mutexes[n] == s2.mutexes[n] && Above(s3, n, u);
    RunTwo(s1, Take(n, u, Forever), Release(m, t));
  }

  lemma OwnerFacts(s: State, n: int)
    requires Sound(s) && n in s.mutexes
    ensures var x := s.mutexes[n];
            && (x.value == 0 <==> x.owner.Some?) && x.value <= 1 && (x.hold == 0 <==> x.owner.None?)
            && (x.owner.Some? ==> x.owner.value in s.threads)
  {
    assert MutexOk(s, n);
  }

  /** A thread that waits joins the waiters, and the owner inherits its priority if that is better. */
  lemma JoinsWaiters(s: State, n: int, u: int)
    requires n in s.mutexes && u in s.threads && s.mutexes[n].value == 0
    requires s.mutexes[n].owner.Some? && s.mutexes[n].owner != Some(u) && s.mutexes[n].owner.value in s.threads
    ensures var s', o := TakeSpec(s, n, u, Forever).0, s.mutexes[n].owner.value;
            && s'.mutexes == s.mutexes[n := s'.mutexes[n]] && s'.mutexes[n].owner == Some(o)
               && u in s'.mutexes[n].waiters
            && (forall w :: w in s.mutexes[n].waiters ==> w in s'.mutexes[n].waiters)
            && s'.threads.Keys == s.threads.Keys && s'.pending == s.pending[u := n]
            && (forall w :: w in s.threads && w != o ==> s'.threads[w].prio == s.threads[w].prio)
            && s'.threads[o].prio == Min(s.threads[o].prio, s.threads[u].prio)
  {
    hide Place, Inserted;
    var x, p, o := s.mutexes[n], s.threads[u].prio, s.mutexes[n].owner.value;
    var s1 := s.(threads := s.threads[u := s.threads[u].(error := EOK)]);
    var ts := if p < s1.threads[o].prio then s1.threads[o := s1.threads[o].(prio := p)] else s1.threads;
    InsertedMeaning(x.waiters, Place(x.waiters, ts, p), u);
  }

  lemma RunTwo(s: State, op1: Op, op2: Op)
    requires Possible(s, op1) && Possible(Step(s, op1), op2)
    ensures PossibleRun(s, [op1, op2]) && Run(s, [op1, op2]) == Step(Step(s, op1), op2)
    ensures Disciplined(s, op1) && Disciplined(Step(s, op1), op2) ==> DisciplinedRun(s, [op1, op2])
  {
    hide Possible, Step, Disciplined;
    RunOne(Step(s, op1), op2);
    assert [op1, op2][1..] == [op2];
  }

  lemma RunOne(s: State, op: Op)
    requires Possible(s, op)
    ensures PossibleRun(s, [op]) && Run(s, [op]) == Step(s, op) && (Disciplined(s, op) ==> DisciplinedRun(s, [op]))
  {
    hide Possible, Step, Disciplined;
    assert [op][1..] == [];
  }

  /**
   The owner `t` of `n` waits for `m`; a better thread waits for `n`, and `t` inherits; but the
   owner of `m` does not.
   */
  lemma BlockedInverts(s: State, m: int, n: int, t: int, u: int, wait: Wait)
    requires Sound(s) && Waiting(s) && Possible(s, Take(m, t, wait)) && wait != NoWait && n in s.mutexes && n != m
    requires s.mutexes[n].owner == Some(t) && s.mutexes[m].owner.Some? && s.mutexes[m].owner != Some(t)
    requires Rival(s, Take(m, t, wait), u)
    ensures var s1, ops := Step(s, Take(m, t, wait)), [Take(n, u, Forever)];
            PossibleRun(s1, ops) && DisciplinedRun(s1, ops) && Inverted(Run(s1, ops))
  {
    hide Sound, Waiting, Place, Inserted;
    OwnerFacts(s, n);
    OwnerFacts(s, m);
    JoinsAny(s, m, t, wait);
    JoinsWaiters(s, m, t);
    var s1 := Step(s, Take(m, t, wait));
    JoinsWaiters(s1, n, u);
    var s2 := Step(s1, Take(n, u, Forever));
    assert t in s2.mutexes[m].waiters && Above(s2, m, t);
    RunOne(s1, Take(n, u, Forever));
  }

  /** Whether a wait has a timeout makes no difference to mutexes and priorities. */
  lemma JoinsAny(s: State, m: int, t: int, wait: Wait)
    requires m in s.mutexes && t in s.threads && s.mutexes[m].owner != Some(t) && s.mutexes[m].value == 0
             && wait != NoWait
    ensures var s', s'' := TakeSpec(s, m, t, wait).0, TakeSpec(s, m, t, Forever).0;
            && s'.mutexes == s''.mutexes && s'.pending == s''.pending && s'.threads.Keys == s''.threads.Keys
            && forall u :: u in s'.threads ==> s'.threads[u].prio == s''.threads[u].prio
  {
  }

  /** A take that finds the mutex owned and does not wait leaves everything in order. */
  lemma RefusedKeeps(s: State, m: int, t: int)
    requires Sound(s) && Waiting(s) && Possible(s, Take(m, t, NoWait))
    requires s.mutexes[m].owner.Some? && s.mutexes[m].owner != Some(t)
    ensures Sound(Step(s, Take(m, t, NoWait))) && Waiting(Step(s, Take(m, t, NoWait)))
  {
    hide Sorted;
    var s' := Step(s, Take(m, t, NoWait));
    assert MutexOk(s, m) && s'.mutexes == s.mutexes[m := s.mutexes[m]];
    SortedSame(s, s', s.mutexes[m].waiters, t);
    forall w | w in s.mutexes[m].waiters ensures WaiterOk(s', w) { assert WaiterOk(s, w); }
    Keeps(s, s', m, {});
    TakeWaiting(s, m, t, NoWait);
  }

  /**
   A call can lead to an inversion by itself, all later calls being disciplined, exactly if it
   is not harmless: it takes a second mutex, and gets it or waits for it. This holds wherever a
   better thread stands by.
   */
  lemma InversionIff(s: State, op: Op, u: int)
    requires Sound(s) && Waiting(s) && Possible(s, op) && Rival(s, op, u)
    ensures NeverInverted(Step(s, op)) <==> Harmless(s, op)
  {
    hide Sound, Waiting, Step, Possible, Rival, Inverted, PossibleRun, DisciplinedRun, Run;
    if Disciplined(s, op) {
      StepKeeps(s, op);
      SoundNeverInverted(Step(s, op));
    } else {
      PossibleTake(s, op);
      var n :| n in s.mutexes && s.mutexes[n].owner == Some(op.t) && n != op.m;
      OwnsOne(s, op.m, n, op.t);
      if Harmless(s, op) {
        RefusedKeeps(s, op.m, op.t);
        SoundNeverInverted(Step(s, op));
      } else if s.mutexes[op.m].owner.None? {
        NestedInverts(s, op.m, n, op.t, u, op.wait);
      } else {
        BlockedInverts(s, op.m, n, op.t, u, op.wait);
      }
    }
  }

  lemma PossibleTake(s: State, op: Op)
    requires Possible(s, op) && op.Take?
    ensures op.m in s.mutexes && op.t in s.threads && op.t !in s.pending
  {
  }

  lemma OwnsOne(s: State, m: int, n: int, t: int)
    requires Sound(s) && m in s.mutexes && n in s.mutexes && m != n && s.mutexes[n].owner == Some(t)
    ensures s.mutexes[m].owner != Some(t)
  {
    assert Engaged(s, n, t);
    if s.mutexes[m].owner == Some(t) { assert Engaged(s, m, t); }
  }

  ghost predicate OwnsNothing(s: State, t: int) {
    forall k :: k in s.mutexes ==> s.mutexes[k].owner != Some(t)
  }

  /**
   There is a run in which an owner falls below a waiter, and then owns nothing but keeps the
   priority it inherited.
   */
  lemma NestedLosesInheritance()
    ensures exists s: State, ops: seq<Op> ::
              && Sound(s) && Waiting(s) && PossibleRun(s, ops)
              && NestedBelow(Run(s, ops)) && Possible(Run(s, ops), Release(1, 10))
                 && NestedForGood(Step(Run(s, ops), Release(1, 10)))
  {
    hide Step, Possible, Sound, Waiting, NestedBelow, NestedForGood, NestedStart;
    var s0 := NestedStart();
    NestedStartSound(s0);
    var s1 := NestedTaken(s0);
    var s2 := NestedWaits(s1);
    var s3 := NestedReleased(s2);
    assert PossibleRun(s3, []) && Run(s3, []) == s3;
    RunCons(s2, Release(0, 10), []);
    RunCons(s1, Take(1, 12, Forever), [Release(0, 10)] + []);
    RunCons(s0, Take(1, 10, Forever), [Take(1, 12, Forever)] + ([Release(0, 10)] + []));
  }

  lemma RunCons(s: State, op: Op, ops: seq<Op>)
    requires Possible(s, op) && PossibleRun(Step(s, op), ops)
    ensures PossibleRun(s, [op] + ops) && Run(s, [op] + ops) == Run(Step(s, op), ops)
  {
    assert ([op] + ops)[1..] == ops;
  }

  /** Thread 10 owns mutex 1 and has a lower priority than thread 12, which waits for it. */
  ghost predicate NestedBelow(s: State) {
    && 1 in s.mutexes && s.mutexes[1].owner == Some(10) && 12 in s.mutexes[1].waiters
    && 10 in s.threads && 12 in s.threads && s.threads[10].prio > s.threads[12].prio
  }

  /** Thread 10 owns nothing and does not have its own priority. */
  ghost predicate NestedForGood(s: State) {
    && (forall m :: m in s.mutexes ==> s.mutexes[m].owner != Some(10))
    && 10 in s.threads && s.threads[10].prio != s.threads[10].base
  }

  /** Thread 10 holds mutex 0, for which thread 11 waits. */
  ghost function NestedStart(): State {
    State(map[0 := Mutex(0, Some(10), 20, 1, [11]), 1 := Mutex(1, None, NO_PRIORITY, 0, [])],
          map[10 := Thread(20, 2, EOK, false, 0), 11 := Thread(2, 2, EOK, false, 0), 12 := Thread(5, 5, EOK, false, 0)],
          map[11 := 0], 1)
  }

  lemma NestedStartSound(s: State)
    requires s == NestedStart()
    ensures Sound(s) && Waiting(s)
  {
    assert WaiterOk(s, 11) && OwnerOk(s, s.mutexes[0], 10);
    assert MutexOk(s, 0) && MutexOk(s, 1);
    assert forall t :: t in s.threads ==> OwnPriority(s, t);
    assert PendingOk(s, 11);
  }

  lemma NestedTaken(s: State) returns (s': State)
    requires s == NestedStart()
    ensures Possible(s, Take(1, 10, Forever)) && s' == Step(s, Take(1, 10, Forever))
    ensures s'.mutexes == map[0 := Mutex(0, Some(10), 20, 1, [11]), 1 := Mutex(0, Some(10), 2, 1, [])]
    ensures s'.threads == s.threads && s'.pending == s.pending
  {
    s' := Step(s, Take(1, 10, Forever));
  }

  lemma NestedWaits(s: State) returns (s': State)
    requires s.mutexes == map[0 := Mutex(0, Some(10), 20, 1, [11]), 1 := Mutex(0, Some(10), 2, 1, [])]
    requires s.threads == NestedStart().threads && s.pending == NestedStart().pending
    ensures Possible(s, Take(1, 12, Forever)) && s' == Step(s, Take(1, 12, Forever))
    ensures s'.mutexes == map[0 := Mutex(0, Some(10), 20, 1, [11]), 1 := Mutex(0, Some(10), 2, 1, [12])]
    ensures s'.pending == map[11 := 0, 12 := 1]
    ensures s'.threads.Keys == {10, 11, 12} && s'.threads[10] == Thread(20, 2, EOK, false, 0)
            && s'.threads[12].prio == 5
  {
    s' := Step(s, Take(1, 12, Forever));
    assert Inserted([], 0, 12) == [12];
  }

  lemma NestedReleased(s: State) returns (s': State)
    requires s.mutexes == map[0 := Mutex(0, Some(10), 20, 1, [11]), 1 := Mutex(0, Some(10), 2, 1, [12])]
    requires s.pending == map[11 := 0, 12 := 1] && s.threads.Keys == {10, 11, 12}
    requires s.threads[10] == Thread(20, 2, EOK, false, 0) && s.threads[12].prio == 5
    ensures Possible(s, Release(0, 10)) && s' == Step(s, Release(0, 10)) && NestedBelow(s')
    ensures Possible(s', Release(1, 10)) && NestedForGood(Step(s', Release(1, 10)))
  {
    s' := Step(s, Release(0, 10));
  }
}
