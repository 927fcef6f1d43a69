/**
 The mutexes of rt-thread/src/ipc.c seen by their callers: what each call returns and changes, and
 that the holds of an owner are its successful takes less its releases, over any interleaving and
 without any discipline.
 */
module MutexHolds {
  import opened Common
  import opened RtList
  import opened MutexRuns
  import opened MutexNesting

  // ----- What each call returns and changes

  /** Only mutex `m` changes, and of the threads at most priorities, errors and wait data. */
  ghost predicate OnlyAt(s: State, s': State, m: int) {
    && m in s.mutexes && m in s'.mutexes && s'.mutexes == s.mutexes[m := s'.mutexes[m]]
    && s'.threads.Keys == s.threads.Keys && forall u :: u in s.threads ==> s'.threads[u].base == s.threads[u].base
  }

  /** All threads but those of `us` keep their priority, and all but `t` their error. */
  ghost predicate Keep(s: State, s': State, us: set<int>, t: int) {
    forall u :: u in s.threads && u in s'.threads ==>
                  && (u !in us ==> s'.threads[u].prio == s.threads[u].prio)
                  && (u != t ==> s'.threads[u].error == s.threads[u].error)
  }

  /** What a take returns: success exactly for a free mutex or its owner's own, up to the greatest hold count. */
  lemma TakeReturns(s: State, m: int, t: int, wait: Wait)
    requires Orderly(s) && Possible(s, Take(m, t, wait))
    ensures var (x, r) := (s.mutexes[m], TakeSpec(s, m, t, wait).1);
            && (r == EOK <==> x.owner.None? || (x.owner == Some(t) && x.hold < HOLD_MAX))
            && (r == EFULL <==> x.owner == Some(t) && x.hold == HOLD_MAX)
            && (r == ETIMEOUT <==> x.owner.Some? && x.owner != Some(t) && wait == NoWait)
            && (r == BLOCKED <==> x.owner.Some? && x.owner != Some(t) && wait != NoWait)
  {
    assert OwnershipOk(s, m);
  }

  /**
   A successful take makes the caller the owner with one hold more, and else changes nothing; a
   failed one nothing.
   */
  lemma TakeMeaning(s: State, m: int, t: int, wait: Wait)
    requires Orderly(s) && Possible(s, Take(m, t, wait)) && TakeSpec(s, m, t, wait).1 != BLOCKED
    ensures var (s', r) := TakeSpec(s, m, t, wait);
            && OnlyAt(s, s', m) && Keep(s, s', {}, t) && s'.pending == s.pending
            && var x, x' := s.mutexes[m], s'.mutexes[m];
            if r == EOK
            then && x'.owner == Some(t) && x'.hold == x.hold + 1 && x'.waiters == x.waiters
                 && x'.original == if x.owner.None? then s.threads[t].prio else x.original
            else x' == x
  {
    assert OwnershipOk(s, m);
    var s' := TakeSpec(s, m, t, wait).0;
    if s'.mutexes == s.mutexes { assert s'.mutexes == s.mutexes[m := s.mutexes[m]]; }
  }

  /**
   A take that has to wait gives the owner the caller's priority if that is better, and no thread
   another; the caller joins the wait list behind all waiters of its priority or a better one.
   */
  lemma WaitMeaning(s: State, m: int, t: int, wait: Wait)
    requires Orderly(s) && Possible(s, Take(m, t, wait)) && TakeSpec(s, m, t, wait).1 == BLOCKED
    ensures var s' := TakeSpec(s, m, t, wait).0;
            var x := s.mutexes[m];
            && OnlyAt(s, s', m) && x.owner.Some? && x.owner.value in s.threads
            && Keep(s, s', {x.owner.value}, t) && s'.pending == s.pending[t := m] && s'.threads[t].error == EOK
            && (s'.threads[t].timed <==> wait == Ticks)
            && s'.threads[x.owner.value].prio == Min(s.threads[x.owner.value].prio, s.threads[t].prio)
            && s'.mutexes[m] == x.(waiters := s'.mutexes[m].waiters)
            && exists k :: 0 <= k <= |x.waiters| && s'.mutexes[m].waiters == x.waiters[..k] + [t] + x.waiters[k..]
                           && (forall j :: 0 <= j < k ==> Prio(s.threads, x.waiters[j]) <= s.threads[t].prio)
                           && (k < |x.waiters| ==> s.threads[t].prio < Prio(s.threads, x.waiters[k]))
  {
    hide Place, Distinct;
    assert OwnershipOk(s, m);
    var x, p := s.mutexes[m], s.threads[t].prio;
    var s1 := s.(threads := s.threads[t := s.threads[t].(error := EOK)]);
    var ts := if p < s1.threads[x.owner.value].prio
              then s1.threads[x.owner.value := s1.threads[x.owner.value].(prio := p)] else s1.threads;
    var k := Place(x.waiters, ts, p);
    forall j | 0 <= j < |x.waiters| ensures Prio(ts, x.waiters[j]) == Prio(s.threads, x.waiters[j]) {
      assert x.waiters[j] in x.waiters;
    }
    assert TakeSpec(s, m, t, wait).0.mutexes[m].waiters == x.waiters[..k] + [t] + x.waiters[k..];
  }

  /**
   A release by another thread than the owner fails. One by the owner takes one hold; the last gives
   back the priority that was kept, and hands the mutex to the first waiter or makes it free.
   */
  lemma ReleaseMeaning(s: State, m: int, t: int)
    requires Orderly(s) && Possible(s, Release(m, t))
    ensures var (s', r) := ReleaseSpec(s, m, t);
            var x := s.mutexes[m];
            && OnlyAt(s, s', m) && Keep(s, s', {t}, t) && s'.pending == s.pending
            && r == (if x.owner == Some(t) then EOK else ERROR)
            && s'.threads[t].prio == (if r == EOK && x.hold == 1 then x.original else s.threads[t].prio)
            && var x' := s'.mutexes[m];
            if r != EOK then x' == x
            else if x.hold > 1 then x' == x.(hold := x.hold - 1)
            else if x.waiters == [] then x'.owner.None? && x'.hold == 0 && x'.waiters == []
            else && x'.owner == Some(x.waiters[0]) && x'.hold == 1 && x'.waiters == x.waiters[1..]
                 && x'.original == Prio(s.threads, x.waiters[0])
  {
    assert OwnershipOk(s, m);
    var s' := ReleaseSpec(s, m, t).0;
    if s'.mutexes == s.mutexes { assert s'.mutexes == s.mutexes[m := s.mutexes[m]]; }
  }

  /** A waiter whose time is up leaves the list, with its error; no priority changes. */
  lemma TimeoutMeaning(s: State, m: int, t: int)
    requires Orderly(s) && Possible(s, Timeout(m, t))
    ensures var s' := TimeoutSpec(s, m, t);
            var ws := s.mutexes[m].waiters;
            && OnlyAt(s, s', m) && Keep(s, s', {}, t) && s'.pending == s.pending && s'.threads[t].error == ETIMEOUT
            && s'.mutexes[m] == s.mutexes[m].(waiters := s'.mutexes[m].waiters)
            && exists k :: 0 <= k < |ws| && ws[k] == t && s'.mutexes[m].waiters == ws[..k] + ws[k + 1..]
  {
    hide Without, IndexOf;
    WithoutIs(s.mutexes[m].waiters, t);
  }

  // ----- Waiting without a limit

  /** Thread `t` is inside a take that may wait for ever. */
  ghost predicate Patient(s: State, t: int) {
    t in s.pending && t in s.threads && !s.threads[t].timed && s.threads[t].error == EOK
  }

  lemma PatientStep(s: State, op: Op, t: int)
    requires Orderly(s) && Possible(s, op) && Patient(s, t) && op != Return(t)
    ensures Patient(Step(s, op), t)
  {
    hide Place, Inserted, Without, Distinct;
    if op.Release? { assert OwnershipOk(s, op.m); }
  }

  /** A take that waits for ever never times out: when it returns, it returns success. */
  lemma {:induction false} ForeverSucceeds(s: State, ops: seq<Op>, t: int)
    requires Orderly(s) && PossibleRun(s, ops) && Patient(s, t) && Return(t) !in ops
    requires Possible(Run(s, ops), Return(t))
    ensures ReturnSpec(Run(s, ops), t).1 == EOK
    decreases |ops|
  {
    hide Orderly, Step;
    if ops != [] {
      StepOrderly(s, ops[0]);
      PatientStep(s, ops[0], t);
      ForeverSucceeds(Step(s, ops[0]), ops[1..], t);
    }
  }

  // ----- Holds, counted by the results of calls

  /** The holds that thread `t` has on `m`. */
  function Held(s: State, m: int, t: int): nat {
    if m in s.mutexes && s.mutexes[m].owner == Some(t) then s.mutexes[m].hold else 0
  }

  /** One if `t` was handed `m` and its call of rt_mutex_take has yet to return. */
  function Entering(s: State, m: int, t: int): nat {
    if t in s.pending && s.pending[t] == m && m in s.mutexes && s.mutexes[m].owner == Some(t) then 1 else 0
  }

  /** How many takes of `m` by `t` returned success, at once or after waiting, and how many releases did. */
  datatype Log = Log(s: State, taken: nat, released: nat)

  ghost function Logged(l: Log, m: int, t: int, op: Op): Log
    requires Possible(l.s, op)
  {
    var s' := Step(l.s, op);
    match op
    case Take(n, u, wait) =>
      Log(s', if n == m && u == t && TakeSpec(l.s, n, u, wait).1 == EOK then l.taken + 1 else l.taken, l.released)
    case Return(u) =>
      Log(s', if u == t && l.s.pending[u] == m && ReturnSpec(l.s, u).1 == EOK then l.taken + 1 else l.taken, l.released)
    case Release(n, u) =>
      Log(s', l.taken, if n == m && u == t && ReleaseSpec(l.s, n, u).1 == EOK then l.released + 1 else l.released)
    case Timeout(_, _) => l.(s := s')
  }

  ghost function LoggedRun(l: Log, m: int, t: int, ops: seq<Op>): (l': Log)
    requires PossibleRun(l.s, ops)
    ensures l'.s == Run(l.s, ops)
    decreases |ops|
  {
    if ops == [] then l else LoggedRun(Logged(l, m, t, ops[0]), m, t, ops[1..])
  }

  function Balance(l: Log, m: int, t: int): int { Held(l.s, m, t) - Entering(l.s, m, t) - l.taken + l.released }

  lemma BalanceKept(l: Log, m: int, t: int, op: Op)
    requires Orderly(l.s) && Possible(l.s, op)
    ensures Balance(Logged(l, m, t, op), m, t) == Balance(l, m, t)
  {
    hide TakeSpec, ReleaseSpec, TimeoutSpec, Distinct;
    var s := l.s;
    match op {
      case Take(n, u, wait) =>
        TakeReturns(s, n, u, wait);
        if TakeSpec(s, n, u, wait).1 == BLOCKED { WaitMeaning(s, n, u, wait); } else { TakeMeaning(s, n, u, wait); }
        assert OwnershipOk(s, n);
      case Release(n, u) =>
        ReleaseMeaning(s, n, u);
        assert OwnershipOk(s, n);
        if s.mutexes[n].waiters != [] { assert s.mutexes[n].waiters[0] in s.mutexes[n].waiters; }
      case Timeout(n, u) => TimeoutMeaning(s, n, u);
      case Return(u) => ReturnsOkIffOwner(s, u);
    }
  }

  lemma {:induction false} RunBalance(l: Log, m: int, t: int, ops: seq<Op>)
    requires Orderly(l.s) && PossibleRun(l.s, ops)
    ensures Balance(LoggedRun(l, m, t, ops), m, t) == Balance(l, m, t) && Orderly(Run(l.s, ops))
    decreases |ops|
  {
    hide Orderly, Step, Balance, Possible;
    if ops != [] {
      StepOrderly(l.s, ops[0]);
      BalanceKept(l, m, t, ops[0]);
      LoggedStep(l, m, t, ops[0]);
      RunBalance(Logged(l, m, t, ops[0]), m, t, ops[1..]);
    }
  }

  lemma LoggedStep(l: Log, m: int, t: int, op: Op)
    requires Possible(l.s, op)
    ensures Logged(l, m, t, op).s == Step(l.s, op)
  {
  }

  /** No thread owns a mutex or is inside a call. */
  ghost predicate Unused(s: State) {
    Orderly(s) && s.pending == map[] && forall m :: m in s.mutexes ==> s.mutexes[m].owner.None?
  }

  /**
   In every interleaving, from mutexes nobody uses: the holds of `t` on `m` are its takes that
   returned success, and one more while it was handed `m` inside a call, less its releases that
   returned success. So while they are more, `t` owns `m`; once they are equal, it does not.
   */
  lemma HoldsCounted(s: State, m: int, t: int, ops: seq<Op>)
    requires Unused(s) && PossibleRun(s, ops) && m in s.mutexes
    ensures var l := LoggedRun(Log(s, 0, 0), m, t, ops);
            && Held(l.s, m, t) == l.taken + Entering(l.s, m, t) - l.released
            && m in l.s.mutexes
            && (l.s.mutexes[m].owner == Some(t) <==> l.taken + Entering(l.s, m, t) > l.released)
  {
    hide Orderly, Step, Possible;
    RunBalance(Log(s, 0, 0), m, t, ops);
    KeysKept(s, ops);
    HeldOwned(Run(s, ops), m, t);
    HeldOwned(s, m, t);
  }

  lemma HeldOwned(s: State, m: int, t: int)
    requires Orderly(s) && m in s.mutexes
    ensures Held(s, m, t) > 0 <==> s.mutexes[m].owner == Some(t)
  {
    assert OwnershipOk(s, m);
  }

  lemma {:induction false} KeysKept(s: State, ops: seq<Op>)
    requires PossibleRun(s, ops)
    ensures Run(s, ops).mutexes.Keys == s.mutexes.Keys
    decreases |ops|
  {
    hide Place, Inserted;
    if ops != [] { KeysKept(Step(s, ops[0]), ops[1..]); }
  }

  /**
   So a thread outside calls that took a mutex `taken` times and released it less often has it to
   itself: others' takes do not succeed; and its own succeeds exactly below the greatest hold count.
   */
  lemma MutualExclusion(s: State, m: int, t: int, ops: seq<Op>, u: int, wait: Wait)
    requires Unused(s) && PossibleRun(s, ops) && m in s.mutexes && Possible(Run(s, ops), Take(m, u, wait))
    requires var l := LoggedRun(Log(s, 0, 0), m, t, ops); l.taken > l.released && t !in l.s.pending
    ensures var l := LoggedRun(Log(s, 0, 0), m, t, ops);
            var r := TakeSpec(Run(s, ops), m, u, wait).1;
            if u != t then r == BLOCKED || r == ETIMEOUT
            else r == if l.taken - l.released < HOLD_MAX then EOK else EFULL
  {
    hide Orderly, Step, TakeSpec;
    HoldsCounted(s, m, t, ops);
    RunOrderly(s, ops);
    TakeReturns(Run(s, ops), m, u, wait);
    HoldBound(Run(s, ops), m);
  }

  lemma HoldBound(s: State, m: int)
    requires Orderly(s) && m in s.mutexes
    ensures s.mutexes[m].hold <= HOLD_MAX
  {
    assert OwnershipOk(s, m);
  }
}
