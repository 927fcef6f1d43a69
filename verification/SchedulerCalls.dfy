/**
 What each call of rt-thread/src/scheduler.c and rt-thread/src/thread.c does to its thread, and that
 it leaves the other threads and the order of the other ready lists alone; when a resumed thread
 runs; and what a locked scheduler does not do.
 */
module SchedulerCalls {
  import opened RtList
  import opened SchedulerRuns

  /** Threads other than `ts` are as they were. */
  ghost predicate OthersSame(s: State, s': State, ts: set<int>) {
    s'.threads.Keys == s.threads.Keys && forall u :: u in s.threads && u !in ts ==> s'.threads[u] == s.threads[u]
  }

  /** Lists other than those of the priorities `ps` are as they were. */
  ghost predicate ListsSame(s: State, s': State, ps: set<int>) {
    |s'.ready| == |s.ready| && forall q :: 0 <= q < |s.ready| && q !in ps ==> s'.ready[q] == s.ready[q]
  }

  /** `t` is gone from `l`, and the others keep their order. */
  ghost predicate TakenOut(l: seq<int>, l': seq<int>, t: int) {
    exists k :: 0 <= k < |l| && l[k] == t && l' == l[..k] + l[k + 1..]
  }

  ghost predicate Nowhere(s: State, t: int) {
    forall p :: 0 <= p < |s.ready| ==> t !in s.ready[p]
  }

  lemma OnlyReadyListed(s: State, t: int)
    requires Sound(s) && t in s.threads
    ensures s.threads[t].stat != READY ==> Nowhere(s, t)
    ensures s.threads[t].prio < |s.ready| == PRIORITIES
    ensures s.threads[t].stat == READY ==> t in s.ready[s.threads[t].prio] && t != s.current
  {
    assert ThreadOk(s, t);
    forall p | 0 <= p < |s.ready| ensures ListAgrees(s, p) && (t in s.ready[p] <==> ReadyAt(s, t, p)) {
      assert ListAgrees(s, p);
    }
  }

  // ----- One call

  /** A thread that is resumed is ready, first among its equals; if it is the current thread it runs. */
  lemma ResumeMeaning(s: State, t: int)
    requires Sound(s) && t in s.threads
    ensures var s' := Resume(s, t);
            var x := s.threads[t];
            if x.stat != SUSPEND then s' == s
            else
              && OthersSame(s, s', {t}) && s'.current == s.current && s'.locks == s.locks
              && x.prio < |s.ready| && ListsSame(s, s', {x.prio})
              && if t == s.current then s'.threads[t] == x.(stat := RUNNING) && s'.ready == s.ready
                 else && s'.threads[t] == x.(stat := READY)
                      && s'.ready[x.prio] == if x.yielding then s.ready[x.prio] + [t] else [t] + s.ready[x.prio]
  {
    assert ThreadOk(s, t);
  }

  /** Only a running thread suspends itself; no list changes. */
  lemma SuspendMeaning(s: State)
    requires Sound(s)
    ensures var s' := Suspend(s);
            var x := s.threads[s.current];
            && OthersSame(s, s', {s.current}) && s'.current == s.current && s'.locks == s.locks && s'.ready == s.ready
            && s'.current in s'.threads && s'.threads[s.current] == if x.stat == RUNNING then x.(stat := SUSPEND) else x
  {
    NotListed(s, s.current);
  }

  /** A closed thread is on no list any more, and no other thread loses its place. */
  lemma CloseMeaning(s: State, t: int)
    requires Sound(s) && t in s.threads
    ensures var s' := Close(s, t);
            var x := s.threads[t];
            && OthersSame(s, s', {t}) && s'.current == s.current && s'.locks == s.locks && Nowhere(s', t)
            && t in s'.threads && s'.threads[t].stat == CLOSE && s'.threads[t].prio == x.prio
            && x.prio < |s.ready| && ListsSame(s, s', {x.prio})
            && if x.stat == READY then TakenOut(s.ready[x.prio], s'.ready[x.prio], t) else s'.ready == s.ready
  {
    hide Without;
    OnlyReadyListed(s, t);
    NotListed(s, t);
    CloseSound(s, t);
    OnlyReadyListed(Close(s, t), t);
    if s.threads[t].stat == READY { WithoutIs(s.ready[s.threads[t].prio], t); }
  }

  /** A ready thread goes from the list of its old priority to the front of that of the new one. */
  lemma PriorityMeaning(s: State, t: int, p: nat)
    requires Sound(s) && t in s.threads && p < PRIORITIES
    ensures var s' := ChangePriority(s, t, p);
            var x := s.threads[t];
            && OthersSame(s, s', {t}) && s'.current == s.current && s'.locks == s.locks
            && t in s'.threads && s'.threads[t] == x.(prio := p)
            && x.prio < |s.ready| == PRIORITIES && ListsSame(s, s', {x.prio, p})
            && (x.stat != READY ==> s'.ready == s.ready)
            && (x.stat == READY && p != x.prio ==>
                  && TakenOut(s.ready[x.prio], s'.ready[x.prio], t)
                  && s'.ready[p] == if x.yielding then s.ready[p] + [t] else [t] + s.ready[p])
  {
    hide Without;
    OnlyReadyListed(s, t);
    if s.threads[t].stat == READY { WithoutIs(s.ready[s.threads[t].prio], t); }
  }

  /** Startup is the resume of a thread that is suspended first, and rt_schedule. */
  lemma StartupMeaning(s: State, t: int)
    requires Sound(s) && t in s.threads && s.threads[t].stat == INIT
    ensures var s0 := s.(threads := s.threads[t := s.threads[t].(stat := SUSPEND, yielding := false)]);
            Sound(s0) && Sound(Resume(s0, t)) && Startup(s, t) == Schedule(Resume(s0, t))
  {
    hide Schedule, Insert;
    var x := s.threads[t].(stat := SUSPEND, yielding := false);
    assert ThreadOk(s, t);
    ChangedSound(s, t, x);
    StepKeeps(s.(threads := s.threads[t := x]), DoResume(t));
  }

  /**
   rt_schedule. Locked, or with no thread ready, it does nothing. A current thread that does not give
   way only loses its YIELD flag. Otherwise the first of the best ready threads leaves its list and
   runs, and a thread that was running is ready, first among its equals. No other thread is touched.
   */
  lemma ScheduleEffect(s: State)
    requires Sound(s)
    ensures var (s', h, c) := (Schedule(s), Least(s.ready), s.threads[s.current]);
            && s'.locks == s.locks
            && if s.locks > 0 || h == PRIORITIES then s' == s
               else if !GivesWay(c, h) then s' == s.(threads := s.threads[s.current := c.(yielding := false)])
               else
                 var (to, from) := (s.ready[h][0], s.current);
                 && to in s.threads && to != from && s'.current == to && c.prio < PRIORITIES
                 && OthersSame(s, s', {to, from}) && ListsSame(s, s', {h, c.prio})
                 && s'.threads[to] == s.threads[to].(stat := RUNNING)
                 && (if c.stat == RUNNING
                     then && s'.threads[from] == c.(stat := READY, yielding := false)
                          && s'.ready[c.prio] == [from] + (if c.prio == h then s.ready[h][1..] else s.ready[c.prio])
                          && (c.prio != h ==> s'.ready[h] == s.ready[h][1..])
                     else && s'.threads[from] == c
                          && s'.ready == s.ready[h := s.ready[h][1..]])
  {
    hide Least, Without, Distinct;
    var (h, c) := (Least(s.ready), s.threads[s.current]);
    assert ThreadOk(s, s.current);
    if s.locks == 0 && h < PRIORITIES {
      LeastHead(s);
      var (to, from) := (s.ready[h][0], s.current);
      if !GivesWay(c, h) {
        KeepMeaning(s);
        assert Schedule(s).threads == s.threads[from := c.(yielding := false)];
      } else {
        assert s.ready[h] == [to] + s.ready[h][1..];
        HeadWithout(to, s.ready[h][1..]);
        if c.stat == RUNNING && c.prio == h {
          assert [from] + s.ready[h] == [from, to] + s.ready[h][1..];
          SecondWithout(from, to, s.ready[h][1..]);
        }
      }
    }
  }

  /**
   When a suspended thread is resumed and rt_schedule follows, it runs at once exactly if no ready
   thread beats it, and the current thread does not run, is beaten by it, or yields to it.
   */
  lemma ResumedRuns(s: State, t: int)
    requires Sound(s) && t in s.threads && s.threads[t].stat == SUSPEND && t != s.current && !s.threads[t].yielding
    requires s.locks == 0
    ensures Sound(Resume(s, t))
    ensures Schedule(Resume(s, t)).current == t <==>
              && (forall u :: u in s.threads && s.threads[u].stat == READY ==> s.threads[t].prio <= s.threads[u].prio)
              && GivesWay(s.threads[s.current], s.threads[t].prio)
  {
    hide Schedule, Least, Distinct, Resume;
    StepKeeps(s, DoResume(t));
    ResumeMeaning(s, t);
    var (s1, p) := (Resume(s, t), s.threads[t].prio);
    ScheduleEffect(s1);
    LeastIsTop(s1, t);
    var h := Least(s1.ready);
    LeastHead(s1);
    if h < p {
      var u := s1.ready[h][0];
      assert ReadyAt(s1, u, h) && u != t;
    } else {
      forall u | u in s.threads && s.threads[u].stat == READY ensures p <= s.threads[u].prio { LeastIsTop(s1, u); }
    }
  }

  // ----- A locked scheduler

  /** How many more times the scheduler is locked than unlocked. */
  function Nesting(ops: seq<Op>): int {
    if ops == [] then 0 else (if ops[0] == Lock then 1 else if ops[0] == Unlock then -1 else 0) + Nesting(ops[1..])
  }

  /** With the locks of `n` there is one at every moment of the run. */
  ghost predicate StaysLocked(n: int, ops: seq<Op>)
    decreases |ops|
  {
    n > 0 && (ops == [] || StaysLocked(n + Nesting([ops[0]]), ops[1..]))
  }

  lemma LockedStep(s: State, op: Op)
    requires Sound(s) && Legal(s, op) && s.locks > 0 && s.locks + Nesting([op]) > 0
    ensures Step(s, op).current == s.current && Step(s, op).locks == s.locks + Nesting([op])
  {
    hide Least, Without;
    assert [op][1..] == [];
    match op
    case DoResume(t) => ResumeMeaning(s, t);
    case DoSuspend => SuspendMeaning(s);
    case DoClose(t) => CloseMeaning(s, t);
    case DoPriority(t, p) => PriorityMeaning(s, t, p);
    case DoStartup(t) =>
      StartupMeaning(s, t);
      var s0 := s.(threads := s.threads[t := s.threads[t].(stat := SUSPEND, yielding := false)]);
      ResumeMeaning(s0, t);
    case _ =>
  }

  /** While the scheduler is locked no call changes the current thread; the locks count exactly the nesting. */
  lemma {:induction false} LockedStays(s: State, ops: seq<Op>)
    requires Sound(s) && LegalRun(s, ops) && StaysLocked(s.locks, ops)
    ensures Run(s, ops).current == s.current && Run(s, ops).locks == s.locks + Nesting(ops)
    decreases |ops|
  {
    hide Sound, Step, Legal;
    if ops != [] {
      StepKeeps(s, ops[0]);
      assert [ops[0]][1..] == [];
      if ops[1..] == [] { assert s.locks + Nesting([ops[0]]) > 0; }
      LockedStep(s, ops[0]);
      LockedStays(Step(s, ops[0]), ops[1..]);
    }
  }

  /** The last unlock schedules, as any rt_schedule does; one that is not the last only counts. */
  lemma UnlockMeaning(s: State)
    requires Sound(s)
    ensures Sound(s.(locks := 0))
    ensures Step(s, Unlock) == if s.locks <= 1 then Schedule(s.(locks := 0)) else s.(locks := s.locks - 1)
  {
    LocksSound(s, 0);
  }
}
