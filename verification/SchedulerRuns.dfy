/**
 The single-CPU scheduler of rt-thread/src/scheduler.c and the thread states of
 rt-thread/src/thread.c: inserting, removing, scheduling, suspending and resuming threads as
 functions, what every run of them keeps, and in what order repeated yields run threads.
 */
module SchedulerRuns {
  import opened RtList

  /** RT_THREAD_PRIORITY_MAX. */
  const PRIORITIES := 32

  datatype Stat = INIT | READY | SUSPEND | RUNNING | CLOSE

  /** `yielding` is the flag RT_THREAD_STAT_YIELD. */
  datatype Thread = Thread(stat: Stat, yielding: bool, prio: nat)

  /** The threads, the ready lists by priority, the current thread and the lock nesting. */
  datatype State = State(threads: map<int, Thread>, ready: seq<seq<int>>, current: int, locks: nat)

  ghost predicate ReadyAt(s: State, t: int, p: int) {
    t in s.threads && s.threads[t].stat == READY && s.threads[t].prio == p
  }

  /** The list of priority `p` holds exactly the ready threads of that priority, once each. */
  ghost predicate ListAgrees(s: State, p: int)
    requires 0 <= p < |s.ready|
  {
    Distinct(s.ready[p]) && forall t :: t in s.ready[p] <==> ReadyAt(s, t, p)
  }

  ghost predicate ThreadOk(s: State, t: int)
    requires t in s.threads
  {
    s.threads[t].prio < PRIORITIES && (s.threads[t].stat == RUNNING ==> t == s.current)
  }

  /** A thread is ready if and only if it is on the one list of its priority; only the current thread runs. */
  ghost predicate Sound(s: State) {
    && |s.ready| == PRIORITIES && (forall p :: 0 <= p < PRIORITIES ==> ListAgrees(s, p))
    && (forall t :: t in s.threads ==> ThreadOk(s, t))
    && s.current in s.threads && s.threads[s.current].stat != READY
  }

  /** The least priority with a ready thread. */
  function Least(ready: seq<seq<int>>, from: nat := 0): (p: nat)
    requires from <= |ready|
    ensures from <= p <= |ready| && (p < |ready| ==> ready[p] != []) && forall q :: from <= q < p ==> ready[q] == []
    decreases |ready| - from
  {
    if from == |ready| || ready[from] != [] then from else Least(ready, from + 1)
  }

  // ----- The functions of the scheduler

  function WithStat(s: State, t: int, stat: Stat): State
    requires t in s.threads
  {
    s.(threads := s.threads[t := s.threads[t].(stat := stat)])
  }

  /** rt_schedule_insert_thread: the current thread runs; another goes to the front, or to the back if it yields. */
  function Insert(s: State, t: int): State
    requires t in s.threads && s.threads[t].prio < |s.ready|
  {
    if t == s.current then WithStat(s, t, RUNNING)
    else
      var p := s.threads[t].prio;
      var l := if s.threads[t].yielding then s.ready[p] + [t] else [t] + s.ready[p];
      WithStat(s, t, READY).(ready := s.ready[p := l])
  }

  /** rt_schedule_remove_thread, as far as the ready lists go. */
  function Remove(s: State, t: int): State
    requires t in s.threads && s.threads[t].prio < |s.ready|
  {
    var p := s.threads[t].prio;
    s.(ready := s.ready[p := Without(s.ready[p], t)])
  }

  /** The current thread gives way when it does not run, is beaten, or yields to its equals. */
  predicate GivesWay(c: Thread, h: nat) {
    c.stat != RUNNING || h < c.prio || (h == c.prio && c.yielding)
  }

  function ClearYield(s: State, t: int): State
    requires t in s.threads
  {
    s.(threads := s.threads[t := s.threads[t].(yielding := false)])
  }

  /**
   rt_schedule. The source clears the YIELD flag of a running thread before it reinserts the
   thread; with `late` it is cleared only afterwards.
   */
  function Schedule(s: State, late: bool := false): State
    requires Sound(s)
  {
    var h := Least(s.ready);
    if s.locks > 0 || h == PRIORITIES then s
    else
      var to, from := s.ready[h][0], s.current;
      var runs := s.threads[from].stat == RUNNING;
      if !GivesWay(s.threads[from], h) then Keep(ClearYield(s, from), from)
      else if !runs then Switch(s, to, h)
      else if late then ClearYield(Switch(Insert(s.(current := to), from), to, h), from)
      else Switch(Insert(ClearYield(s, from).(current := to), from), to, h)
  }

  /** The current thread goes on. */
  function Keep(s: State, t: int): State
    requires t in s.threads && s.threads[t].prio < |s.ready|
  {
    WithStat(Remove(s, t), t, RUNNING)
  }

  /** Thread `to`, ready at priority `h`, becomes the current thread. */
  function Switch(s: State, to: int, h: nat): State
    requires h < |s.ready|
  {
    var s1 := s.(current := to, ready := s.ready[h := Without(s.ready[h], to)]);
    if to in s1.threads then WithStat(s1, to, RUNNING) else s1
  }

  // ----- The functions of a thread

  /** rt_thread_suspend, which only the current thread may call. */
  function Suspend(s: State): State
    requires Sound(s)
  {
    var t := s.current;
    if s.threads[t].stat != RUNNING then s
    else
      assert ThreadOk(s, t);
      WithStat(Remove(s, t), t, SUSPEND)
  }

  /** rt_thread_resume. */
  function Resume(s: State, t: int): State
    requires Sound(s) && t in s.threads
  {
    if s.threads[t].stat != SUSPEND then s
    else
      assert ThreadOk(s, t);
      Insert(s, t)
  }

  /** rt_thread_startup. */
  function Startup(s: State, t: int): State
    requires Sound(s) && t in s.threads && s.threads[t].stat == INIT
  {
    assert ThreadOk(s, t);
    var s1 := Insert(s.(threads := s.threads[t := s.threads[t].(stat := SUSPEND, yielding := false)]), t);
    InsertSound(s, t, s.threads[t].(stat := SUSPEND, yielding := false));
    Schedule(s1)
  }

  /** rt_thread_detach and rt_thread_delete, as far as the scheduler goes. */
  function Close(s: State, t: int): State
    requires Sound(s) && t in s.threads
  {
    assert ThreadOk(s, t);
    if s.threads[t].stat == CLOSE then s
    else if s.threads[t].stat == INIT
      then s.(threads := s.threads[t := s.threads[t].(stat := CLOSE, yielding := false)])
    else Remove(s, t).(threads := s.threads[t := s.threads[t].(stat := CLOSE, yielding := false)])
  }

  /** rt_thread_control with CHANGE_PRIORITY. */
  function ChangePriority(s: State, t: int, p: nat): State
    requires Sound(s) && t in s.threads && p < PRIORITIES
  {
    assert ThreadOk(s, t);
    if s.threads[t].stat == READY then
      var s1 := Remove(s, t);
      Insert(s1.(threads := s.threads[t := s.threads[t].(prio := p)]), t)
    else s.(threads := s.threads[t := s.threads[t].(prio := p)])
  }

  /** rt_thread_yield, and the end of a time slice in rt_tick_increase. */
  function Yield(s: State, late: bool := false): State
    requires Sound(s)
  {
    var s1 := s.(threads := s.threads[s.current := s.threads[s.current].(yielding := true)]);
    ChangedSound(s, s.current, s1.threads[s.current]);
    Schedule(s1, late)
  }

  // ----- What they keep

  /** A change of a thread that is not ready, and does not become ready or running. */
  lemma ChangedSound(s: State, t: int, x: Thread)
    requires Sound(s) && t in s.threads && s.threads[t].stat != READY && x.stat != READY && x.prio < PRIORITIES
    requires x.stat == RUNNING ==> t == s.current
    ensures Sound(s.(threads := s.threads[t := x]))
  {
    var s' := s.(threads := s.threads[t := x]);
    forall p | 0 <= p < PRIORITIES ensures ListAgrees(s', p) {
      assert ListAgrees(s, p);
      forall u ensures u in s'.ready[p] <==> ReadyAt(s', u, p) { assert ReadyAt(s, u, p) <==> ReadyAt(s', u, p); }
    }
    forall u | u in s'.threads ensures ThreadOk(s', u) { assert u != t ==> ThreadOk(s, u); }
  }

  /** A thread that is on no list is inserted, after a change that leaves it suspended. */
  lemma InsertSound(s: State, t: int, x: Thread)
    requires Sound(s) && t in s.threads && s.threads[t].stat != READY && x.stat != READY && x.prio < PRIORITIES
    ensures Sound(Insert(s.(threads := s.threads[t := x]), t))
  {
    var s1 := s.(threads := s.threads[t := x]);
    var s' := Insert(s1, t);
    if t == s.current {
      ChangedSound(s, t, x.(stat := RUNNING));
      assert s'.threads == s.threads[t := x.(stat := RUNNING)];
    } else {
      forall p | 0 <= p < PRIORITIES ensures ListAgrees(s', p) {
        assert ListAgrees(s, p);
        assert !ReadyAt(s, t, p);
        forall u ensures u in s'.ready[p] <==> ReadyAt(s', u, p) {
          assert u != t ==> (ReadyAt(s, u, p) <==> ReadyAt(s', u, p));
        }
      }
      forall u | u in s'.threads ensures ThreadOk(s', u) { assert u != t ==> ThreadOk(s, u); }
    }
  }

  /** A ready thread leaves its list, with a change of state that is not READY. */
  lemma RemoveSound(s: State, t: int, x: Thread, cur: int)
    requires Sound(s) && t in s.threads && x.stat != READY && x.prio < PRIORITIES
    requires cur == s.current || (cur == t && s.threads[s.current].stat != RUNNING)
    requires x.stat == RUNNING ==> t == cur
    ensures s.threads[t].prio < |s.ready| && Sound(Remove(s, t).(threads := s.threads[t := x], current := cur))
  {
    hide Without, Distinct;
    assert ThreadOk(s, t);
    var s' := Remove(s, t).(threads := s.threads[t := x], current := cur);
    forall p | 0 <= p < PRIORITIES ensures ListAgrees(s', p) {
      assert ListAgrees(s, p);
      if p == s.threads[t].prio { WithoutMembers(s.ready[p], t); }
      forall u ensures ReadyAt(s', u, p) <==> u != t && ReadyAt(s, u, p) {
      }
    }
    forall u | u in s'.threads ensures ThreadOk(s', u) { assert ThreadOk(s, u); }
  }

  lemma FlagSound(s: State, t: int, yielding: bool)
    requires Sound(s) && t in s.threads
    ensures Sound(s.(threads := s.threads[t := s.threads[t].(yielding := yielding)]))
  {
    var s' := s.(threads := s.threads[t := s.threads[t].(yielding := yielding)]);
    forall p | 0 <= p < PRIORITIES ensures ListAgrees(s', p) {
      assert ListAgrees(s, p);
      forall u ensures ReadyAt(s', u, p) <==> ReadyAt(s, u, p) {
      }
    }
    forall u | u in s'.threads ensures ThreadOk(s', u) { assert ThreadOk(s, u); }
  }

  /** The running thread and a ready one change places. */
  lemma SwitchSound(s: State, y: Thread, to: int, h: nat, s1: State, s': State)
    requires Sound(s) && h < PRIORITIES && to in s.ready[h] && s.threads[s.current].stat == RUNNING
    requires y == s.threads[s.current].(yielding := y.yielding) && y.prio < PRIORITIES
    requires s1 == Insert(s.(threads := s.threads[s.current := y], current := to), s.current)
    requires s' == Switch(s1, to, h)
    ensures Sound(s')
  {
    hide Without, Distinct;
    var from := s.current;
    assert ListAgrees(s, h) && ReadyAt(s, to, h);
    forall p | 0 <= p < PRIORITIES ensures ListAgrees(s', p) {
      assert ListAgrees(s, p);
      assert !ReadyAt(s, from, p);
      EnterMembers(s.ready[p], from);
      assert p == y.prio ==> s1.ready[p] == if y.yielding then s.ready[p] + [from] else [from] + s.ready[p];
      WithoutMembers(s1.ready[p], to);
      forall u ensures ReadyAt(s', u, p) <==> u != to && (ReadyAt(s, u, p) || (u == from && p == y.prio)) {
      }
    }
    forall u | u in s'.threads ensures ThreadOk(s', u) { assert ThreadOk(s, u); }
  }

  lemma EnterMembers(l: seq<int>, t: int)
    requires Distinct(l) && t !in l
    ensures Distinct(l + [t]) && Distinct([t] + l)
    ensures forall u :: (u in l + [t] <==> u in l || u == t) && (u in [t] + l <==> u in l || u == t)
  {
  }

  /** No ready thread has a higher priority (a smaller number) than the current thread. */
  ghost predicate Top(s: State)
    requires s.current in s.threads
  {
    forall t :: t in s.threads && s.threads[t].stat == READY ==> s.threads[s.current].prio <= s.threads[t].prio
  }

  lemma LeastIsTop(s: State, t: int)
    requires Sound(s) && t in s.threads && s.threads[t].stat == READY
    ensures Least(s.ready) <= s.threads[t].prio < PRIORITIES
  {
    var p := s.threads[t].prio;
    assert ThreadOk(s, t) && ListAgrees(s, p) && ReadyAt(s, t, p);
  }

  lemma LeastHead(s: State)
    requires Sound(s) && Least(s.ready) < PRIORITIES
    ensures var h := Least(s.ready); ReadyAt(s, s.ready[h][0], h) && s.ready[h][0] in s.ready[h]
  {
    assert ListAgrees(s, Least(s.ready));
  }

  /**
   With the scheduler unlocked rt_schedule leaves a thread running that no ready thread beats;
   a switch goes to the first of the best ready threads, and happens only if the current thread
   does not run, is beaten, or yields to an equal.
   */
  lemma ScheduleMeaning(s: State, late: bool)
    requires Sound(s)
    ensures var s' := Schedule(s, late);
            && Sound(s') && s'.locks == s.locks && s'.threads.Keys == s.threads.Keys
            && (s.locks == 0 && (s.threads[s.current].stat == RUNNING || Least(s.ready) < PRIORITIES) ==>
                  s'.threads[s'.current].stat == RUNNING && Top(s'))
    ensures var h := Least(s.ready);
            Schedule(s, late).current ==
              if s.locks == 0 && h < PRIORITIES && GivesWay(s.threads[s.current], h) then s.ready[h][0] else s.current
  {
    hide Least, Without, Insert, Switch, Distinct;
    var h, from := Least(s.ready), s.current;
    assert ThreadOk(s, from);
    if h == PRIORITIES {
      forall t | t in s.threads ensures s.threads[t].stat != READY {
        if s.threads[t].stat == READY { LeastIsTop(s, t); }
      }
    } else if s.locks == 0 {
      LeastHead(s);
      if !GivesWay(s.threads[from], h) {
        KeepMeaning(s);
      } else if s.threads[from].stat != RUNNING {
        TakeMeaning(s, h);
      } else {
        TradeMeaning(s, h, late);
      }
    }
  }

  lemma KeepMeaning(s: State)
    requires Sound(s) && s.threads[s.current].prio < PRIORITIES && !GivesWay(s.threads[s.current], Least(s.ready))
    ensures var s' := Keep(ClearYield(s, s.current), s.current);
            && Sound(s') && Top(s') && s'.threads.Keys == s.threads.Keys && s'.ready == s.ready
            && s'.current == s.current && s'.locks == s.locks && s'.threads[s'.current].stat == RUNNING
  {
    hide Least;
    var c, t := s.threads[s.current], s.current;
    var s' := Keep(ClearYield(s, t), t);
    assert ListAgrees(s, c.prio) && !ReadyAt(s, t, c.prio);
    assert Without(s.ready[c.prio], t) == s.ready[c.prio];
    assert s'.ready == s.ready;
    FlagSound(s, t, false);
    assert s'.threads == s.threads[t := c.(yielding := false)];
    forall u | u in s'.threads && s'.threads[u].stat == READY ensures c.prio <= s'.threads[u].prio { LeastIsTop(s, u); }
  }

  lemma TakeMeaning(s: State, h: nat)
    requires Sound(s) && h == Least(s.ready) < PRIORITIES && s.threads[s.current].stat != RUNNING
    requires ReadyAt(s, s.ready[h][0], h)
    ensures var s' := Switch(s, s.ready[h][0], h);
            && Sound(s') && Top(s') && s'.threads.Keys == s.threads.Keys && s'.current == s.ready[h][0]
               && s'.locks == s.locks
            && s'.threads[s'.current].stat == RUNNING
  {
    hide Least, Without, Distinct;
    var to := s.ready[h][0];
    var s' := Switch(s, to, h);
    RemoveSound(s, to, s.threads[to].(stat := RUNNING), to);
    assert s' == Remove(s, to).(threads := s.threads[to := s.threads[to].(stat := RUNNING)], current := to);
    forall u | u in s'.threads && s'.threads[u].stat == READY ensures h <= s'.threads[u].prio { LeastIsTop(s, u); }
  }

  lemma TradeMeaning(s: State, h: nat, late: bool)
    requires Sound(s) && s.locks == 0 && h == Least(s.ready) < PRIORITIES && s.threads[s.current].stat == RUNNING
    requires GivesWay(s.threads[s.current], h) && s.threads[s.current].prio < PRIORITIES && ReadyAt(s, s.ready[h][0], h)
    ensures var s' := Schedule(s, late);
            && Sound(s') && Top(s') && s'.threads.Keys == s.threads.Keys && s'.current == s.ready[h][0]
               && s'.locks == s.locks
            && s'.threads[s'.current].stat == RUNNING
  {
    hide Least, Without, Distinct;
    var to, from := s.ready[h][0], s.current;
    var y := if late then s.threads[from] else s.threads[from].(yielding := false);
    var s0 := s.(threads := s.threads[from := y], current := to);
    var s1 := Insert(s0, from);
    var s2 := Switch(s1, to, h);
    assert s.threads[from := s.threads[from]] == s.threads;
    assert s2.threads.Keys == s.threads.Keys;
    SwitchSound(s, y, to, h, s1, s2);
    if late { FlagSound(s2, from, false); }
    var s' := Schedule(s, late);
    forall u | u in s'.threads && s'.threads[u].stat == READY ensures h <= s'.threads[u].prio {
      if u != from { LeastIsTop(s, u); }
    }
  }

  // ----- Whole runs

  datatype Op =
    | DoSchedule
    | DoYield
    | DoSuspend
    | DoResume(t: int)
    | DoStartup(t: int)
    | DoClose(t: int)
    | DoPriority(t: int, p: nat)
    | Lock
    | Unlock

  ghost predicate Legal(s: State, op: Op) {
    match op
    case DoResume(t) => t in s.threads
    case DoStartup(t) => t in s.threads && s.threads[t].stat == INIT
    case DoClose(t) => t in s.threads
    case DoPriority(t, p) => t in s.threads && p < PRIORITIES
    case _ => true
  }

  function Step(s: State, op: Op): State
    requires Sound(s) && Legal(s, op)
  {
    match op
    case DoSchedule => Schedule(s)
    case DoYield => Yield(s)
    case DoSuspend => Suspend(s)
    case DoResume(t) => Resume(s, t)
    case DoStartup(t) => Startup(s, t)
    case DoClose(t) => Close(s, t)
    case DoPriority(t, p) => ChangePriority(s, t, p)
    case Lock => s.(locks := s.locks + 1)
    case Unlock =>
      // rt_exit_critical
      if s.locks <= 1 then LocksSound(s, 0); Schedule(s.(locks := 0)) else s.(locks := s.locks - 1)
  }

  lemma LocksSound(s: State, n: nat)
    requires Sound(s)
    ensures Sound(s.(locks := n))
  {
    var s' := s.(locks := n);
    forall p | 0 <= p < PRIORITIES ensures ListAgrees(s', p) {
      assert ListAgrees(s, p);
      forall u ensures ReadyAt(s', u, p) <==> ReadyAt(s, u, p) {
      }
    }
    forall u | u in s'.threads ensures ThreadOk(s', u) { assert ThreadOk(s, u); }
  }

  /** Every call keeps ready threads and ready lists in agreement. */
  lemma StepKeeps(s: State, op: Op)
    requires Sound(s) && Legal(s, op)
    ensures Sound(Step(s, op)) && Step(s, op).threads.Keys == s.threads.Keys
  {
    hide Schedule, Least, Without, Distinct, ListAgrees;
    match op
    case DoSchedule => ScheduleMeaning(s, false);
    case DoYield =>
      FlagSound(s, s.current, true);
      ScheduleMeaning(s.(threads := s.threads[s.current := s.threads[s.current].(yielding := true)]), false);
    case DoSuspend =>
      NotListed(s, s.current);
      if s.threads[s.current].stat == RUNNING { ChangedSound(s, s.current, s.threads[s.current].(stat := SUSPEND)); }
    case DoResume(t) =>
      assert ThreadOk(s, t);
      assert s.threads[t := s.threads[t]] == s.threads;
      if s.threads[t].stat == SUSPEND { InsertSound(s, t, s.threads[t]); }
    case DoStartup(t) =>
      assert ThreadOk(s, t);
      var x := s.threads[t].(stat := SUSPEND, yielding := false);
      InsertSound(s, t, x);
      ScheduleMeaning(Insert(s.(threads := s.threads[t := x]), t), false);
    case DoClose(t) => CloseSound(s, t);
    case DoPriority(t, p) => PrioritySound(s, t, p);
    case Lock => LocksSound(s, s.locks + 1);
    case Unlock =>
      LocksSound(s, if s.locks <= 1 then 0 else s.locks - 1);
      if s.locks <= 1 { ScheduleMeaning(s.(locks := 0), false); }
  }

  /** rt_schedule_remove_thread changes no list if the thread is not ready. */
  lemma NotListed(s: State, t: int)
    requires Sound(s) && t in s.threads
    ensures s.threads[t].prio < |s.ready|
    ensures s.threads[t].stat != READY ==> Remove(s, t) == s
  {
    assert ThreadOk(s, t);
    var p := s.threads[t].prio;
    assert ListAgrees(s, p) && (s.threads[t].stat != READY ==> !ReadyAt(s, t, p));
    if s.threads[t].stat != READY { assert Without(s.ready[p], t) == s.ready[p]; }
  }

  lemma CloseSound(s: State, t: int)
    requires Sound(s) && t in s.threads
    ensures Sound(Close(s, t)) && Close(s, t).threads.Keys == s.threads.Keys
  {
    hide Without, Distinct, ListAgrees;
    assert ThreadOk(s, t);
    var x := s.threads[t].(stat := CLOSE, yielding := false);
    NotListed(s, t);
    if s.threads[t].stat == READY {
      RemoveSound(s, t, x, s.current);
    } else if s.threads[t].stat != CLOSE {
      ChangedSound(s, t, x);
    }
  }

  lemma PrioritySound(s: State, t: int, p: nat)
    requires Sound(s) && t in s.threads && p < PRIORITIES
    ensures Sound(ChangePriority(s, t, p)) && ChangePriority(s, t, p).threads.Keys == s.threads.Keys
  {
    hide Without, Distinct, ListAgrees;
    assert ThreadOk(s, t);
    var x := s.threads[t].(prio := p);
    if s.threads[t].stat == READY {
      RemoveSound(s, t, x.(stat := SUSPEND), s.current);
      var s1 := Remove(s, t).(threads := s.threads[t := x.(stat := SUSPEND)]);
      InsertSound(s1, t, x.(stat := SUSPEND));
      assert s1.threads[t := x.(stat := SUSPEND)] == s1.threads;
      assert Insert(s1, t).threads == ChangePriority(s, t, p).threads;
    } else {
      ChangedSound(s, t, x);
    }
  }

  /**
   A change of priority does not schedule. The best thread still runs exactly if the changed thread
   is not ready or does not beat the current one; or is the current one and is beaten by none.
   */
  lemma PriorityTopIff(s: State, t: int, p: nat)
    requires Sound(s) && Top(s) && t in s.threads && p < PRIORITIES
    ensures var s' := ChangePriority(s, t, p);
            s'.current in s'.threads &&
            (Top(s') <==>
               if t == s.current
               then forall u :: u in s.threads && s.threads[u].stat == READY ==> p <= s.threads[u].prio
               else s.threads[t].stat != READY || s.threads[s.current].prio <= p)
  {
    hide Without, ListAgrees;
    var s' := ChangePriority(s, t, p);
    assert forall u :: u in s.threads && u != t ==> s'.threads[u] == s.threads[u];
    assert s'.threads[t].prio == p && s'.threads[t].stat == s.threads[t].stat && s'.current == s.current;
  }

  ghost predicate LegalRun(s: State, ops: seq<Op>)
    requires Sound(s)
    decreases |ops|
  {
    ops == [] || (Legal(s, ops[0]) && (StepKeeps(s, ops[0]); LegalRun(Step(s, ops[0]), ops[1..])))
  }

  function Run(s: State, ops: seq<Op>): State
    requires Sound(s) && LegalRun(s, ops)
    decreases |ops|
  {
    if ops == [] then s else StepKeeps(s, ops[0]); Run(Step(s, ops[0]), ops[1..])
  }

  /** After any run of calls that ends in rt_schedule, with the scheduler unlocked, the best thread runs. */
  lemma {:induction false} RunKeeps(s: State, ops: seq<Op>)
    requires Sound(s) && LegalRun(s, ops)
    ensures var s' := Run(s, ops);
            && Sound(s') && s'.threads.Keys == s.threads.Keys
            && (s'.locks == 0 && (s'.threads[s'.current].stat == RUNNING || Least(s'.ready) < PRIORITIES) ==>
                  var r := Schedule(s');
                  r.current in r.threads && r.threads[r.current].stat == RUNNING && Top(r))
    decreases |ops|
  {
    hide Schedule, Step, Least, ListAgrees, ThreadOk;
    if ops == [] {
      ScheduleMeaning(s, false);
    } else {
      StepKeeps(s, ops[0]);
      RunKeeps(Step(s, ops[0]), ops[1..]);
    }
  }

  // ----- The order of yields

  /** `c` runs, unlocked, and the best ready threads are its equals. */
  ghost predicate Turn(s: State, c: int, p: nat) {
    && Sound(s) && s.locks == 0 && s.current == c && c in s.threads
    && s.threads[c].stat == RUNNING && s.threads[c].prio == p < PRIORITIES && Least(s.ready) == p
  }

  lemma YieldOnce(s: State, c: int, p: nat, late: bool)
    requires Turn(s, c, p)
    ensures |s.ready| == PRIORITIES && s.ready[p] != []
    ensures Turn(Yield(s, late), s.ready[p][0], p)
    ensures Yield(s, late).ready == s.ready[p := if late then s.ready[p][1..] + [c] else [c] + s.ready[p][1..]]
  {
    hide Distinct;
    var s1 := s.(threads := s.threads[c := s.threads[c].(yielding := true)]);
    var to, rest := s.ready[p][0], s.ready[p][1..];
    LeastHead(s);
    assert ListAgrees(s, p) && !ReadyAt(s, c, p);
    ChangedSound(s, c, s1.threads[c]);
    ScheduleMeaning(s1, late);
    assert s.ready[p] == [to] + rest;
    if late {
      assert s.ready[p] + [c] == [to] + (rest + [c]);
      HeadWithout(to, rest + [c]);
    } else {
      assert [c] + s.ready[p] == [c, to] + rest;
      SecondWithout(c, to, rest);
    }
    var s' := Yield(s, late);
    assert s'.ready == s.ready[p := if late then rest + [c] else [c] + rest];
    LeastSame(s.ready, s'.ready, p);
  }

  lemma HeadWithout(a: int, l: seq<int>)
    ensures Without([a] + l, a) == l
  {
    assert ([a] + l)[0] == a;
  }

  lemma SecondWithout(c: int, a: int, l: seq<int>)
    requires c != a
    ensures Without([c, a] + l, a) == [c] + l
  {
    var m := [c, a] + l;
    assert m[0] == c && m[1] == a && IndexOf(m, a, 1) == 1;
    assert IndexOf(m, a) == 1;
    assert m[..1] == [c] && m[2..] == l;
  }

  lemma LeastSame(ready: seq<seq<int>>, ready': seq<seq<int>>, p: nat)
    requires p == Least(ready) < |ready| == |ready'| && ready' == ready[p := ready'[p]] && ready'[p] != []
    ensures Least(ready') == p
  {
  }

  function Yields(s: State, n: nat, late: bool): State
    requires Sound(s)
    decreases n
  {
    if n == 0 then s
    else
      FlagSound(s, s.current, true);
      ScheduleMeaning(s.(threads := s.threads[s.current := s.threads[s.current].(yielding := true)]), late);
      Yields(Yield(s, late), n - 1, late)
  }

  /**
   As the source is written, two threads take turns for ever: however many threads are ready at
   the priority, yields alternate between the running thread and the first ready one, and the
   rest of the list is never reached.
   */
  lemma {:induction false} YieldAlternates(s: State, c: int, p: nat, n: nat)
    requires Turn(s, c, p)
    ensures |s.ready| == PRIORITIES && s.ready[p] != []
    ensures var a, rest := s.ready[p][0], s.ready[p][1..];
            var s' := Yields(s, n, false);
            && s'.current == (if n % 2 == 0 then c else a)
            && s'.ready == s.ready[p := [if n % 2 == 0 then a else c] + rest]
    decreases n
  {
    hide Turn, Yield;
    TurnHas(s, c, p);
    var a, rest := s.ready[p][0], s.ready[p][1..];
    assert s.ready[p] == [a] + rest;
    if n == 0 {
      assert s.ready[p := [a] + rest] == s.ready;
    } else {
      YieldOnce(s, c, p, false);
      var s1 := Yield(s);
      YieldAlternates(s1, a, p, n - 1);
      assert s1.ready[p] == [c] + rest;
      assert s1.ready[p][1..] == rest;
    }
  }

  lemma TurnHas(s: State, c: int, p: nat)
    requires Turn(s, c, p)
    ensures Sound(s) && s.current == c && |s.ready| == PRIORITIES && p < PRIORITIES && s.ready[p] != []
  {
  }

  function Rotated(r: seq<int>, n: nat): seq<int>
    decreases n
  {
    if n == 0 || r == [] then r else Rotated(r[1..] + [r[0]], n - 1)
  }

  lemma {:induction false} RotatedIs(r: seq<int>, n: nat)
    requires n <= |r|
    ensures Rotated(r, n) == r[n..] + r[..n]
    decreases n
  {
    if n > 0 {
      var q := r[1..] + [r[0]];
      RotatedIs(q, n - 1);
      assert q[n - 1..] == r[n..] + [r[0]] && q[..n - 1] == r[1..n];
    }
  }

  lemma {:induction false} LateYields(s: State, c: int, p: nat, n: nat)
    requires Turn(s, c, p)
    ensures |s.ready| == PRIORITIES
    ensures var s' := Yields(s, n, true);
            && |s'.ready| == PRIORITIES && [s'.current] + s'.ready[p] == Rotated([c] + s.ready[p], n)
            && s'.ready == s.ready[p := s'.ready[p]]
    decreases n
  {
    hide Turn, Yield;
    TurnHas(s, c, p);
    if n > 0 {
      YieldOnce(s, c, p, true);
      var s1 := Yield(s, true);
      LateYields(s1, s.ready[p][0], p, n - 1);
      var ring := [c] + s.ready[p];
      assert ring[1..] == s.ready[p] && ring[0] == c;
      assert [s.ready[p][0]] + s1.ready[p] == ring[1..] + [c];
    }
  }

  /**
   With the flag cleared after the reinsertion, as the comment in the source intends, the yields
   go round all threads of the priority: each runs in its turn, and then all is as before.
   */
  lemma LateYieldRotates(s: State, c: int, p: nat, n: nat)
    requires Turn(s, c, p) && |s.ready| == PRIORITIES && n <= |s.ready[p]| + 1
    ensures var ring := [c] + s.ready[p];
            if n < |ring| then Yields(s, n, true).current == ring[n]
            else Yields(s, n, true).current == c && Yields(s, n, true).ready == s.ready
  {
    hide Turn, Yield, Yields;
    TurnHas(s, c, p);
    var ring, s' := [c] + s.ready[p], Yields(s, n, true);
    LateYields(s, c, p, n);
    RotatedIs(ring, n);
    assert ([s'.current] + s'.ready[p])[0] == s'.current;
    if n == |ring| {
      assert ring[n..] + ring[..n] == ring;
      assert ([s'.current] + s'.ready[p])[1..] == s'.ready[p] && ring[1..] == s.ready[p];
    }
  }
}
