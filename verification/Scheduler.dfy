/**
 The scheduler as the source keeps it: the thread records with their priority masks, the ready
 lists, and the bitmap of the priorities that have ready threads. The bitmap is proved to agree
 with the lists, and the methods to do what SchedulerRuns says.
 */
module Scheduler {
  import RtList
  import opened ReadyBits
  import opened SchedulerRuns

  /** The priorities with a ready thread. */
  ghost function Busy(ready: seq<seq<int>>): set<nat> {
    set p: nat | p < |ready| && ready[p] != []
  }

  predicate Started(stat: Stat) { stat != INIT && stat != CLOSE }

  class Kernel {
    var threads: map<int, Thread>
    /** `number_mask` of each thread. */
    var mask: map<int, nat>
    /** rt_thread_priority_table. */
    var ready: seq<seq<int>>
    /** rt_thread_ready_priority_group. */
    var group: nat
    var current: int
    var locks: nat

    ghost function Model(): State
      reads this
    {
      State(threads, ready, current, locks)
    }

    /** A thread that was started has the mask of its priority. */
    ghost predicate Masked()
      reads this
    {
      mask.Keys == threads.Keys
          && forall t :: t in threads && Started(threads[t].stat) ==> mask[t] == One(threads[t].prio)
    }

    ghost predicate Valid()
      reads this
    {
      Sound(Model()) && Shows(group, Busy(ready)) && Masked()
    }

    /** rt_schedule_insert_thread. */
    method InsertThread(t: int)
      requires |ready| == PRIORITIES && t in threads && threads[t].prio < PRIORITIES
      requires Shows(group, Busy(ready)) && Masked() && mask[t] == One(threads[t].prio)
      modifies `threads, `ready, `group
      ensures Model() == Insert(old(Model()), t)
      ensures Shows(group, Busy(ready)) && Masked()
    {
      if t == current {
        threads := threads[t := threads[t].(stat := RUNNING)];
        return;
      }
      threads := threads[t := threads[t].(stat := READY)];
      var p := threads[t].prio;
      ghost var ready0 := ready;
      if threads[t].yielding {
        ready := ready[p := ready[p] + [t]];
      } else {
        ready := ready[p := [t] + ready[p]];
      }
      SetShows(group, Busy(ready0), p);
      group := Or(group, mask[t]);
      assert Busy(ready) == Busy(ready0) + {p};
    }

    /** rt_schedule_remove_thread. */
    method RemoveThread(t: int)
      requires |ready| == PRIORITIES && t in threads && threads[t].prio < PRIORITIES
      requires Shows(group, Busy(ready)) && Masked() && mask[t] == One(threads[t].prio)
      modifies `ready, `group
      ensures Model() == Remove(old(Model()), t)
      ensures Shows(group, Busy(ready))
    {
      hide RtList.Without;
      var p := threads[t].prio;
      ghost var ready0 := ready;
      ready := ready[p := RtList.Without(ready[p], t)];
      WithoutEmpty(t);
      if ready[p] == [] {
        ClearShows(group, Busy(ready0), p);
        group := AndNot(group, mask[t]);
        assert Busy(ready) == Busy(ready0) - {p};
      } else {
        if ready0[p] == [] { assert false; }
        assert Busy(ready) == Busy(ready0);
      }
    }

    /** _scheduler_get_highest_priority_thread. */
    method HighestReady() returns (to: int, h: nat)
      requires Valid() && group != 0
      ensures h == Least(ready) < PRIORITIES && to == ready[h][0]
    {
      ScanFindsLeast(group, Busy(ready));
      h := Ffs(group) - 1;
      assert h in Busy(ready);
      LeastIs(ready, h);
      to := ready[h][0];
    }

    /** The part of rt_schedule that changes the current thread. */
    method SwitchTo(from: int, to: int, needInsert: bool)
      requires |ready| == PRIORITIES && to in threads && threads[to].prio < PRIORITIES && Started(threads[to].stat)
      requires from == current && from in threads && from != to && threads[from].prio < PRIORITIES
      requires needInsert ==> Started(threads[from].stat)
      requires Shows(group, Busy(ready)) && Masked()
      modifies `threads, `ready, `group, `current
      ensures var s1 := old(Model()).(current := to);
              Model() == Switch(if needInsert then Insert(s1, from) else s1, to, old(threads[to].prio))
      ensures Shows(group, Busy(ready)) && Masked()
    {
      hide RtList.Without, Shows;
      current := to;
      if needInsert { InsertThread(from); }
      RemoveThread(to);
      threads := threads[to := threads[to].(stat := RUNNING)];
    }

    /** rt_schedule. */
    method Reschedule()
      requires Valid()
      modifies `threads, `ready, `group, `current
      ensures Valid() && Sound(old(Model())) && Model() == Schedule(old(Model()))
    {
      hide Insert, Remove, RtList.Without, Least, Shows, RtList.Distinct;
      ghost var s0 := Model();
      ScheduleMeaning(s0, false);
      LeastOrNone(group, ready);
      if locks == 0 {
        if group != 0 {
          var needInsert := false;
          var to, h := HighestReady();
          LeastHead(s0);
          assert ThreadOk(s0, current) && ThreadOk(s0, to);
          var from := current;
          if threads[current].stat == RUNNING {
            if threads[current].prio < h {
              to := current;
            } else if threads[current].prio == h && !threads[current].yielding {
              to := current;
            } else {
              needInsert := true;
            }
            threads := threads[current := threads[current].(yielding := false)];
          }
          if to != current {
            SwitchTo(from, to, needInsert);
          } else {
            RemoveThread(current);
            threads := threads[current := threads[current].(stat := RUNNING)];
          }
        }
      }
    }

    /** The state that rt_system_scheduler_init and rt_system_scheduler_start leave with one thread started. */
    constructor (t: int, prio: nat)
      requires prio < PRIORITIES
      ensures Valid() && Model() == State(map[t := Thread(RUNNING, false, prio)], seq(PRIORITIES, _ => []), t, 0)
    {
      threads, mask := map[t := Thread(RUNNING, false, prio)], map[t := One(prio)];
      ready := seq(PRIORITIES, _ => []);
      group, current, locks := 0, t, 0;
      new;
      forall p: nat ensures !Has(0, p) { ZeroHas(p); }
      forall p | 0 <= p < PRIORITIES ensures ListAgrees(Model(), p) {
      }
    }

    /** The part of rt_thread_init that the scheduler sees. */
    method Create(t: int, prio: nat)
      requires Valid() && t !in threads && prio < PRIORITIES
      modifies `threads, `mask
      ensures Valid() && Model() == old(Model()).(threads := old(threads)[t := Thread(INIT, false, prio)])
    {
      ghost var s0 := Model();
      threads, mask := threads[t := Thread(INIT, false, prio)], mask[t := 0];
      forall p | 0 <= p < PRIORITIES ensures ListAgrees(Model(), p) {
        assert ListAgrees(s0, p);
        forall u ensures ReadyAt(Model(), u, p) <==> ReadyAt(s0, u, p) {
        }
      }
      forall u | u in threads ensures ThreadOk(Model(), u) { assert u != t ==> ThreadOk(s0, u); }
    }

    /** rt_thread_suspend. */
    method SuspendSelf() returns (ok: bool)
      requires Valid()
      modifies `threads, `ready, `group
      ensures Valid() && Sound(old(Model())) && Model() == Suspend(old(Model()))
      ensures ok == (old(threads[current].stat) == RUNNING)
    {
      hide Remove, Shows, ListAgrees;
      ghost var s0 := Model();
      StepKeeps(s0, DoSuspend);
      assert ThreadOk(s0, current);
      if threads[current].stat != READY && threads[current].stat != RUNNING { return false; }
      RemoveThread(current);
      threads := threads[current := threads[current].(stat := SUSPEND)];
      return true;
    }

    /** rt_thread_resume. */
    method ResumeThread(t: int) returns (ok: bool)
      requires Valid() && t in threads
      modifies `threads, `ready, `group
      ensures Valid() && Sound(old(Model())) && Model() == Resume(old(Model()), t)
      ensures ok == (old(threads[t].stat) == SUSPEND)
    {
      hide Insert, Shows, ListAgrees;
      ghost var s0 := Model();
      StepKeeps(s0, DoResume(t));
      assert ThreadOk(s0, t);
      if threads[t].stat != SUSPEND { return false; }
      InsertThread(t);
      return true;
    }

    /** rt_thread_startup. */
    method Start(t: int)
      requires Valid() && t in threads && threads[t].stat == INIT
      modifies `threads, `ready, `group, `mask, `current
      ensures Valid() && Sound(old(Model())) && Model() == Startup(old(Model()), t)
    {
      hide Insert, Shows, ListAgrees, Schedule;
      ghost var s0 := Model();
      assert ThreadOk(s0, t);
      mask := mask[t := One(threads[t].prio)];
      threads := threads[t := threads[t].(stat := SUSPEND, yielding := false)];
      InsertSound(s0, t, threads[t]);
      InsertThread(t);
      Reschedule();
    }

    /** rt_thread_detach and rt_thread_delete. */
    method CloseThread(t: int)
      requires Valid() && t in threads
      modifies `threads, `ready, `group
      ensures Valid() && Sound(old(Model())) && Model() == Close(old(Model()), t)
    {
      hide Remove, Shows, ListAgrees;
      ghost var s0 := Model();
      StepKeeps(s0, DoClose(t));
      assert ThreadOk(s0, t);
      if threads[t].stat == CLOSE { return; }
      if threads[t].stat != INIT { RemoveThread(t); }
      threads := threads[t := threads[t].(stat := CLOSE, yielding := false)];
    }

    /** rt_thread_control with CHANGE_PRIORITY. */
    method SetPriority(t: int, p: nat)
      requires Valid() && t in threads && p < PRIORITIES
      modifies `threads, `ready, `group, `mask
      ensures Valid() && Sound(old(Model())) && Model() == ChangePriority(old(Model()), t, p)
    {
      hide Insert, Remove, Shows, ListAgrees;
      ghost var s0 := Model();
      StepKeeps(s0, DoPriority(t, p));
      assert ThreadOk(s0, t);
      if threads[t].stat == READY {
        RemoveThread(t);
        RemoveLength(s0, t);
        threads := threads[t := threads[t].(prio := p)];
        mask := mask[t := One(p)];
        InsertThread(t);
      } else {
        threads := threads[t := threads[t].(prio := p)];
        mask := mask[t := One(p)];
      }
    }

    /** rt_thread_yield. */
    method YieldSelf()
      requires Valid()
      modifies `threads, `ready, `group, `current
      ensures Valid() && Sound(old(Model())) && Model() == Yield(old(Model()))
    {
      hide Shows, ListAgrees, Schedule;
      FlagSound(Model(), current, true);
      threads := threads[current := threads[current].(yielding := true)];
      Reschedule();
    }

    /** rt_enter_critical. */
    method EnterCritical()
      requires Valid()
      modifies `locks
      ensures Valid() && Sound(old(Model())) && Model() == Step(old(Model()), Lock)
    {
      LocksSound(Model(), locks + 1);
      locks := locks + 1;
    }

    /** rt_exit_critical. */
    method ExitCritical()
      requires Valid()
      modifies `threads, `ready, `group, `current, `locks
      ensures Valid() && Sound(old(Model())) && Model() == Step(old(Model()), Unlock)
    {
      hide Shows, ListAgrees, Schedule;
      LocksSound(Model(), if locks <= 1 then 0 else locks - 1);
      if locks <= 1 {
        locks := 0;
        Reschedule();
      } else {
        locks := locks - 1;
      }
    }
  }

  lemma RemoveLength(s: State, t: int)
    requires t in s.threads && s.threads[t].prio < |s.ready|
    ensures |Remove(s, t).ready| == |s.ready| && Remove(s, t).threads == s.threads && Remove(s, t).current == s.current
  {
  }

  lemma WithoutEmpty(t: int)
    ensures RtList.Without([], t) == []
  {
  }

  lemma LeastIs(ready: seq<seq<int>>, p: nat)
    requires p in Busy(ready) && forall q :: q in Busy(ready) ==> p <= q
    ensures Least(ready) == p
  {
    var l := Least(ready);
    if l < |ready| { assert l in Busy(ready); }
  }

  lemma LeastOrNone(group: nat, ready: seq<seq<int>>)
    requires Shows(group, Busy(ready))
    ensures group == 0 <==> Least(ready) == |ready|
  {
    ScanFindsLeast(group, Busy(ready));
    var l := Least(ready);
    if l < |ready| { assert l in Busy(ready); }
  }
}
