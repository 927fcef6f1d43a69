/**
 The ready queue of rt-thread/src/scheduler.c in a kernel with 256 priorities: the ready lists,
 the two-level bitmap over them, and the masks that rt-thread/src/thread.c computes for each
 thread. The bitmap is proved to agree with the lists, and the lists to be those of SchedulerRuns.
 */
module ReadyQueue {
  import RtList
  import opened ReadyBits
  import Scheduler
  import opened SchedulerRuns

  /** RT_THREAD_PRIORITY_MAX. */
  const WIDE := 256

  /** `number`, `number_mask` and `high_mask` of a thread. */
  datatype Masks = Masks(number: nat, numberMask: nat, highMask: nat)

  /** What the start of a thread and a change of its priority compute. */
  function MasksOf(prio: nat): Masks { Masks(prio / 8, One(prio / 8), One(prio % 8)) }

  class Queue {
    var threads: map<int, Thread>
    var masks: map<int, Masks>
    /** rt_thread_priority_table. */
    var ready: seq<seq<int>>
    /** rt_thread_ready_priority_group and rt_thread_ready_table. */
    var levels: Levels
    var current: int

    ghost function Model(): State
      reads this
    {
      State(threads, ready, current, 0)
    }

    /** Both levels of the bitmap show just the priorities with a ready thread. */
    ghost predicate Valid()
      reads this
    {
      && |ready| == WIDE && BothShow(levels, Scheduler.Busy(ready)) && masks.Keys == threads.Keys
      && forall t :: t in threads ==> threads[t].prio < WIDE && masks[t] == MasksOf(threads[t].prio)
    }

    /** rt_system_scheduler_init, with the threads there will be. */
    constructor (threads: map<int, Thread>, current: int)
      requires forall t :: t in threads ==> threads[t].prio < WIDE
      ensures Valid() && Model() == State(threads, seq(WIDE, _ => []), current, 0)
    {
      this.threads, this.current := threads, current;
      masks := map t | t in threads :: MasksOf(threads[t].prio);
      ready := seq(WIDE, _ => []);
      levels := Levels(0, seq(32, _ => 0));
      new;
      assert Scheduler.Busy(ready) == {};
      NoneShown(levels);
    }

    /** rt_schedule_insert_thread. */
    method InsertThread(t: int)
      requires Valid() && t in threads
      modifies `threads, `ready, `levels
      ensures Valid() && Model() == Insert(old(Model()), t)
    {
      hide BothShow;
      if t == current {
        threads := threads[t := threads[t].(stat := RUNNING)];
        return;
      }
      threads := threads[t := threads[t].(stat := READY)];
      var p, x := threads[t].prio, masks[t];
      ghost var ready0 := ready;
      if threads[t].yielding {
        ready := ready[p := ready[p] + [t]];
      } else {
        ready := ready[p := [t] + ready[p]];
      }
      RaiseShows(levels, Scheduler.Busy(ready0), p);
      TableFits(levels, Scheduler.Busy(ready0));
      levels := levels.(table := levels.table[x.number := Or(levels.table[x.number], x.highMask)]);
      levels := levels.(group := Or(levels.group, x.numberMask));
      assert Scheduler.Busy(ready) == Scheduler.Busy(ready0) + {p};
    }

    /** rt_schedule_remove_thread. */
    method RemoveThread(t: int)
      requires Valid() && t in threads
      modifies `ready, `levels
      ensures Valid() && Model() == Remove(old(Model()), t)
    {
      hide RtList.Without, BothShow;
      var p, x := threads[t].prio, masks[t];
      ghost var ready0 := ready;
      ready := ready[p := RtList.Without(ready[p], t)];
      Scheduler.WithoutEmpty(t);
      assert ready[p] != [] ==> ready0[p] != [];
      if ready[p] == [] {
        LowerShows(levels, Scheduler.Busy(ready0), p);
        TableFits(levels, Scheduler.Busy(ready0));
        levels := levels.(table := levels.table[x.number := AndNot(levels.table[x.number], x.highMask)]);
        if levels.table[x.number] == 0 { levels := levels.(group := AndNot(levels.group, x.numberMask)); }
        assert Scheduler.Busy(ready) == Scheduler.Busy(ready0) - {p};
      } else {
        assert Scheduler.Busy(ready) == Scheduler.Busy(ready0);
      }
    }

    /** _scheduler_get_highest_priority_thread: the two scans, and the first thread of the list they lead to. */
    method HighestReady() returns (to: int, h: nat)
      requires Valid() && levels.group != 0
      ensures h == Least(ready) < WIDE && to == ready[h][0]
    {
      hide Highest;
      var p := SomeShown(levels, ready);
      HighestIsLeast(levels, Scheduler.Busy(ready), p);
      forall q | q in Scheduler.Busy(ready) ensures Highest(levels) <= q {
        HighestIsLeast(levels, Scheduler.Busy(ready), q);
      }
      HighestIs(levels, Scheduler.Busy(ready));
      var number := Ffs(levels.group) - 1;
      h := number * 8 + Ffs(levels.table[number]) - 1;
      Scheduler.LeastIs(ready, h);
      to := ready[h][0];
    }
  }

  lemma TableFits(l: Levels, ps: set<nat>)
    requires BothShow(l, ps)
    ensures |l.table| == 32
  {
  }

  lemma NoneShown(l: Levels)
    requires l == Levels(0, seq(32, _ => 0))
    ensures BothShow(l, {})
  {
    forall n | 0 <= n < 32 ensures RowShown(l, n) { ZeroHas(n); }
    forall p | 0 <= p < 256 ensures !Has(l.table[p / 8], p % 8) { ZeroHas(p % 8); }
  }

  /** A group that is not zero shows a priority. */
  lemma SomeShown(l: Levels, ready: seq<seq<int>>) returns (p: nat)
    requires BothShow(l, Scheduler.Busy(ready)) && l.group != 0
    ensures p in Scheduler.Busy(ready)
  {
    FfsLowest(l.group);
    var n := Ffs(l.group) - 1;
    assert RowShown(l, n);
    FfsLowest(l.table[n]);
    var low := Ffs(l.table[n]) - 1;
    assert 256 == One(8);
    ByteBits(l.table[n], low, 8);
    p := n * 8 + low;
    assert p / 8 == n && p % 8 == low;
  }

  lemma HighestIs(l: Levels, ps: set<nat>)
    requires BothShow(l, ps) && l.group > 0
    ensures var n := Ffs(l.group) - 1;
            0 <= n < 32 && l.table[n] < WORD && Highest(l) == n * 8 + Ffs(l.table[n]) - 1
  {
    FfsLowest(l.group);
    assert RowShown(l, Ffs(l.group) - 1);
  }
}
