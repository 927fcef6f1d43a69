/**
 The timer list of rt-thread/src/timer.c as the source keeps it: 32-bit tick values that wrap,
 and a circular list of timers. The methods are proved to do what TimerRuns says in unbounded
 time. The hard and the soft timer list are handled by the same code; one list is modelled.
 */
module TimerList {
  import opened Common
  import opened RtList
  import opened TimerRuns
  import opened TimerTicks

  /** The heads of the timer list and of the temporary list of rt_timer_check. */
  const HEAD := -1
  const TEMP := -2

  // ----- The lists

  function Opt(t: Option<int>): seq<int> { if t.Some? then [t.value] else [] }

  ghost predicate Alone(row: Links, order: seq<int>, temp: Option<int>, t: int) {
    t !in order && temp != Some(t) ==> Ring(row, [t])
  }

  /** The timer list, the temporary list, and every other timer on a list of its own. */
  ghost predicate Shelf(row: Links, order: seq<int>, temp: Option<int>, keys: set<int>) {
    && Ring(row, [HEAD] + order) && Ring(row, [TEMP] + Opt(temp))
    && (forall t :: t in order ==> t in keys) && (temp.Some? ==> temp.value in keys && temp.value !in order)
    && (forall t :: t in keys ==> t >= 0 && Alone(row, order, temp, t))
  }

  lemma RemoveAlone(s: Links, n: int)
    requires Ring(s, [n])
    ensures n in s.next && n in s.prev && Remove(s, n) == s
  {
    assert Chained(s, [n], 0);
    assert Remove(s, n).next == s.next && Remove(s, n).prev == s.prev;
  }

  /** A list that shares no node with the links that changed stays a list. */
  lemma OtherRing(s: Links, t: Links, r: seq<int>, q: seq<int>)
    requires Ring(s, r) && forall a :: a in r ==> a !in q
    requires t.next.Keys >= s.next.Keys && t.prev.Keys >= s.prev.Keys
    requires forall a :: a in s.next && a !in q ==> t.next[a] == s.next[a]
    requires forall a :: a in s.prev && a !in q ==> t.prev[a] == s.prev[a]
    ensures Ring(t, r)
  {
    RingFrame(s, t, r);
  }

  lemma RemoveFrame(s: Links, r: seq<int>, k: nat)
    requires Ring(s, r) && 0 < k < |r|
    ensures r[k] in s.next && r[k] in s.prev
    ensures var t := Remove(s, r[k]);
            && t.next.Keys >= s.next.Keys && t.prev.Keys >= s.prev.Keys
            && (forall a :: a in s.next && a !in r ==> t.next[a] == s.next[a])
            && (forall a :: a in s.prev && a !in r ==> t.prev[a] == s.prev[a])
  {
    RingHas(s, r, k);
    assert r[k] in r && r[k - 1] in r && r[After(k, |r|)] in r;
  }

  lemma InsertFrame(s: Links, r: seq<int>, k: nat, n: int)
    requires Ring(s, r) && k < |r|
    ensures r[k] in s.next
    ensures var t := InsertAfter(s, r[k], n);
            && t.next.Keys >= s.next.Keys && t.prev.Keys >= s.prev.Keys
            && (forall a :: a in s.next && a !in r && a != n ==> t.next[a] == s.next[a])
            && (forall a :: a in s.prev && a !in r && a != n ==> t.prev[a] == s.prev[a])
  {
    RingHas(s, r, k);
    assert r[k] in r && r[After(k, |r|)] in r;
  }

  /** _timer_remove works wherever the timer is. */
  lemma RemoveShelf(row: Links, order: seq<int>, temp: Option<int>, keys: set<int>, t: int)
    requires Shelf(row, order, temp, keys) && t in keys
    ensures t in row.next && t in row.prev
    ensures Shelf(Remove(row, t), Without(order, t), if temp == Some(t) then None else temp, keys)
  {
    hide Remove, Chained, Without, Ring;
    RingDistinct(row, order);
    WithoutMembers(order, t);
    if t in order {
      RemoveListed(row, order, temp, keys, t);
    } else if temp == Some(t) {
      WithoutNone(order, t);
      var r := [TEMP, t];
      assert r == [TEMP] + Opt(temp);
      RingRemove(row, r, 1);
      RemoveFrame(row, r, 1);
      assert r[..1] + r[2..] == [TEMP] + Opt(None);
      OtherRing(row, Remove(row, t), [HEAD] + order, r);
      forall u | u in keys ensures Alone(Remove(row, t), order, None, u) {
        assert Alone(row, order, temp, u);
        if u != t && u !in order { OtherRing(row, Remove(row, t), [u], r); }
      }
    } else {
      WithoutNone(order, t);
      assert Alone(row, order, temp, t);
      RemoveAlone(row, t);
    }
  }

  lemma RingDistinct(row: Links, order: seq<int>)
    requires Ring(row, [HEAD] + order)
    ensures Distinct(order)
  {
    var r := [HEAD] + order;
    forall i, j | 0 <= i < j < |order| ensures order[i] != order[j] { assert r[i + 1] != r[j + 1]; }
  }

  lemma WithoutNone(order: seq<int>, t: int)
    requires t !in order
    ensures Without(order, t) == order
  {
  }

  lemma StillAlone(row: Links, row': Links, order: seq<int>, temp: Option<int>, keys: set<int>, q: seq<int>)
    requires forall t :: t in keys ==> t >= 0 && Alone(row, order, temp, t)
    requires forall a :: a in q ==> a < 0 || a in order || temp == Some(a)
    requires row'.next.Keys >= row.next.Keys && row'.prev.Keys >= row.prev.Keys
    requires forall a :: a in row.next && a !in q ==> row'.next[a] == row.next[a]
    requires forall a :: a in row.prev && a !in q ==> row'.prev[a] == row.prev[a]
    ensures forall t :: t in keys ==> Alone(row', order, temp, t)
  {
    hide Ring;
    forall t | t in keys ensures Alone(row', order, temp, t) {
      assert Alone(row, order, temp, t);
      if t !in order && temp != Some(t) { OtherRing(row, row', [t], q); }
    }
  }

  lemma RemoveListed(row: Links, order: seq<int>, temp: Option<int>, keys: set<int>, t: int)
    requires Shelf(row, order, temp, keys) && t in order
    ensures t in row.next && t in row.prev
    ensures Shelf(Remove(row, t), Without(order, t), temp, keys)
  {
    hide Remove, Chained, Ring;
    RingDistinct(row, order);
    WithoutMembers(order, t);
    var r, k := [HEAD] + order, IndexOf(order, t);
    assert k < |order| && r[k + 1] == t;
    RingRemove(row, r, k + 1);
    RemoveFrame(row, r, k + 1);
    assert r[..k + 1] + r[k + 2..] == [HEAD] + Without(order, t);
    OtherRing(row, Remove(row, t), [TEMP] + Opt(temp), r);
    StillAlone(row, Remove(row, t), order, temp, keys, r);
  }

  /** A timer that is on no list enters the timer list after the node at `k`. */
  lemma InsertShelf(row: Links, order: seq<int>, temp: Option<int>, keys: set<int>, t: int, k: nat)
    requires Shelf(row, order, temp, keys) && t in keys && t !in order && temp != Some(t) && k <= |order|
    ensures ([HEAD] + order)[k] in row.next
    ensures Shelf(InsertAfter(row, ([HEAD] + order)[k], t), Inserted(order, k, t), temp, keys)
  {
    hide InsertAfter, Chained, Ring;
    var r := [HEAD] + order;
    RingInsertAfter(row, r, k, t);
    InsertFrame(row, r, k, t);
    InsertedMeaning(order, k, t);
    var row' := InsertAfter(row, r[k], t);
    ConsInsert(HEAD, order, k, t);
    OtherRing(row, row', [TEMP] + Opt(temp), r + [t]);
    forall u | u in keys ensures Alone(row', Inserted(order, k, t), temp, u) {
      assert Alone(row, order, temp, u);
      if u !in order && temp != Some(u) && u != t { OtherRing(row, row', [u], r + [t]); }
    }
  }

  /** ... or the temporary list, when that is empty. */
  lemma ParkShelf(row: Links, order: seq<int>, keys: set<int>, t: int)
    requires Shelf(row, order, None, keys) && t in keys && t !in order
    ensures TEMP in row.next && Shelf(InsertAfter(row, TEMP, t), order, Some(t), keys)
  {
    hide InsertAfter, Chained, Ring;
    var r := [TEMP];
    assert r == [TEMP] + Opt(None);
    RingInsertAfter(row, r, 0, t);
    InsertFrame(row, r, 0, t);
    var row' := InsertAfter(row, TEMP, t);
    assert r[..1] + [t] + r[1..] == [TEMP] + Opt(Some(t));
    OtherRing(row, row', [HEAD] + order, [TEMP, t]);
    forall u | u in keys ensures Alone(row', order, Some(t), u) {
      assert Alone(row, order, None, u);
      if u !in order && u != t { OtherRing(row, row', [u], [TEMP, t]); }
    }
  }

  // ----- The timers

  /** The fields of `struct rt_timer`: timeout_tick, init_tick and the flags PERIODIC and ACTIVATED. */
  datatype Item = Item(timeout: nat, init: nat, periodic: bool, active: bool)

  ghost predicate Agrees(x: Item, y: Timer) {
    x == Item(y.due % TICKS, y.init, y.periodic, y.active)
  }

  /** The records are those of the timers. */
  ghost predicate Recorded(timer: map<int, Item>, info: map<int, Timer>) {
    timer.Keys == info.Keys && forall t :: t in info ==> Agrees(timer[t], info[t])
  }

  lemma RecordedSet(timer: map<int, Item>, info: map<int, Timer>, t: int, x: Item, y: Timer)
    requires Recorded(timer, info) && Agrees(x, y)
    ensures Recorded(timer[t := x], info[t := y])
  {
  }

  class Timers {
    /** rt_tick. */
    var tick: nat
    var timer: map<int, Item>
    var row: Links
    ghost var s: State

    ghost predicate Valid()
      reads this
    {
      && tick == s.now % TICKS && Recorded(timer, s.info)
      && Shelf(row, s.order, s.temp, s.info.Keys) && Sound(s)
    }

    constructor ()
      ensures Valid() && s == State(0, [], map[], 0, None)
    {
      tick, timer := 0, map[];
      var row0 := Init(Links(map[], map[]), HEAD);
      row := Init(row0, TEMP);
      s := State(0, [], map[], 0, None);
      new;
      RingInit(Links(map[], map[]), HEAD);
      RingInit(row0, TEMP);
      OtherRing(row0, row, [HEAD], [TEMP]);
      assert [HEAD] + [] == [HEAD] && [TEMP] + Opt(None) == [TEMP];
    }

    /** rt_timer_init. */
    method Create(t: int, time: nat, periodic: bool)
      requires Valid() && t >= 0 && t !in timer && time < HALF
      modifies this
      ensures Valid() && s == old(s).(info := old(s).info[t := Timer(time, periodic, false, 0, 0)])
    {
      hide Ring, Sorted;
      ghost var row0, s0 := row, s;
      timer := timer[t := Item(0, time, periodic, false)];
      row := Init(row, t);
      s := s.(info := s.info[t := Timer(time, periodic, false, 0, 0)]);
      RingInit(row0, t);
      OtherRing(row0, row, [HEAD] + s.order, [t]);
      OtherRing(row0, row, [TEMP] + Opt(s.temp), [t]);
      forall u | u in s.info ensures Alone(row, s.order, s.temp, u) {
        if u != t && u !in s.order && s.temp != Some(u) {
          assert Alone(row0, s.order, s.temp, u);
          OtherRing(row0, row, [u], [t]);
        }
      }
      CreatedSound(s0, t, time, periodic);
    }

    /** _timer_remove and the clearing of the ACTIVATED flag: rt_timer_detach, and the work of rt_timer_stop. */
    method Detach(t: int)
      requires Valid() && t in timer
      modifies this
      ensures Valid() && s == Removed(old(s), t)
    {
      hide Ring, Sorted, Remove, Without;
      RemoveShelf(row, s.order, s.temp, s.info.Keys, t);
      RemovedSound(s, t);
      row := Remove(row, t);
      timer := timer[t := timer[t].(active := false)];
      s := Removed(s, t);
    }

    /** rt_timer_stop. */
    method Stop(t: int) returns (ok: bool)
      requires Valid() && t in timer
      modifies this
      ensures Valid() && s == StopSpec(old(s), t) && ok == old(s.info[t].active)
    {
      if !timer[t].active { return false; }
      Detach(t);
      return true;
    }

    /** rt_timer_start. */
    method Start(t: int)
      requires Valid() && t in timer
      modifies this
      ensures Valid() && s == StartSpec(old(s), t)
    {
      hide Ring, Sorted, InsertAfter, Without, Inserted, Place, Shelf, StartSpec, Sound;
      ghost var s0 := s;
      StartSound(s, t);
      NotInRest(s, t);
      InitBelow(s, t);
      Detach(t);
      RemovedFrame(s0, t);
      var timeout := (tick + timer[t].init) % TICKS;
      ghost var due, timer1 := s.now + s.info[t].init, timer;
      AddWraps(s.now, s.info[t].init);
      timer := timer[t := timer[t].(timeout := timeout)];
      Enter(t, due);
      timer := timer[t := timer[t].(active := true)];
      PlaceSame(s.order, s0.info, s.info, due);
      StartFrame(s0, t);
      StartIs(s0, t);
      Rearmed(s0, s, timer1, timer, t, timeout, due);
      s := StartSpec(s0, t);
    }

    /** The part of rt_timer_start that puts the timer on the list. */
    method Enter(t: int, ghost due: nat)
      requires Shelf(row, s.order, s.temp, s.info.Keys) && Sound(s)
      requires timer.Keys == s.info.Keys && t in timer && t !in s.order && s.temp != Some(t)
      requires forall u :: u in s.info && u != t ==> Agrees(timer[u], s.info[u])
      requires s.now <= due < s.now + HALF && timer[t].timeout == due % TICKS
      modifies `row
      ensures Shelf(row, Inserted(s.order, Place(s.order, s.info, due), t), s.temp, s.info.Keys)
    {
      hide Ring, Sorted, InsertAfter, Inserted, Place, Shelf;
      var h;
      ghost var k;
      h, k := FindPlace(t, due);
      SoundSeen(s, due);
      InsertShelf(row, s.order, s.temp, s.info.Keys, t, k);
      row := InsertAfter(row, h, t);
    }

    /** The search loop of rt_timer_start, whatever the state of the list. */
    method FindPlace(t: int, ghost due: nat) returns (h: int, ghost k: nat)
      requires Shelf(row, s.order, s.temp, s.info.Keys)
      requires timer.Keys == s.info.Keys && t in timer && t !in s.order
      requires forall u :: u in s.info && u != t ==> Agrees(timer[u], s.info[u])
      requires timer[t].timeout == due % TICKS
      ensures k == PlaceSeen(s.order, s.info, due)
      ensures h == ([HEAD] + s.order)[PlaceSeen(s.order, s.info, due)]
    {
      hide PlaceSeen, Later32;
      RingHas(row, [HEAD] + s.order, 0);
      h, k := HEAD, 0;
      while h != row.prev[HEAD]
        invariant 0 <= k <= |s.order| && h == ([HEAD] + s.order)[k]
        invariant forall j :: 0 <= j < k ==> !Seen(s.info, s.order[j], due)
        decreases |s.order| - k
      {
        RingHas(row, [HEAD] + s.order, k);
        ListEnd(row, s.order, k);
        var p := row.next[h];
        assert p == s.order[k] && p in s.order;
        SeenIs(s.info, p, due);
        if Sub32(timer[p].timeout, timer[t].timeout) == 0 {
        } else if Sub32(timer[p].timeout, timer[t].timeout) < HALF {
          break;
        }
        h, k := p, k + 1;
      }
      ListEnd(row, s.order, k);
      PlaceSeenIs(s.order, s.info, due, k);
    }

    /** rt_timer_control with SET_TIME, SET_ONESHOT and SET_PERIODIC. */
    method Set(t: int, init: nat, periodic: bool)
      requires Valid() && t in timer && init < HALF
      modifies `timer, `s
      ensures Valid() && s == old(s).(info := old(s).info[t := old(s).info[t].(init := init, periodic := periodic)])
    {
      ChangedSound(s, t, s.info[t].(init := init, periodic := periodic));
      ghost var keys := s.info.Keys;
      timer := timer[t := timer[t].(init := init, periodic := periodic)];
      s := s.(info := s.info[t := s.info[t].(init := init, periodic := periodic)]);
      assert s.info.Keys == keys;
    }

    method Do(c: Command)
      requires Valid() && Legal(timer.Keys, c)
      modifies this
      ensures Valid() && s == Apply(old(s), c)
    {
      hide Shelf, Sound, StartSpec, Removed;
      match c
      case Start(t) => Start(t);
      case Stop(t) => var _ := Stop(t);
      case Detach(t) => Detach(t);
      case SetTime(t, ticks) => Set(t, ticks, timer[t].periodic);
      case SetPeriodic(t, periodic) => InitBelow(s, t); Set(t, timer[t].init, periodic);
    }

    /** A callback. */
    method Perform(cs: seq<Command>)
      requires Valid() && AllLegal(timer.Keys, cs)
      modifies this
      ensures AllKnown(old(s), cs) && Valid() && s == ApplyAll(old(s), cs)
    {
      hide Apply, Shelf, Sound;
      ghost var s0 := s;
      LegalKnown(s, cs);
      assert cs[0..] == cs;
      for i := 0 to |cs|
        invariant Valid() && s0.info.Keys == s.info.Keys == timer.Keys
        invariant (forall c :: c in cs ==> c.t in s0.info) && (forall c :: c in cs[i..] ==> c.t in s.info)
        invariant ApplyAll(s0, cs) == ApplyAll(s, cs[i..])
      {
        assert cs[i] in cs && Legal(s.info.Keys, cs[i]);
        Do(cs[i]);
        assert cs[i..][1..] == cs[i + 1..];
      }
    }

    /** The head of the timer list goes to the temporary list. */
    method Take(t: int)
      requires Valid() && s.order != [] && t == s.order[0] && s.temp.None?
      modifies this
      ensures Valid() && s == Taken(old(s))
    {
      hide Ring, Sorted, Remove, InsertAfter;
      ghost var s0 := s;
      TakenOnly(s);
      TakenWithout(s);
      RemoveShelf(row, s.order, s.temp, s.info.Keys, t);
      row := Remove(row, t);
      if !timer[t].periodic { timer := timer[t := timer[t].(active := false)]; }
      ParkShelf(row, s.order[1..], s.info.Keys, t);
      row := InsertAfter(row, TEMP, t);
      s := Taken(s0);
    }

    /** rt_timer_check: the loop, and the callbacks it runs. */
    method Check(cb: Callbacks) returns (fired: seq<int>)
      requires Valid() && Terminates(s, cb, 0)
      modifies this
      ensures Valid() && (s, fired) == TimerRuns.Check(old(s), cb)
    {
      hide Shelf, Sound, Fire, Ring, TimerRuns.Check, AllLegal, Terminates, EndsIn, LegalCallbacks;
      ghost var s0 := s;
      ghost var n := EndsWithin(s, cb, 0);
      fired := [];
      HeadIs(row, s.order, s.temp, s.info.Keys);
      while row.next[HEAD] != HEAD
        invariant Valid() && Terminates(s, cb, |fired|) && EndsIn(s, cb, |fired|, n)
        invariant HEAD in row.next && (row.next[HEAD] == HEAD <==> s.order == [])
        invariant s.order != [] ==> row.next[HEAD] == s.order[0]
        invariant TimerRuns.Check(s0, cb).0 == TimerRuns.Check(s, cb, |fired|).0
        invariant TimerRuns.Check(s0, cb).1 == fired + TimerRuns.Check(s, cb, |fired|).1
        decreases n
      {
        var t := row.next[HEAD];
        HeadDue(s);
        if Sub32(tick, timer[t].timeout) < HALF {
          CheckStep(s, cb, |fired|, n);
          n := n - 1;
          RunOne(t, cb(t, |fired|));
          HeadIs(row, s.order, s.temp, s.info.Keys);
          ghost var log := TimerRuns.Check(s, cb, |fired| + 1).1;
          assert fired + ([t] + log) == (fired + [t]) + log;
          fired := fired + [t];
        } else {
          break;
        }
      }
      CheckEnd(s, cb, |fired|, n);
      assert fired + [] == fired;
    }

    /** The body of the loop of rt_timer_check for a timer that is due. */
    method RunOne(t: int, cs: seq<Command>)
      requires Valid() && s.order != [] && t == s.order[0] && s.temp.None? && AllLegal(timer.Keys, cs)
      modifies this
      ensures t in old(s).info && AllKnown(old(s), cs) && Valid() && s == Fire(old(s), cs)
    {
      hide Sound, Shelf, StartSpec, ApplyAll, Ring, Remove;
      TakenOnly(s);
      Take(t);
      ghost var s1 := s;
      Perform(cs);
      ApplyAllSound(s1, cs);
      HeadIs(row, s.order, s.temp, s.info.Keys);
      if row.next[TEMP] == TEMP { return; }
      RemoveShelf(row, s.order, s.temp, s.info.Keys, t);
      UnparkedSound(s, t);
      row := Remove(row, t);
      s := s.(temp := None);
      if timer[t].periodic && timer[t].active {
        timer := timer[t := timer[t].(active := false)];
        Restart(t);
      }
    }

    /** The call of rt_timer_start for a periodic timer, whose ACTIVATED flag was just cleared. */
    method Restart(t: int)
      requires t in timer && t in s.info && t !in s.order && !timer[t].active
      requires Cleared(t)
      modifies this
      ensures Valid() && s == StartSpec(old(s), t)
    {
      hide Shelf, Sound, Sorted, StartSpec;
      ghost var s0 := s;
      ChangedUnlisted(s0, t);
      StartIgnoresActive(s0, t);
      s := s.(info := s.info[t := s.info[t].(active := false)]);
      assert s.info.Keys == s0.info.Keys;
      Start(t);
    }

    ghost predicate Cleared(t: int)
      reads this
      requires t in s.info
    {
      && tick == s.now % TICKS && timer.Keys == s.info.Keys
      && Agrees(timer[t], s.info[t].(active := false))
      && (forall u :: u in s.info && u != t ==> Agrees(timer[u], s.info[u]))
      && Shelf(row, s.order, s.temp, s.info.Keys) && Sound(s)
    }

    /** rt_tick_increase, as far as the timers go. */
    method TickIncrease(cb: Callbacks) returns (fired: seq<int>)
      requires Valid() && Beats(s, cb)
      modifies this
      ensures Valid() && (s, fired) == TickSpec(old(s), cb)
    {
      AddWraps(s.now, 1);
      tick := (tick + 1) % TICKS;
      s := s.(now := s.now + 1);
      fired := Check(cb);
    }

    /** rt_timer_next_timeout_tick. */
    method NextTimeout() returns (r: nat)
      requires Valid()
      ensures s.order == [] ==> r == TICKS - 1
      ensures s.order != [] ==>
                exists t :: t in s.order && r == Due(s.info, t) % TICKS
                    && forall u :: u in s.order ==> Due(s.info, t) <= Due(s.info, u)
    {
      HeadIs(row, s.order, s.temp, s.info.Keys);
      if row.next[HEAD] == HEAD { return TICKS - 1; }
      HeadDue(s);
      HeadEarliest(s);
      assert s.order[0] in s.order;
      r := timer[row.next[HEAD]].timeout;
    }
  }

  /** The loop ends within `n` passes. */
  ghost predicate EndsIn(s: State, cb: Callbacks, k: nat, n: nat) {
    Sound(s) && s.temp.None? && LegalCallbacks(s.info.Keys, cb) && !Expired(Passes(s, cb, k, n))
  }

  lemma EndsWithin(s: State, cb: Callbacks, k: nat) returns (n: nat)
    requires Terminates(s, cb, k)
    ensures EndsIn(s, cb, k, n)
  {
    n :| !Expired(Passes(s, cb, k, n));
  }

  /** One pass of the loop, and its end. */
  lemma CheckStep(s: State, cb: Callbacks, k: nat, n: nat)
    requires Terminates(s, cb, k) && EndsIn(s, cb, k, n) && Expired(s)
    ensures n > 0 && s.temp.None? && s.order[0] in s.info
    ensures AllLegal(s.info.Keys, cb(s.order[0], k)) && AllKnown(s, cb(s.order[0], k))
    ensures var s1 := Fire(s, cb(s.order[0], k));
            && Terminates(s1, cb, k + 1) && EndsIn(s1, cb, k + 1, n - 1) && s1.info.Keys == s.info.Keys
            && TimerRuns.Check(s, cb, k) ==
               (TimerRuns.Check(s1, cb, k + 1).0, [s.order[0]] + TimerRuns.Check(s1, cb, k + 1).1)
  {
    hide Sound, Fire, LegalCallbacks, AllLegal, TimerRuns.Check;
    CheckNext(s, cb, k);
    PassNext(s, cb, k, n);
  }

  lemma CheckEnd(s: State, cb: Callbacks, k: nat, n: nat)
    requires Terminates(s, cb, k) && EndsIn(s, cb, k, n) && !Expired(s)
    ensures TimerRuns.Check(s, cb, k) == (s, [])
  {
    hide Sound, LegalCallbacks, TimerRuns.Check;
    CheckStops(s, cb, k);
  }

  lemma InitBelow(s: State, t: int)
    requires Sound(s) && t in s.info
    ensures s.info[t].init < HALF
  {
  }

  lemma HeadIs(row: Links, order: seq<int>, temp: Option<int>, keys: set<int>)
    requires Shelf(row, order, temp, keys)
    ensures HEAD in row.next && (row.next[HEAD] == HEAD <==> order == [])
            && (order != [] ==> row.next[HEAD] == order[0])
    ensures TEMP in row.next && (row.next[TEMP] == TEMP <==> temp.None?)
  {
    RingHas(row, [HEAD] + order, 0);
    RingHas(row, [TEMP] + Opt(temp), 0);
    if order != [] { assert order[0] in order; }
  }

  lemma HeadDue(s: State)
    requires Sound(s) && s.order != []
    ensures s.order[0] in s.info
    ensures Sub32(s.now % TICKS, s.info[s.order[0]].due % TICKS) < HALF <==> Expired(s)
  {
    assert Listed(s, s.order[0]);
    DueExact(s.now, s.info[s.order[0]].due);
  }

  /** The head of the list has the earliest deadline. */
  lemma HeadEarliest(s: State)
    requires Sound(s) && s.order != []
    ensures forall u :: u in s.order ==> Due(s.info, s.order[0]) <= Due(s.info, u)
  {
    forall u | u in s.order ensures Due(s.info, s.order[0]) <= Due(s.info, u) {
      var j :| 0 <= j < |s.order| && s.order[j] == u;
      if j > 0 { assert Before(s.info, s.order[0], s.order[j]); }
    }
  }

  lemma TakenWithout(s: State)
    requires s.order != []
    ensures Without(s.order, s.order[0]) == s.order[1..]
  {
    assert IndexOf(s.order, s.order[0]) == 0;
  }

  lemma UnparkedSound(s: State, t: int)
    requires Sound(s)
    ensures Sound(s.(temp := None))
    ensures s.temp == Some(t) ==> t in s.info && t !in s.order && Without(s.order, t) == s.order
  {
    forall u | u in s.order ensures Listed(s.(temp := None), u) { assert Listed(s, u); }
    if s.temp == Some(t) { WithoutNone(s.order, t); }
  }

  /** What the record of a started timer comes to. */
  lemma Rearmed(s0: State, s1: State, timer1: map<int, Item>, timer: map<int, Item>, t: int, timeout: nat, due: int)
    requires t in s0.info && s1 == Removed(s0, t) && Recorded(timer1, s1.info) && due == s0.now + s0.info[t].init
    requires timeout == due % TICKS
             && timer ==
                timer1[t := timer1[t].(timeout := timeout)][t := timer1[t].(timeout := timeout, active := true)]
    ensures Recorded(timer, StartSpec(s0, t).info)
  {
    var x := s0.info[t].(active := true, due := due, stamp := s0.starts);
    StartIs(s0, t);
    RecordedSet(timer1, s1.info, t, timer1[t].(timeout := timeout, active := true), x);
    assert s1.info[t := x] == s0.info[t := x];
    assert timer == timer1[t := timer1[t].(timeout := timeout, active := true)];
  }

  lemma NotInRest(s: State, t: int)
    requires Sound(s)
    ensures t !in Without(s.order, t) && forall u :: u in Without(s.order, t) ==> u in s.order
  {
    SortedDistinct(s.info, s.order);
    WithoutMembers(s.order, t);
  }

  lemma StartIs(s: State, t: int)
    requires t in s.info
    ensures var s', rest, due := StartSpec(s, t), Without(s.order, t), s.now + s.info[t].init;
            && s'.now == s.now && s'.order == Inserted(rest, Place(rest, s.info, due), t)
            && s'.info == s.info[t := s.info[t].(active := true, due := due, stamp := s.starts)]
            && s'.temp == if s.temp == Some(t) then None else s.temp
  {
  }

  lemma StartIgnoresActive(s: State, t: int)
    requires t in s.info && t !in s.order
    ensures StartSpec(s.(info := s.info[t := s.info[t].(active := false)]), t) == StartSpec(s, t)
  {
    hide Place, Without, Inserted;
    var info' := s.info[t := s.info[t].(active := false)];
    WithoutNone(s.order, t);
    PlaceSame(s.order, s.info, info', s.now + s.info[t].init);
    assert StartSpec(s.(info := info'), t).info == StartSpec(s, t).info;
  }

  lemma ChangedUnlisted(s: State, t: int)
    requires Sound(s) && t in s.info && t !in s.order
    ensures Sound(s.(info := s.info[t := s.info[t].(active := false)]))
  {
    var s' := s.(info := s.info[t := s.info[t].(active := false)]);
    forall u | u in s'.order ensures Listed(s', u) { assert Listed(s, u); }
    forall i, j | 0 <= i < j < |s'.order| ensures Before(s'.info, s'.order[i], s'.order[j]) {
      assert Before(s.info, s'.order[i], s'.order[j]);
    }
  }

  lemma ListEnd(row: Links, order: seq<int>, k: nat)
    requires Ring(row, [HEAD] + order) && k <= |order|
    ensures HEAD in row.prev && (row.prev[HEAD] == ([HEAD] + order)[k] <==> k == |order|)
  {
    RingHas(row, [HEAD] + order, 0);
  }

  lemma PlaceSame(order: seq<int>, info: map<int, Timer>, info': map<int, Timer>, due: int)
    requires forall t :: t in order ==> Due(info, t) == Due(info', t)
    ensures Place(order, info, due) == Place(order, info', due)
  {
    PlaceIs(order, info, due, Place(order, info', due));
  }

  lemma CreatedSound(s: State, t: int, time: nat, periodic: bool)
    requires Sound(s) && t !in s.info && time < HALF
    ensures Sound(s.(info := s.info[t := Timer(time, periodic, false, 0, 0)]))
  {
    var s' := s.(info := s.info[t := Timer(time, periodic, false, 0, 0)]);
    forall u | u in s'.order ensures Listed(s', u) { assert Listed(s, u); }
    forall i, j | 0 <= i < j < |s.order| ensures Before(s'.info, s.order[i], s.order[j]) {
      assert Before(s.info, s.order[i], s.order[j]);
    }
  }
}
