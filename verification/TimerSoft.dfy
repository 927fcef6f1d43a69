/**
 The soft timer check of rt-thread/src/timer.c. Interrupts are enabled while a callback runs, so
 commands of threads and of the callback mix with ticks, and a listed timer may become late by any
 number of ticks. Starts are modelled by the search the code makes, with wrapping tick values.
 */
module TimerSoft {
  import opened Common
  import opened RtList
  import opened TimerRuns
  import opened TimerTicks

  /** A command, or a tick. */
  datatype Event = Cmd(c: Command) | Pass

  /** rt_timer_start with its own search. */
  function StartSeen(s: State, t: int): State
    requires t in s.info
  {
    var r := Removed(s, t);
    var x := s.info[t].(active := true, due := s.now + s.info[t].init, stamp := s.starts);
    var k := PlaceSeen(r.order, s.info, x.due);
    r.(order := Inserted(r.order, k, t), info := s.info[t := x], starts := s.starts + 1)
  }

  function Effect(s: State, e: Event): (s': State)
    requires e.Cmd? ==> e.c.t in s.info
    ensures s'.info.Keys == s.info.Keys
  {
    match e
    case Cmd(Start(t)) => StartSeen(s, t)
    case Cmd(c) => Applied(s, c)
    case Pass => s.(now := s.now + 1)
  }

  /** A sorted list, whose timers may be late. */
  ghost predicate Filed(s: State) {
    && Sorted(s.info, s.order) && (forall t :: t in s.order ==> Entered(s, t))
    && (forall t :: t in s.info ==> s.info[t].init < HALF)
    && (s.temp.Some? ==> s.temp.value in s.info && s.temp.value !in s.order)
  }

  ghost predicate Entered(s: State, t: int) {
    t in s.info && s.info[t].stamp < s.starts && s.info[t].due < s.now + HALF
  }

  lemma SoundFiled(s: State)
    requires Sound(s)
    ensures Filed(s)
  {
    forall t | t in s.order ensures Entered(s, t) { assert Listed(s, t); }
  }

  // ----- Starts

  /** The guard of a start: among the other timers no lead wraps. */
  ghost predicate ClearStart(s: State, t: int)
    requires t in s.info
  {
    Clear(Without(s.order, t), s.info, s.now + s.info[t].init)
  }

  /** The list stays sorted exactly if the guard holds when a timer is started. */
  lemma StartFiledIff(s: State, t: int)
    requires Filed(s) && t in s.info
    ensures Sorted(StartSeen(s, t).info, StartSeen(s, t).order) <==> ClearStart(s, t)
    ensures ClearStart(s, t) ==> StartSeen(s, t) == StartSpec(s, t) && Filed(StartSeen(s, t))
  {
    hide Inserted, Without, Place, PlaceSeen, Sorted, Clear, StartSeen, StartSpec;
    SearchIff(s, t);
    if ClearStart(s, t) {
      SearchRight(s, t);
      StartFiled(s, t);
    } else {
      RestFiled(s, t);
      SearchWrong(s, t);
    }
  }

  lemma SearchIff(s: State, t: int)
    requires Filed(s) && t in s.info
    ensures var rest, due := Without(s.order, t), s.now + s.info[t].init;
            PlaceSeen(rest, s.info, due) == Place(rest, s.info, due) <==> ClearStart(s, t)
    ensures ClearStart(s, t) || var rest, due := Without(s.order, t), s.now + s.info[t].init;
                                PlaceSeen(rest, s.info, due) < Place(rest, s.info, due)
  {
    hide Without, Sorted, Clear;
    var rest, due := Without(s.order, t), s.now + s.info[t].init;
    RestFiled(s, t);
    SortedAscending(s.info, rest);
    forall u | u in rest ensures Due(s.info, u) < due + HALF { assert Entered(s, u); }
    PlaceSeenIff(rest, s.info, due);
    SeenBefore(rest, s.info, due);
  }

  lemma SearchRight(s: State, t: int)
    requires t in s.info
    requires var rest, due := Without(s.order, t), s.now + s.info[t].init;
             PlaceSeen(rest, s.info, due) == Place(rest, s.info, due)
    ensures StartSeen(s, t) == StartSpec(s, t)
  {
    hide Inserted, Without, Place, PlaceSeen;
  }

  lemma SearchWrong(s: State, t: int)
    requires t in s.info
    requires var rest, due := Without(s.order, t), s.now + s.info[t].init;
             PlaceSeen(rest, s.info, due) < Place(rest, s.info, due)
    requires forall u :: u in Without(s.order, t) ==> u in s.info && s.info[u].stamp < s.starts && u != t
    ensures !Sorted(StartSeen(s, t).info, StartSeen(s, t).order)
  {
    hide Inserted, Without, Sorted;
    var rest := Without(s.order, t);
    PlacedWrong(s, t, rest, PlaceSeen(rest, s.info, s.now + s.info[t].init));
  }

  lemma RestFiled(s: State, t: int)
    requires Filed(s)
    ensures var rest := Without(s.order, t);
            && t !in rest && Sorted(s.info, rest) && (forall u :: u in rest ==> u in s.order)
            && forall u :: u in rest ==> u in s.info && s.info[u].stamp < s.starts
  {
    hide Without, Distinct;
    SortedDistinct(s.info, s.order);
    WithoutMembers(s.order, t);
    SortedWithout(s.info, s.order, t);
    forall u | u in s.order ensures Entered(s, u) {
    }
  }

  lemma StartFiled(s: State, t: int)
    requires Filed(s) && t in s.info
    ensures Filed(StartSpec(s, t))
  {
    hide Inserted, Without, Place, Sorted;
    var s', rest, due := StartSpec(s, t), Without(s.order, t), s.now + s.info[t].init;
    var k := Place(rest, s.info, due);
    RestFiled(s, t);
    PlacedSorted(s, t, rest, k);
    InsertedMeaning(rest, k, t);
    forall u | u in s'.order ensures Entered(s', u) {
      if u != t { assert Entered(s, u); }
    }
  }

  /** A timer put before one that is due no later leaves the list out of order. */
  lemma PlacedWrong(s: State, t: int, rest: seq<int>, k: nat)
    requires t in s.info && k < Place(rest, s.info, s.now + s.info[t].init)
    requires forall u :: u in rest ==> u in s.info && s.info[u].stamp < s.starts && u != t
    ensures !Sorted(s.info[t := s.info[t].(active := true, due := s.now + s.info[t].init, stamp := s.starts)],
                    Inserted(rest, k, t))
  {
    var info' := s.info[t := s.info[t].(active := true, due := s.now + s.info[t].init, stamp := s.starts)];
    var order' := Inserted(rest, k, t);
    assert order'[k] == t && order'[k + 1] == rest[k] && rest[k] in rest;
    assert !Before(info', order'[k], order'[k + 1]);
  }

  // ----- What mixes with a callback

  ghost predicate LegalEvents(s: State, es: seq<Event>) {
    forall e :: e in es && e.Cmd? ==> Legal(s.info.Keys, e.c)
  }

  lemma EventLegal(s: State, es: seq<Event>)
    requires LegalEvents(s, es) && es != []
    ensures (es[0].Cmd? ==> es[0].c.t in s.info) && LegalEvents(Effect(s, es[0]), es[1..])
  {
    assert es[0] in es;
    forall e | e in es[1..] && e.Cmd? ensures Legal(s.info.Keys, e.c) { assert e in es; }
  }

  /** Every start meets the list with the guard satisfied. */
  ghost predicate ClearThrough(s: State, es: seq<Event>)
    requires LegalEvents(s, es)
    decreases |es|
  {
    es == [] ||
    (EventLegal(s, es);
     (es[0].Cmd? && es[0].c.Start? ==> ClearStart(s, es[0].c.t)) && ClearThrough(Effect(s, es[0]), es[1..]))
  }

  /** The list is sorted after every event. */
  ghost predicate SortedThrough(s: State, es: seq<Event>)
    requires LegalEvents(s, es)
    decreases |es|
  {
    Sorted(s.info, s.order) && (es == [] || (EventLegal(s, es); SortedThrough(Effect(s, es[0]), es[1..])))
  }

  ghost function AfterAll(s: State, es: seq<Event>): (s': State)
    requires LegalEvents(s, es)
    ensures s'.info.Keys == s.info.Keys
    decreases |es|
  {
    if es == [] then s else EventLegal(s, es); AfterAll(Effect(s, es[0]), es[1..])
  }

  lemma EventFiledIff(s: State, e: Event)
    requires Filed(s) && (e.Cmd? ==> Legal(s.info.Keys, e.c))
    ensures var s' := Effect(s, e);
            Sorted(s'.info, s'.order) <==> (e.Cmd? && e.c.Start? ==> ClearStart(s, e.c.t))
    ensures Sorted(Effect(s, e).info, Effect(s, e).order) ==> Filed(Effect(s, e))
  {
    hide Sorted, Without, ClearStart, Inserted, Place, PlaceSeen;
    match e
    case Pass => forall t | t in s.order ensures Entered(Effect(s, e), t) { assert Entered(s, t); }
    case Cmd(Start(t)) => StartFiledIff(s, t);
    case Cmd(Stop(t)) => RemovedFiled(s, t);
    case Cmd(Detach(t)) => RemovedFiled(s, t);
    case Cmd(SetTime(t, ticks)) => ChangedFiled(s, t, s.info[t].(init := ticks));
    case Cmd(SetPeriodic(t, periodic)) => ChangedFiled(s, t, s.info[t].(periodic := periodic));
  }

  lemma RemovedFiled(s: State, t: int)
    requires Filed(s) && t in s.info
    ensures Filed(Removed(s, t))
  {
    hide Without, Sorted;
    RestFiled(s, t);
    var s' := Removed(s, t);
    forall u | u in s'.order ensures Entered(s', u) { assert Entered(s, u); }
    SameTimes(s.info, s'.info, Without(s.order, t));
    if s'.temp.Some? {
      var u := s'.temp.value;
      assert u in Without(s.order, t) ==> u in s.order;
    }
  }

  lemma ChangedFiled(s: State, t: int, x: Timer)
    requires Filed(s) && t in s.info && x.init < HALF && x.due == s.info[t].due && x.stamp == s.info[t].stamp
    ensures Filed(s.(info := s.info[t := x]))
  {
    var s' := s.(info := s.info[t := x]);
    forall u | u in s'.order ensures Entered(s', u) { assert Entered(s, u); }
    SameTimes(s.info, s'.info, s.order);
  }

  lemma SameTimes(info: map<int, Timer>, info': map<int, Timer>, order: seq<int>)
    requires Sorted(info, order) && info'.Keys == info.Keys
    requires forall t :: t in info ==> info'[t].due == info[t].due && info'[t].stamp == info[t].stamp
    ensures Sorted(info', order)
  {
    forall i, j | 0 <= i < j < |order| ensures Before(info', order[i], order[j]) {
      assert Before(info, order[i], order[j]);
    }
  }

  /**
   Whatever commands and ticks come, in whatever order, and however late timers become: the list
   stays sorted exactly if every start meets it with the guard satisfied.
   */
  lemma {:induction false} SortedThroughIff(s: State, es: seq<Event>)
    requires Filed(s) && LegalEvents(s, es)
    ensures SortedThrough(s, es) <==> ClearThrough(s, es)
    ensures SortedThrough(s, es) ==> Filed(AfterAll(s, es))
    decreases |es|
  {
    hide Sorted, LegalEvents, Effect, ClearStart;
    if es != [] {
      EventLegal(s, es);
      FirstLegal(s, es);
      EventFiledIff(s, es[0]);
      var s' := Effect(s, es[0]);
      if Sorted(s'.info, s'.order) { SortedThroughIff(s', es[1..]); } else { Unsorted(s', es[1..]); }
    }
  }

  lemma FirstLegal(s: State, es: seq<Event>)
    requires LegalEvents(s, es) && es != []
    ensures es[0].Cmd? ==> Legal(s.info.Keys, es[0].c)
  {
    assert es[0] in es;
  }

  lemma Unsorted(s: State, es: seq<Event>)
    requires LegalEvents(s, es) && !Sorted(s.info, s.order)
    ensures !SortedThrough(s, es)
  {
  }

  // ----- One pass of the check

  /** After the callback: unless it was stopped or started, a periodic timer starts again. */
  ghost predicate Restarts(s: State, t: int)
    requires t in s.info
  {
    s.temp.Some? && s.info[t].periodic && s.info[t].active
  }

  function FinishedSeen(s: State, t: int): State
    requires t in s.info
  {
    if s.temp.None? then s
    else if s.info[t].periodic && s.info[t].active then StartSeen(s.(temp := None), t)
    else s.(temp := None)
  }

  lemma TakenFiled(s: State)
    requires Filed(s) && s.order != []
    ensures s.order[0] in s.info && Filed(Taken(s))
  {
    var t := s.order[0];
    assert t in s.order && Entered(s, t);
    var s' := Taken(s);
    assert s.order == [t] + s.order[1..];
    forall u | u in s'.order ensures Entered(s', u) { assert Entered(s, u); }
    forall i, j | 0 <= i < j < |s'.order| ensures Before(s'.info, s'.order[i], s'.order[j]) {
      assert Before(s.info, s.order[i + 1], s.order[j + 1]);
    }
    forall j | 0 < j < |s.order| ensures s.order[j] != t { assert Before(s.info, s.order[0], s.order[j]); }
  }

  /**
   One pass of the soft timer check, with the events `es` while the callback of its first timer
   runs, keeps the list sorted exactly if every start meets it with the guard satisfied, the
   restart of a periodic timer included.
   */
  lemma SoftPassIff(s: State, es: seq<Event>)
    requires Filed(s) && s.temp.None? && s.order != []
    ensures s.order[0] in s.info
    ensures LegalEvents(Taken(s), es) ==>
              var s1, t := AfterAll(Taken(s), es), s.order[0];
              var s' := FinishedSeen(s1, t);
              (SortedThrough(Taken(s), es) && Sorted(s'.info, s'.order) <==>
                 ClearThrough(Taken(s), es) && (Restarts(s1, t) ==> ClearStart(s1.(temp := None), t)))
  {
    hide Sorted, SortedThrough, ClearThrough, ClearStart, AfterAll, StartSeen;
    TakenFiled(s);
    if LegalEvents(Taken(s), es) {
      var s1, t := AfterAll(Taken(s), es), s.order[0];
      SortedThroughIff(Taken(s), es);
      if SortedThrough(Taken(s), es) {
        Untemp(s1);
        StartFiledIff(s1.(temp := None), t);
      }
    }
  }

  lemma Untemp(s: State)
    requires Filed(s)
    ensures Filed(s.(temp := None))
  {
    forall u | u in s.order ensures Entered(s.(temp := None), u) { assert Entered(s, u); }
  }

  // ----- A run that leaves the list out of order

  /** Four ticks pass during the callback of timer 9 while timer 0, due at the first, waits; then timer 1 starts. */
  lemma LateRun()
    ensures var s, es := LateStart(), [Pass, Pass, Pass, Pass, Cmd(Start(1))];
            && Sound(s) && LegalEvents(s, es) && AfterAll(s, es).order == [1, 0] && !SortedThrough(s, es)
  {
    var s0 := LateStart();
    assert Listed(s0, 0);
    var s1 := Effect(s0, Pass);
    var s2 := Effect(s1, Pass);
    var s3 := Effect(s2, Pass);
    var s4 := Effect(s3, Pass);
    var es := [Pass, Pass, Pass, Pass, Cmd(Start(1))];
    var s5 := LateStarted(s4);
    assert es[1..] == [Pass, Pass, Pass, Cmd(Start(1))] && es[1..][1..] == [Pass, Pass, Cmd(Start(1))];
    assert es[1..][1..][1..] == [Pass, Cmd(Start(1))] && es[1..][1..][1..][1..] == [Cmd(Start(1))];
    OneEvent(s4, Cmd(Start(1)));
    OneMore(s3, es[1..][1..][1..]);
    OneMore(s2, es[1..][1..]);
    OneMore(s1, es[1..]);
    OneMore(s0, es);
  }

  ghost function LateStart(): State {
    State(1, [0], map[0 := Timer(1, false, true, 1, 0), 1 := Timer(HALF - 1, false, false, 0, 0),
                      9 := Timer(1, false, false, 1, 1)], 2, Some(9))
  }

  lemma LateStarted(s: State) returns (s': State)
    requires s == LateStart().(now := 5)
    ensures 1 in s.info && s' == Effect(s, Cmd(Start(1))) && s'.order == [1, 0] && !Sorted(s'.info, s'.order)
  {
    s' := Effect(s, Cmd(Start(1)));
    assert Without(s.order, 1) == [0];
    var due := 5 + HALF - 1;
    assert Seen(s.info, 0, due);
    PlaceSeenIs([0], s.info, due, 0);
    assert Inserted([0], 0, 1) == [1, 0];
    assert !Before(s'.info, s'.order[0], s'.order[1]);
  }

  lemma OneEvent(s: State, e: Event)
    requires e.Cmd? ==> Legal(s.info.Keys, e.c)
    ensures LegalEvents(s, [e]) && AfterAll(s, [e]) == Effect(s, e)
    ensures !Sorted(Effect(s, e).info, Effect(s, e).order) ==> !SortedThrough(s, [e])
  {
    hide Sorted, Effect;
    assert [e][1..] == [];
    var s' := Effect(s, e);
    assert LegalEvents(s, [e]);
    EventLegal(s, [e]);
    assert AfterAll(s', []) == s';
  }

  lemma OneMore(s: State, es: seq<Event>)
    requires es != [] && es[0] == Pass && LegalEvents(Effect(s, es[0]), es[1..])
    ensures LegalEvents(s, es) && AfterAll(s, es) == AfterAll(Effect(s, es[0]), es[1..])
    ensures !SortedThrough(Effect(s, es[0]), es[1..]) ==> !SortedThrough(s, es)
  {
    hide Sorted;
    assert es == [es[0]] + es[1..];
    forall e | e in es && e.Cmd? ensures Legal(s.info.Keys, e.c) { assert e in es[1..]; }
  }
}
