/**
 The timers of rt-thread/src/timer.c in unbounded time: starting and stopping a timer, one call
 of rt_timer_check with callbacks that start, stop and change timers themselves, and whole runs.
 */
module TimerRuns {
  import opened Common
  import opened RtList

  /** RT_TICK_MAX / 2. */
  const HALF := 0x7fff_ffff
  /** The number of tick values. */
  const TICKS := 0x1_0000_0000
  /** How many ticks late a listed timer may be. */
  const LATE := 3

  /** A timer, with the true time of its deadline and the number of its last start. */
  datatype Timer = Timer(init: nat, periodic: bool, active: bool, due: int, stamp: nat)

  /** `order` is the timer list; `temp` the timer whose callback is running, while it is still on the temporary list. */
  datatype State = State(now: nat, order: seq<int>, info: map<int, Timer>, starts: nat, temp: Option<int>)

  function Due(info: map<int, Timer>, t: int): int { if t in info then info[t].due else 0 }

  /** Earlier deadline first; equal deadlines in the order of their starts. */
  ghost predicate Before(info: map<int, Timer>, t: int, u: int) {
    t in info && u in info
    && (info[t].due < info[u].due || (info[t].due == info[u].due && info[t].stamp < info[u].stamp))
  }

  ghost predicate Sorted(info: map<int, Timer>, order: seq<int>) {
    forall i, j :: 0 <= i < j < |order| ==> Before(info, order[i], order[j])
  }

  /** A listed timer is active, and neither too late nor too far ahead for 32-bit ticks. */
  ghost predicate Listed(s: State, t: int) {
    && t in s.info && s.info[t].active && s.info[t].stamp < s.starts
    && s.now - LATE <= s.info[t].due < s.now + HALF
  }

  ghost predicate Sound(s: State) {
    && Sorted(s.info, s.order) && (forall t :: t in s.order ==> Listed(s, t))
    && (forall t :: t in s.info ==> s.info[t].init < HALF && 0 <= s.info[t].due)
    && (s.temp.Some? ==> s.temp.value in s.info && s.temp.value !in s.order)
  }

  // ----- Starting and stopping

  /** Where rt_timer_start puts a deadline: before the first later one. */
  function Place(order: seq<int>, info: map<int, Timer>, due: int, from: nat := 0): (k: nat)
    requires from <= |order|
    ensures from <= k <= |order| && (k < |order| ==> Due(info, order[k]) > due)
    ensures forall j :: from <= j < k ==> Due(info, order[j]) <= due
    decreases |order| - from
  {
    if from == |order| || Due(info, order[from]) > due then from else Place(order, info, due, from + 1)
  }

  /** _timer_remove and the clearing of the ACTIVATED flag. */
  function Removed(s: State, t: int): State
    requires t in s.info
  {
    s.(order := Without(s.order, t), info := s.info[t := s.info[t].(active := false)],
    temp := if s.temp == Some(t) then None else s.temp)
  }

  function StartSpec(s: State, t: int): State
    requires t in s.info
  {
    var r := Removed(s, t);
    var x := s.info[t].(active := true, due := s.now + s.info[t].init, stamp := s.starts);
    var k := Place(r.order, s.info, x.due);
    r.(order := Inserted(r.order, k, t), info := s.info[t := x], starts := s.starts + 1)
  }

  function StopSpec(s: State, t: int): State
    requires t in s.info
  {
    if s.info[t].active then Removed(s, t) else s
  }

  datatype Command =
    | Start(t: int)
    | Stop(t: int)
    | Detach(t: int)
    | SetTime(t: int, ticks: nat)
    | SetPeriodic(t: int, periodic: bool)

  function Apply(s: State, c: Command): State
    requires c.t in s.info
  {
    match c
    case Start(t) => StartSpec(s, t)
    case Stop(t) => StopSpec(s, t)
    case Detach(t) => Removed(s, t)
    case SetTime(t, ticks) => s.(info := s.info[t := s.info[t].(init := ticks)])
    case SetPeriodic(t, periodic) => s.(info := s.info[t := s.info[t].(periodic := periodic)])
  }

  /** What the source demands of a caller. */
  ghost predicate Legal(keys: set<int>, c: Command) {
    c.t in keys && (c.SetTime? ==> c.ticks < HALF)
  }

  lemma StartSound(s: State, t: int)
    requires Sound(s) && t in s.info
    ensures Sound(StartSpec(s, t))
    ensures forall u :: u in StartSpec(s, t).order <==> u == t || u in s.order
  {
    hide Inserted, Without, Place, Sorted, Distinct;
    var s' := StartSpec(s, t);
    SortedDistinct(s.info, s.order);
    WithoutMembers(s.order, t);
    var rest := Without(s.order, t);
    var k := Place(rest, s.info, s'.info[t].due);
    SortedWithout(s.info, s.order, t);
    PlacedSorted(s, t, rest, k);
    InsertedMeaning(rest, k, t);
    forall u | u in s'.order ensures Listed(s', u) {
      if u != t { assert Listed(s, u); }
    }
  }

  lemma SortedDistinct(info: map<int, Timer>, order: seq<int>)
    requires Sorted(info, order)
    ensures Distinct(order)
  {
  }

  lemma SortedWithout(info: map<int, Timer>, order: seq<int>, t: int)
    requires Sorted(info, order)
    ensures Sorted(info, Without(order, t))
  {
  }

  /** Inserted at its place the timer keeps the list sorted, behind all that have the same deadline. */
  lemma PlacedSorted(s: State, t: int, rest: seq<int>, k: nat)
    requires t in s.info && t !in rest && Sorted(s.info, rest)
    requires forall u :: u in rest ==> u in s.info && s.info[u].stamp < s.starts
    requires k == Place(rest, s.info, s.now + s.info[t].init)
    ensures Sorted(s.info[t := s.info[t].(active := true, due := s.now + s.info[t].init, stamp := s.starts)],
                   Inserted(rest, k, t))
  {
    var info' := s.info[t := s.info[t].(active := true, due := s.now + s.info[t].init, stamp := s.starts)];
    var order' := Inserted(rest, k, t);
    forall i, j | 0 <= i < j < |order'| ensures Before(info', order'[i], order'[j]) {
      if i < k { assert order'[i] == rest[i] && rest[i] in rest; }
      if j > k {
        assert order'[j] == rest[j - 1] && rest[j - 1] in rest;
        if k < j - 1 { assert Before(s.info, rest[k], rest[j - 1]); }
      }
      if i < k && j < k { assert Before(s.info, rest[i], rest[j]); }
      if i < k && j > k { assert Before(s.info, rest[i], rest[j - 1]); }
      if i > k {
        assert order'[i] == rest[i - 1] && rest[i - 1] in rest && Before(s.info, rest[i - 1], rest[j - 1]);
      }
    }
  }

  lemma RemovedSound(s: State, t: int)
    requires Sound(s) && t in s.info
    ensures Sound(Removed(s, t))
    ensures forall u :: u in Removed(s, t).order <==> u != t && u in s.order
  {
    var s' := Removed(s, t);
    SortedDistinct(s.info, s.order);
    WithoutMembers(s.order, t);
    SortedWithout(s.info, s.order, t);
    forall u | u in s'.order ensures Listed(s', u) { assert Listed(s, u); }
    forall i, j | 0 <= i < j < |s'.order| ensures Before(s'.info, s'.order[i], s'.order[j]) {
      assert Before(s.info, s'.order[i], s'.order[j]);
    }
  }

  lemma ApplySound(s: State, c: Command)
    requires Sound(s) && Legal(s.info.Keys, c)
    ensures Sound(Apply(s, c)) && Apply(s, c).info.Keys == s.info.Keys && Apply(s, c).now == s.now
  {
    hide StartSpec, Removed;
    match c
    case Start(t) => StartSound(s, t); StartFrame(s, t);
    case Stop(t) => RemovedSound(s, t); RemovedFrame(s, t);
    case Detach(t) => RemovedSound(s, t); RemovedFrame(s, t);
    case SetTime(t, ticks) => ChangedSound(s, t, s.info[t].(init := ticks));
    case SetPeriodic(t, periodic) => ChangedSound(s, t, s.info[t].(periodic := periodic));
  }

  lemma StartFrame(s: State, t: int)
    requires t in s.info
    ensures StartSpec(s, t).info.Keys == s.info.Keys && StartSpec(s, t).now == s.now
    ensures s.temp.None? ==> StartSpec(s, t).temp.None?
  {
  }

  lemma RemovedFrame(s: State, t: int)
    requires t in s.info
    ensures Removed(s, t).info.Keys == s.info.Keys && Removed(s, t).now == s.now
  {
  }

  lemma ChangedSound(s: State, t: int, x: Timer)
    requires Sound(s) && t in s.info && x.init < HALF
    requires x.active == s.info[t].active && x.due == s.info[t].due && x.stamp == s.info[t].stamp
    ensures Sound(s.(info := s.info[t := x]))
  {
    var s' := s.(info := s.info[t := x]);
    forall u | u in s'.order ensures Listed(s', u) { assert Listed(s, u); }
    forall i, j | 0 <= i < j < |s'.order| ensures Before(s'.info, s'.order[i], s'.order[j]) {
      assert Before(s.info, s.order[i], s.order[j]);
    }
  }

  // ----- One call of rt_timer_check

  function ApplyAll(s: State, cs: seq<Command>): (r: State)
    requires forall c :: c in cs ==> c.t in s.info
    ensures r.info.Keys == s.info.Keys && r.now == s.now
    decreases |cs|
  {
    if cs == [] then s else ApplyAll(Applied(s, cs[0]), cs[1..])
  }

  function Applied(s: State, c: Command): (r: State)
    requires c.t in s.info
    ensures r == Apply(s, c) && r.info.Keys == s.info.Keys && r.now == s.now
  {
    Apply(s, c)
  }

  predicate Expired(s: State) { s.order != [] && Due(s.info, s.order[0]) <= s.now }

  /** The head of the list goes to the temporary list; a one-shot timer is no longer active. */
  function Taken(s: State): State
    requires s.order != [] && s.order[0] in s.info
  {
    var t := s.order[0];
    s.(order := s.order[1..], temp := Some(t), info := s.info[t := s.info[t].(active := s.info[t].periodic)])
  }

  /** After the callback: unless the callback stopped or started the timer, a periodic one starts again. */
  function Finished(s: State, t: int): State
    requires t in s.info
  {
    if s.temp.None? then s
    else if s.info[t].periodic && s.info[t].active then StartSpec(s.(temp := None), t)
    else s.(temp := None)
  }

  /** One pass of the loop of rt_timer_check; `cs` is what the callback does to timers. */
  function Fire(s: State, cs: seq<Command>): State
    requires s.order != [] && s.order[0] in s.info && forall c :: c in cs ==> c.t in s.info
  {
    Finished(ApplyAll(Taken(s), cs), s.order[0])
  }

  /** What the callbacks do: `cb(t, k)` is what the callback of timer `t` does when it is the k-th to run. */
  type Callbacks = (int, nat) -> seq<Command>

  ghost predicate AllLegal(keys: set<int>, cs: seq<Command>) {
    forall c :: c in cs ==> Legal(keys, c)
  }

  ghost predicate LegalCallbacks(keys: set<int>, cb: Callbacks) {
    forall t, k :: AllLegal(keys, cb(t, k))
  }

  ghost function DueSet(s: State): set<int> {
    set t | t in s.order && Due(s.info, t) <= s.now
  }

  ghost predicate Touches(c: Command, t: int) { c.t == t && (c.Start? || c.Stop? || c.Detach?) }

  ghost predicate TouchedBy(cs: seq<Command>, t: int) { exists c :: c in cs && Touches(c, t) }

  /** The timers of `ts` keep their deadlines and start numbers. */
  ghost predicate SameDue(s: State, s': State, ts: set<int>) {
    forall t :: t in ts ==>
                  && t in s.info && t in s'.info
                  && s'.info[t].due == s.info[t].due && s'.info[t].stamp == s.info[t].stamp
  }

  // ----- What a callback must not do

  /** A periodic timer with an interval of zero. */
  predicate Looping(x: Timer) { x.periodic && x.init == 0 }

  /** The timer is on the list, or its callback is running. */
  ghost predicate Engaged(s: State, t: int) { t in s.order || s.temp == Some(t) }

  /** No timer that is due or whose callback is running would be due again at once; with `all`, no listed one. */
  ghost predicate Tame(s: State, all: bool) {
    forall t :: t in s.info && (t in DueSet(s) || s.temp == Some(t) || (all && Engaged(s, t))) ==> !Looping(s.info[t])
  }

  /** A change of interval or period does not leave a timer in use with a period of zero. */
  ghost predicate Prudent(s: State, c: Command)
    requires c.t in s.info
  {
    match c
    case Start(t) => !Looping(s.info[t])
    case SetTime(t, ticks) => Engaged(s, t) ==> !Looping(s.info[t].(init := ticks))
    case SetPeriodic(t, periodic) => Engaged(s, t) ==> !Looping(s.info[t].(periodic := periodic))
    case _ => true
  }

  /** A callback, besides, starts no timer whose interval is zero at that time. */
  ghost predicate Careful(s: State, c: Command)
    requires c.t in s.info
  {
    Prudent(s, c) && (c.Start? ==> s.info[c.t].init > 0)
  }

  ghost predicate CarefulAll(s: State, cs: seq<Command>)
    requires forall c :: c in cs ==> c.t in s.info
    decreases |cs|
  {
    cs == [] || (Careful(s, cs[0]) && CarefulAll(Applied(s, cs[0]), cs[1..]))
  }

  /** What a command does to the timers that are due. */
  lemma ApplyDue(s: State, c: Command, all: bool)
    requires Sound(s) && Tame(s, all) && Legal(s.info.Keys, c) && Careful(s, c)
    ensures Sound(Apply(s, c)) && Tame(Apply(s, c), all)
    ensures forall t :: t in DueSet(Apply(s, c)) <==> t in DueSet(s) && !Touches(c, t)
    ensures SameDue(s, Apply(s, c), DueSet(Apply(s, c)))
  {
    hide Place, Sorted, Inserted, Without;
    var s' := Apply(s, c);
    ApplySound(s, c);
    SortedDistinct(s.info, s.order);
    WithoutMembers(s.order, c.t);
    if c.Start? { StartSound(s, c.t); }
    forall t ensures t in DueSet(s') <==> t in DueSet(s) && !Touches(c, t) {
      if t in s.order { assert Listed(s, t); }
      if t in s'.order { assert Listed(s', t); }
    }
  }

  lemma {:induction false} ApplyAllDue(s: State, cs: seq<Command>, all: bool)
    requires Sound(s) && Tame(s, all) && AllLegal(s.info.Keys, cs) && AllKnown(s, cs) && CarefulAll(s, cs)
    ensures var s' := ApplyAll(s, cs);
            && Sound(s') && Tame(s', all)
            && (forall t :: t in DueSet(s') <==> t in DueSet(s) && !TouchedBy(cs, t))
            && SameDue(s, s', DueSet(s'))
    decreases |cs|
  {
    hide Apply, Sorted, Tame, Careful;
    if cs == [] {
      forall t | t in DueSet(s) ensures t in s.info { assert Listed(s, t); }
    } else {
      assert cs[0] in cs && Legal(s.info.Keys, cs[0]);
      var s1 := Applied(s, cs[0]);
      ApplyDue(s, cs[0], all);
      ApplyAllDue(s1, cs[1..], all);
      forall t ensures TouchedBy(cs, t) <==> Touches(cs[0], t) || TouchedBy(cs[1..], t) {
        assert forall c :: c in cs <==> c == cs[0] || c in cs[1..];
      }
    }
  }

  ghost predicate AllKnown(s: State, cs: seq<Command>) { forall c :: c in cs ==> c.t in s.info }

  lemma LegalKnown(s: State, cs: seq<Command>)
    requires AllLegal(s.info.Keys, cs)
    ensures AllKnown(s, cs)
  {
    forall c | c in cs ensures c.t in s.info { assert Legal(s.info.Keys, c); }
  }

  lemma TakenOnly(s: State)
    requires Sound(s) && s.order != []
    ensures s.order[0] in s.info && Sound(Taken(s)) && s.order[0] !in Taken(s).order
    ensures forall u :: u in s.order <==> u == s.order[0] || u in Taken(s).order
  {
    var t := s.order[0];
    assert t in s.order && Listed(s, t);
    forall j | 0 < j < |s.order| ensures s.order[j] != t { assert Before(s.info, s.order[0], s.order[j]); }
    var s' := Taken(s);
    assert s.order == [t] + s.order[1..];
    forall u | u in s'.order ensures Listed(s', u) { assert Listed(s, u); }
    forall i, j | 0 <= i < j < |s'.order| ensures Before(s'.info, s'.order[i], s'.order[j]) {
      assert Before(s.info, s.order[i + 1], s.order[j + 1]);
    }
  }

  lemma TakenSound(s: State, all: bool)
    requires Sound(s) && Tame(s, all) && s.temp.None? && Expired(s)
    ensures s.order[0] in s.info && Sound(Taken(s)) && Tame(Taken(s), all)
    ensures forall t :: t in DueSet(Taken(s)) <==> t in DueSet(s) && t != s.order[0]
    ensures SameDue(s, Taken(s), DueSet(Taken(s)))
  {
    hide Sorted;
    TakenOnly(s);
    assert s.order[0] in DueSet(s);
    forall t | t in DueSet(Taken(s)) ensures t in s.info { assert Listed(s, t); }
  }

  lemma {:induction false} ApplyAllSound(s: State, cs: seq<Command>)
    requires Sound(s) && AllLegal(s.info.Keys, cs) && AllKnown(s, cs)
    ensures Sound(ApplyAll(s, cs)) && (ApplyAll(s, cs).temp == s.temp || ApplyAll(s, cs).temp.None?)
    decreases |cs|
  {
    hide Sound;
    if cs != [] {
      assert cs[0] in cs && Legal(s.info.Keys, cs[0]);
      ApplySound(s, cs[0]);
      ApplyAllSound(Applied(s, cs[0]), cs[1..]);
    }
  }

  /** Whatever the callback does, a pass keeps the list sorted. */
  lemma FireSound(s: State, cs: seq<Command>)
    requires Sound(s) && s.temp.None? && s.order != [] && AllLegal(s.info.Keys, cs)
    ensures s.order[0] in s.info && AllKnown(s, cs)
    ensures var s' := Fire(s, cs); Sound(s') && s'.temp.None? && s'.info.Keys == s.info.Keys && s'.now == s.now
  {
    hide ApplyAll, Sorted, StartSpec;
    var t := s.order[0];
    LegalKnown(s, cs);
    TakenOnly(s);
    ApplyAllSound(Taken(s), cs);
    var s1 := ApplyAll(Taken(s), cs);
    if s1.temp.Some? {
      Untemped(s1);
      StartFrame(s1.(temp := None), t);
      StartSound(s1.(temp := None), t);
    }
  }

  lemma Untemped(s: State)
    requires Sound(s)
    ensures Sound(s.(temp := None)) && DueSet(s.(temp := None)) == DueSet(s)
  {
    forall u | u in s.order ensures Listed(s.(temp := None), u) { assert Listed(s, u); }
  }

  /**
   One pass takes the fired timer out of the timers that are due, with those its callback
   starts, stops or detaches, and leaves all others due.
   */
  lemma FireDue(s: State, cs: seq<Command>, all: bool)
    requires Sound(s) && Tame(s, all) && s.temp.None? && Expired(s)
    requires AllLegal(s.info.Keys, cs) && s.order[0] in s.info && AllKnown(s, cs) && CarefulAll(Taken(s), cs)
    ensures Tame(Fire(s, cs), all)
    ensures forall t :: t in DueSet(Fire(s, cs)) <==> t in DueSet(s) && t != s.order[0] && !TouchedBy(cs, t)
    ensures SameDue(s, Fire(s, cs), DueSet(Fire(s, cs)))
  {
    hide ApplyAll, Sorted, StartSpec, CarefulAll;
    var t := s.order[0];
    TakenSound(s, all);
    ApplyAllDue(Taken(s), cs, all);
    ApplyAllSound(Taken(s), cs);
    var s1 := ApplyAll(Taken(s), cs);
    if s1.temp.Some? {
      var s2 := s1.(temp := None);
      Untemped(s1);
      if s1.info[t].periodic && s1.info[t].active {
        assert !Looping(s1.info[t]);
        assert Apply(s2, Start(t)) == StartSpec(s2, t);
        ApplyDue(s2, Start(t), all);
      }
    }
  }

  /** The state after at most `n` passes of the loop of rt_timer_check. */
  ghost function Passes(s: State, cb: Callbacks, k: nat, n: nat): (r: State)
    requires Sound(s) && s.temp.None? && LegalCallbacks(s.info.Keys, cb)
    ensures Sound(r) && r.temp.None? && r.info.Keys == s.info.Keys && r.now == s.now
    decreases n
  {
    if n == 0 || !Expired(s) then s
    else
      assert AllLegal(s.info.Keys, cb(s.order[0], k));
      FireSound(s, cb(s.order[0], k));
      Passes(Fire(s, cb(s.order[0], k)), cb, k + 1, n - 1)
  }

  /** The callback of the next pass, if there is one, is careful. */
  ghost predicate CarefulPass(s: State, cb: Callbacks, k: nat)
    requires Sound(s) && s.temp.None? && LegalCallbacks(s.info.Keys, cb)
  {
    Expired(s) ==>
      (assert AllLegal(s.info.Keys, cb(s.order[0], k));
       FireSound(s, cb(s.order[0], k));
       CarefulAll(Taken(s), cb(s.order[0], k)))
  }

  /** ... and that of the pass after `n` more. */
  ghost predicate CarefulAfter(s: State, cb: Callbacks, k: nat, n: nat)
    requires Sound(s) && s.temp.None? && LegalCallbacks(s.info.Keys, cb)
  {
    CarefulPass(Passes(s, cb, k, n), cb, k + n)
  }

  /** Every callback that runs in the check is careful at the time it runs. */
  ghost predicate CarefulCallbacks(s: State, cb: Callbacks, k: nat)
    requires Sound(s) && s.temp.None? && LegalCallbacks(s.info.Keys, cb)
  {
    forall n: nat :: CarefulAfter(s, cb, k, n)
  }

  /** The loop ends. */
  ghost predicate Ends(s: State, cb: Callbacks, k: nat)
    requires Sound(s) && s.temp.None? && LegalCallbacks(s.info.Keys, cb)
  {
    exists n: nat :: !Expired(Passes(s, cb, k, n))
  }

  /** What is asked of a state and its callbacks for the loop to end. */
  ghost predicate Ready(s: State, cb: Callbacks, k: nat) {
    Sound(s) && s.temp.None? && Tame(s, false) && LegalCallbacks(s.info.Keys, cb) && CarefulCallbacks(s, cb, k)
  }

  /** One pass: the next state, from which the rest of the check runs. */
  lemma PassReady(s: State, cb: Callbacks, k: nat)
    requires Ready(s, cb, k) && Expired(s)
    ensures var t, cs := s.order[0], cb(s.order[0], k);
            && t in s.info && AllKnown(s, cs) && AllLegal(s.info.Keys, cs) && CarefulAll(Taken(s), cs)
            && Ready(Fire(s, cs), cb, k + 1) && Fire(s, cs).info.Keys == s.info.Keys && Fire(s, cs).now == s.now
            && DueSet(Fire(s, cs)) < DueSet(s) && t in DueSet(s)
  {
    hide Sound, Tame, CarefulAll, Fire;
    var cs := cb(s.order[0], k);
    assert AllLegal(s.info.Keys, cs);
    FireSound(s, cs);
    var s1 := Fire(s, cs);
    assert Passes(s, cb, k, 0) == s && CarefulAfter(s, cb, k, 0);
    FireDue(s, cs, false);
    assert s.order[0] in DueSet(s);
    var k1 := k + 1;
    forall n: nat ensures CarefulAfter(s1, cb, k1, n) {
      assert CarefulAfter(s, cb, k, n + 1) && Passes(s, cb, k, n + 1) == Passes(s1, cb, k1, n);
    }
  }

  /** The timers whose callbacks the first `n` passes run, in order. */
  ghost function Log(s: State, cb: Callbacks, k: nat, n: nat): seq<int>
    requires Sound(s) && s.temp.None? && LegalCallbacks(s.info.Keys, cb)
    decreases n
  {
    if n == 0 || !Expired(s) then []
    else
      assert AllLegal(s.info.Keys, cb(s.order[0], k));
      FireSound(s, cb(s.order[0], k));
      [s.order[0]] + Log(Fire(s, cb(s.order[0], k)), cb, k + 1, n - 1)
  }

  /** A sorted list, and callbacks with which the loop ends. */
  ghost predicate Terminates(s: State, cb: Callbacks, k: nat) {
    Sound(s) && s.temp.None? && LegalCallbacks(s.info.Keys, cb) && Ends(s, cb, k)
  }

  /** The loop of rt_timer_check, when it ends: the state it leaves, and the callbacks it ran. */
  ghost function Check(s: State, cb: Callbacks, k: nat := 0): (r: (State, seq<int>))
    requires Terminates(s, cb, k)
  {
    var n: nat :| !Expired(Passes(s, cb, k, n));
    (Passes(s, cb, k, n), Log(s, cb, k, n))
  }

  /** One more pass. */
  lemma PassNext(s: State, cb: Callbacks, k: nat, n: nat)
    requires Sound(s) && s.temp.None? && LegalCallbacks(s.info.Keys, cb) && Expired(s) && n > 0
    ensures var t, cs := s.order[0], cb(s.order[0], k);
            && t in s.info && AllKnown(s, cs) && AllLegal(s.info.Keys, cs)
            && var s1 := Fire(s, cs);
            && Sound(s1) && s1.temp.None? && s1.info.Keys == s.info.Keys && s1.now == s.now
            && Passes(s, cb, k, n) == Passes(s1, cb, k + 1, n - 1)
            && Log(s, cb, k, n) == [t] + Log(s1, cb, k + 1, n - 1)
  {
    hide Sound, Fire;
    var cs := cb(s.order[0], k);
    assert AllLegal(s.info.Keys, cs);
    FireSound(s, cs);
  }

  lemma {:induction false} PassesAgree(s: State, cb: Callbacks, k: nat, n: nat, m: nat)
    requires Sound(s) && s.temp.None? && LegalCallbacks(s.info.Keys, cb)
    requires !Expired(Passes(s, cb, k, n)) && !Expired(Passes(s, cb, k, m))
    ensures Passes(s, cb, k, n) == Passes(s, cb, k, m) && Log(s, cb, k, n) == Log(s, cb, k, m)
    decreases n
  {
    hide Sound, Fire, LegalCallbacks;
    if Expired(s) {
      PassNext(s, cb, k, n);
      PassNext(s, cb, k, m);
      PassesAgree(Fire(s, cb(s.order[0], k)), cb, k + 1, n - 1, m - 1);
    }
  }

  lemma CheckIs(s: State, cb: Callbacks, k: nat, n: nat)
    requires Sound(s) && s.temp.None? && LegalCallbacks(s.info.Keys, cb) && !Expired(Passes(s, cb, k, n))
    ensures Terminates(s, cb, k) && Check(s, cb, k) == (Passes(s, cb, k, n), Log(s, cb, k, n))
  {
    hide Sound, LegalCallbacks;
    var m: nat :| !Expired(Passes(s, cb, k, m)) && Check(s, cb, k) == (Passes(s, cb, k, m), Log(s, cb, k, m));
    PassesAgree(s, cb, k, n, m);
  }

  lemma CheckStops(s: State, cb: Callbacks, k: nat)
    requires Sound(s) && s.temp.None? && LegalCallbacks(s.info.Keys, cb) && !Expired(s)
    ensures Terminates(s, cb, k) && Check(s, cb, k) == (s, [])
  {
    hide Sound, LegalCallbacks;
    CheckIs(s, cb, k, 0);
  }

  lemma CheckNext(s: State, cb: Callbacks, k: nat)
    requires Terminates(s, cb, k) && Expired(s)
    ensures var t, cs := s.order[0], cb(s.order[0], k);
            && t in s.info && AllKnown(s, cs) && AllLegal(s.info.Keys, cs)
            && var s1 := Fire(s, cs);
            && Terminates(s1, cb, k + 1) && s1.info.Keys == s.info.Keys && s1.now == s.now
            && Check(s, cb, k) == (Check(s1, cb, k + 1).0, [t] + Check(s1, cb, k + 1).1)
  {
    hide Sound, LegalCallbacks, Fire;
    var n: nat :| !Expired(Passes(s, cb, k, n));
    PassNext(s, cb, k, n);
    CheckIs(s, cb, k, n);
    CheckIs(Fire(s, cb(s.order[0], k)), cb, k + 1, n - 1);
  }

  /** Whatever the callbacks do: when the check has ended the list is sorted and no listed timer is due. */
  lemma CheckEnded(s: State, cb: Callbacks, k: nat)
    requires Terminates(s, cb, k)
    ensures var s' := Check(s, cb, k).0;
            && Sound(s') && s'.temp.None? && s'.info.Keys == s.info.Keys && s'.now == s.now && DueSet(s') == {}
  {
    hide Sound, LegalCallbacks;
    var n: nat :| !Expired(Passes(s, cb, k, n));
    CheckIs(s, cb, k, n);
    NoneDue(Passes(s, cb, k, n));
  }

  /** Careful callbacks cannot keep the check from ending, if no timer that is due has a period of zero. */
  lemma {:induction false} CarefulEnds(s: State, cb: Callbacks, k: nat)
    requires Ready(s, cb, k)
    ensures Ends(s, cb, k) && Terminates(s, cb, k)
    decreases DueSet(s)
  {
    hide Sound, Fire, Tame, CarefulCallbacks, CarefulAll;
    if !Expired(s) {
      assert !Expired(Passes(s, cb, k, 0));
    } else {
      PassReady(s, cb, k);
      var s1 := Fire(s, cb(s.order[0], k));
      CarefulEnds(s1, cb, k + 1);
      var n: nat :| !Expired(Passes(s1, cb, k + 1, n));
      assert Passes(s, cb, k, n + 1) == Passes(s1, cb, k + 1, n);
    }
  }

  ghost predicate TouchedIn(log: seq<int>, cb: Callbacks, k: nat, t: int) {
    exists i :: 0 <= i < |log| && TouchedBy(cb(log[i], k + i), t)
  }

  /**
   rt_timer_check ends, and afterwards no listed timer is due. It runs the callbacks of timers
   that were due, each once, by deadline and then by start; and of all of them, except those
   that an earlier callback started, stopped or detached.
   */
  lemma {:induction false} CheckMeaning(s: State, cb: Callbacks, k: nat)
    requires Ready(s, cb, k)
    ensures Terminates(s, cb, k)
    ensures var (s', log) := Check(s, cb, k);
            && Sound(s') && s'.temp.None? && s'.info.Keys == s.info.Keys && s'.now == s.now
            && DueSet(s') == {} && (Tame(s, true) ==> Tame(s', true))
    ensures var (s', log) := Check(s, cb, k);
            && (forall t :: t in log ==> t in DueSet(s))
            && Sorted(s.info, log)
            && (forall t :: t in DueSet(s) && t !in log ==> TouchedIn(log, cb, k, t))
    decreases DueSet(s)
  {
    hide Sound, Fire, Check, Ends, Sorted, Tame, CarefulCallbacks, LegalCallbacks, CarefulAll;
    CarefulEnds(s, cb, k);
    if !Expired(s) {
      CheckStops(s, cb, k);
      NoneDue(s);
    } else {
      PassReady(s, cb, k);
      CheckNext(s, cb, k);
      var t, cs := s.order[0], cb(s.order[0], k);
      var s1 := Fire(s, cs);
      FireDue(s, cs, false);
      if Tame(s, true) { FireDue(s, cs, true); }
      CheckMeaning(s1, cb, k + 1);
      var log1 := Check(s1, cb, k + 1).1;
      var log := [t] + log1;
      LogSorted(s, s1, t, log1);
      LogComplete(s, s1, cb, k, log1);
    }
  }

  lemma LogComplete(s: State, s1: State, cb: Callbacks, k: nat, log1: seq<int>)
    requires s.order != []
    requires forall u :: u in DueSet(s1) <==> u in DueSet(s) && u != s.order[0] && !TouchedBy(cb(s.order[0], k), u)
    requires forall u :: u in DueSet(s1) && u !in log1 ==> TouchedIn(log1, cb, k + 1, u)
    ensures forall u :: u in DueSet(s) && u !in [s.order[0]] + log1 ==> TouchedIn([s.order[0]] + log1, cb, k, u)
  {
    var log := [s.order[0]] + log1;
    forall u | u in DueSet(s) && u !in log ensures TouchedIn(log, cb, k, u) {
      if TouchedBy(cb(s.order[0], k), u) {
        assert log[0] == s.order[0] && TouchedBy(cb(log[0], k + 0), u);
      } else {
        assert u in DueSet(s1) && u !in log1;
        var i :| 0 <= i < |log1| && TouchedBy(cb(log1[i], k + 1 + i), u);
        assert log[i + 1] == log1[i] && TouchedBy(cb(log[i + 1], k + (i + 1)), u);
      }
    }
  }

  lemma NoneDue(s: State)
    requires Sound(s) && !Expired(s)
    ensures DueSet(s) == {} && Sorted(s.info, [])
  {
    forall t | t in s.order ensures Due(s.info, t) > s.now {
      var j :| 0 <= j < |s.order| && s.order[j] == t;
      if j > 0 { assert Before(s.info, s.order[0], s.order[j]); }
    }
  }

  lemma LogSorted(s: State, s1: State, t: int, log1: seq<int>)
    requires Sound(s) && s.order != [] && t == s.order[0] && Sorted(s1.info, log1)
    requires forall u :: u in log1 ==> u in DueSet(s1) && u in DueSet(s) && u != t
    requires SameDue(s, s1, DueSet(s1))
    ensures Sorted(s.info, [t] + log1)
  {
    var log := [t] + log1;
    forall i, j | 0 <= i < j < |log| ensures Before(s.info, log[i], log[j]) {
      assert log[j] == log1[j - 1] && log[j] in DueSet(s);
      if i == 0 {
        var n :| 0 <= n < |s.order| && s.order[n] == log[j];
        assert Before(s.info, s.order[0], s.order[n]);
      } else {
        assert log[i] == log1[i - 1] && log[i] in DueSet(s);
        assert Before(s1.info, log1[i - 1], log1[j - 1]);
      }
    }
  }

  // ----- When the check ends

  /** Callbacks that do nothing to timers. */
  ghost function Idle(): (cb: Callbacks)
    ensures forall t, k :: cb(t, k) == []
  {
    (t: int, k: nat) => []
  }

  lemma IdleCareful(s: State)
    requires Sound(s) && s.temp.None?
    ensures LegalCallbacks(s.info.Keys, Idle()) && CarefulCallbacks(s, Idle(), 0)
  {
    forall n: nat ensures CarefulAfter(s, Idle(), 0, n) {
    }
  }

  /** A pass with an idle callback leaves a due timer with a period of zero as it was. */
  lemma IdleFire(s: State, t: int)
    requires Sound(s) && s.temp.None? && Expired(s) && t in DueSet(s) && t in s.info && Looping(s.info[t])
    ensures s.order[0] in s.info
    ensures t in DueSet(Fire(s, [])) && t in Fire(s, []).info && Looping(Fire(s, []).info[t])
  {
    hide StartSpec, Sorted;
    var u := s.order[0];
    assert u in s.order && Listed(s, u) && Listed(s, t);
    TakenOnly(s);
    var s1 := Taken(s);
    assert ApplyAll(s1, []) == s1;
    Untemped(s1);
    if s1.info[u].periodic && s1.info[u].active { Restarted(s1.(temp := None), u); }
  }

  lemma Restarted(s: State, t: int)
    requires Sound(s) && t in s.info
    ensures var s' := StartSpec(s, t);
            && Sound(s') && s'.info[t].due == s.now + s.info[t].init
            && s'.info[t].periodic == s.info[t].periodic && s'.info[t].init == s.info[t].init
            && s'.now == s.now && (s.temp.None? ==> s'.temp.None?)
    ensures forall u :: u in StartSpec(s, t).order <==> u == t || u in s.order
    ensures forall u :: u in s.info && u != t ==> StartSpec(s, t).info[u] == s.info[u]
  {
    StartSound(s, t);
  }

  /**
   A due periodic timer with an interval of zero keeps rt_timer_check in its loop for ever, when
   callbacks are idle.
   */
  lemma {:induction false} ZeroNeverEnds(s: State, t: int, k: nat, n: nat)
    requires Sound(s) && s.temp.None? && t in DueSet(s) && t in s.info && Looping(s.info[t])
    requires LegalCallbacks(s.info.Keys, Idle())
    ensures Expired(Passes(s, Idle(), k, n))
    decreases n
  {
    hide Fire, Sorted, Sound, Looping;
    if !Expired(s) { NoneDue(s); }
    if n > 0 {
      assert AllLegal(s.info.Keys, Idle()(s.order[0], k)) && Idle()(s.order[0], k) == [];
      FireSound(s, []);
      IdleFire(s, t);
      ZeroNeverEnds(Fire(s, []), t, k + 1, n - 1);
    }
  }

  /** With idle callbacks the check ends exactly if no timer that is due is periodic with an interval of zero. */
  lemma IdleEndsIff(s: State)
    requires Sound(s) && s.temp.None?
    ensures LegalCallbacks(s.info.Keys, Idle())
    ensures Ends(s, Idle(), 0) <==> forall t :: t in DueSet(s) && t in s.info ==> !Looping(s.info[t])
  {
    hide Sound, Looping;
    IdleCareful(s);
    if t :| t in DueSet(s) && t in s.info && Looping(s.info[t]) {
      forall n: nat ensures Expired(Passes(s, Idle(), 0, n)) { ZeroNeverEnds(s, t, 0, n); }
    } else {
      CarefulEnds(s, Idle(), 0);
    }
  }

  /** The check ends with all careful callbacks exactly under the same condition. */
  lemma CarefulEndsIff(s: State)
    requires Sound(s) && s.temp.None?
    ensures (forall cb: Callbacks :: LegalCallbacks(s.info.Keys, cb) && CarefulCallbacks(s, cb, 0) ==>
              Ends(s, cb, 0)) <==>
              forall t :: t in DueSet(s) && t in s.info ==> !Looping(s.info[t])
  {
    hide Sound, Looping, Ends, CarefulCallbacks, LegalCallbacks;
    IdleCareful(s);
    IdleEndsIff(s);
    if forall t :: t in DueSet(s) && t in s.info ==> !Looping(s.info[t]) {
      forall cb: Callbacks | LegalCallbacks(s.info.Keys, cb) && CarefulCallbacks(s, cb, 0) ensures Ends(s, cb, 0) {
        CarefulEnds(s, cb, 0);
      }
    }
  }

  // ----- Whole runs

  /** A clock tick with the check it makes, or a call made by a thread. */
  datatype Op = Tick(cb: Callbacks) | Do(c: Command)

  /** Between ticks no listed timer is late; one started with an interval of zero is due now. */
  ghost predicate Resting(s: State) {
    Sound(s) && Tame(s, true) && s.temp.None? && forall t :: t in s.order ==> Due(s.info, t) >= s.now
  }

  /**
   The clock moves on: due are the timers with this tick as deadline, and those just started with
   an interval of zero.
   */
  lemma Ticked(s: State)
    requires Resting(s)
    ensures var s1 := s.(now := s.now + 1);
            && Sound(s1) && Tame(s1, true) && Tame(s1, false)
            && forall t :: t in DueSet(s1) <==> t in s.order && s.now <= Due(s.info, t) <= s.now + 1
  {
    var s1 := s.(now := s.now + 1);
    forall t | t in s.order ensures Listed(s1, t) { assert Listed(s, t); }
  }

  /** What the source asks of a caller, and that callbacks are careful and threads prudent. */
  ghost predicate LegalOp(s: State, op: Op)
    requires Resting(s)
  {
    match op
    case Tick(cb) =>
      Ticked(s);
      LegalCallbacks(s.info.Keys, cb) && CarefulCallbacks(s.(now := s.now + 1), cb, 0)
    case Do(c) => Legal(s.info.Keys, c) && Prudent(s, c)
  }

  /** The check that the next tick makes ends. */
  ghost predicate Beats(s: State, cb: Callbacks) { Terminates(s.(now := s.now + 1), cb, 0) }

  lemma TickReady(s: State, cb: Callbacks)
    requires Resting(s) && LegalOp(s, Tick(cb))
    ensures Ready(s.(now := s.now + 1), cb, 0) && Beats(s, cb)
  {
    hide Sound, Tame, CarefulCallbacks, LegalCallbacks, DueSet, Ends;
    Ticked(s);
    CarefulEnds(s.(now := s.now + 1), cb, 0);
  }

  ghost function TickSpec(s: State, cb: Callbacks): (r: (State, seq<int>))
    requires Beats(s, cb)
  {
    Check(s.(now := s.now + 1), cb)
  }

  lemma TickRests(s: State, cb: Callbacks)
    requires Resting(s) && LegalOp(s, Tick(cb))
    ensures Beats(s, cb)
    ensures var s' := TickSpec(s, cb).0; Resting(s') && s'.info.Keys == s.info.Keys && s'.now == s.now + 1
  {
    hide Sound, Check, Tame, CarefulCallbacks, Ends;
    Ticked(s);
    TickReady(s, cb);
    CheckMeaning(s.(now := s.now + 1), cb, 0);
    var s' := TickSpec(s, cb).0;
    forall t | t in s'.order ensures Due(s'.info, t) >= s'.now { assert t !in DueSet(s'); }
  }

  lemma DoRests(s: State, c: Command)
    requires Resting(s) && LegalOp(s, Do(c))
    ensures var s' := Apply(s, c); Resting(s') && s'.info.Keys == s.info.Keys && s'.now == s.now
  {
    hide Place, Sorted, Inserted, Without;
    ApplySound(s, c);
    SortedDistinct(s.info, s.order);
    WithoutMembers(s.order, c.t);
    if c.Start? { StartSound(s, c.t); }
    var s' := Apply(s, c);
    forall t | t in s'.order ensures Due(s'.info, t) >= s'.now { assert Listed(s', t); }
  }

  ghost function Step(s: State, op: Op): (s': State)
    requires Resting(s) && LegalOp(s, op)
    ensures Resting(s') && s'.info.Keys == s.info.Keys
  {
    match op
    case Tick(cb) => TickRests(s, cb); TickSpec(s, cb).0
    case Do(c) => DoRests(s, c); Apply(s, c)
  }

  ghost predicate LegalRun(s: State, ops: seq<Op>)
    requires Resting(s)
    decreases |ops|
  {
    ops == [] || (LegalOp(s, ops[0]) && LegalRun(Step(s, ops[0]), ops[1..]))
  }

  ghost function Run(s: State, ops: seq<Op>): (s': State)
    requires Resting(s) && LegalRun(s, ops)
    ensures Resting(s') && s'.info.Keys == s.info.Keys
    decreases |ops|
  {
    if ops == [] then s else Run(Step(s, ops[0]), ops[1..])
  }

  /**
   A callback runs at the tick that is its timer's deadline, neither early nor late; that of a
   timer started with an interval of zero, at the next tick.
   */
  lemma FiresOnTime(s: State, cb: Callbacks, t: int)
    requires Resting(s) && LegalOp(s, Tick(cb))
    ensures Beats(s, cb)
    ensures t in TickSpec(s, cb).1 ==> t in s.order && (Due(s.info, t) == s.now + 1 || Due(s.info, t) == s.now)
    ensures t in s.order && Due(s.info, t) <= s.now + 1 ==>
              t in TickSpec(s, cb).1 || TouchedIn(TickSpec(s, cb).1, cb, 0, t)
  {
    hide Sound, Check, Sorted, TouchedIn, Tame, DueSet, LegalCallbacks, CarefulCallbacks, Ends;
    Ticked(s);
    TickReady(s, cb);
    CheckMeaning(s.(now := s.now + 1), cb, 0);
  }

  // ----- A timer left alone fires when it should

  ghost predicate Waits(s: State, t: int, due: int) {
    t in s.order && t in s.info && s.info[t].due == due
  }

  ghost predicate Quiet(cb: Callbacks, t: int) {
    forall u, k :: !TouchedBy(cb(u, k), t)
  }

  ghost predicate Leaves(op: Op, t: int) {
    match op
    case Tick(cb) => Quiet(cb, t)
    case Do(c) => !Touches(c, t)
  }

  function TicksIn(ops: seq<Op>): nat {
    if ops == [] then 0 else (if ops[0].Tick? then 1 else 0) + TicksIn(ops[1..])
  }

  lemma ApplyWaits(s: State, c: Command, t: int, due: int)
    requires Sound(s) && Legal(s.info.Keys, c) && Waits(s, t, due) && !Touches(c, t)
    ensures Waits(Apply(s, c), t, due)
  {
    hide Place, Inserted, Without, Sorted;
    SortedDistinct(s.info, s.order);
    WithoutMembers(s.order, c.t);
    if c.Start? { StartSound(s, c.t); }
  }

  lemma {:induction false} ApplyAllWaits(s: State, cs: seq<Command>, t: int, due: int)
    requires Sound(s) && AllLegal(s.info.Keys, cs) && AllKnown(s, cs) && Waits(s, t, due) && !TouchedBy(cs, t)
    ensures Waits(ApplyAll(s, cs), t, due)
    decreases |cs|
  {
    hide Apply, Sound;
    if cs != [] {
      assert cs[0] in cs && Legal(s.info.Keys, cs[0]);
      ApplyWaits(s, cs[0], t, due);
      ApplySound(s, cs[0]);
      ApplyAllWaits(Applied(s, cs[0]), cs[1..], t, due);
    }
  }

  lemma FireWaits(s: State, cs: seq<Command>, t: int, due: int)
    requires Sound(s) && s.temp.None? && s.order != [] && AllLegal(s.info.Keys, cs)
    requires Waits(s, t, due) && t != s.order[0] && !TouchedBy(cs, t)
    ensures s.order[0] in s.info && AllKnown(s, cs) && Waits(Fire(s, cs), t, due)
  {
    hide Sorted, StartSpec, ApplyAll;
    LegalKnown(s, cs);
    TakenOnly(s);
    ApplyAllSound(Taken(s), cs);
    ApplyAllWaits(Taken(s), cs, t, due);
    var s1 := ApplyAll(Taken(s), cs);
    if s1.temp.Some? {
      Untemped(s1);
      Restarted(s1.(temp := None), s.order[0]);
    }
  }

  lemma {:induction false} CheckWaits(s: State, cb: Callbacks, k: nat, t: int, due: int)
    requires Ready(s, cb, k) && Waits(s, t, due) && s.now < due && Quiet(cb, t)
    ensures Terminates(s, cb, k) && Waits(Check(s, cb, k).0, t, due)
    decreases DueSet(s)
  {
    hide Sound, Fire, Tame, CarefulCallbacks, LegalCallbacks, CarefulAll, Check, Ends;
    CarefulEnds(s, cb, k);
    if !Expired(s) {
      CheckStops(s, cb, k);
    } else {
      PassReady(s, cb, k);
      CheckNext(s, cb, k);
      QuietAt(cb, t, s.order[0], k);
      FireWaits(s, cb(s.order[0], k), t, due);
      CheckWaits(Fire(s, cb(s.order[0], k)), cb, k + 1, t, due);
    }
  }

  lemma {:induction false} RunWaits(s: State, ops: seq<Op>, t: int, due: int)
    requires Resting(s) && LegalRun(s, ops) && forall op :: op in ops ==> Leaves(op, t)
    requires Waits(s, t, due) && s.now + TicksIn(ops) < Max(due, s.now + 1)
    ensures Waits(Run(s, ops), t, due) && Run(s, ops).now == s.now + TicksIn(ops)
    decreases |ops|
  {
    hide Sound, Apply, Check, Tame, CarefulCallbacks, LegalCallbacks, Ends;
    if ops != [] {
      var op := ops[0];
      assert op in ops && Leaves(op, t);
      match op {
        case Tick(cb) =>
          TickRests(s, cb);
          TickReady(s, cb);
          CheckWaits(s.(now := s.now + 1), cb, 0, t, due);
        case Do(c) =>
          DoRests(s, c);
          ApplyWaits(s, c, t, due);
      }
      RunWaits(Step(s, op), ops[1..], t, due);
    }
  }

  /**
   A timer started with interval `n` at some time, and not touched since, has its callback run
   at the `n`-th tick from then, or at the next if `n` is zero, whatever else the calls and
   callbacks of the run do.
   */
  lemma FiresAfterInterval(s: State, t: int, ops: seq<Op>, cb: Callbacks)
    requires Resting(s) && t in s.info && !Looping(s.info[t])
    requires LegalRun(Step(s, Do(Start(t))), ops) && forall op :: op in ops ==> Leaves(op, t)
    requires TicksIn(ops) == Max(s.info[t].init, 1) - 1
    requires LegalOp(Run(Step(s, Do(Start(t))), ops), Tick(cb)) && Quiet(cb, t)
    ensures Beats(Run(Step(s, Do(Start(t))), ops), cb) && t in TickSpec(Run(Step(s, Do(Start(t))), ops), cb).1
  {
    hide Apply, Check, Sound, Tame, CarefulCallbacks, LegalCallbacks, Ends;
    StartWaits(s, t);
    var s1 := Step(s, Do(Start(t)));
    RunWaits(s1, ops, t, s.now + s.info[t].init);
    var s2 := Run(s1, ops);
    FiresOnTime(s2, cb, t);
    NotTouched(TickSpec(s2, cb).1, cb, t);
  }

  lemma QuietAt(cb: Callbacks, t: int, u: int, k: nat)
    requires Quiet(cb, t)
    ensures !TouchedBy(cb(u, k), t)
  {
    var cs := cb(u, k);
    assert !TouchedBy(cs, t);
  }

  lemma NotTouched(log: seq<int>, cb: Callbacks, t: int)
    requires Quiet(cb, t)
    ensures !TouchedIn(log, cb, 0, t)
  {
    forall i | 0 <= i < |log| ensures !TouchedBy(cb(log[i], 0 + i), t) {
      QuietAt(cb, t, log[i], 0 + i);
    }
  }

  lemma StartWaits(s: State, t: int)
    requires Sound(s) && t in s.info
    ensures Waits(Apply(s, Start(t)), t, s.now + s.info[t].init) && Apply(s, Start(t)).now == s.now
  {
    StartSound(s, t);
  }
}
