/**
 One timer of rt-thread/src/timer.c by itself. The list that all timers share, the temporary list of
 rt_timer_check and the flags of a timer come to this: each timer has at most one deadline, which
 only commands for it and its own callback change. Hence periodic timers fire at every multiple of
 their interval, and a timer that is not started does not fire.
 */
module TimerViews {
  import opened Common
  import opened RtList
  import opened TimerRuns
  import opened TimerSoft
  import opened TimerTicks

  /**
   A timer by itself. It has a deadline while it is listed, and is `running` while its callback runs
   and has not started, stopped or detached it.
   */
  datatype View = View(init: nat, periodic: bool, active: bool, running: bool, deadline: Option<int>)

  function ViewOf(s: State, t: int): View
    requires t in s.info
  {
    View(s.info[t].init, s.info[t].periodic, s.info[t].active, s.temp == Some(t),
         if t in s.order then Some(s.info[t].due) else None)
  }

  function Started(v: View, now: int): View {
    v.(active := true, running := false, deadline := Some(now + v.init))
  }

  function Stopped(v: View): View { v.(active := false, running := false, deadline := None) }

  /** A command, which concerns only the timer it names. */
  function Told(v: View, t: int, c: Command, now: int): View {
    if c.t != t then v
    else match c
         case Start(_) => Started(v, now)
         case Stop(_) => if v.active then Stopped(v) else v
         case Detach(_) => Stopped(v)
         case SetTime(_, ticks) => v.(init := ticks)
         case SetPeriodic(_, periodic) => v.(periodic := periodic)
  }

  function ToldAll(v: View, t: int, cs: seq<Command>, now: int): View
    decreases |cs|
  {
    if cs == [] then v else ToldAll(Told(v, t, cs[0], now), t, cs[1..], now)
  }

  /** Its own callback runs: a periodic timer that it left alone, and active, starts again. */
  function Ran(v: View, t: int, cs: seq<Command>, now: int): View {
    var w := ToldAll(v.(active := v.periodic, running := true, deadline := None), t, cs, now);
    if w.running && w.periodic && w.active then Started(w, now) else w.(running := false)
  }

  /** A check that runs the callbacks of `log`. */
  ghost function Lived(v: View, t: int, log: seq<int>, cb: Callbacks, k: nat, now: int): View
    decreases |log|
  {
    if log == [] then v
    else
      var cs := cb(log[0], k);
      Lived(if log[0] == t then Ran(v, t, cs, now) else ToldAll(v, t, cs, now), t, log[1..], cb, k + 1, now)
  }

  // ----- The shared state, seen from one timer

  lemma ApplyView(s: State, c: Command, t: int)
    requires Sound(s) && Legal(s.info.Keys, c) && t in s.info
    ensures t in Apply(s, c).info && ViewOf(Apply(s, c), t) == Told(ViewOf(s, t), t, c, s.now)
  {
    hide Place, Sorted, Inserted, Without;
    SortedDistinct(s.info, s.order);
    WithoutMembers(s.order, c.t);
    if c.Start? { StartSound(s, c.t); }
  }

  lemma {:induction false} ApplyAllView(s: State, cs: seq<Command>, t: int)
    requires Sound(s) && AllLegal(s.info.Keys, cs) && AllKnown(s, cs) && t in s.info
    ensures t in ApplyAll(s, cs).info && ViewOf(ApplyAll(s, cs), t) == ToldAll(ViewOf(s, t), t, cs, s.now)
    decreases |cs|
  {
    hide Apply, Sound, Told;
    if cs != [] {
      assert cs[0] in cs && Legal(s.info.Keys, cs[0]);
      ApplyView(s, cs[0], t);
      ApplySound(s, cs[0]);
      ApplyAllView(Applied(s, cs[0]), cs[1..], t);
    }
  }

  lemma TakenView(s: State, t: int)
    requires Sound(s) && s.temp.None? && s.order != [] && t in s.info
    ensures s.order[0] in s.info
    ensures var v := ViewOf(s, t);
            ViewOf(Taken(s), t) ==
              if t == s.order[0] then v.(active := v.periodic, running := true, deadline := None) else v
  {
    hide Sorted;
    TakenOnly(s);
  }

  lemma StartView(s: State, u: int, t: int)
    requires Sound(s) && u in s.info && t in s.info
    ensures t in StartSpec(s, u).info
    ensures ViewOf(StartSpec(s, u), t) == if u == t then Started(ViewOf(s, t), s.now) else ViewOf(s, t)
  {
    hide StartSpec, Sound;
    ApplyView(s, Start(u), t);
  }

  /** One pass of the loop: the head's callback runs; for every other timer only what it commands counts. */
  lemma FireView(s: State, cs: seq<Command>, t: int)
    requires Sound(s) && s.temp.None? && s.order != [] && AllLegal(s.info.Keys, cs) && t in s.info
    ensures s.order[0] in s.info && AllKnown(s, cs) && t in Fire(s, cs).info
    ensures ViewOf(Fire(s, cs), t) ==
              if t == s.order[0] then Ran(ViewOf(s, t), t, cs, s.now) else ToldAll(ViewOf(s, t), t, cs, s.now)
  {
    hide ApplyAll, Sorted, StartSpec, ToldAll;
    var u := s.order[0];
    LegalKnown(s, cs);
    TakenOnly(s);
    TakenView(s, t);
    ApplyAllSound(Taken(s), cs);
    ApplyAllView(Taken(s), cs, t);
    ApplyAllView(Taken(s), cs, u);
    TakenView(s, u);
    var s1 := ApplyAll(Taken(s), cs);
    if s1.temp.Some? {
      Untemped(s1);
      StartView(s1.(temp := None), u, t);
    }
  }

  lemma {:induction false} PassesView(s: State, cb: Callbacks, k: nat, n: nat, t: int)
    requires Sound(s) && s.temp.None? && LegalCallbacks(s.info.Keys, cb) && t in s.info
    ensures ViewOf(Passes(s, cb, k, n), t) == Lived(ViewOf(s, t), t, Log(s, cb, k, n), cb, k, s.now)
    decreases n
  {
    hide Sound, Fire, LegalCallbacks, Ran, ToldAll, ViewOf;
    if n > 0 && Expired(s) {
      PassNext(s, cb, k, n);
      var cs := cb(s.order[0], k);
      FireView(s, cs, t);
      PassesView(Fire(s, cs), cb, k + 1, n - 1, t);
      assert Log(s, cb, k, n)[1..] == Log(Fire(s, cs), cb, k + 1, n - 1);
    }
  }

  /** Whatever callbacks do, a check does to each timer what they command, and what firing means to it. */
  lemma CheckView(s: State, cb: Callbacks, k: nat, t: int)
    requires Terminates(s, cb, k) && t in s.info
    ensures var (s', log) := Check(s, cb, k);
            t in s'.info && ViewOf(s', t) == Lived(ViewOf(s, t), t, log, cb, k, s.now)
  {
    hide Sound, LegalCallbacks, ViewOf, Lived;
    var n: nat :| !Expired(Passes(s, cb, k, n));
    CheckIs(s, cb, k, n);
    PassesView(s, cb, k, n, t);
  }

  // ----- The soft timer check

  /**
   In the soft timer check, too, a command concerns only the timer it names, and gives it the right
   deadline, even where it is put in the wrong place of the list.
   */
  lemma SoftView(s: State, e: Event, t: int)
    requires Distinct(s.order) && (e.Cmd? ==> e.c.t in s.info) && t in s.info
    ensures Distinct(Effect(s, e).order)
    ensures t in Effect(s, e).info
    ensures ViewOf(Effect(s, e), t) == if e.Cmd? then Told(ViewOf(s, t), t, e.c, s.now) else ViewOf(s, t)
    ensures Effect(s, e).now == s.now + if e.Pass? then 1 else 0
  {
    hide PlaceSeen, Inserted, Without, Distinct;
    if e.Cmd? {
      var r := Removed(s, e.c.t);
      WithoutMembers(s.order, e.c.t);
      var k := PlaceSeen(r.order, s.info, s.now + s.info[e.c.t].init);
      InsertedMeaning(r.order, k, e.c.t);
      InsertedDistinct(r.order, k, e.c.t);
    }
  }

  /** What follows its callback is what follows it in the hard check. */
  lemma SoftFinishView(s: State, u: int, t: int)
    requires Distinct(s.order) && u in s.info && t in s.info && (s.temp.Some? ==> s.temp == Some(u))
    ensures t in FinishedSeen(s, u).info
    ensures var (v, w) := (ViewOf(s, t), ViewOf(FinishedSeen(s, u), t));
            if t == u && v.running && v.periodic && v.active then w == Started(v, s.now) else w == v.(running := false)
  {
    hide StartSeen;
    if s.temp.Some? {
      var s1 := s.(temp := None);
      SoftView(s1, Cmd(Start(u)), t);
      assert Effect(s1, Cmd(Start(u))) == StartSeen(s1, u);
    }
  }

  // ----- A timer left alone by callbacks

  /** No command concerns the timer. */
  ghost predicate Spares(cs: seq<Command>, t: int) { forall c :: c in cs ==> c.t != t }

  lemma {:induction false} ToldNothing(v: View, t: int, cs: seq<Command>, now: int)
    requires Spares(cs, t)
    ensures ToldAll(v, t, cs, now) == v
    decreases |cs|
  {
    if cs != [] {
      assert cs[0] in cs;
      ToldNothing(v, t, cs[1..], now);
    }
  }

  /** What firing means to a timer that its callback leaves alone. */
  function Fired(v: View, now: int): View {
    if v.periodic then Started(v, now) else Stopped(v)
  }

  lemma RanAlone(v: View, t: int, cs: seq<Command>, now: int)
    requires Spares(cs, t)
    ensures Ran(v, t, cs, now) == Fired(v, now)
  {
    ToldNothing(v.(active := v.periodic, running := true, deadline := None), t, cs, now);
  }

  lemma {:induction false} LivedSplit(v: View, t: int, log: seq<int>, cb: Callbacks, k: nat, now: int, i: nat)
    requires i <= |log|
    ensures Lived(v, t, log, cb, k, now) == Lived(Lived(v, t, log[..i], cb, k, now), t, log[i..], cb, k + i, now)
    decreases i
  {
    hide Ran, ToldAll;
    if i > 0 {
      var w := if log[0] == t then Ran(v, t, cb(log[0], k), now) else ToldAll(v, t, cb(log[0], k), now);
      LivedSplit(w, t, log[1..], cb, k + 1, now, i - 1);
      assert log[..i][1..] == log[1..][..i - 1] && log[1..][i - 1..] == log[i..];
    } else {
      assert log[..0] == [] && log[0..] == log;
    }
  }

  lemma {:induction false} LivedAlone(v: View, t: int, log: seq<int>, cb: Callbacks, k: nat, now: int)
    requires t !in log && forall i :: 0 <= i < |log| ==> Spares(cb(log[i], k + i), t)
    ensures Lived(v, t, log, cb, k, now) == v
    decreases |log|
  {
    if log != [] {
      assert Spares(cb(log[0], k + 0), t);
      ToldNothing(v, t, cb(log[0], k), now);
      forall i | 0 <= i < |log[1..]| ensures Spares(cb(log[1..][i], k + 1 + i), t) {
        assert Spares(cb(log[i + 1], k + (i + 1)), t);
      }
      LivedAlone(v, t, log[1..], cb, k + 1, now);
    }
  }

  /**
   Any check that ends: a timer that fired as the `i`-th, and that neither its own nor a later
   callback concerns, is listed with a deadline one interval from now if it is periodic, and
   otherwise is unlisted and inactive.
   */
  lemma FiredMeaning(s: State, cb: Callbacks, t: int, i: nat)
    requires Terminates(s, cb, 0) && t in s.info && i < |Check(s, cb).1|
    requires var log := Check(s, cb).1;
             && log[i] == t && t !in log[i + 1..]
             && forall j :: i <= j < |log| ==> Spares(cb(log[j], j), t)
    ensures var s' := Check(s, cb).0;
            && t in s'.info && s'.now == s.now
            && if s'.info[t].periodic
               then t in s'.order && s'.info[t].active && s'.info[t].due == s.now + s'.info[t].init
               else t !in s'.order && !s'.info[t].active
  {
    hide Sound, LegalCallbacks, Check, Terminates, Lived, Ran;
    var (s', log) := Check(s, cb);
    CheckView(s, cb, 0, t);
    CheckEnded(s, cb, 0);
    var v := ViewOf(s, t);
    LivedSplit(v, t, log, cb, 0, s.now, i);
    var u := Lived(v, t, log[..i], cb, 0, s.now);
    LivedFirst(u, t, log[i..], cb, i, s.now);
    var rest := log[i + 1..];
    assert log[i..][1..] == rest;
    assert Spares(cb(log[i], i), t);
    RanAlone(u, t, cb(t, i), s.now);
    forall j | 0 <= j < |rest| ensures Spares(cb(rest[j], i + 1 + j), t) {
      assert rest[j] == log[i + 1 + j] && Spares(cb(log[i + 1 + j], i + 1 + j), t);
    }
    LivedAlone(Fired(u, s.now), t, rest, cb, i + 1, s.now);
  }

  lemma LivedFirst(v: View, t: int, log: seq<int>, cb: Callbacks, k: nat, now: int)
    requires log != [] && log[0] == t
    ensures Lived(v, t, log, cb, k, now) == Lived(Ran(v, t, cb(t, k), now), t, log[1..], cb, k + 1, now)
  {
  }

  // ----- Runs that leave the timer alone

  ghost predicate SparesAll(cb: Callbacks, t: int) { forall u, k :: Spares(cb(u, k), t) }

  ghost predicate Omits(op: Op, t: int) {
    match op
    case Tick(cb) => SparesAll(cb, t)
    case Do(c) => c.t != t
  }

  lemma SparesQuiet(cb: Callbacks, t: int)
    requires SparesAll(cb, t)
    ensures Quiet(cb, t)
  {
    forall u, k ensures !TouchedBy(cb(u, k), t) { assert Spares(cb(u, k), t); }
  }

  /** The tick fires the timer exactly if it has a deadline that has come; then it is as after firing. */
  lemma TickView(s: State, cb: Callbacks, t: int)
    requires Resting(s) && LegalOp(s, Tick(cb)) && SparesAll(cb, t) && t in s.info
    ensures Beats(s, cb)
    ensures var ((s', log), v) := (TickSpec(s, cb), ViewOf(s, t));
            && (t in log <==> v.deadline.Some? && v.deadline.value <= s.now + 1)
            && t in s'.info && ViewOf(s', t) == (if t in log then Fired(v, s.now + 1) else v)
  {
    hide Sound, Check, LegalCallbacks, CarefulCallbacks, Tame, Sorted, Ends, TouchedIn, Lived;
    Ticked(s);
    TickReady(s, cb);
    SparesQuiet(cb, t);
    var s1 := s.(now := s.now + 1);
    CheckMeaning(s1, cb, 0);
    CheckView(s1, cb, 0, t);
    var (s', log) := Check(s1, cb);
    NotTouched(log, cb, t);
    LivedOnce(s1.info, ViewOf(s1, t), t, log, cb, s1.now);
  }

  lemma LivedOnce(info: map<int, Timer>, v: View, t: int, log: seq<int>, cb: Callbacks, now: int)
    requires Sorted(info, log) && SparesAll(cb, t)
    ensures Lived(v, t, log, cb, 0, now) == if t in log then Fired(v, now) else v
  {
    hide Lived;
    SortedDistinct(info, log);
    if t in log {
      var i :| 0 <= i < |log| && log[i] == t;
      LivedSplit(v, t, log, cb, 0, now, i);
      LivedAlone(v, t, log[..i], cb, 0, now);
      LivedFirst(v, t, log[i..], cb, i, now);
      assert log[i..][1..] == log[i + 1..];
      assert Spares(cb(t, i), t);
      RanAlone(v, t, cb(t, i), now);
      LivedAlone(Fired(v, now), t, log[i + 1..], cb, i + 1, now);
    } else {
      forall j | 0 <= j < |log| ensures Spares(cb(log[j], 0 + j), t) { SparesAt(cb, t, log[j], 0 + j); }
      LivedAlone(v, t, log, cb, 0, now);
    }
  }

  lemma SparesAt(cb: Callbacks, t: int, u: int, k: nat)
    requires SparesAll(cb, t)
    ensures Spares(cb(u, k), t)
  {
    var cs := cb(u, k);
    assert Spares(cs, t);
  }

  lemma DoView(s: State, c: Command, t: int)
    requires Resting(s) && LegalOp(s, Do(c)) && t in s.info
    ensures t in Apply(s, c).info && ViewOf(Apply(s, c), t) == Told(ViewOf(s, t), t, c, s.now)
  {
    ApplyView(s, c, t);
  }

  /** A periodic timer with interval `n` whose next deadline, not past, is a whole number of intervals from `d`. */
  ghost predicate InPhase(s: State, t: int, n: nat, d: int) {
    && t in s.info && n > 0
    && var v := ViewOf(s, t);
    && v == View(n, true, true, false, v.deadline) && v.deadline.Some?
    && s.now < v.deadline.value <= s.now + n && (v.deadline.value - d) % n == 0
  }

  lemma PhaseMoves(x: int, n: nat)
    requires n > 0 && x % n == 0
    ensures (x + n) % n == 0
  {
    var q := x / n;
    assert x == n * q;
    assert x + n == n * (q + 1);
    Multiple(n, q + 1);
  }

  lemma Multiple(n: nat, q: int)
    requires n > 0
    ensures (n * q) % n == 0
  {
    var r, p := (n * q) % n, (n * q) / n;
    assert n * q == n * p + r;
    assert r == n * (q - p);
    Factor(n, q - p);
  }

  lemma Factor(n: int, d: int)
    requires n >= 0
    ensures d >= 1 ==> n * d >= n
    ensures d <= -1 ==> n * d <= -n
  {
    if d <= -1 { assert n * d == -(n * -d); }
  }

  /** Less than one interval before a phase point there is no other. */
  lemma PhaseExact(x: int, y: int, n: nat)
    requires n > 0 && x % n == 0 && x - n < y <= x
    ensures y % n == 0 <==> y == x
  {
    var p, q := x / n, y / n;
    assert x == n * p && y == n * q + y % n;
    if y % n == 0 {
      assert x - y == n * (p - q);
      Factor(n, p - q);
    }
  }

  lemma {:induction false} PhaseRun(s: State, t: int, n: nat, d: int, ops: seq<Op>)
    requires Resting(s) && LegalRun(s, ops) && (forall op :: op in ops ==> Omits(op, t)) && InPhase(s, t, n, d)
    ensures InPhase(Run(s, ops), t, n, d) && Run(s, ops).now == s.now + TicksIn(ops)
    decreases |ops|
  {
    hide Resting, LegalOp, Apply, Check, ViewOf;
    if ops != [] {
      var op := ops[0];
      assert op in ops && Omits(op, t);
      PhaseStep(s, t, n, d, op);
      PhaseRun(Step(s, op), t, n, d, ops[1..]);
    }
  }

  lemma PhaseStep(s: State, t: int, n: nat, d: int, op: Op)
    requires Resting(s) && LegalOp(s, op) && Omits(op, t) && InPhase(s, t, n, d)
    ensures InPhase(Step(s, op), t, n, d) && Step(s, op).now == s.now + if op.Tick? then 1 else 0
  {
    hide Resting, LegalOp, Apply, Check, ViewOf;
    match op {
      case Tick(cb) =>
        TickView(s, cb, t);
        TickRests(s, cb);
        PhaseMoves(ViewOf(s, t).deadline.value - d, n);
      case Do(c) =>
        DoView(s, c, t);
        DoRests(s, c);
    }
  }

  /**
   A periodic timer that is started and left alone fires at exactly the ticks that are a whole number
   of intervals from its start, whatever other timers, calls and callbacks do.
   */
  lemma FiresEveryInterval(s: State, t: int, ops: seq<Op>, cb: Callbacks)
    requires Resting(s) && t in s.info && s.info[t].periodic && s.info[t].init > 0
    requires LegalRun(Step(s, Do(Start(t))), ops) && (forall op :: op in ops ==> Omits(op, t))
    requires LegalOp(Run(Step(s, Do(Start(t))), ops), Tick(cb)) && SparesAll(cb, t)
    ensures var s' := Run(Step(s, Do(Start(t))), ops);
            && Beats(s', cb)
            && (t in TickSpec(s', cb).1 <==> (TicksIn(ops) + 1) % s.info[t].init == 0)
  {
    hide Resting, LegalOp, Apply, Check, ViewOf;
    var n := s.info[t].init;
    StartInPhase(s, t);
    var s1 := Step(s, Do(Start(t)));
    PhaseRun(s1, t, n, s.now, ops);
    var s' := Run(s1, ops);
    TickView(s', cb, t);
    PhaseExact(ViewOf(s', t).deadline.value - s.now, TicksIn(ops) + 1, n);
  }

  lemma StartInPhase(s: State, t: int)
    requires Resting(s) && t in s.info && s.info[t].periodic && s.info[t].init > 0
    ensures LegalOp(s, Do(Start(t))) && InPhase(Step(s, Do(Start(t))), t, s.info[t].init, s.now)
            && Step(s, Do(Start(t))).now == s.now
  {
    hide Apply;
    DoView(s, Start(t), t);
    DoRests(s, Start(t));
    PhaseMoves(0, s.info[t].init);
  }

  // ----- A timer that is not started

  ghost predicate NoStart(cs: seq<Command>, t: int) { forall c :: c in cs ==> c != Start(t) }

  ghost predicate NoStarts(cb: Callbacks, t: int) { forall u, k :: NoStart(cb(u, k), t) }

  lemma NoStartAt(cb: Callbacks, t: int, u: int, k: nat)
    requires NoStarts(cb, t)
    ensures NoStart(cb(u, k), t)
  {
    var cs := cb(u, k);
    assert NoStart(cs, t);
  }

  ghost predicate NotStarted(op: Op, t: int) {
    match op
    case Tick(cb) => NoStarts(cb, t)
    case Do(c) => c != Start(t)
  }

  ghost predicate Off(v: View) { v.deadline.None? && !v.running }

  lemma {:induction false} ToldOff(v: View, t: int, cs: seq<Command>, now: int)
    requires Off(v) && NoStart(cs, t)
    ensures Off(ToldAll(v, t, cs, now))
    decreases |cs|
  {
    if cs != [] {
      assert cs[0] in cs && cs[0] != Start(t) && forall c :: c in cs[1..] ==> c in cs;
      ToldOff(Told(v, t, cs[0], now), t, cs[1..], now);
    }
  }

  lemma {:induction false} LivedOff(v: View, t: int, log: seq<int>, cb: Callbacks, k: nat, now: int)
    requires Off(v) && t !in log && NoStarts(cb, t)
    ensures Off(Lived(v, t, log, cb, k, now))
    decreases |log|
  {
    hide ToldAll, Ran;
    if log != [] {
      NoStartAt(cb, t, log[0], k);
      assert log[0] in log;
      ToldOff(v, t, cb(log[0], k), now);
      LivedOff(ToldAll(v, t, cb(log[0], k), now), t, log[1..], cb, k + 1, now);
    }
  }

  lemma TickOff(s: State, cb: Callbacks, t: int)
    requires Resting(s) && LegalOp(s, Tick(cb)) && NotStarted(Tick(cb), t) && t in s.info && Off(ViewOf(s, t))
    ensures Beats(s, cb) && t !in TickSpec(s, cb).1
    ensures t in TickSpec(s, cb).0.info && Off(ViewOf(TickSpec(s, cb).0, t))
  {
    hide Sound, Check, LegalCallbacks, CarefulCallbacks, Tame, Sorted, Ends, TouchedIn, Lived;
    TickReady(s, cb);
    var s1 := s.(now := s.now + 1);
    CheckMeaning(s1, cb, 0);
    CheckView(s1, cb, 0, t);
    LivedOff(ViewOf(s1, t), t, Check(s1, cb).1, cb, 0, s1.now);
  }

  /** A timer that is stopped, or has fired once and is not periodic, does not fire until it is started. */
  lemma {:induction false} NeverFires(s: State, t: int, ops: seq<Op>, cb: Callbacks)
    requires Resting(s) && LegalRun(s, ops) && t in s.info && t !in s.order
    requires (forall op :: op in ops ==> NotStarted(op, t)) && NotStarted(Tick(cb), t)
    requires LegalOp(Run(s, ops), Tick(cb))
    ensures Beats(Run(s, ops), cb) && t !in TickSpec(Run(s, ops), cb).1
    decreases |ops|
  {
    hide LegalOp, Apply, Check, Sound, Tame;
    if ops == [] {
      TickOff(s, cb, t);
    } else {
      var op := ops[0];
      assert op in ops && NotStarted(op, t);
      match op {
        case Tick(cb1) => TickOff(s, cb1, t);
        case Do(c) => DoView(s, c, t);
      }
      NeverFires(Step(s, op), t, ops[1..], cb);
    }
  }
}
