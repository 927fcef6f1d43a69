/**
 The event sets of rt-thread/src/ipc.c. A word of event flags is the set of its one bits.
 Sending is proved to hand out what the waiters' own receives, run one after the other in list
 order, would get; and no thread is ever left waiting for flags that are there.
 */
module EventRuns {
  import opened RtList

  type Bits = set<nat>

  datatype Code = EOK | ERROR | ETIMEOUT | EINVAL | BLOCKED

  /** `event_set` and `event_info` of a thread: the flags it wants, or once it is resumed those it got, and how. */
  datatype Info = Info(bits: Bits, all: bool, any: bool, clear: bool)

  datatype State = State(bits: Bits, waiters: seq<int>, info: map<int, Info>, error: map<int, Code>)

  function InfoOf(info: map<int, Info>, t: int): Info { if t in info then info[t] else Info({}, false, false, false) }

  /** The test of rt_event_recv: RT_EVENT_FLAG_AND goes before RT_EVENT_FLAG_OR. */
  predicate Satisfied(w: Info, bits: Bits) {
    if w.all then w.bits * bits == w.bits else w.any && w.bits * bits != {}
  }

  // ----- Receiving

  /** What a satisfied receive returns, and the flags it leaves. */
  function Received(w: Info, bits: Bits): Bits { bits * w.bits }

  function AfterReceive(w: Info, bits: Bits): Bits { if w.clear then bits - w.bits else bits }

  /** rt_event_recv up to its return, or to where its thread, put at place `k` of the wait list, is switched out. */
  function RecvSpec(s: State, t: int, w: Info, wait: bool, k: nat): (State, Code)
    requires k <= |s.waiters|
  {
    var s1 := s.(error := s.error[t := EOK]);
    if w.bits == {} then (s, ERROR)
    else if Satisfied(w, s.bits) then
      (s1.(bits := AfterReceive(w, s.bits), info := s.info[t := w.(bits := Received(w, s.bits))]), EOK)
    else if !wait then (s1.(error := s.error[t := ETIMEOUT]), ETIMEOUT)
    else (s1.(waiters := Inserted(s.waiters, k, t), info := s.info[t := w]), BLOCKED)
  }

  // ----- Sending

  /**
   What the traversal of rt_event_send comes to: the flags left, the threads resumed and what they
   got, in order, and whether it reached the end.
   */
  datatype Sent = Sent(bits: Bits, left: seq<int>, woken: seq<(int, Bits)>, valid: bool)

  /** The traversal from the node at `k`, with the source's own treatment of each waiter. */
  function Traverse(bits: Bits, ws: seq<int>, info: map<int, Info>, k: nat := 0): Sent
    requires k <= |ws|
    decreases |ws| - k
  {
    if k == |ws| then Sent(bits, [], [], true)
    else
      var w := InfoOf(info, ws[k]);
      if !w.all && !w.any then Sent(bits, ws[k..], [], false)
      else if w.all && w.bits * bits == w.bits then
        // The flags wanted are the flags got.
        var r := Traverse(if w.clear then bits - w.bits else bits, ws, info, k + 1);
        r.(woken := [(ws[k], w.bits)] + r.woken)
      else if !w.all && w.bits * bits != {} then
        // event_set is first cut down to the flags that are there.
        var got := w.bits * bits;
        var r := Traverse(if w.clear then bits - got else bits, ws, info, k + 1);
        r.(woken := [(ws[k], got)] + r.woken)
      else
        var r := Traverse(bits, ws, info, k + 1);
        r.(left := [ws[k]] + r.left)
  }

  function WithGot(info: map<int, Info>, woken: seq<(int, Bits)>): map<int, Info>
    decreases |woken|
  {
    if woken == [] then info
    else WithGot(info[woken[0].0 := InfoOf(info, woken[0].0).(bits := woken[0].1)], woken[1..])
  }

  /** rt_event_send. */
  function SendSpec(s: State, bits: Bits): (State, Code) {
    if bits == {} then (s, ERROR)
    else
      var r := Traverse(s.bits + bits, s.waiters, s.info);
      (s.(bits := r.bits, waiters := r.left, info := WithGot(s.info, r.woken)), if r.valid then EOK else EINVAL)
  }

  // ----- No waiter is satisfied

  /** Fewer flags satisfy no more. */
  lemma FewerFlags(w: Info, bits: Bits, bits': Bits)
    requires bits' <= bits && Satisfied(w, bits')
    ensures Satisfied(w, bits)
  {
    if !w.all {
      var b :| b in w.bits * bits';
      assert b in w.bits * bits;
    }
  }

  ghost predicate Optioned(ws: seq<int>, info: map<int, Info>) {
    forall t :: t in ws ==> InfoOf(info, t).all || InfoOf(info, t).any
  }

  ghost predicate Waits(s: State, t: int) {
    && t in s.info && t in s.error && s.error[t] == EOK
    && s.info[t].bits != {} && (s.info[t].all || s.info[t].any) && !Satisfied(s.info[t], s.bits)
  }

  /** No thread waits for flags that are there. */
  ghost predicate Sound(s: State) {
    Distinct(s.waiters) && forall t :: t in s.waiters ==> Waits(s, t)
  }

  lemma {:induction false} TraverseMeaning(bits: Bits, ws: seq<int>, info: map<int, Info>, k: nat)
    requires k <= |ws| && Optioned(ws, info) && Distinct(ws)
    ensures var r := Traverse(bits, ws, info, k);
            && r.valid && r.bits <= bits && Distinct(r.left)
            && (forall t :: t in r.left ==> t in ws[k..] && !Satisfied(InfoOf(info, t), r.bits))
            && (forall x :: x in r.woken ==> x.0 in ws[k..] && x.0 !in r.left)
            && (forall t :: t in ws[k..] && t !in r.left ==> exists x :: x in r.woken && x.0 == t)
    decreases |ws| - k
  {
    if k < |ws| {
      var t, w := ws[k], InfoOf(info, ws[k]);
      assert t in ws;
      assert ws[k..] == [t] + ws[k + 1..];
      assert t !in ws[k + 1..];
      var got := if w.all then w.bits else w.bits * bits;
      var rest := if !Satisfied(w, bits) then bits else if w.clear then bits - got else bits;
      TraverseMeaning(rest, ws, info, k + 1);
      var r1, r := Traverse(rest, ws, info, k + 1), Traverse(bits, ws, info, k);
      if Satisfied(w, bits) {
        assert r.woken == [(t, got)] + r1.woken;
        forall u | u in ws[k..] && u !in r.left ensures exists x :: x in r.woken && x.0 == u {
          if u == t { assert (t, got) in r.woken; } else { var x :| x in r1.woken && x.0 == u; assert x in r.woken; }
        }
      } else {
        assert r.left == [t] + r1.left;
        if Satisfied(w, r.bits) { FewerFlags(w, bits, r.bits); }
      }
    }
  }

  lemma {:induction false} WithGotOthers(info: map<int, Info>, woken: seq<(int, Bits)>, t: int)
    requires t in info && forall x :: x in woken ==> x.0 != t
    ensures t in WithGot(info, woken) && WithGot(info, woken)[t] == info[t]
    decreases |woken|
  {
    if woken != [] {
      assert woken[0] in woken;
      WithGotOthers(info[woken[0].0 := InfoOf(info, woken[0].0).(bits := woken[0].1)], woken[1..], t);
    }
  }

  /** A resumed thread got some of the flags it wanted, and all of them if it asked for all. */
  lemma {:induction false} WokenGot(bits: Bits, ws: seq<int>, info: map<int, Info>, k: nat, x: (int, Bits))
    requires k <= |ws| && x in Traverse(bits, ws, info, k).woken
    ensures var w := InfoOf(info, x.0);
            x.1 <= w.bits && x.1 <= bits && if w.all then x.1 == w.bits else w.any && x.1 != {}
    decreases |ws| - k
  {
    var w := InfoOf(info, ws[k]);
    if w.all && w.bits * bits == w.bits {
      if x != (ws[k], w.bits) { WokenGot(if w.clear then bits - w.bits else bits, ws, info, k + 1, x); }
    } else if !w.all && w.bits * bits != {} {
      var got := w.bits * bits;
      if x != (ws[k], got) { WokenGot(if w.clear then bits - got else bits, ws, info, k + 1, x); }
    } else {
      WokenGot(bits, ws, info, k + 1, x);
    }
  }

  // ----- Sending is receiving, one waiter at a time

  /** The threads `ws` call rt_event_recv anew, one after the other, for what they wanted before. */
  function Replay(s: State, ws: seq<int>, info: map<int, Info>, k: nat := 0): State
    requires k <= |ws|
    decreases |ws| - k
  {
    if k == |ws| then s
    else Replay(RecvSpec(s, ws[k], InfoOf(info, ws[k]), true, |s.waiters|).0, ws, info, k + 1)
  }

  /** What is known of a thread that is yet to call. */
  ghost predicate Recallable(s: State, info: map<int, Info>, t: int) {
    && t in s.info && t in info && s.info[t] == info[t] && t in s.error && s.error[t] == EOK
    && info[t].bits != {} && (info[t].all || info[t].any)
  }

  /** One call is one node of the traversal. */
  lemma RecallStep(s: State, info: map<int, Info>, t: int)
    requires Recallable(s, info, t)
    ensures var s', w := RecvSpec(s, t, info[t], true, |s.waiters|).0, info[t];
            var got := w.bits * s.bits;
            && s'.error == s.error
            && if Satisfied(w, s.bits)
               then && s'.bits == (if w.clear then s.bits - got else s.bits)
                    && s'.waiters == s.waiters && s'.info == s.info[t := w.(bits := got)] && (w.all ==> got == w.bits)
               else s' == s.(waiters := s.waiters + [t])
  {
    var w := info[t];
    assert s.error[t := EOK] == s.error && s.info[t := w] == s.info;
    assert Inserted(s.waiters, |s.waiters|, t) == s.waiters + [t];
    assert w.bits * s.bits == s.bits * w.bits && s.bits - w.bits == s.bits - w.bits * s.bits;
  }

  lemma {:induction false} ReplayIs(s: State, ws: seq<int>, info: map<int, Info>, k: nat)
    requires k <= |ws| && Distinct(ws) && forall j :: k <= j < |ws| ==> Recallable(s, info, ws[j])
    ensures var r := Traverse(s.bits, ws, info, k);
            r.valid && Replay(s, ws, info, k) == State(r.bits, s.waiters + r.left, WithGot(s.info, r.woken), s.error)
    decreases |ws| - k
  {
    hide RecvSpec, Satisfied;
    if k < |ws| {
      var t := ws[k];
      assert Recallable(s, info, t);
      RecallStep(s, info, t);
      var s' := RecvSpec(s, t, info[t], true, |s.waiters|).0;
      forall j | k + 1 <= j < |ws| ensures Recallable(s', info, ws[j]) {
        assert ws[j] != t && Recallable(s, info, ws[j]);
      }
      ReplayIs(s', ws, info, k + 1);
      NodeIs(s.bits, ws, info, k);
      var r1 := Traverse(s'.bits, ws, info, k + 1);
      if !Satisfied(info[t], s.bits) {
        assert s'.waiters + r1.left == s.waiters + ([t] + r1.left);
      }
    }
  }

  lemma NodeIs(bits: Bits, ws: seq<int>, info: map<int, Info>, k: nat)
    requires k < |ws| && ws[k] in info && (info[ws[k]].all || info[ws[k]].any)
    ensures var w, r := info[ws[k]], Traverse(bits, ws, info, k);
            var got := w.bits * bits;
            if Satisfied(w, bits)
            then var r1 := Traverse(if w.clear then bits - got else bits, ws, info, k + 1);
              r == r1.(woken := [(ws[k], got)] + r1.woken)
            else var r1 := Traverse(bits, ws, info, k + 1); r == r1.(left := [ws[k]] + r1.left)
  {
  }

  /**
   A send sets its flags and then does, to the last field, what it would do for the waiters to
   leave the list and call rt_event_recv again, one after the other in list order.
   */
  lemma SendIsReceiving(s: State, bits: Bits)
    requires Sound(s) && bits != {}
    ensures SendSpec(s, bits) == (Replay(s.(bits := s.bits + bits, waiters := []), s.waiters, s.info), EOK)
  {
    hide Replay, Traverse, WithGot;
    var s0 := s.(bits := s.bits + bits, waiters := []);
    forall j | 0 <= j < |s.waiters| ensures Recallable(s0, s.info, s.waiters[j]) { assert Waits(s, s.waiters[j]); }
    ReplayIs(s0, s.waiters, s.info, 0);
    var r := Traverse(s.bits + bits, s.waiters, s.info);
    assert [] + r.left == r.left;
  }

  // ----- Steps and runs

  datatype Op =
    | Send(bits: Bits)
    | Recv(t: int, w: Info, wait: bool, k: nat)
    | Timeout(t: int)
    | Reset

  /** A receiver is not waiting already, asks with AND or OR, and joins the list somewhere; only a waiter times out. */
  ghost predicate Legal(s: State, op: Op) {
    match op
    case Send(_) => true
    case Recv(t, w, _, k) => t !in s.waiters && (w.all || w.any) && k <= |s.waiters|
    case Timeout(t) => t in s.waiters
    case Reset => true
  }

  /** _thread_timeout of a waiter. */
  function TimeoutSpec(s: State, t: int): State {
    s.(waiters := Without(s.waiters, t), error := s.error[t := ETIMEOUT])
  }

  /** rt_event_control with RT_IPC_CMD_RESET. */
  function ResetSpec(s: State): State {
    s.(bits := {}, waiters := [], error := WithError(s.error, s.waiters))
  }

  function WithError(error: map<int, Code>, ts: seq<int>): map<int, Code>
    decreases |ts|
  {
    if ts == [] then error else WithError(error[ts[0] := ERROR], ts[1..])
  }

  function Step(s: State, op: Op): State
    requires op.Recv? ==> op.k <= |s.waiters|
  {
    match op
    case Send(bits) => SendSpec(s, bits).0
    case Recv(t, w, wait, k) => RecvSpec(s, t, w, wait, k).0
    case Timeout(t) => TimeoutSpec(s, t)
    case Reset => ResetSpec(s)
  }

  lemma SendKeeps(s: State, bits: Bits)
    requires Sound(s)
    ensures Sound(SendSpec(s, bits).0)
    ensures SendSpec(s, bits).1 == if bits == {} then ERROR else EOK
  {
    hide Distinct;
    SoundOptioned(s);
    if bits != {} {
      var r, s' := Traverse(s.bits + bits, s.waiters, s.info), SendSpec(s, bits).0;
      TraverseMeaning(s.bits + bits, s.waiters, s.info, 0);
      assert s.waiters[0..] == s.waiters;
      forall t | t in s'.waiters ensures Waits(s', t) {
        assert Waits(s, t);
        WithGotOthers(s.info, r.woken, t);
      }
    }
  }

  lemma SoundOptioned(s: State)
    requires Sound(s)
    ensures Optioned(s.waiters, s.info)
  {
    forall t | t in s.waiters ensures InfoOf(s.info, t).all || InfoOf(s.info, t).any { assert Waits(s, t); }
  }

  lemma RecvKeeps(s: State, t: int, w: Info, wait: bool, k: nat)
    requires Sound(s) && Legal(s, Recv(t, w, wait, k))
    ensures Sound(RecvSpec(s, t, w, wait, k).0)
  {
    var s' := RecvSpec(s, t, w, wait, k).0;
    InsertedMeaning(s.waiters, k, t);
    InsertedDistinct(s.waiters, k, t);
    forall u | u in s'.waiters ensures Waits(s', u) {
      if u != t {
        assert Waits(s, u);
        if Satisfied(s'.info[u], s'.bits) { FewerFlags(s'.info[u], s.bits, s'.bits); }
      }
    }
  }

  /** The place of the first waiter from `k` on that asks with neither AND nor OR. */
  function FirstOptionless(ws: seq<int>, info: map<int, Info>, k: nat): (j: nat)
    requires k <= |ws|
    ensures k <= j <= |ws| && (j < |ws| ==> !InfoOf(info, ws[j]).all && !InfoOf(info, ws[j]).any)
    ensures forall i :: k <= i < j ==> InfoOf(info, ws[i]).all || InfoOf(info, ws[i]).any
    decreases |ws| - k
  {
    if k == |ws| || (!InfoOf(info, ws[k]).all && !InfoOf(info, ws[k]).any) then k else FirstOptionless(ws, info, k + 1)
  }

  ghost predicate EndsWith(a: seq<int>, b: seq<int>) { |a| >= |b| && a[|a| - |b|..] == b }

  /**
   A send stops and fails exactly if it comes to a waiter that asks with neither AND nor OR, against
   which a receive has no more than an assertion; the waiters from there on stay as they are.
   */
  lemma {:induction false} TraverseStops(bits: Bits, ws: seq<int>, info: map<int, Info>, k: nat)
    requires k <= |ws|
    ensures var (r, j) := (Traverse(bits, ws, info, k), FirstOptionless(ws, info, k));
            (!r.valid <==> j < |ws|) && EndsWith(r.left, ws[j..])
    decreases |ws| - k
  {
    if k < |ws| && (InfoOf(info, ws[k]).all || InfoOf(info, ws[k]).any) {
      var w := InfoOf(info, ws[k]);
      var taken := Satisfied(w, bits);
      var got := if w.all then w.bits else w.bits * bits;
      var r1 := Traverse(if taken && w.clear then bits - got else bits, ws, info, k + 1);
      TraverseStops(if taken && w.clear then bits - got else bits, ws, info, k + 1);
      StepIs(bits, ws, info, k);
      EndsLonger(r1.left, ws[FirstOptionless(ws, info, k + 1)..], ws[k]);
    }
  }

  lemma StepIs(bits: Bits, ws: seq<int>, info: map<int, Info>, k: nat)
    requires k < |ws| && (InfoOf(info, ws[k]).all || InfoOf(info, ws[k]).any)
    ensures var w := InfoOf(info, ws[k]);
            var got := if w.all then w.bits else w.bits * bits;
            var r, r1 := Traverse(bits, ws, info, k),
                Traverse(if Satisfied(w, bits) && w.clear then bits - got else bits, ws, info, k + 1);
            r.valid == r1.valid && r.left == if Satisfied(w, bits) then r1.left else [ws[k]] + r1.left
  {
  }

  /**
   What a send returns, whoever waits: it fails for an empty set, and when it comes to a waiter that
   asks with neither AND nor OR. The waiters from there on stay as they are.
   */
  lemma SendReturns(s: State, bits: Bits)
    ensures var (s', r) := SendSpec(s, bits);
            var j := FirstOptionless(s.waiters, s.info, 0);
            && (r == ERROR <==> bits == {}) && (r == EINVAL <==> bits != {} && j < |s.waiters|)
            && (r == EOK <==> bits != {} && j == |s.waiters|)
            && EndsWith(s'.waiters, s.waiters[j..]) && s'.error == s.error && s'.bits <= s.bits + bits
  {
    TraverseStops(s.bits + bits, s.waiters, s.info, 0);
    TraverseFewer(s.bits + bits, s.waiters, s.info, 0);
    if bits == {} { assert s.waiters[|s.waiters| - |s.waiters[FirstOptionless(s.waiters, s.info, 0)..]|..]
                        == s.waiters[FirstOptionless(s.waiters, s.info, 0)..]; }
  }

  lemma {:induction false} TraverseFewer(bits: Bits, ws: seq<int>, info: map<int, Info>, k: nat)
    requires k <= |ws|
    ensures Traverse(bits, ws, info, k).bits <= bits
    decreases |ws| - k
  {
    if k < |ws| {
      var w := InfoOf(info, ws[k]);
      TraverseFewer(bits, ws, info, k + 1);
      TraverseFewer(bits - w.bits, ws, info, k + 1);
      TraverseFewer(bits - w.bits * bits, ws, info, k + 1);
    }
  }

  lemma EndsLonger(a: seq<int>, b: seq<int>, t: int)
    requires EndsWith(a, b)
    ensures EndsWith([t] + a, b)
  {
    assert ([t] + a)[1..] == a;
  }

  /** Every flag that is wanted is set, or some is. */
  ghost predicate Asked(w: Info, bits: Bits) {
    if w.all then forall b :: b in w.bits ==> b in bits else exists b :: b in w.bits && b in bits
  }

  ghost predicate OthersSame(s: State, s': State, t: int) {
    forall u :: u != t ==>
                  && (u in s'.info <==> u in s.info) && (u in s.info ==> s'.info[u] == s.info[u])
                  && (u in s'.error <==> u in s.error) && (u in s.error ==> s'.error[u] == s.error[u])
  }

  /**
   A receive succeeds exactly if the flags asked for are set, whether it may wait or not. It gets the
   wanted flags that are set, and with CLEAR takes them away, no others. Otherwise it leaves the flags
   alone, and waits at its place or fails.
   */
  lemma RecvMeaning(s: State, t: int, w: Info, wait: bool, k: nat)
    requires Legal(s, Recv(t, w, wait, k)) && w.bits != {}
    ensures var (s', r) := RecvSpec(s, t, w, wait, k);
            && (r == EOK <==> Asked(w, s.bits)) && (r == BLOCKED <==> !Asked(w, s.bits) && wait)
            && (r == ETIMEOUT <==> !Asked(w, s.bits) && !wait)
            && OthersSame(s, s', t) && t in s'.error && s'.error[t] == (if r == ETIMEOUT then ETIMEOUT else EOK)
            && (forall b :: b in s'.bits <==> b in s.bits && !(r == EOK && w.clear && b in w.bits))
            && (r == EOK ==> t in s'.info && forall b :: b in s'.info[t].bits <==> b in w.bits && b in s.bits)
            && (r == BLOCKED ==> t in s'.info && s'.info[t] == w && s'.waiters[..k] == s.waiters[..k]
                                 && s'.waiters[k..] == [t] + s.waiters[k..])
            && (r != BLOCKED ==> s'.waiters == s.waiters)
  {
    AskedIs(w, s.bits);
    hide Satisfied;
    if !Asked(w, s.bits) && wait {
      assert (s.waiters[..k] + [t] + s.waiters[k..])[k..] == [t] + s.waiters[k..];
    }
  }

  lemma AskedIs(w: Info, bits: Bits)
    requires w.all || w.any
    ensures Satisfied(w, bits) <==> Asked(w, bits)
  {
    var got := w.bits * bits;
    forall b ensures b in got <==> b in w.bits && b in bits {
    }
    if !w.all && got != {} { var b :| b in got; }
  }

  /** A waiter whose time is up leaves the list with its error; flags and other threads stay as they are. */
  lemma TimeoutMeaning(s: State, t: int)
    requires Legal(s, Timeout(t))
    ensures var (s', ws) := (TimeoutSpec(s, t), s.waiters);
            && s'.bits == s.bits && s'.info == s.info && OthersSame(s, s', t)
            && t in s'.error && s'.error[t] == ETIMEOUT
            && exists k :: 0 <= k < |ws| && ws[k] == t && s'.waiters == ws[..k] + ws[k + 1..]
  {
    hide Without, IndexOf;
    WithoutIs(s.waiters, t);
  }

  /** A reset clears all flags and resumes every waiter with an error, and nobody else. */
  lemma ResetMeaning(s: State)
    ensures var s' := ResetSpec(s);
            && s'.bits == {} && s'.waiters == [] && s'.info == s.info
            && (forall t :: t in s'.error <==> t in s.error || t in s.waiters)
            && forall t :: t in s'.error ==> s'.error[t] == if t in s.waiters then ERROR else s.error[t]
  {
    WithErrorMeaning(s.error, s.waiters);
  }

  lemma {:induction false} WithErrorMeaning(error: map<int, Code>, ts: seq<int>)
    ensures forall t :: t in WithError(error, ts) <==> t in error || t in ts
    ensures forall t :: t in WithError(error, ts) ==> WithError(error, ts)[t] == if t in ts then ERROR else error[t]
    decreases |ts|
  {
    if ts != [] {
      WithErrorMeaning(error[ts[0] := ERROR], ts[1..]);
      assert ts == [ts[0]] + ts[1..];
    }
  }

  lemma StepKeeps(s: State, op: Op)
    requires Sound(s) && Legal(s, op)
    ensures Sound(Step(s, op))
  {
    hide Distinct;
    match op
    case Send(bits) => SendKeeps(s, bits);
    case Recv(t, w, wait, k) => RecvKeeps(s, t, w, wait, k);
    case Timeout(t) =>
      WithoutMembers(s.waiters, t);
      forall u | u in TimeoutSpec(s, t).waiters ensures Waits(TimeoutSpec(s, t), u) { assert Waits(s, u); }
    case Reset => EmptyDistinct();
  }

  ghost predicate LegalRun(s: State, ops: seq<Op>)
    decreases |ops|
  {
    ops == [] || (Legal(s, ops[0]) && LegalRun(Step(s, ops[0]), ops[1..]))
  }

  ghost function Run(s: State, ops: seq<Op>): State
    requires LegalRun(s, ops)
    decreases |ops|
  {
    if ops == [] then s else Run(Step(s, ops[0]), ops[1..])
  }

  /** In every reachable state no waiting thread would be satisfied by the flags that are set. */
  lemma {:induction false} NoneSatisfied(s: State, ops: seq<Op>)
    requires Sound(s) && LegalRun(s, ops)
    ensures var s' := Run(s, ops);
            Sound(s') && forall t :: t in s'.waiters ==> t in s'.info && !Satisfied(s'.info[t], s'.bits)
    decreases |ops|
  {
    hide Sound, Step, Satisfied;
    if ops == [] {
      SoundHas(s);
    } else {
      StepKeeps(s, ops[0]);
      NoneSatisfied(Step(s, ops[0]), ops[1..]);
    }
  }

  lemma SoundHas(s: State)
    requires Sound(s)
    ensures forall t :: t in s.waiters ==> t in s.info && !Satisfied(s.info[t], s.bits)
  {
    forall t | t in s.waiters ensures t in s.info && !Satisfied(s.info[t], s.bits) { assert Waits(s, t); }
  }
}
