/**
 The event object as rt-thread/src/ipc.c changes it: the traversal of the wait list that resumes
 threads while it goes, and the resetting loop.
 */
module EventObject {
  import opened RtList
  import opened EventRuns

  class Event {
    var bits: Bits
    /** The suspended threads in list order. */
    var waiters: seq<int>
    /** event_set and event_info of the threads. */
    var info: map<int, Info>
    var error: map<int, Code>

    ghost function Model(): State
      reads this
    {
      State(bits, waiters, info, error)
    }

    /** rt_event_init. */
    constructor ()
      ensures Sound(Model()) && Model() == State({}, [], map[], map[])
    {
      bits, waiters, info, error := {}, [], map[], map[];
    }

    /** rt_event_send. */
    method Send(flags: Bits) returns (r: Code)
      requires Distinct(waiters)
      modifies this
      ensures (Model(), r) == SendSpec(old(Model()), flags)
    {
      hide Traverse, WithGot, Distinct, Underway;
      if flags == {} { return ERROR; }
      ghost var s0 := Model();
      bits := bits + flags;
      ghost var all := Traverse(bits, s0.waiters, s0.info);
      var n := 0;
      ghost var k, woken := 0, [];
      Start(s0, bits);
      while n < |waiters|
        invariant 0 <= n <= |waiters| && 0 <= k <= |s0.waiters| && error == s0.error
        invariant Underway(s0, all, k, n, woken, bits, waiters, info)
        decreases |s0.waiters| - k
      {
        var t := waiters[n];
        Next(s0, all, k, n, woken, bits, waiters, info);
        var w := InfoOf(info, t);
        var status := ERROR;
        if w.all {
          if w.bits * bits == w.bits { status := EOK; }
        } else if w.any {
          if w.bits * bits != {} {
            w := w.(bits := w.bits * bits);
            status := EOK;
          }
        } else {
          return EINVAL;
        }
        n := n + 1;
        if status == EOK {
          if w.clear { bits := bits - w.bits; }
          // rt_thread_resume takes the thread off the list.
          n := n - 1;
          waiters := waiters[..n] + waiters[n + 1..];
          info := info[t := w];
          woken := woken + [(t, w.bits)];
        }
        k := k + 1;
      }
      End(s0, all, k, n, woken, bits, waiters, info);
      return EOK;
    }

    /** rt_event_recv up to its return, or to where its thread is switched out at place `k` of the list. */
    method Recv(t: int, w: Info, wait: bool, k: nat) returns (r: Code, received: Bits)
      requires Sound(Model()) && Legal(Model(), EventRuns.Recv(t, w, wait, k))
      modifies this
      ensures Sound(Model()) && (Model(), r) == RecvSpec(old(Model()), t, w, wait, k)
      ensures r == EOK ==> received == info[t].bits
    {
      RecvKeeps(Model(), t, w, wait, k);
      received := {};
      if w.bits == {} { return ERROR, {}; }
      error := error[t := EOK];
      var status := ERROR;
      if w.all {
        if bits * w.bits == w.bits { status := EOK; }
      } else if w.any {
        if bits * w.bits != {} { status := EOK; }
      }
      assert bits * w.bits == w.bits * bits;
      if status == EOK {
        received := bits * w.bits;
        info := info[t := w.(bits := bits * w.bits)];
        if w.clear { bits := bits - w.bits; }
        return EOK, received;
      } else if !wait {
        error := error[t := ETIMEOUT];
        assert error == old(error)[t := ETIMEOUT];
        return ETIMEOUT, {};
      }
      info := info[t := w];
      waiters := Inserted(waiters, k, t);
      return BLOCKED, {};
    }

    /** rt_event_control with RT_IPC_CMD_RESET: _ipc_list_resume_all, then no flags. */
    method Reset()
      modifies this
      ensures Model() == ResetSpec(old(Model()))
    {
      ghost var ws, error0 := waiters, error;
      while waiters != []
        invariant bits == old(bits) && info == old(info) && WithError(error, waiters) == WithError(error0, ws)
        decreases |waiters|
      {
        var t := waiters[0];
        error := error[t := ERROR];
        waiters := waiters[1..];
      }
      bits := {};
    }
  }

  // ----- The traversal underway

  /** The node at `k` of the list as it was is at `n` now; what is done and what is left make up `all`. */
  ghost predicate Underway(s0: State, all: Sent, k: nat, n: nat, woken: seq<(int, Bits)>, bits: Bits, waiters: seq<int>,
                           info: map<int, Info>) {
    && k <= |s0.waiters| && n <= |waiters| && waiters == waiters[..n] + s0.waiters[k..]
    && (forall t :: t in s0.waiters[k..] ==> InfoOf(info, t) == InfoOf(s0.info, t))
    && info == WithGot(s0.info, woken)
    && var rest := Traverse(bits, s0.waiters, s0.info, k);
    && all.bits == rest.bits && all.left == waiters[..n] + rest.left && all.woken == woken + rest.woken
       && all.valid == rest.valid
  }

  lemma Start(s0: State, bits: Bits)
    ensures Underway(s0, Traverse(bits, s0.waiters, s0.info), 0, 0, [], bits, s0.waiters, s0.info)
  {
    assert s0.waiters[0..] == s0.waiters;
  }

  lemma End(s0: State, all: Sent, k: nat, n: nat, woken: seq<(int, Bits)>, bits: Bits, waiters: seq<int>,
            info: map<int, Info>)
    requires Underway(s0, all, k, n, woken, bits, waiters, info) && n == |waiters|
    ensures all == Sent(bits, waiters, woken, true) && info == WithGot(s0.info, all.woken)
  {
    assert |waiters| == n + (|s0.waiters| - k);
    assert waiters[..n] == waiters;
  }

  /** What the next node comes to, whichever branch it takes. */
  lemma Next(s0: State, all: Sent, k: nat, n: nat, woken: seq<(int, Bits)>, bits: Bits, waiters: seq<int>,
             info: map<int, Info>)
    requires Underway(s0, all, k, n, woken, bits, waiters, info) && n < |waiters| && Distinct(s0.waiters)
    ensures k < |s0.waiters|
    ensures var t := waiters[n];
            var w := InfoOf(info, t);
            var got := if w.all then w.bits else w.bits * bits;
            var sat := if w.all then w.bits * bits == w.bits else w.any && w.bits * bits != {};
            if !w.all && !w.any then all == Sent(bits, waiters, woken, false) && info == WithGot(s0.info, woken)
            else if sat then
              Underway(s0, all, k + 1, n, woken + [(t, got)], if w.clear then bits - got else bits,
                       waiters[..n] + waiters[n + 1..], info[t := w.(bits := got)])
            else Underway(s0, all, k + 1, n + 1, woken, bits, waiters, info)
  {
    hide WithGot;
    var ws := s0.waiters;
    assert ws[k..] == [ws[k]] + ws[k + 1..];
    assert waiters[n] == (waiters[..n] + ws[k..])[n] == ws[k];
    var t := ws[k];
    var w := InfoOf(info, t);
    assert t in ws[k..] && w == InfoOf(s0.info, t);
    var got := if w.all then w.bits else w.bits * bits;
    var sat := if w.all then w.bits * bits == w.bits else w.any && w.bits * bits != {};
    if w.all || w.any {
      if sat {
        Wake(s0, all, k, n, woken, bits, waiters, info, t, w, got);
      } else {
        var rest := Traverse(bits, ws, s0.info, k + 1);
        assert waiters[..n + 1] == waiters[..n] + [t];
        assert waiters[..n] + ([t] + rest.left) == waiters[..n + 1] + rest.left;
      }
    }
  }

  lemma Later(ws: seq<int>, k: nat)
    requires Distinct(ws) && k < |ws|
    ensures ws[k..] == [ws[k]] + ws[k + 1..] && ws[k] !in ws[k + 1..]
    ensures forall t :: t in ws[k + 1..] ==> t in ws[k..]
  {
  }

  lemma TraverseWake(bits: Bits, ws: seq<int>, info: map<int, Info>, k: nat)
    requires k < |ws|
    ensures var w := InfoOf(info, ws[k]);
            var got := if w.all then w.bits else w.bits * bits;
            (if w.all then w.bits * bits == w.bits else w.any && w.bits * bits != {}) ==>
              var r := Traverse(if w.clear then bits - got else bits, ws, info, k + 1);
              Traverse(bits, ws, info, k) == r.(woken := [(ws[k], got)] + r.woken)
  {
  }

  lemma Wake(s0: State, all: Sent, k: nat, n: nat, woken: seq<(int, Bits)>, bits: Bits, waiters: seq<int>,
             info: map<int, Info>, t: int, w: Info, got: Bits)
    requires Underway(s0, all, k, n, woken, bits, waiters, info) && n < |waiters| && k < |s0.waiters|
             && Distinct(s0.waiters)
    requires t == s0.waiters[k] && w == InfoOf(info, t) == InfoOf(s0.info, t)
    requires got == if w.all then w.bits else w.bits * bits
    requires if w.all then w.bits * bits == w.bits else w.any && w.bits * bits != {}
    ensures Underway(s0, all, k + 1, n, woken + [(t, got)], if w.clear then bits - got else bits,
                     waiters[..n] + waiters[n + 1..], info[t := w.(bits := got)])
  {
    hide WithGot, Traverse, Distinct;
    var ws := s0.waiters;
    var waiters' := waiters[..n] + waiters[n + 1..];
    Later(ws, k);
    TraverseWake(bits, ws, s0.info, k);
    assert waiters[n + 1..] == ws[k + 1..] && waiters'[..n] == waiters[..n];
    WithGotLast(s0.info, woken, t, got);
    var rest := Traverse(if w.clear then bits - got else bits, ws, s0.info, k + 1);
    assert woken + ([(t, got)] + rest.woken) == (woken + [(t, got)]) + rest.woken;
  }

  lemma {:induction false} WithGotLast(info: map<int, Info>, woken: seq<(int, Bits)>, t: int, got: Bits)
    ensures var m := WithGot(info, woken);
            WithGot(info, woken + [(t, got)]) == m[t := InfoOf(m, t).(bits := got)]
    decreases |woken|
  {
    if woken == [] {
      assert WithGot(info[t := InfoOf(info, t).(bits := got)], []) == info[t := InfoOf(info, t).(bits := got)];
      assert ([(t, got)])[1..] == [];
      assert woken + [(t, got)] == [(t, got)];
    } else {
      WithGotLast(info[woken[0].0 := InfoOf(info, woken[0].0).(bits := woken[0].1)], woken[1..], t, got);
      assert (woken + [(t, got)])[1..] == woken[1..] + [(t, got)];
    }
  }
}
