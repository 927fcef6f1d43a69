/**
 The mailbox of rt-thread/src/ipc.c: a ring buffer with an input and an output offset, proved to
 be a bounded double-ended queue in which no wakeup is lost, in any interleaving of its sections.
 */
module Mailbox {
  import opened RtList
  import opened Wakeups

  /** RT_MB_ENTRY_MAX. */
  const ENTRY_MAX := 65535

  datatype Code = EOK | EFULL | ETIMEOUT | BLOCKED

  /** The mails in order, the receivers waiting for mail and the senders waiting for room. */
  datatype State = State(mails: seq<int>, items: Pool, room: Pool)

  ghost predicate Consistent(s: State, size: nat) {
    && |s.mails| <= size && s.items.units == |s.mails| && s.room.units == size - |s.mails|
    && Wakeups.Sound(s.items) && Wakeups.Sound(s.room)
  }

  // ----- The sections on a plain queue

  datatype Op =
    | Send(t: int, mail: int, wait: bool, k: nat)
    | Urgent(mail: int)
    | Recv(t: int, wait: bool, k: nat)
    | ItemTimeout(t: int)
    | RoomTimeout(t: int)
    | Reset

  /**
   rt_mb_send_wait from where its thread looks at the mailbox, first or again, until it returns or
   waits at place `k`.
   */
  function SendSpec(s: State, t: int, mail: int, wait: bool, k: nat): (State, Code)
    requires k <= |s.room.waiters|
  {
    if s.room.units > 0 then (State(s.mails + [mail], Put(s.items), Taken(s.room, t)), EOK)
    else if wait then (s.(room := Await(s.room, t, k)), BLOCKED)
    else (s.(room := GivenUp(s.room, t)), EFULL)
  }

  /** rt_mb_urgent, which may be called by an interrupt: it is no resumed waiter of this mailbox. */
  function UrgentSpec(s: State, mail: int): (State, Code) {
    if s.room.units > 0 then (State([mail] + s.mails, Put(s.items), s.room.(units := s.room.units - 1)), EOK)
    else (s, EFULL)
  }

  /** rt_mb_recv, likewise. */
  function RecvSpec(s: State, t: int, wait: bool, k: nat): (State, Code)
    requires k <= |s.items.waiters|
  {
    if s.mails != [] && s.items.units > 0 then (State(s.mails[1..], Taken(s.items, t), Put(s.room)), EOK)
    else if wait then (s.(items := Await(s.items, t, k)), BLOCKED)
    else (s.(items := GivenUp(s.items, t)), ETIMEOUT)
  }

  /** rt_mb_control with RT_IPC_CMD_RESET. */
  function ResetSpec(s: State, size: nat): State { State([], Flushed(s.items, 0), Flushed(s.room, size)) }

  /** Calls are made by threads that do not wait; only a waiter times out. */
  ghost predicate Possible(s: State, op: Op) {
    match op
    case Send(t, _, _, k) => t !in s.room.waiters && t !in s.items.waiters && k <= |s.room.waiters|
    case Urgent(_) => true
    case Recv(t, _, k) => t !in s.room.waiters && t !in s.items.waiters && k <= |s.items.waiters|
    case ItemTimeout(t) => t in s.items.waiters
    case RoomTimeout(t) => t in s.room.waiters
    case Reset => true
  }

  function Step(s: State, size: nat, op: Op): State
    requires op.Send? ==> op.k <= |s.room.waiters|
    requires op.Recv? ==> op.k <= |s.items.waiters|
  {
    match op
    case Send(t, mail, wait, k) => SendSpec(s, t, mail, wait, k).0
    case Urgent(mail) => UrgentSpec(s, mail).0
    case Recv(t, wait, k) => RecvSpec(s, t, wait, k).0
    case ItemTimeout(t) => s.(items := Expired(s.items, t))
    case RoomTimeout(t) => s.(room := Expired(s.room, t))
    case Reset => ResetSpec(s, size)
  }

  lemma StepKeeps(s: State, size: nat, op: Op)
    requires Consistent(s, size) && Possible(s, op)
    ensures Consistent(Step(s, size, op), size)
  {
    hide Wakeups.Sound, Distinct;
    match op
    case Send(t, mail, wait, k) =>
      if s.room.units > 0 {
        PutSound(s.items);
        TakenSound(s.room, t);
      } else if wait {
        AwaitSound(s.room, t, k);
      } else {
        GivenUpSound(s.room, t);
      }
    case Urgent(mail) =>
      if s.room.units > 0 { PutSound(s.items); FewerSound(s.room); }
    case Recv(t, wait, k) =>
      if s.mails != [] {
        PutSound(s.room);
        TakenSound(s.items, t);
      } else if wait {
        AwaitSound(s.items, t, k);
      } else {
        GivenUpSound(s.items, t);
      }
    case ItemTimeout(t) => ExpiredSound(s.items, t);
    case RoomTimeout(t) => ExpiredSound(s.room, t);
    case Reset => FlushedSound(s.items, 0); FlushedSound(s.room, size);
  }

  lemma FewerSound(p: Pool)
    requires Wakeups.Sound(p) && p.units > 0
    ensures Wakeups.Sound(p.(units := p.units - 1))
  {
  }

  ghost predicate PossibleRun(s: State, size: nat, ops: seq<Op>)
    decreases |ops|
  {
    ops == [] || (Possible(s, ops[0]) && PossibleRun(Step(s, size, ops[0]), size, ops[1..]))
  }

  ghost function Run(s: State, size: nat, ops: seq<Op>): State
    requires PossibleRun(s, size, ops)
    decreases |ops|
  {
    if ops == [] then s else Run(Step(s, size, ops[0]), size, ops[1..])
  }

  /**
   In every interleaving a thread waits for mail only while there are no more mails than resumed
   receivers on their way, and a sender waits only while there is no more room than resumed senders.
   */
  lemma {:induction false} NoneLostInRun(s: State, size: nat, ops: seq<Op>)
    requires Consistent(s, size) && PossibleRun(s, size, ops)
    ensures var s' := Run(s, size, ops);
            && Consistent(s', size)
            && (s'.items.waiters != [] ==> |s'.mails| <= |s'.items.woken|)
            && (s'.room.waiters != [] ==> size - |s'.mails| <= |s'.room.woken|)
    decreases |ops|
  {
    hide Step;
    if ops != [] {
      StepKeeps(s, size, ops[0]);
      NoneLostInRun(Step(s, size, ops[0]), size, ops[1..]);
    }
  }

  // ----- A bounded double-ended queue

  function Result(s: State, op: Op): Code
    requires op.Send? ==> op.k <= |s.room.waiters|
    requires op.Recv? ==> op.k <= |s.items.waiters|
  {
    match op
    case Send(t, mail, wait, k) => SendSpec(s, t, mail, wait, k).1
    case Urgent(mail) => UrgentSpec(s, mail).1
    case Recv(t, wait, k) => RecvSpec(s, t, wait, k).1
    case _ => EOK
  }

  /** A queue of mails, and the threads in its two wait lists. */
  datatype Box = Box(mails: seq<int>, receivers: seq<int>, senders: seq<int>)

  function BoxOf(s: State): Box { Box(s.mails, s.items.waiters, s.room.waiters) }

  function Rest(ts: seq<int>): seq<int> { if ts == [] then [] else ts[1..] }

  /**
   What each call makes of a queue of at most `size` mails, and what it returns. A call that finds room,
   or a mail, resumes the first thread that waits for the other.
   */
  function Called(b: Box, size: nat, op: Op): (Box, Code)
    requires op.Send? ==> op.k <= |b.senders|
    requires op.Recv? ==> op.k <= |b.receivers|
  {
    match op
    case Send(t, mail, wait, k) =>
      if |b.mails| < size then (b.(mails := b.mails + [mail], receivers := Rest(b.receivers)), EOK)
      else if wait then (b.(senders := b.senders[..k] + [t] + b.senders[k..]), BLOCKED)
      else (b, EFULL)
    case Urgent(mail) =>
      if |b.mails| < size then (b.(mails := [mail] + b.mails, receivers := Rest(b.receivers)), EOK) else (b, EFULL)
    case Recv(t, wait, k) =>
      if |b.mails| > 0 then (b.(mails := b.mails[1..], senders := Rest(b.senders)), EOK)
      else if wait then (b.(receivers := b.receivers[..k] + [t] + b.receivers[k..]), BLOCKED)
      else (b, ETIMEOUT)
    case ItemTimeout(t) => (b.(receivers := Without(b.receivers, t)), EOK)
    case RoomTimeout(t) => (b.(senders := Without(b.senders, t)), EOK)
    case Reset => (Box([], [], []), EOK)
  }

  ghost predicate Callable(b: Box, size: nat, ops: seq<Op>)
    decreases |ops|
  {
    ops == []
    || ((ops[0].Send? ==> ops[0].k <= |b.senders|) && (ops[0].Recv? ==> ops[0].k <= |b.receivers|)
        && Callable(Called(b, size, ops[0]).0, size, ops[1..]))
  }

  ghost function CalledAll(b: Box, size: nat, ops: seq<Op>): (Box, seq<Code>)
    requires Callable(b, size, ops)
    decreases |ops|
  {
    if ops == [] then (b, [])
    else
      var (b1, r) := Called(b, size, ops[0]);
      var (b2, rs) := CalledAll(b1, size, ops[1..]);
      (b2, [r] + rs)
  }

  /** What the calls of a run return. */
  ghost function Results(s: State, size: nat, ops: seq<Op>): seq<Code>
    requires PossibleRun(s, size, ops)
    decreases |ops|
  {
    if ops == [] then [] else [Result(s, ops[0])] + Results(Step(s, size, ops[0]), size, ops[1..])
  }

  lemma StepIsCall(s: State, size: nat, op: Op)
    requires Consistent(s, size) && Possible(s, op)
    ensures (BoxOf(Step(s, size, op)), Result(s, op)) == Called(BoxOf(s), size, op)
  {
    hide Wakeups.Sound;
  }

  /**
   In every interleaving mails, wait lists and results are those of a bounded double-ended queue that
   does not know whom it has resumed: a call finds room, or a mail, exactly if there is some.
   */
  lemma {:induction false} RunIsDeque(s: State, size: nat, ops: seq<Op>)
    requires Consistent(s, size) && PossibleRun(s, size, ops)
    ensures Callable(BoxOf(s), size, ops)
    ensures (BoxOf(Run(s, size, ops)), Results(s, size, ops)) == CalledAll(BoxOf(s), size, ops)
    decreases |ops|
  {
    hide Step, Result, Consistent, Called;
    if ops != [] {
      StepKeeps(s, size, ops[0]);
      StepIsCall(s, size, ops[0]);
      RunIsDeque(Step(s, size, ops[0]), size, ops[1..]);
    }
  }

  /** The mails that were accepted, and those that were taken, in the order of the calls. */
  function Accepted(ops: seq<Op>, rs: seq<Code>): seq<int>
    requires |rs| == |ops|
  {
    if ops == [] then []
    else (if ops[0].Send? && rs[0] == EOK then [ops[0].mail] else []) + Accepted(ops[1..], rs[1..])
  }

  ghost function Received(s: State, size: nat, ops: seq<Op>): seq<int>
    requires PossibleRun(s, size, ops)
    decreases |ops|
  {
    if ops == [] then []
    else
      (if ops[0].Recv? && Result(s, ops[0]) == EOK && s.mails != [] then [s.mails[0]] else [])
      + Received(Step(s, size, ops[0]), size, ops[1..])
  }

  lemma ResultsLength(s: State, size: nat, ops: seq<Op>)
    requires PossibleRun(s, size, ops)
    ensures |Results(s, size, ops)| == |ops|
    decreases |ops|
  {
  }

  /** Without urgent mails and resets every accepted mail is taken once, in the order in which they were accepted. */
  lemma {:induction false} FirstInFirstOut(s: State, size: nat, ops: seq<Op>)
    requires Consistent(s, size) && PossibleRun(s, size, ops)
    requires forall op :: op in ops ==> !op.Urgent? && !op.Reset?
    ensures |Results(s, size, ops)| == |ops|
    ensures s.mails + Accepted(ops, Results(s, size, ops)) == Received(s, size, ops) + Run(s, size, ops).mails
    decreases |ops|
  {
    hide Step, Result, Consistent;
    ResultsLength(s, size, ops);
    if ops != [] {
      var (op, s1) := (ops[0], Step(s, size, ops[0]));
      assert op in ops;
      StepKeeps(s, size, op);
      StepIsCall(s, size, op);
      FirstInFirstOut(s1, size, ops[1..]);
      var rs := Results(s, size, ops);
      assert rs[0] == Result(s, op) && rs[1..] == Results(s1, size, ops[1..]);
      var x := if op.Send? && rs[0] == EOK then [op.mail] else [];
      var y := if op.Recv? && rs[0] == EOK && s.mails != [] then [s.mails[0]] else [];
      assert s.mails + x == y + s1.mails;
      Joined(s.mails, s1.mails, x, y, Accepted(ops[1..], rs[1..]), Received(s1, size, ops[1..]),
             Run(s, size, ops).mails);
    }
  }

  lemma Joined(ms: seq<int>, ms1: seq<int>, x: seq<int>, y: seq<int>, a: seq<int>, t: seq<int>, r: seq<int>)
    requires ms + x == y + ms1 && ms1 + a == t + r
    ensures ms + (x + a) == y + t + r
  {
    assert ms + (x + a) == ms + x + a && y + ms1 + a == y + (ms1 + a) && y + (t + r) == y + t + r;
  }

  // ----- The ring buffer

  /** The index `n` places after `from` in a ring of `size`, for `n` up to `size`. */
  function At(from: nat, n: nat, size: nat): nat
    requires from < size && n <= size
  {
    if from + n < size then from + n else from + n - size
  }

  lemma AtIsMod(from: nat, n: nat, size: nat)
    requires from < size && n <= size
    ensures At(from, n, size) == (from + n) % size
  {
    var x := from + n;
    if x >= size { assert x == size + (x - size); assert 0 <= x - size <= size; SmallMod(x - size, size); }
  }

  /** One turn of the ring does not matter. */
  lemma SmallMod(y: nat, m: nat)
    requires m > 0 && y < m
    ensures (y + m) % m == y
  {
    var q, r := (y + m) / m, (y + m) % m;
    assert y + m == m * q + r;
    assert m * (q - 1) == m * q - m == y - r;
    MulBounds(m, q - 1);
  }

  lemma MulBounds(m: nat, d: int)
    ensures d >= 1 ==> m * d >= m
    ensures d <= -1 ==> m * d + m <= 0
  {
    if d <= -1 { assert m * d == -(m * -d); }
  }

  /** The mails lie in the buffer from the output offset on, and the input offset is behind the last. */
  ghost predicate Holds(pool: seq<int>, inOffset: nat, outOffset: nat, mails: seq<int>) {
    && |mails| <= |pool|
    && (|pool| == 0 ==> inOffset == outOffset == 0)
    && (|pool| > 0 ==> outOffset < |pool| && inOffset == At(outOffset, |mails|, |pool|))
    && forall i :: 0 <= i < |mails| ==> pool[At(outOffset, i, |pool|)] == mails[i]
  }

  // ----- The object

  class MailBox {
    const size: nat
    const pool: array<int>
    var inOffset: nat
    var outOffset: nat
    var entry: nat
    /** parent.suspend_thread and suspend_sender_thread. */
    var receivers: seq<int>
    var senders: seq<int>
    ghost var s: State

    ghost predicate Valid()
      reads this, pool
    {
      && size <= ENTRY_MAX && pool.Length == size && Consistent(s, size)
      && entry == |s.mails| && receivers == s.items.waiters && senders == s.room.waiters
      && Holds(pool[..], inOffset, outOffset, s.mails)
    }

    /** rt_mb_init. */
    constructor (size: nat)
      requires size <= ENTRY_MAX
      ensures Valid() && this.size == size && fresh(pool)
      ensures s == State([], Pool(0, [], {}), Pool(size, [], {}))
    {
      this.size := size;
      pool := new int[size](_ => 0);
      inOffset, outOffset, entry := 0, 0, 0;
      receivers, senders := [], [];
      s := State([], Pool(0, [], {}), Pool(size, [], {}));
    }

    /** rt_mb_send_wait from where its thread looks at the mailbox. A sender that waits joins the list at `k`. */
    method Send(t: int, mail: int, wait: bool, k: nat) returns (r: Code)
      requires Valid() && Possible(s, Op.Send(t, mail, wait, k))
      modifies `inOffset, `entry, `receivers, `senders, `s, pool
      ensures Valid() && (s, r) == SendSpec(old(s), t, mail, wait, k)
    {
      hide Wakeups.Sound, Inserted;
      StepKeeps(s, size, Op.Send(t, mail, wait, k));
      if entry == size {
        if !wait {
          s := SendSpec(s, t, mail, wait, k).0;
          return EFULL;
        }
        senders := Inserted(senders, k, t);
        s := SendSpec(s, t, mail, wait, k).0;
        return BLOCKED;
      }
      HoldsAppend(pool[..], inOffset, outOffset, s.mails, mail);
      pool[inOffset] := mail;
      assert pool[..] == old(pool[..])[inOffset := mail];
      inOffset := inOffset + 1;
      if inOffset >= size { inOffset := 0; }
      // The source's check for an overflow of `entry` never fails: `size` is at most RT_MB_ENTRY_MAX.
      assert entry < ENTRY_MAX;
      entry := entry + 1;
      if receivers != [] { receivers := receivers[1..]; }
      s := SendSpec(s, t, mail, wait, k).0;
      return EOK;
    }

    /** rt_mb_urgent. */
    method Urgent(mail: int) returns (r: Code)
      requires Valid()
      modifies `outOffset, `entry, `receivers, `s, pool
      ensures Valid() && (s, r) == UrgentSpec(old(s), mail)
    {
      hide Wakeups.Sound, Holds;
      StepKeeps(s, size, Op.Urgent(mail));
      if entry == size { return EFULL; }
      HoldsPrepend(pool[..], inOffset, outOffset, s.mails, mail);
      if outOffset > 0 {
        outOffset := outOffset - 1;
      } else {
        outOffset := size - 1;
      }
      pool[outOffset] := mail;
      assert pool[..] == old(pool[..])[outOffset := mail];
      entry := entry + 1;
      if receivers != [] { receivers := receivers[1..]; }
      s := UrgentSpec(s, mail).0;
      return EOK;
    }

    /** rt_mb_recv from where its thread looks at the mailbox. A receiver that waits joins the list at `k`. */
    method Recv(t: int, wait: bool, k: nat) returns (r: Code, value: int)
      requires Valid() && Possible(s, Op.Recv(t, wait, k))
      modifies `outOffset, `entry, `receivers, `senders, `s
      ensures Valid() && (s, r) == RecvSpec(old(s), t, wait, k)
      ensures r == EOK ==> old(s.mails) == [value] + s.mails
    {
      hide Wakeups.Sound, Inserted, Holds;
      StepKeeps(s, size, Op.Recv(t, wait, k));
      if entry == 0 {
        if !wait {
          s := RecvSpec(s, t, wait, k).0;
          return ETIMEOUT, 0;
        }
        receivers := Inserted(receivers, k, t);
        s := RecvSpec(s, t, wait, k).0;
        return BLOCKED, 0;
      }
      HoldsTake(pool[..], inOffset, outOffset, s.mails);
      value := pool[outOffset];
      outOffset := outOffset + 1;
      if outOffset >= size { outOffset := 0; }
      entry := entry - 1;
      if senders != [] { senders := senders[1..]; }
      s := RecvSpec(s, t, wait, k).0;
      return EOK, value;
    }

    /** rt_mb_control with RT_IPC_CMD_RESET. */
    method Clear()
      requires Valid()
      modifies `inOffset, `outOffset, `entry, `receivers, `senders, `s
      ensures Valid() && s == ResetSpec(old(s), size)
    {
      StepKeeps(s, size, Reset);
      receivers, senders := [], [];
      entry, inOffset, outOffset := 0, 0, 0;
      s := ResetSpec(s, size);
    }
  }

  lemma HoldsAppend(pool: seq<int>, inOffset: nat, outOffset: nat, mails: seq<int>, mail: int)
    requires Holds(pool, inOffset, outOffset, mails) && |mails| < |pool|
    ensures inOffset < |pool|
    ensures Holds(pool[inOffset := mail], if inOffset + 1 >= |pool| then 0 else inOffset + 1, outOffset, mails + [mail])
  {
  }

  lemma HoldsPrepend(pool: seq<int>, inOffset: nat, outOffset: nat, mails: seq<int>, mail: int)
    requires Holds(pool, inOffset, outOffset, mails) && |mails| < |pool|
    ensures var o := if outOffset > 0 then outOffset - 1 else |pool| - 1;
            o < |pool| && Holds(pool[o := mail], inOffset, o, [mail] + mails)
  {
    var o := if outOffset > 0 then outOffset - 1 else |pool| - 1;
    forall i | 0 <= i < |mails| + 1 ensures pool[o := mail][At(o, i, |pool|)] == ([mail] + mails)[i] {
      if i > 0 { assert At(o, i, |pool|) == At(outOffset, i - 1, |pool|); }
    }
  }

  lemma HoldsTake(pool: seq<int>, inOffset: nat, outOffset: nat, mails: seq<int>)
    requires Holds(pool, inOffset, outOffset, mails) && mails != []
    ensures outOffset < |pool| && pool[outOffset] == mails[0]
    ensures Holds(pool, inOffset, if outOffset + 1 >= |pool| then 0 else outOffset + 1, mails[1..])
  {
    var o := if outOffset + 1 >= |pool| then 0 else outOffset + 1;
    assert At(outOffset, 0, |pool|) == outOffset;
    forall i | 0 <= i < |mails| - 1 ensures pool[At(o, i, |pool|)] == mails[1..][i] {
      assert At(o, i, |pool|) == At(outOffset, i + 1, |pool|);
    }
  }

  /** The relation between the offsets, for a buffer of any length but zero. */
  lemma OffsetsAgree(pool: seq<int>, inOffset: nat, outOffset: nat, mails: seq<int>)
    requires Holds(pool, inOffset, outOffset, mails) && |pool| > 0
    ensures inOffset == (outOffset + |mails|) % |pool|
  {
    AtIsMod(outOffset, |mails|, |pool|);
  }
}
