/**
 The message queue of rt-thread/src/ipc.c seen by those who use it: in every interleaving of the
 sections and copies of its calls, the messages received are those that were sent, each once, in
 the order of a double-ended queue, whatever the nodes contained before.
 */
module QueueDelivery {
  import opened Common
  import opened RtList
  import opened QueueRuns

  /**
   A plain double-ended queue: the messages in it, what each sender has copied so far, what receivers
   have taken, in order, and who waits for a message or for room.
   */
  datatype Deque = Deque(messages: seq<Message>, copied: map<int, Message>, taken: seq<Message>, receivers: seq<int>,
                         senders: seq<int>)

  function Rest(ts: seq<int>): seq<int> { if ts == [] then [] else ts[1..] }

  function PutAt(ts: seq<int>, k: nat, t: int): seq<int> { if k <= |ts| then ts[..k] + [t] + ts[k..] else ts }

  /** A call of the queue as its user sees it. */
  function After(d: Deque, op: Op): Deque {
    match op
    case FillStep(t, m) => d.(copied := d.copied[t := m])
    case LinkStep(t) =>
      if t !in d.copied then d
      else d.(messages := d.messages + [d.copied[t]], copied := d.copied - {t}, receivers := Rest(d.receivers))
    case FrontStep(t) =>
      if t !in d.copied then d
      else d.(messages := [d.copied[t]] + d.messages, copied := d.copied - {t}, receivers := Rest(d.receivers))
    case TakeStep(t) =>
      if d.messages != [] then d.(messages := d.messages[1..], taken := d.taken + [d.messages[0]]) else d
    case GiveBackStep(t) => d.(senders := Rest(d.senders))
    case AwaitItem(t, k) => d.(receivers := PutAt(d.receivers, k, t))
    case AwaitRoom(t, k) => d.(senders := PutAt(d.senders, k, t))
    case ItemTimeout(t) => d.(receivers := Without(d.receivers, t))
    case RoomTimeout(t) => d.(senders := Without(d.senders, t))
    case ResetStep => d.(messages := [], receivers := [], senders := [])
    case _ => d
  }

  ghost function AfterAll(d: Deque, ops: seq<Op>): Deque
    decreases |ops|
  {
    if ops == [] then d else AfterAll(After(d, ops[0]), ops[1..])
  }

  /** Before a node is linked a message was copied into it, as both sends do. */
  ghost predicate Copies(d: Deque, ops: seq<Op>)
    decreases |ops|
  {
    ops == []
    || ((ops[0].LinkStep? || ops[0].FrontStep? ==> ops[0].t in d.copied) && Copies(After(d, ops[0]), ops[1..]))
  }

  /** What a sender has copied is in its node still. */
  ghost predicate CopyThere(s: State, copied: map<int, Message>, t: int)
    requires t in copied
  {
    t in s.held && s.held[t].ToSend? && DataOf(s, s.held[t].node) == copied[t]
  }

  ghost predicate Agrees(s: State, d: Deque) {
    && Contents(s) == d.messages && s.items.waiters == d.receivers && s.room.waiters == d.senders
    && forall t :: t in d.copied ==> CopyThere(s, d.copied, t)
  }

  /** No step but a copy of its own changes the node of a sender. */
  lemma CopyStays(s: State, max: nat, op: Op, copied: map<int, Message>, t: int)
    requires Sound(s, max) && Possible(s, op) && t in copied && CopyThere(s, copied, t)
    requires !(op.FillStep? && op.t == t) && !((op.LinkStep? || op.FrontStep?) && op.t == t)
    ensures CopyThere(Step(s, op), copied, t)
  {
    hide Distinct, Contents;
    assert HeldApart(s, t);
  }

  lemma StepAgrees(s: State, max: nat, op: Op, d: Deque)
    requires Sound(s, max) && Possible(s, op) && Agrees(s, d)
    requires op.LinkStep? || op.FrontStep? ==> op.t in d.copied
    ensures Agrees(Step(s, op), After(d, op))
    ensures op.TakeStep? ==>
              var s' := Step(s, op); op.t in s'.held && After(d, op).taken == d.taken + [s'.held[op.t].message]
  {
    hide Apart, Contents, CopyThere, Step;
    StepKeeps(s, max, op);
    var (s', d') := (Step(s, op), After(d, op));
    forall t | t in d'.copied ensures CopyThere(s', d'.copied, t) {
      if op.FillStep? && op.t == t { CopyMade(s, max, op, d.copied); } else {
        assert CopyThere(s, d.copied, t);
        CopyStays(s, max, op, d.copied, t);
        SameCopy(s', d.copied, d'.copied, t);
      }
    }
    if op.LinkStep? || op.FrontStep? { CopyIs(s, d.copied, op.t); }
    if op.TakeStep? { TakenIs(s, max, op.t); }
    StepWaiters(s, op, d);
  }

  lemma StepWaiters(s: State, op: Op, d: Deque)
    requires Possible(s, op) && s.items.waiters == d.receivers && s.room.waiters == d.senders
    requires op.GrabStep? ==> s.room.units > 0
    requires op.TakeStep? ==> s.items.units > 0
    requires op.LinkStep? || op.FrontStep? ==> op.t in d.copied
    ensures Step(s, op).items.waiters == After(d, op).receivers && Step(s, op).room.waiters == After(d, op).senders
  {
  }

  lemma SameCopy(s: State, copied: map<int, Message>, copied': map<int, Message>, t: int)
    requires t in copied && t in copied' && copied'[t] == copied[t] && CopyThere(s, copied, t)
    ensures CopyThere(s, copied', t)
  {
  }

  lemma CopyIs(s: State, copied: map<int, Message>, t: int)
    requires t in copied && CopyThere(s, copied, t)
    ensures t in s.held && DataOf(s, s.held[t].node) == copied[t]
  {
  }

  lemma CopyMade(s: State, max: nat, op: Op, copied: map<int, Message>)
    requires Sound(s, max) && Possible(s, op) && op.FillStep?
    ensures CopyThere(Step(s, op), copied[op.t := op.m], op.t)
  {
    FillKeeps(s, max, op.t, op.m);
  }

  lemma TakenIs(s: State, max: nat, t: int)
    requires Sound(s, max) && Possible(s, TakeStep(t))
    ensures var s' := Step(s, TakeStep(t));
            t in s'.held && s'.held[t].ToReturn? && Contents(s) == [s'.held[t].message] + Contents(s')
  {
    hide Apart, Contents;
    TakeKeeps(s, max, t);
  }

  /** What the receivers of a run were to get, in the order in which they took their nodes. */
  ghost function Got(s: State, max: nat, ops: seq<Op>): seq<Message>
    requires Sound(s, max) && PossibleRun(s, max, ops)
    decreases |ops|
  {
    if ops == [] then []
    else
      StepKeeps(s, max, ops[0]);
      var s1 := Step(s, ops[0]);
      (if ops[0].TakeStep? && ops[0].t in s1.held && s1.held[ops[0].t].ToReturn? then [s1.held[ops[0].t].message]
       else [])
      + Got(s1, max, ops[1..])
  }

  /**
   In every interleaving the messages in the queue, those that receivers get, and the wait lists are
   those of a plain double-ended queue that knows only the arguments of the calls.
   */
  lemma {:induction false} RunIsDeque(s: State, max: nat, ops: seq<Op>, d: Deque)
    requires Sound(s, max) && PossibleRun(s, max, ops) && Agrees(s, d) && Copies(d, ops)
    ensures var s' := Run(s, max, ops);
            && Contents(s') == AfterAll(d, ops).messages
            && s'.items.waiters == AfterAll(d, ops).receivers && s'.room.waiters == AfterAll(d, ops).senders
    ensures AfterAll(d, ops).taken == d.taken + Got(s, max, ops)
    decreases |ops|
  {
    hide Apart, Step, Contents, CopyThere, Agrees, After;
    if ops == [] {
      AgreesContents(s, d);
    } else {
      var op, s1, d1 := ops[0], Step(s, ops[0]), After(d, ops[0]);
      StepKeeps(s, max, op);
      StepAgrees(s, max, op, d);
      RunIsDeque(s1, max, ops[1..], d1);
      var first := if op.TakeStep? && op.t in s1.held && s1.held[op.t].ToReturn? then [s1.held[op.t].message] else [];
      OnlyTakes(s, max, op, d);
      assert d.taken + first + Got(s1, max, ops[1..]) == d.taken + (first + Got(s1, max, ops[1..]));
    }
  }

  lemma AgreesContents(s: State, d: Deque)
    requires Agrees(s, d)
    ensures Contents(s) == d.messages && s.items.waiters == d.receivers && s.room.waiters == d.senders
  {
  }

  lemma OnlyTakes(s: State, max: nat, op: Op, d: Deque)
    requires Sound(s, max) && Possible(s, op) && Agrees(s, d)
    requires op.LinkStep? || op.FrontStep? ==> op.t in d.copied
    ensures var s1 := Step(s, op);
            After(d, op).taken == d.taken +
              if op.TakeStep? && op.t in s1.held && s1.held[op.t].ToReturn? then [s1.held[op.t].message] else []
  {
    hide Apart, Contents, CopyThere;
    if op.TakeStep? {
      StepAgrees(s, max, op, d);
      TakenIs(s, max, op.t);
    } else {
      assert d.taken + [] == d.taken;
    }
  }

  /** Until its receiver gives the node back it contains the message that was taken: the copy gets that. */
  lemma StillThere(s: State, max: nat, t: int)
    requires Sound(s, max) && Possible(s, GiveBackStep(t))
    ensures DataOf(s, s.held[t].node) == s.held[t].message
  {
  }

  lemma {:induction false} FifoDeque(d: Deque, ops: seq<Op>)
    requires Copies(d, ops) && forall op :: op in ops ==> !op.FrontStep? && !op.ResetStep?
    ensures d.taken + d.messages + Linked(d, ops) == AfterAll(d, ops).taken + AfterAll(d, ops).messages
    decreases |ops|
  {
    hide Copies, After;
    if ops != [] {
      var (op, d1) := (ops[0], After(d, ops[0]));
      assert op in ops && forall o :: o in ops[1..] ==> o in ops;
      CopiesNext(d, ops);
      FifoDeque(d1, ops[1..]);
      var first := if op.LinkStep? && op.t in d.copied then [d.copied[op.t]] else [];
      OneCall(d, op);
      Joined(d.taken + d.messages, first, Linked(d1, ops[1..]));
    }
  }

  lemma Joined(a: seq<Message>, b: seq<Message>, c: seq<Message>)
    ensures a + b + c == a + (b + c)
  {
  }

  lemma CopiesNext(d: Deque, ops: seq<Op>)
    requires Copies(d, ops) && ops != []
    ensures Copies(After(d, ops[0]), ops[1..])
  {
  }

  lemma OneCall(d: Deque, op: Op)
    requires !op.FrontStep? && !op.ResetStep?
    ensures var first := if op.LinkStep? && op.t in d.copied then [d.copied[op.t]] else [];
            After(d, op).taken + After(d, op).messages == d.taken + d.messages + first
  {
    if op.TakeStep? && d.messages != [] { assert d.messages == [d.messages[0]] + d.messages[1..]; }
    if op.LinkStep? && op.t in d.copied { Joined(d.taken, d.messages, [d.copied[op.t]]); }
  }

  /** The messages that were linked, in order. */
  ghost function Linked(d: Deque, ops: seq<Op>): seq<Message>
    decreases |ops|
  {
    if ops == [] then []
    else
      (if ops[0].LinkStep? && ops[0].t in d.copied then [d.copied[ops[0].t]] else [])
      + Linked(After(d, ops[0]), ops[1..])
  }

  /** The queue while no call is under way. */
  ghost function Seen(s: State): Deque { Deque(Contents(s), map[], [], s.items.waiters, s.room.waiters) }

  /** Without urgent messages and resets every message sent is received once, in the order of sending. */
  lemma FirstInFirstOut(s: State, max: nat, ops: seq<Op>)
    requires Sound(s, max) && PossibleRun(s, max, ops) && s.held == map[]
    requires Copies(Seen(s), ops) && forall op :: op in ops ==> !op.FrontStep? && !op.ResetStep?
    ensures Contents(s) + Linked(Seen(s), ops) == Got(s, max, ops) + Contents(Run(s, max, ops))
  {
    hide Sound, Apart, Contents, Copies;
    var d := Seen(s);
    RunIsDeque(s, max, ops, d);
    FifoDeque(d, ops);
    assert [] + Contents(s) == Contents(s) && [] + Got(s, max, ops) == Got(s, max, ops);
  }
}
