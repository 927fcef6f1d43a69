/**
 The message queue of rt-thread/src/ipc.c over any interleaving. Sending and receiving a message
 each take two sections with interrupts disabled, and copy the message between them, so that at
 any time some nodes are in flight.
 */
module QueueRuns {
  import opened Common
  import opened RtList
  import opened Wakeups

  type Message = seq<int>

  /** A node in the hands of a sender, before or after the copy, or of a receiver, who is to get `message`. */
  datatype Hold = ToSend(node: int) | ToReturn(node: int, message: Message)

  /**
   The linked messages, the free nodes, and the nodes in flight, with what the nodes contain.
   `items` counts messages for receivers, `room` free nodes for senders.
   */
  datatype State = State(queue: seq<int>, free: seq<int>, held: map<int, Hold>, data: map<int, Message>, items: Pool,
                         room: Pool)

  // ----- The sections

  /** rt_mq_send_wait and rt_mq_urgent: a free node is taken. */
  function Grab(s: State, t: int): State
    requires s.free != [] && s.room.units > 0
  {
    s.(free := s.free[1..], held := s.held[t := ToSend(s.free[0])], room := Taken(s.room, t))
  }

  /** The copy of a message into the node. */
  function Fill(s: State, t: int, m: Message): State
    requires t in s.held
  {
    s.(data := s.data[s.held[t].node := m])
  }

  /** rt_mq_send_wait: the node is linked at the end, and a receiver resumed. */
  function Link(s: State, t: int): State
    requires t in s.held
  {
    s.(queue := s.queue + [s.held[t].node], held := s.held - {t}, items := Put(s.items))
  }

  /** rt_mq_urgent: the node is linked at the front. */
  function LinkFront(s: State, t: int): State
    requires t in s.held
  {
    s.(queue := [s.held[t].node] + s.queue, held := s.held - {t}, items := Put(s.items))
  }

  /** What a node contains once a message is copied to its start. */
  function Overlaid(was: Message, m: Message): Message { m + was[Min(|m|, |was|)..] }

  /** A receiver whose buffer is no longer than the message that was sent gets just its first bytes. */
  lemma OverlaidStarts(was: Message, m: Message, size: nat)
    requires size <= |m|
    ensures Overlaid(was, m)[..Min(size, |Overlaid(was, m)|)] == m[..size]
  {
  }

  function DataOf(s: State, n: int): Message { if n in s.data then s.data[n] else [] }

  /** rt_mq_recv: the first message is unlinked. */
  function Take(s: State, t: int): State
    requires s.queue != [] && s.items.units > 0
  {
    s.(queue := s.queue[1..], held := s.held[t := ToReturn(s.queue[0], DataOf(s, s.queue[0]))],
        items := Taken(s.items, t))
  }

  /** rt_mq_recv: after the copy the node goes back to the free nodes, and a sender is resumed. */
  function GiveBack(s: State, t: int): State
    requires t in s.held
  {
    s.(free := [s.held[t].node] + s.free, held := s.held - {t}, room := Put(s.room))
  }

  function Reversed(ns: seq<int>): seq<int> {
    if ns == [] then [] else Reversed(ns[1..]) + [ns[0]]
  }

  /** rt_mq_control with RT_IPC_CMD_RESET. */
  function ResetSpec(s: State): State {
    s.(queue := [], free := Reversed(s.queue) + s.free,
    items := Flushed(s.items, 0), room := Flushed(s.room, |s.queue| + |s.free|))
  }

  // ----- The invariant

  function Nodes(s: State): seq<int> { s.queue + s.free }

  ghost predicate HeldApart(s: State, t: int)
    requires t in s.held
  {
    s.held[t].node !in s.queue && s.held[t].node !in s.free
        && forall u :: u in s.held && u != t ==> s.held[u].node != s.held[t].node
  }

  /** No node is in two places; the nodes in flight to receivers still contain their messages. */
  ghost predicate Apart(s: State) {
    && Distinct(Nodes(s)) && (forall t :: t in s.held ==> HeldApart(s, t))
    && forall t :: t in s.held && s.held[t].ToReturn? ==> DataOf(s, s.held[t].node) == s.held[t].message
  }

  /** Free, queued and in-flight nodes are `max` together; the pools count them, and lose no wakeup. */
  ghost predicate Sound(s: State, max: nat) {
    && Apart(s) && |s.free| + |s.queue| + |s.held| == max
    && s.items.units == |s.queue| && s.room.units == |s.free|
    && Wakeups.Sound(s.items) && Wakeups.Sound(s.room)
  }

  /** What a receiver would get, message by message. */
  function Contents(s: State): (r: seq<Message>)
    ensures |r| == |s.queue| && forall i :: 0 <= i < |r| ==> r[i] == DataOf(s, s.queue[i])
  {
    seq(|s.queue|, i requires 0 <= i < |s.queue| => DataOf(s, s.queue[i]))
  }

  // ----- Steps

  datatype Op =
    | GrabStep(t: int)
    | FillStep(t: int, m: Message)
    | LinkStep(t: int)
    | FrontStep(t: int)
    | TakeStep(t: int)
    | GiveBackStep(t: int)
    | AwaitItem(t: int, k: nat)
    | AwaitRoom(t: int, k: nat)
    | NoItem(t: int)
    | NoRoom(t: int)
    | ItemTimeout(t: int)
    | RoomTimeout(t: int)
    | ResetStep

  ghost predicate Free(s: State, t: int) {
    t !in s.held && t !in s.items.waiters && t !in s.room.waiters
  }

  /** What a thread at that point of its call does. */
  ghost predicate Possible(s: State, op: Op) {
    match op
    case GrabStep(t) => Free(s, t) && s.free != []
    case FillStep(t, m) => t in s.held && s.held[t].ToSend?
    case LinkStep(t) => t in s.held && s.held[t].ToSend?
    case FrontStep(t) => t in s.held && s.held[t].ToSend?
    case TakeStep(t) => Free(s, t) && s.queue != []
    case GiveBackStep(t) => t in s.held && s.held[t].ToReturn?
    case AwaitItem(t, k) => Free(s, t) && s.queue == [] && k <= |s.items.waiters|
    case AwaitRoom(t, k) => Free(s, t) && s.free == [] && k <= |s.room.waiters|
    case NoItem(t) => Free(s, t) && s.queue == []
    case NoRoom(t) => Free(s, t) && s.free == []
    case ItemTimeout(t) => t in s.items.waiters
    case RoomTimeout(t) => t in s.room.waiters
    case ResetStep => true
  }

  function Step(s: State, op: Op): State
    requires op.GrabStep? ==> s.free != [] && s.room.units > 0
    requires op.TakeStep? ==> s.queue != [] && s.items.units > 0
    requires op.FillStep? || op.LinkStep? || op.FrontStep? || op.GiveBackStep? ==> op.t in s.held
    requires op.AwaitItem? ==> op.k <= |s.items.waiters|
    requires op.AwaitRoom? ==> op.k <= |s.room.waiters|
  {
    match op
    case GrabStep(t) => Grab(s, t)
    case FillStep(t, m) => Fill(s, t, m)
    case LinkStep(t) => Link(s, t)
    case FrontStep(t) => LinkFront(s, t)
    case TakeStep(t) => Take(s, t)
    case GiveBackStep(t) => GiveBack(s, t)
    case AwaitItem(t, k) => s.(items := Await(s.items, t, k))
    case AwaitRoom(t, k) => s.(room := Await(s.room, t, k))
    case NoItem(t) => s.(items := GivenUp(s.items, t))
    case NoRoom(t) => s.(room := GivenUp(s.room, t))
    case ItemTimeout(t) => s.(items := Expired(s.items, t))
    case RoomTimeout(t) => s.(room := Expired(s.room, t))
    case ResetStep => ResetSpec(s)
  }

  lemma HeldLess(held: map<int, Hold>, t: int)
    requires t in held
    ensures |held - {t}| == |held| - 1
  {
    assert (held - {t}).Keys == held.Keys - {t};
    assert |(held - {t}).Keys| == |held - {t}| && |held.Keys| == |held|;
  }

  lemma HeldMore(held: map<int, Hold>, t: int, h: Hold)
    requires t !in held
    ensures |held[t := h]| == |held| + 1
  {
    assert held[t := h].Keys == held.Keys + {t};
    assert |held[t := h].Keys| == |held[t := h]| && |held.Keys| == |held|;
  }

  lemma GrabKeeps(s: State, max: nat, t: int)
    requires Sound(s, max) && t !in s.held && s.free != []
    ensures Sound(Grab(s, t), max) && Contents(Grab(s, t)) == Contents(s)
  {
    TakenSound(s.room, t);
    HeldMore(s.held, t, ToSend(s.free[0]));
    var s' := Grab(s, t);
    SecondCut(s.queue, s.free);
    MovedApart(s, s', s.free[0], t, |s.queue|);
  }

  lemma FirstCut(q: seq<int>, f: seq<int>)
    requires q != []
    ensures q[1..] + f == (q + f)[..0] + (q + f)[1..]
  {
  }

  lemma SecondCut(q: seq<int>, f: seq<int>)
    requires f != []
    ensures q + f[1..] == (q + f)[..|q|] + (q + f)[|q| + 1..]
  {
  }

  /** A node leaves the lists for the hands of `t`. */
  lemma MovedApart(s: State, s': State, n: int, t: int, at: nat)
    requires Apart(s) && t !in s.held && s'.data == s.data
    requires t in s'.held && s'.held == s.held[t := s'.held[t]] && s'.held[t].node == n
    requires s'.held[t].ToReturn? ==> s'.held[t].message == DataOf(s, n)
    requires at < |Nodes(s)| && Nodes(s)[at] == n && Nodes(s') == Nodes(s)[..at] + Nodes(s)[at + 1..]
    ensures Apart(s')
  {
    var ns, ns' := Nodes(s), Nodes(s');
    forall j | 0 <= j < |ns'| ensures ns'[j] != n { assert ns'[j] == ns[if j < at then j else j + 1]; }
    assert n in ns && n !in ns';
    assert forall m :: m in s'.queue || m in s'.free <==> m in ns';
    assert forall m :: m in s.queue || m in s.free <==> m in ns;
    forall u | u in s'.held ensures HeldApart(s', u) {
      if u != t { assert HeldApart(s, u); }
    }
  }

  /** A node in the hands of `t` enters a list, at place `at` of all listed nodes. */
  lemma EnteredApart(s: State, s': State, t: int, at: nat)
    requires Apart(s) && t in s.held && s'.held == s.held - {t} && s'.data == s.data
    requires at <= |Nodes(s)| && Nodes(s') == Inserted(Nodes(s), at, s.held[t].node)
    ensures Apart(s')
  {
    var ns, ns', n := Nodes(s), Nodes(s'), s.held[t].node;
    assert HeldApart(s, t);
    assert forall m :: m in s'.queue || m in s'.free <==> m in ns';
    assert forall m :: m in s.queue || m in s.free <==> m in ns;
    InsertedMeaning(ns, at, n);
    forall i, j | 0 <= i < j < |ns'| ensures ns'[i] != ns'[j] {
      if i != at { assert ns'[i] == ns[if i < at then i else i - 1]; }
      if j != at { assert ns'[j] == ns[if j < at then j else j - 1]; }
    }
    forall u | u in s'.held ensures HeldApart(s', u) { assert HeldApart(s, u); }
  }

  lemma LinkKeeps(s: State, max: nat, t: int)
    requires Sound(s, max) && t in s.held && s.held[t].ToSend?
    ensures Sound(Link(s, t), max) && |s.queue| < max
    ensures Contents(Link(s, t)) == Contents(s) + [DataOf(s, s.held[t].node)]
  {
    PutSound(s.items);
    HeldLess(s.held, t);
    assert Nodes(Link(s, t)) == Inserted(Nodes(s), |s.queue|, s.held[t].node);
    EnteredApart(s, Link(s, t), t, |s.queue|);
  }

  lemma LinkFrontKeeps(s: State, max: nat, t: int)
    requires Sound(s, max) && t in s.held && s.held[t].ToSend?
    ensures Sound(LinkFront(s, t), max) && |s.queue| < max
    ensures Contents(LinkFront(s, t)) == [DataOf(s, s.held[t].node)] + Contents(s)
  {
    PutSound(s.items);
    HeldLess(s.held, t);
    assert Nodes(LinkFront(s, t)) == Inserted(Nodes(s), 0, s.held[t].node);
    EnteredApart(s, LinkFront(s, t), t, 0);
  }

  lemma GiveBackKeeps(s: State, max: nat, t: int)
    requires Sound(s, max) && t in s.held && s.held[t].ToReturn?
    ensures Sound(GiveBack(s, t), max) && Contents(GiveBack(s, t)) == Contents(s)
  {
    PutSound(s.room);
    HeldLess(s.held, t);
    assert Nodes(GiveBack(s, t)) == Inserted(Nodes(s), |s.queue|, s.held[t].node);
    EnteredApart(s, GiveBack(s, t), t, |s.queue|);
  }

  lemma TakeKeeps(s: State, max: nat, t: int)
    requires Sound(s, max) && t !in s.held && s.queue != []
    ensures Sound(Take(s, t), max)
    ensures Contents(s) == [Take(s, t).held[t].message] + Contents(Take(s, t))
  {
    hide Apart;
    TakenSound(s.items, t);
    HeldMore(s.held, t, ToReturn(s.queue[0], DataOf(s, s.queue[0])));
    FirstCut(s.queue, s.free);
    MovedApart(s, Take(s, t), s.queue[0], t, 0);
  }

  /** Copying into a node in flight touches no message that is queued or being received. */
  lemma FillKeeps(s: State, max: nat, t: int, m: Message)
    requires Sound(s, max) && t in s.held && s.held[t].ToSend?
    ensures Sound(Fill(s, t, m), max) && Contents(Fill(s, t, m)) == Contents(s)
    ensures DataOf(Fill(s, t, m), s.held[t].node) == m
  {
    var s' := Fill(s, t, m);
    assert HeldApart(s, t);
    forall u | u in s'.held ensures HeldApart(s', u) { assert HeldApart(s, u); }
    forall i | 0 <= i < |s.queue| ensures DataOf(s', s.queue[i]) == DataOf(s, s.queue[i]) {
      assert s.queue[i] in s.queue;
    }
  }

  lemma {:induction false} ReversedMembers(ns: seq<int>)
    requires Distinct(ns)
    ensures |Reversed(ns)| == |ns| && Distinct(Reversed(ns)) && forall n :: n in Reversed(ns) <==> n in ns
  {
    if ns != [] {
      var rest := ns[1..];
      assert ns == [ns[0]] + rest;
      assert forall j :: 0 <= j < |rest| ==> rest[j] == ns[j + 1];
      ReversedMembers(rest);
      forall n ensures n in Reversed(ns) <==> n in ns { assert n in ns <==> n == ns[0] || n in rest; }
      assert ns[0] !in rest;
      var r := Reversed(rest);
      forall i | 0 <= i < |r| ensures r[i] != ns[0] { assert r[i] in r; }
    }
  }

  lemma ResetKeeps(s: State, max: nat)
    requires Sound(s, max)
    ensures Sound(ResetSpec(s), max) && Contents(ResetSpec(s)) == []
  {
    var s', ns := ResetSpec(s), Nodes(s);
    forall i, j | 0 <= i < j < |s.queue| ensures s.queue[i] != s.queue[j] { assert ns[i] != ns[j]; }
    ReversedMembers(s.queue);
    var r := Reversed(s.queue);
    forall i | 0 <= i < |r| ensures r[i] !in s.free {
      assert r[i] in r;
      var k :| 0 <= k < |s.queue| && s.queue[k] == r[i];
      forall j | 0 <= j < |s.free| ensures s.free[j] != r[i] { assert ns[k] != ns[|s.queue| + j]; }
    }
    ConcatDistinct(r, s.free, ns, |s.queue|);
    forall u | u in s'.held ensures HeldApart(s', u) { assert HeldApart(s, u); }
  }

  lemma ConcatDistinct(r: seq<int>, free: seq<int>, ns: seq<int>, n: nat)
    requires Distinct(r) && Distinct(ns) && n <= |ns| && ns[n..] == free && forall i :: 0 <= i < |r| ==> r[i] !in free
    ensures Distinct(r + free)
  {
    forall i, j | 0 <= i < j < |r + free| ensures (r + free)[i] != (r + free)[j] {
      if i < |r| <= j { assert free[j - |r|] in free; }
      if |r| <= i { assert free[i - |r|] == ns[n + (i - |r|)] && free[j - |r|] == ns[n + (j - |r|)]; }
    }
  }

  /**
   Every step keeps the nodes conserved and apart, and loses no wakeup. Linking appends a message
   and taking removes the first; an urgent message enters at the front; no other step changes
   what is queued.
   */
  lemma StepKeeps(s: State, max: nat, op: Op)
    requires Sound(s, max) && Possible(s, op)
    ensures Sound(Step(s, op), max)
    ensures match op
            case LinkStep(t) => Contents(Step(s, op)) == Contents(s) + [DataOf(s, s.held[t].node)]
            case FrontStep(t) => Contents(Step(s, op)) == [DataOf(s, s.held[t].node)] + Contents(s)
            case TakeStep(t) => Contents(s) == [Step(s, op).held[t].message] + Contents(Step(s, op))
            case ResetStep => Contents(Step(s, op)) == []
            case _ => Contents(Step(s, op)) == Contents(s)
  {
    hide Distinct, Apart;
    match op
    case GrabStep(t) => GrabKeeps(s, max, t);
    case FillStep(t, m) => FillKeeps(s, max, t, m);
    case LinkStep(t) => LinkKeeps(s, max, t);
    case FrontStep(t) => LinkFrontKeeps(s, max, t);
    case TakeStep(t) => TakeKeeps(s, max, t);
    case GiveBackStep(t) => GiveBackKeeps(s, max, t);
    case ResetStep => ResetKeeps(s, max);
    case _ => PoolStepKeeps(s, max, op);
  }

  lemma PoolStepKeeps(s: State, max: nat, op: Op)
    requires Sound(s, max) && Possible(s, op)
    requires op.AwaitItem? || op.AwaitRoom? || op.NoItem? || op.NoRoom? || op.ItemTimeout? || op.RoomTimeout?
    ensures Sound(Step(s, op), max) && Contents(Step(s, op)) == Contents(s)
  {
    match op {
      case AwaitItem(t, k) => AwaitSound(s.items, t, k);
      case AwaitRoom(t, k) => AwaitSound(s.room, t, k);
      case NoItem(t) => GivenUpSound(s.items, t);
      case NoRoom(t) => GivenUpSound(s.room, t);
      case ItemTimeout(t) => ExpiredSound(s.items, t);
      case RoomTimeout(t) => ExpiredSound(s.room, t);
    }
    SameNodes(s, Step(s, op));
  }

  lemma SameNodes(s: State, s': State)
    requires Apart(s) && s'.queue == s.queue && s'.free == s.free && s'.held == s.held && s'.data == s.data
    ensures Apart(s') && Contents(s') == Contents(s)
  {
    forall u | u in s'.held ensures HeldApart(s', u) { assert HeldApart(s, u); }
  }

  // ----- Whole runs

  ghost predicate PossibleRun(s: State, max: nat, ops: seq<Op>)
    requires Sound(s, max)
    decreases |ops|
  {
    ops == [] || (Possible(s, ops[0]) && (StepKeeps(s, max, ops[0]); PossibleRun(Step(s, ops[0]), max, ops[1..])))
  }

  ghost function Run(s: State, max: nat, ops: seq<Op>): State
    requires Sound(s, max) && PossibleRun(s, max, ops)
    decreases |ops|
  {
    if ops == [] then s else StepKeeps(s, max, ops[0]); Run(Step(s, ops[0]), max, ops[1..])
  }

  /** The messages as a double-ended queue, with no nodes. */
  ghost function Deque(ms: seq<Message>, s: State, max: nat, ops: seq<Op>): seq<Message>
    requires Sound(s, max) && PossibleRun(s, max, ops)
    decreases |ops|
  {
    if ops == [] then ms
    else
      var op := ops[0];
      StepKeeps(s, max, op);
      var ms' := match op
        case LinkStep(t) => ms + [DataOf(s, s.held[t].node)]
        case FrontStep(t) => [DataOf(s, s.held[t].node)] + ms
        case TakeStep(t) => if ms == [] then [] else ms[1..]
        case ResetStep => []
        case _ => ms;
      Deque(ms', Step(s, op), max, ops[1..])
  }

  /**
   In every interleaving free, queued and in-flight nodes are all the nodes, none in two places;
   while a thread waits for a message (or for room) there are no more messages (or free nodes)
   than resumed threads on their way; and the queue is that of a plain double-ended queue.
   */
  lemma {:induction false} RunKeeps(s: State, max: nat, ops: seq<Op>)
    requires Sound(s, max) && PossibleRun(s, max, ops)
    ensures var s' := Run(s, max, ops);
            && Sound(s', max) && |s'.free| + |s'.queue| + |s'.held| == max
            && (s'.items.waiters != [] ==> |s'.queue| <= |s'.items.woken|)
            && (s'.room.waiters != [] ==> |s'.free| <= |s'.room.woken|)
            && Contents(s') == Deque(Contents(s), s, max, ops)
    decreases |ops|
  {
    hide Apart, Step, Contents;
    if ops != [] {
      StepKeeps(s, max, ops[0]);
      RunKeeps(Step(s, ops[0]), max, ops[1..]);
    }
  }
}
