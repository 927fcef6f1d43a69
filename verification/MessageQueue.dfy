/**
 The message queue as rt-thread/src/ipc.c keeps it: nodes linked by `next` on a queue with head
 and tail and on a free list. Each method is one section with interrupts disabled, or the copy
 between two; any thread may run any of them next.
 */
module MessageQueue {
  import opened Common
  import opened RtList
  import opened Chains
  import Wakeups
  import opened QueueRuns

  /** RT_MQ_ENTRY_MAX. */
  const ENTRY_MAX := 65535

  datatype Code = EOK | ERROR | EFULL | ETIMEOUT | BLOCKED

  /** The two lists as the fields show them. */
  ghost predicate Linked(next: map<int, Option<int>>, head: Option<int>, tail: Option<int>, freeHead: Option<int>,
                         queue: seq<int>, free: seq<int>) {
    Chain(next, head, queue) && tail == Last(queue) && Chain(next, freeHead, free)
  }

  /** The local variables are the nodes in flight; senders that have cleared `next` find it cleared. */
  ghost predicate Locals(msg: map<int, int>, held: map<int, Hold>, next: map<int, Option<int>>, cleared: set<int>) {
    && msg.Keys == held.Keys && (forall t :: t in msg ==> msg[t] == held[t].node)
    && forall t :: t in cleared && t in msg ==> msg[t] in next && next[msg[t]] == None
  }

  lemma LocalsSame(msg: map<int, int>, held: map<int, Hold>, next: map<int, Option<int>>, next': map<int, Option<int>>,
                   cleared: set<int>)
    requires Locals(msg, held, next, cleared)
    requires forall t :: t in msg && t in cleared && msg[t] in next ==> msg[t] in next' && next'[msg[t]] == next[msg[t]]
    ensures Locals(msg, held, next', cleared)
  {
  }

  lemma LocalsAdd(msg: map<int, int>, held: map<int, Hold>, next: map<int, Option<int>>, cleared: set<int>, t: int,
                  h: Hold)
    requires Locals(msg, held, next, cleared)
    ensures Locals(msg[t := h.node], held[t := h], next, cleared - {t})
  {
  }

  lemma LocalsClear(msg: map<int, int>, held: map<int, Hold>, next: map<int, Option<int>>, cleared: set<int>, t: int)
    requires Locals(msg, held, next, cleared) && t in msg && forall u :: u in msg && u != t ==> msg[u] != msg[t]
    ensures Locals(msg, held, next[msg[t] := None], cleared + {t})
  {
  }

  lemma LocalsNodes(msg: map<int, int>, held: map<int, Hold>, next: map<int, Option<int>>, cleared: set<int>)
    requires Locals(msg, held, next, cleared)
    ensures forall u :: u in msg ==> u in held && msg[u] == held[u].node
  {
  }

  lemma LocalsHas(msg: map<int, int>, held: map<int, Hold>, next: map<int, Option<int>>, cleared: set<int>, t: int)
    requires Locals(msg, held, next, cleared) && t in held
    ensures t in msg && msg[t] == held[t].node && (t in cleared ==> msg[t] in next && next[msg[t]] == None)
  {
  }

  /** _ipc_list_resume, if a thread waits. */
  function Resumed(ws: seq<int>): seq<int> { if ws == [] then [] else ws[1..] }

  /** No node contains more than a message. */
  ghost predicate Fit(data: map<int, Message>, msgSize: nat) {
    forall n :: n in data ==> |data[n]| <= msgSize
  }

  /** Bytes of memory that nothing is known of. */
  method Unknown(n: nat) returns (m: Message)
    ensures |m| == n
  {
    m := [];
    while |m| < n
      invariant |m| <= n
    {
      var b: int := *;
      m := m + [b];
    }
  }

  class Queue {
    /** msg_size and max_msgs. */
    const msgSize: nat
    const maxMsgs: nat
    var next: map<int, Option<int>>
    /** What was ever stored in each node; the bytes behind it, up to msgSize, are not known. */
    var data: map<int, Message>
    var head: Option<int>
    var tail: Option<int>
    var freeHead: Option<int>
    var entry: nat
    /** parent.suspend_thread and suspend_sender_thread. */
    var receivers: seq<int>
    var senders: seq<int>
    /** The local variable `msg` of each thread that has a node in flight. */
    var msg: map<int, int>
    ghost var s: State
    /** The senders that have cleared `next` of their node. */
    ghost var cleared: set<int>

    ghost predicate Valid()
      reads this
    {
      && maxMsgs <= ENTRY_MAX && Sound(s, maxMsgs)
      && Linked(next, head, tail, freeHead, s.queue, s.free) && entry == |s.queue|
      && data == s.data && Fit(data, msgSize) && receivers == s.items.waiters && senders == s.room.waiters
      && Locals(msg, s.held, next, cleared)
    }

    /** rt_mq_init: the loop that puts all nodes on the free list. */
    constructor (msgSize: nat, maxMsgs: nat)
      requires maxMsgs <= ENTRY_MAX
      ensures Valid() && this.msgSize == msgSize && this.maxMsgs == maxMsgs && s.queue == [] && |s.free| == maxMsgs
              && s.held == map[]
    {
      this.msgSize, this.maxMsgs := msgSize, maxMsgs;
      head, tail, freeHead, entry := None, None, None, 0;
      next, data, msg, receivers, senders := map[], map[], map[], [], [];
      cleared := {};
      s := State([], [], map[], map[], Wakeups.Pool(0, [], {}), Wakeups.Pool(0, [], {}));
      new;
      ghost var free := [];
      var temp := 0;
      while temp < maxMsgs
        invariant 0 <= temp <= maxMsgs && |free| == temp && Chain(next, freeHead, free)
        invariant Distinct(free) && forall n :: n in free ==> 0 <= n < temp
        invariant head == tail == None && entry == 0 && data == map[] && msg == map[] && receivers == senders == []
                  && cleared == {}
      {
        ChainPush(next, freeHead, free, temp);
        next := next[temp := freeHead];
        freeHead := Some(temp);
        free := [temp] + free;
        temp := temp + 1;
      }
      s := State([], free, map[], map[], Wakeups.Pool(0, [], {}), Wakeups.Pool(maxMsgs, [], {}));
      assert [] + free == free;
    }

    // ----- The stores on the lists

    /** The stores of rt_mq_send_wait that put a node at the end of the queue. */
    method Append(n: int, ghost queue: seq<int>, ghost free: seq<int>)
      requires Linked(next, head, tail, freeHead, queue, free) && n in next && next[n] == None
      requires n !in queue && Distinct(queue) && forall m :: m in queue ==> m !in free
      modifies `next, `head, `tail
      ensures Linked(next, head, tail, freeHead, queue + [n], free)
      ensures next == if queue == [] then old(next) else old(next)[queue[|queue| - 1] := Some(n)]
    {
      if tail != None {
        ChainAppend(next, head, queue, n);
        assert queue[|queue| - 1] in queue;
        next := next[tail.value := Some(n)];
        ChainFrame(old(next), next, freeHead, free);
      } else {
        ChainOne(next, n);
      }
      tail := Some(n);
      if head == None { head := Some(n); }
    }

    /** The stores of rt_mq_urgent that put a node at the front of the queue. */
    method Prepend(n: int, ghost queue: seq<int>, ghost free: seq<int>)
      requires Linked(next, head, tail, freeHead, queue, free) && n !in queue && n !in free
      modifies `next, `head, `tail
      ensures Linked(next, head, tail, freeHead, [n] + queue, free) && next == old(next)[n := old(head)]
    {
      ChainPush(next, head, queue, n);
      ChainFrame(next, next[n := head], freeHead, free);
      next := next[n := head];
      head := Some(n);
      if tail == None { tail := Some(n); }
    }

    /** The stores that unlink the first node of the queue. */
    method Unlink(ghost queue: seq<int>, ghost free: seq<int>) returns (n: int)
      requires Linked(next, head, tail, freeHead, queue, free) && queue != [] && Distinct(queue)
      modifies `head, `tail
      ensures Linked(next, head, tail, freeHead, queue[1..], free) && n == queue[0]
    {
      ChainHead(next, head, queue);
      n := head.value;
      head := next[n];
      if tail == Some(n) { tail := None; }
    }

    /** The stores that put a node on the free list. */
    method PushFree(n: int, ghost queue: seq<int>, ghost free: seq<int>)
      requires Linked(next, head, tail, freeHead, queue, free) && n !in queue && n !in free
      modifies `next, `freeHead
      ensures Linked(next, head, tail, freeHead, queue, [n] + free) && next == old(next)[n := old(freeHead)]
    {
      ChainPush(next, freeHead, free, n);
      ChainFrame(next, next[n := freeHead], head, queue);
      next := next[n := freeHead];
      freeHead := Some(n);
    }

    // ----- The sections

    /**
     rt_mq_send_wait and rt_mq_urgent up to the copy. A message longer than the message size is
     refused; a sender that waits joins the list at `k`.
     */
    method GrabNode(t: int, size: nat, wait: bool, k: nat) returns (r: Code)
      requires Valid() && Free(s, t) && k <= |senders|
      modifies `freeHead, `msg, `senders, `s, `cleared
      ensures Valid() && (size > msgSize ==> r == ERROR && s == old(s))
      ensures size <= msgSize && old(s.free) != [] ==>
                r == EOK && Possible(old(s), GrabStep(t)) && old(s.room.units) > 0 && s == Grab(old(s), t)
      ensures size <= msgSize && old(s.free) == [] && !wait ==> r == EFULL && s == Step(old(s), NoRoom(t))
      ensures size <= msgSize && old(s.free) == [] && wait ==> r == BLOCKED && s == Step(old(s), AwaitRoom(t, k))
    {
      hide Contents, Sound, Chain, Inserted, Locals, Apart, Fit;
      if size > msgSize { return ERROR; }
      SoundHas(s, maxMsgs);
      ChainNone(next, freeHead, s.free);
      if freeHead == None {
        if !wait {
          StepKeeps(s, maxMsgs, NoRoom(t));
          s := Step(s, NoRoom(t));
          return EFULL;
        }
        StepKeeps(s, maxMsgs, AwaitRoom(t, k));
        senders := Inserted(senders, k, t);
        s := Step(s, AwaitRoom(t, k));
        return BLOCKED;
      }
      ChainHead(next, freeHead, s.free);
      GrabKeeps(s, maxMsgs, t);
      LocalsAdd(msg, s.held, next, cleared, t, ToSend(s.free[0]));
      msg := msg[t := freeHead.value];
      freeHead := next[freeHead.value];
      s, cleared := Grab(s, t), cleared - {t};
      return EOK;
    }

    /** The copy of rt_mq_send_wait, with `next` cleared first. The node keeps what lies behind the message. */
    method CopyIn(t: int, buffer: Message)
      requires Valid() && t in s.held && s.held[t].ToSend? && |buffer| <= msgSize
      modifies `next, `data, `s, `cleared
      ensures Valid() && s == Fill(old(s), t, Overlaid(DataOf(old(s), old(s.held)[t].node), buffer)) && t in cleared
    {
      hide Contents, Sound, Chain, Locals, Apart;
      SoundHas(s, maxMsgs);
      HeldNode(s, t);
      LocalsHas(msg, s.held, next, cleared, t);
      LocalsNodes(msg, s.held, next, cleared);
      LocalsClear(msg, s.held, next, cleared, t);
      var m := Overlaid(if msg[t] in data then data[msg[t]] else [], buffer);
      FillKeeps(s, maxMsgs, t, m);
      next := next[msg[t] := None];
      data := data[msg[t] := m];
      ChainFrame(old(next), next, head, s.queue);
      ChainFrame(old(next), next, freeHead, s.free);
      s, cleared := Fill(s, t, m), cleared + {t};
    }

    /** The end of both sends: the message is counted, and a receiver resumed. */
    method Count(t: int, ghost s1: State)
      requires maxMsgs <= ENTRY_MAX && Sound(s1, maxMsgs) && t in msg
      requires Linked(next, head, tail, freeHead, s1.queue, s1.free) && entry + 1 == |s1.queue|
      requires data == s1.data && Fit(data, msgSize)
      requires Resumed(receivers) == s1.items.waiters && senders == s1.room.waiters
      requires Locals(msg - {t}, s1.held, next, cleared)
      modifies `entry, `msg, `receivers, `s
      ensures Valid() && s == s1
    {
      hide Resumed, Linked, Locals, Fit;
      // The source's check for an overflow of `entry` never fails: there are at most RT_MQ_ENTRY_MAX nodes.
      assert entry < ENTRY_MAX;
      entry := entry + 1;
      msg := msg - {t};
      receivers := Resumed(receivers);
      s := s1;
    }

    /** rt_mq_send_wait after the copy. */
    method LinkTail(t: int) returns (r: Code)
      requires Valid() && t in s.held && s.held[t].ToSend? && t in cleared
      modifies `next, `head, `tail, `entry, `msg, `receivers, `s
      ensures Valid() && s == Link(old(s), t) && r == EOK
    {
      hide Resumed, Last, Contents, Sound, Linked, Locals, Apart, Distinct, Link, Fit;
      SoundHas(s, maxMsgs);
      NodeApart(s, t);
      LocalsHas(msg, s.held, next, cleared, t);
      QueueApart(s);
      LinkIs(s, t);
      ghost var s1 := Link(s, t);
      LinkSound(s, maxMsgs, t);
      Append(msg[t], s.queue, s.free);
      LocalsLinked(s, msg, old(next), next, cleared, t);
      Count(t, s1);
      return EOK;
    }

    /** rt_mq_urgent after the copy. */
    method LinkHead(t: int) returns (r: Code)
      requires Valid() && t in s.held && s.held[t].ToSend?
      modifies `next, `head, `tail, `entry, `msg, `receivers, `s
      ensures Valid() && s == LinkFront(old(s), t) && r == EOK
    {
      hide Resumed, Last, Contents, Sound, Linked, Locals, Apart, Distinct, LinkFront, Fit;
      SoundHas(s, maxMsgs);
      NodeApart(s, t);
      LocalsHas(msg, s.held, next, cleared, t);
      LinkFrontIs(s, t);
      ghost var s1 := LinkFront(s, t);
      LinkFrontSound(s, maxMsgs, t);
      Prepend(msg[t], s.queue, s.free);
      LocalsLinked(s, msg, old(next), next, cleared, t);
      Count(t, s1);
      return EOK;
    }

    /** rt_mq_recv up to the copy. */
    method TakeNode(t: int, wait: bool, k: nat) returns (r: Code)
      requires Valid() && Free(s, t) && k <= |receivers|
      modifies `head, `tail, `entry, `msg, `receivers, `s, `cleared
      ensures Valid()
      ensures old(s.queue) != [] ==>
                r == EOK && Possible(old(s), TakeStep(t)) && old(s.items.units) > 0 && s == Take(old(s), t)
      ensures old(s.queue) == [] && !wait ==> r == ETIMEOUT && s == Step(old(s), NoItem(t))
      ensures old(s.queue) == [] && wait ==> r == BLOCKED && s == Step(old(s), AwaitItem(t, k))
    {
      hide Contents, Sound, Linked, Locals, Apart, Distinct, Inserted, Fit;
      SoundHas(s, maxMsgs);
      if entry == 0 {
        if !wait {
          StepKeeps(s, maxMsgs, NoItem(t));
          s := Step(s, NoItem(t));
          return ETIMEOUT;
        }
        StepKeeps(s, maxMsgs, AwaitItem(t, k));
        receivers := Inserted(receivers, k, t);
        s := Step(s, AwaitItem(t, k));
        return BLOCKED;
      }
      QueueApart(s);
      TakeKeeps(s, maxMsgs, t);
      LocalsAdd(msg, s.held, next, cleared, t, ToReturn(s.queue[0], DataOf(s, s.queue[0])));
      var n := Unlink(s.queue, s.free);
      msg := msg[t := n];
      entry := entry - 1;
      s, cleared := Take(s, t), cleared - {t};
      return EOK;
    }

    /**
     The copy of rt_mq_recv into a buffer of `size` bytes, which is cut off at the message size:
     whatever ran meanwhile, it gets the message that was first when the node was taken, as far as
     it fits, and what else the node contains behind it.
     */
    method CopyOut(t: int, size: nat) returns (m: Message)
      requires Valid() && t in s.held && s.held[t].ToReturn?
      ensures |s.held[t].message| <= msgSize && |m| == Min(size, msgSize)
      ensures var n := Min(size, |s.held[t].message|); m[..n] == s.held[t].message[..n]
    {
      LocalsHas(msg, s.held, next, cleared, t);
      assert HeldApart(s, t);
      var known := if msg[t] in data then data[msg[t]] else [];
      var behind := Unknown(msgSize - |known|);
      m := (known + behind)[..if size > msgSize then msgSize else size];
    }

    /** rt_mq_recv after the copy. */
    method PutBack(t: int)
      requires Valid() && t in s.held && s.held[t].ToReturn?
      modifies `next, `freeHead, `msg, `senders, `s
      ensures Valid() && s == GiveBack(old(s), t)
    {
      hide Resumed, Last, Contents, Sound, Linked, Locals, Apart, Distinct, GiveBack, Fit;
      SoundHas(s, maxMsgs);
      NodeApart(s, t);
      LocalsHas(msg, s.held, next, cleared, t);
      GiveBackIs(s, t);
      ghost var s1 := GiveBack(s, t);
      GiveBackSound(s, maxMsgs, t);
      PushFree(msg[t], s.queue, s.free);
      LocalsLinked(s, msg, old(next), next, cleared, t);
      msg := msg - {t};
      senders := Resumed(senders);
      s := s1;
    }

    /** One pass of the loop of rt_mq_control. */
    method FreeFirst(ghost queue: seq<int>, ghost free: seq<int>)
      requires Linked(next, head, tail, freeHead, queue, free) && queue != []
      requires Apart(s) && Distinct(queue) && forall n :: n in queue ==> n !in free && n in s.queue
      requires Locals(msg, s.held, next, cleared)
      modifies `next, `head, `tail, `freeHead
      ensures Linked(next, head, tail, freeHead, queue[1..], [queue[0]] + free) && Locals(msg, s.held, next, cleared)
      ensures Distinct(queue[1..]) && forall n :: n in queue[1..] ==> n !in [queue[0]] + free && n in s.queue
    {
      hide Linked, Locals, Apart, Fit;
      ghost var next0 := next;
      assert queue == [queue[0]] + queue[1..];
      forall j | 0 <= j < |queue[1..]| ensures queue[1..][j] != queue[0] { assert queue[0] != queue[j + 1]; }
      var n := Unlink(queue, free);
      assert n in queue;
      PushFree(n, queue[1..], free);
      forall u | u in s.held ensures s.held[u].node != n { HeldNode(s, u); }
      LocalsNodes(msg, s.held, next0, cleared);
      LocalsSame(msg, s.held, next0, next, cleared);
    }

    /** rt_mq_control with RT_IPC_CMD_RESET: all waiters are resumed, and the loop frees all messages. */
    method Reset()
      requires Valid()
      modifies `next, `head, `tail, `freeHead, `entry, `receivers, `senders, `s
      ensures Valid() && s == ResetSpec(old(s))
    {
      hide ResetSpec, Contents, Sound, Linked, Locals, Apart, Fit;
      SoundHas(s, maxMsgs);
      QueueApart(s);
      ResetSound(s, maxMsgs);
      ResetIs(s);
      LinkedNone(next, head, tail, freeHead, s.queue, s.free);
      receivers, senders := [], [];
      ghost var queue, free := s.queue, s.free;
      ghost var s0 := s;
      while head != None
        invariant s == s0 && receivers == [] && senders == []
        invariant Linked(next, head, tail, freeHead, queue, free) && (head == None <==> queue == [])
        invariant Distinct(queue) && forall n :: n in queue ==> n !in free && n in s.queue
        invariant Reversed(queue) + free == Reversed(s.queue) + s.free
        invariant Locals(msg, s.held, next, cleared)
        decreases |queue|
      {
        FreeFirst(queue, free);
        assert Reversed(queue) + free == Reversed(queue[1..]) + ([queue[0]] + free);
        queue, free := queue[1..], [queue[0]] + free;
        LinkedNone(next, head, tail, freeHead, queue, free);
      }
      assert free == Reversed(s.queue) + s.free;
      entry := 0;
      s := ResetSpec(s);
    }
  }

  lemma LinkedNone(next: map<int, Option<int>>, head: Option<int>, tail: Option<int>, freeHead: Option<int>,
                   queue: seq<int>, free: seq<int>)
    requires Linked(next, head, tail, freeHead, queue, free)
    ensures head == None <==> queue == []
  {
  }

  lemma SoundHas(s: State, max: nat)
    requires Sound(s, max)
    ensures Apart(s) && s.items.units == |s.queue| && s.room.units == |s.free| && |s.free| + |s.queue| + |s.held| == max
  {
  }

  lemma LinkSound(s: State, max: nat, t: int)
    requires Sound(s, max) && t in s.held && s.held[t].ToSend?
    ensures Sound(Link(s, t), max) && |s.queue| < max
  {
    LinkKeeps(s, max, t);
  }

  lemma LinkFrontSound(s: State, max: nat, t: int)
    requires Sound(s, max) && t in s.held && s.held[t].ToSend?
    ensures Sound(LinkFront(s, t), max) && |s.queue| < max
  {
    LinkFrontKeeps(s, max, t);
  }

  lemma GiveBackSound(s: State, max: nat, t: int)
    requires Sound(s, max) && t in s.held && s.held[t].ToReturn?
    ensures Sound(GiveBack(s, t), max)
  {
    GiveBackKeeps(s, max, t);
  }

  lemma ResetSound(s: State, max: nat)
    requires Sound(s, max)
    ensures Sound(ResetSpec(s), max)
  {
    ResetKeeps(s, max);
  }

  lemma ResetIs(s: State)
    ensures var s' := ResetSpec(s);
            && s'.queue == [] && s'.free == Reversed(s.queue) + s.free && s'.held == s.held && s'.data == s.data
            && s'.items.waiters == [] && s'.room.waiters == []
  {
  }

  lemma LinkIs(s: State, t: int)
    requires t in s.held
    ensures var s', ws := Link(s, t), s.items.waiters;
            && s'.queue == s.queue + [s.held[t].node] && s'.free == s.free && s'.held == s.held - {t}
               && s'.data == s.data
            && s'.room == s.room && s'.items.waiters == Resumed(ws)
  {
  }

  lemma LinkFrontIs(s: State, t: int)
    requires t in s.held
    ensures var s', ws := LinkFront(s, t), s.items.waiters;
            && s'.queue == [s.held[t].node] + s.queue && s'.free == s.free && s'.held == s.held - {t}
               && s'.data == s.data
            && s'.room == s.room && s'.items.waiters == Resumed(ws)
  {
  }

  lemma GiveBackIs(s: State, t: int)
    requires t in s.held
    ensures var s', ws := GiveBack(s, t), s.room.waiters;
            && s'.free == [s.held[t].node] + s.free && s'.queue == s.queue && s'.held == s.held - {t}
               && s'.data == s.data
            && s'.items == s.items && s'.room.waiters == Resumed(ws)
  {
  }

  /** A thread's node is linked: the other local variables do not notice. */
  lemma LocalsLinked(s: State, msg: map<int, int>, next: map<int, Option<int>>, next': map<int, Option<int>>,
                     cleared: set<int>, t: int)
    requires Apart(s) && t in s.held && Locals(msg, s.held, next, cleared)
    requires forall n :: n in next && n !in s.queue && n != s.held[t].node ==> n in next' && next'[n] == next[n]
    ensures Locals(msg - {t}, s.held - {t}, next', cleared)
  {
    forall u | u in msg && u != t ensures msg[u] !in s.queue && msg[u] != s.held[t].node { HeldNode(s, u); }
  }

  lemma NodeApart(s: State, t: int)
    requires Apart(s) && t in s.held
    ensures s.held[t].node !in s.queue && s.held[t].node !in s.free
  {
    assert HeldApart(s, t);
  }

  lemma HeldNode(s: State, t: int)
    requires Apart(s) && t in s.held
    ensures s.held[t].node !in s.queue && s.held[t].node !in s.free
    ensures forall u :: u in s.held && u != t ==> s.held[u].node != s.held[t].node
  {
    assert HeldApart(s, t);
  }

  /** The queue repeats no node and shares none with the free list. */
  lemma QueueApart(s: State)
    requires Apart(s)
    ensures Distinct(s.queue) && forall n :: n in s.queue ==> n !in s.free
  {
    var ns := Nodes(s);
    forall i, j | 0 <= i < j < |s.queue| ensures s.queue[i] != s.queue[j] { assert ns[i] != ns[j]; }
    forall n | n in s.queue ensures n !in s.free {
      var i :| 0 <= i < |s.queue| && s.queue[i] == n;
      forall j | 0 <= j < |s.free| ensures s.free[j] != n { assert ns[i] != ns[|s.queue| + j]; }
    }
  }
}
