/**
 The semaphore of rt-thread/src/ipc.c over any interleaving of takes, releases, timeouts and
 resets. A release gives its token to the first waiter, whose call returns later, or adds it to
 the value. Tokens are counted by the results the calls return.
 */
module Semaphore {
  import opened RtList

  /** RT_SEM_VALUE_MAX. */
  const VALUE_MAX := 65535

  /** `BLOCKED` stands for a call that has not returned: its thread is on the wait list. */
  datatype Code = EOK | ERROR | EFULL | ETIMEOUT | BLOCKED

  /** `error` is the field of each thread; `pending` are the threads inside a call that was switched out. */
  datatype State = State(value: nat, waiters: seq<int>, error: map<int, Code>, pending: set<int>)

  ghost predicate PendingOk(s: State, t: int) {
    && t in s.error && s.error[t] in {EOK, ERROR, ETIMEOUT} && (t in s.waiters ==> s.error[t] == EOK)
  }

  /** A waiter means that there is no token. */
  ghost predicate Sound(s: State) {
    && s.value <= VALUE_MAX && Distinct(s.waiters) && (s.value > 0 ==> s.waiters == [])
    && (forall t :: t in s.waiters ==> t in s.pending) && forall t :: t in s.pending ==> PendingOk(s, t)
  }

  // ----- The calls

  /** rt_sem_take until it returns, or its thread waits at place `k`. */
  function TakeSpec(s: State, t: int, wait: bool, k: nat): (State, Code)
    requires k <= |s.waiters|
  {
    if s.value > 0 then (s.(value := s.value - 1), EOK)
    else if !wait then (s, ETIMEOUT)
    else (State(s.value, Inserted(s.waiters, k, t), s.error[t := EOK], s.pending + {t}), BLOCKED)
  }

  /** rt_sem_release. */
  function ReleaseSpec(s: State): (State, Code) {
    if s.waiters != [] then (s.(waiters := s.waiters[1..]), EOK)
    else if s.value < VALUE_MAX then (s.(value := s.value + 1), EOK)
    else (s, EFULL)
  }

  /** _thread_timeout for a waiter. */
  function TimeoutSpec(s: State, t: int): State {
    s.(waiters := Without(s.waiters, t), error := s.error[t := ETIMEOUT])
  }

  /** rt_sem_control with RT_IPC_CMD_RESET: the waiters' calls fail, and the value is set in 16 bits. */
  function ResetSpec(s: State, value: nat): State {
    State(value % (VALUE_MAX + 1), [], Failed(s.error, s.waiters), s.pending)
  }

  function Failed(error: map<int, Code>, ws: seq<int>): map<int, Code>
    decreases |ws|
  {
    if ws == [] then error else Failed(error[ws[0] := ERROR], ws[1..])
  }

  /** The end of a call that was switched out. */
  function ReturnSpec(s: State, t: int): (State, Code)
    requires t in s.error
  {
    (s.(pending := s.pending - {t}), s.error[t])
  }

  // ----- What each step keeps

  datatype Op = Take(t: int, wait: bool, k: nat) | Release | Timeout(t: int) | Reset(value: nat) | Return(t: int)

  /**
   Calls are made by threads that are not inside a call; only a waiter times out, and only a
   resumed thread returns.
   */
  ghost predicate Possible(s: State, op: Op) {
    match op
    case Take(t, _, k) => t in s.error && t !in s.pending && k <= |s.waiters|
    case Release => true
    case Timeout(t) => t in s.waiters
    case Reset(_) => true
    case Return(t) => t in s.pending && t in s.error && t !in s.waiters
  }

  function Outcome(s: State, op: Op): (State, Code)
    requires op.Take? ==> op.k <= |s.waiters|
    requires op.Return? ==> op.t in s.error
  {
    match op
    case Take(t, wait, k) => TakeSpec(s, t, wait, k)
    case Release => ReleaseSpec(s)
    case Timeout(t) => (TimeoutSpec(s, t), EOK)
    case Reset(value) => (ResetSpec(s, value), EOK)
    case Return(t) => ReturnSpec(s, t)
  }

  lemma {:induction false} FailedMeaning(error: map<int, Code>, ws: seq<int>)
    ensures forall t :: t in Failed(error, ws) <==> t in error || t in ws
    ensures forall t :: t in ws ==> Failed(error, ws)[t] == ERROR
    ensures forall t :: t in error && t !in ws ==> Failed(error, ws)[t] == error[t]
    decreases |ws|
  {
    if ws != [] {
      FailedMeaning(error[ws[0] := ERROR], ws[1..]);
      assert ws == [ws[0]] + ws[1..];
    }
  }

  lemma StepSound(s: State, op: Op)
    requires Sound(s) && Possible(s, op)
    ensures Sound(Outcome(s, op).0)
  {
    hide Distinct, Inserted, Without, Failed;
    var s' := Outcome(s, op).0;
    match op {
      case Take(t, wait, k) =>
        InsertedMeaning(s.waiters, k, t);
        if t !in s.waiters { InsertedDistinct(s.waiters, k, t); }
      case Release => if s.waiters != [] { FirstLeaves(s.waiters); }
      case Timeout(t) => WithoutMembers(s.waiters, t);
      case Reset(_) =>
        FailedMeaning(s.error, s.waiters);
        EmptyDistinct();
      case Return(t) =>
    }
    forall u | u in s'.pending ensures PendingOk(s', u) { assert u in s.pending ==> PendingOk(s, u); }
  }

  // ----- What the calls return

  /** A take succeeds at once exactly if there is a token; and otherwise waits, if it may. */
  lemma TakeReturns(s: State, t: int, wait: bool, k: nat)
    requires Possible(s, Take(t, wait, k))
    ensures var (s', r) := TakeSpec(s, t, wait, k);
            && (r == EOK <==> s.value > 0) && (r == ETIMEOUT <==> s.value == 0 && !wait)
            && (r == BLOCKED <==> s.value == 0 && wait)
            && (r == EOK ==> s' == s.(value := s.value - 1)) && (r == ETIMEOUT ==> s' == s)
            && (r == BLOCKED ==>
                  && s'.value == 0 && s'.waiters[..k] == s.waiters[..k] && s'.waiters[k..] == [t] + s.waiters[k..]
                  && s'.pending == s.pending + {t} && s'.error == s.error[t := EOK])
  {
    if s.value == 0 && wait { assert (s.waiters[..k] + [t] + s.waiters[k..])[k..] == [t] + s.waiters[k..]; }
  }

  /** A release fails exactly at the greatest value; it resumes the first waiter, or else adds a token. */
  lemma ReleaseReturns(s: State)
    requires Sound(s)
    ensures var (s', r) := ReleaseSpec(s);
            && (r == EFULL <==> s.value == VALUE_MAX) && (r == EOK <==> s.value < VALUE_MAX)
            && s'.error == s.error && s'.pending == s.pending
            && (r == EFULL ==> s' == s)
            && (r == EOK && s.waiters != [] ==> s.waiters == [s.waiters[0]] + s'.waiters && s'.value == 0)
            && (r == EOK && s.waiters == [] ==> s'.waiters == [] && s'.value == s.value + 1)
  {
  }

  // ----- Tokens

  /** The threads that were resumed inside a call which is to return `code`. */
  ghost function Resumed(s: State, code: Code): set<int> {
    set t | t in s.pending && t !in s.waiters && t in s.error && s.error[t] == code
  }

  /** The threads that own a token their call has not yet returned. */
  ghost function Handed(s: State): set<int> { Resumed(s, EOK) }

  /**
   What was observed: how many releases and takes returned success, by how much resets are to move the
   value, and of the threads inside a call, to which a release has given its token, which timed out,
   and which a reset has found waiting.
   */
  datatype Log = Log(s: State, released: nat, taken: nat, moved: int, given: set<int>, late: set<int>, failed: set<int>)

  ghost function Logged(l: Log, op: Op): Log
    requires Possible(l.s, op)
  {
    var (s', r) := Outcome(l.s, op);
    match op
    case Take(_, _, _) => l.(s := s', taken := if r == EOK then l.taken + 1 else l.taken)
    case Return(t) =>
      l.(s := s', taken := if r == EOK then l.taken + 1 else l.taken,
      given := l.given - {t}, late := l.late - {t}, failed := l.failed - {t})
    case Release =>
      l.(s := s', released := if r == EOK then l.released + 1 else l.released,
      given := if l.s.waiters != [] then l.given + {l.s.waiters[0]} else l.given)
    case Reset(value) =>
      l.(s := s', moved := l.moved + value % (VALUE_MAX + 1) - l.s.value, failed := l.failed + Elems(l.s.waiters))
    case Timeout(t) => l.(s := s', late := l.late + {t})
  }

  /** Tokens put in by releases and resets less those that takes took out, as far as calls have returned. */
  function Balance(l: Log): int { l.released + l.moved - l.taken }

  /** Only a release that meets a waiter hands a token over, and only a return takes one away. */
  lemma HandedStep(s: State, op: Op)
    requires Sound(s) && Possible(s, op)
    ensures var s' := Outcome(s, op).0;
            Handed(s') == match op
                          case Release => if s.waiters != [] then Handed(s) + {s.waiters[0]} else Handed(s)
                          case Return(t) => Handed(s) - {t}
                          case _ => Handed(s)
    ensures op.Release? && s.waiters != [] ==> s.waiters[0] !in Handed(s)
  {
    hide Distinct, Inserted, Without, Failed;
    var s' := Outcome(s, op).0;
    match op {
      case Take(t, wait, k) => InsertedMeaning(s.waiters, k, t);
      case Release => if s.waiters != [] { FirstLeaves(s.waiters); assert PendingOk(s, s.waiters[0]); }
      case Timeout(t) => WithoutMembers(s.waiters, t);
      case Reset(_) => FailedMeaning(s.error, s.waiters);
      case Return(t) =>
    }
    forall u ensures u in Handed(s') <==> match op
                                          case Release => u in Handed(s) || (s.waiters != [] && u == s.waiters[0])
                                          case Return(t) => u in Handed(s) && u != t
                                          case _ => u in Handed(s) {
      if u in s.pending { assert PendingOk(s, u); }
    }
  }

  /** Timeouts and resets resume their waiters with their error, and nobody else. */
  lemma FailedStep(s: State, op: Op)
    requires Sound(s) && Possible(s, op)
    ensures var s' := Outcome(s, op).0;
            && Resumed(s', ETIMEOUT) == (match op
                                         case Timeout(t) => Resumed(s, ETIMEOUT) + {t}
                                         case Return(t) => Resumed(s, ETIMEOUT) - {t}
                                         case _ => Resumed(s, ETIMEOUT))
            && Resumed(s', ERROR) == (match op
                                      case Reset(_) => Resumed(s, ERROR) + Elems(s.waiters)
                                      case Return(t) => Resumed(s, ERROR) - {t}
                                      case _ => Resumed(s, ERROR))
  {
    hide Distinct, Inserted, Without, Failed;
    match op {
      case Take(t, wait, k) => InsertedMeaning(s.waiters, k, t);
      case Release => if s.waiters != [] { FirstLeaves(s.waiters); assert PendingOk(s, s.waiters[0]); }
      case Timeout(t) => WithoutMembers(s.waiters, t);
      case Reset(_) => FailedMeaning(s.error, s.waiters);
      case Return(t) =>
    }
    var s' := Outcome(s, op).0;
    forall u
      ensures u in Resumed(s', ETIMEOUT) <==> if op.Timeout? then u in Resumed(s, ETIMEOUT) || u == op.t
                                              else u in Resumed(s, ETIMEOUT) && !(op.Return? && u == op.t)
      ensures u in Resumed(s', ERROR) <==> if op.Reset? then u in Resumed(s, ERROR) || u in s.waiters
                                           else u in Resumed(s, ERROR) && !(op.Return? && u == op.t)
    {
      if u in s.pending { assert PendingOk(s, u); }
    }
  }

  /** The log names the threads that are about to return, by what they are to return. */
  ghost predicate Known(l: Log) {
    l.given == Handed(l.s) && l.late == Resumed(l.s, ETIMEOUT) && l.failed == Resumed(l.s, ERROR)
  }

  lemma LoggedKeeps(l: Log, op: Op)
    requires Sound(l.s) && Possible(l.s, op) && Known(l)
    ensures var l' := Logged(l, op);
            && Known(l')
            && l'.s.value + |Handed(l'.s)| - Balance(l') == l.s.value + |Handed(l.s)| - Balance(l)
  {
    hide Distinct, Inserted, Without, Failed, Handed, Resumed, Sound;
    HandedStep(l.s, op);
    FailedStep(l.s, op);
    if op.Return? { ReturnedHanded(l.s, op.t); }
  }

  lemma ReturnedHanded(s: State, t: int)
    requires Sound(s) && Possible(s, Return(t))
    ensures s.error[t] == EOK <==> t in Handed(s)
  {
  }

  ghost predicate PossibleRun(l: Log, ops: seq<Op>)
    decreases |ops|
  {
    ops == [] || (Possible(l.s, ops[0]) && PossibleRun(Logged(l, ops[0]), ops[1..]))
  }

  ghost function Run(l: Log, ops: seq<Op>): Log
    requires PossibleRun(l, ops)
    decreases |ops|
  {
    if ops == [] then l else Run(Logged(l, ops[0]), ops[1..])
  }

  /** A semaphore with `value` tokens and the threads of `error`, before the first call. */
  function Start(value: nat, error: map<int, Code>): Log { Log(State(value, [], error, {}), 0, 0, 0, {}, {}, {}) }

  lemma {:induction false} RunKeeps(l: Log, ops: seq<Op>)
    requires Sound(l.s) && Known(l) && PossibleRun(l, ops)
    ensures var l' := Run(l, ops);
            && Sound(l'.s) && Known(l')
            && l'.s.value + |Handed(l'.s)| - Balance(l') == l.s.value + |Handed(l.s)| - Balance(l)
    decreases |ops|
  {
    hide Outcome, Possible, Sound, Logged, Handed, Balance, Known;
    if ops != [] {
      StepSound(l.s, ops[0]);
      LoggedState(l, ops[0]);
      LoggedKeeps(l, ops[0]);
      RunKeeps(Logged(l, ops[0]), ops[1..]);
    }
  }

  lemma LoggedState(l: Log, op: Op)
    requires Possible(l.s, op)
    ensures (op.Take? ==> op.k <= |l.s.waiters|) && (op.Return? ==> op.t in l.s.error)
    ensures Logged(l, op).s == Outcome(l.s, op).0
  {
  }

  /**
   In every interleaving: the tokens there were at first and those released are the value, those
   given to threads whose calls have yet to return, and those of the takes that returned
   success; and no thread waits while there is a token.
   */
  lemma TokensConserved(value: nat, error: map<int, Code>, ops: seq<Op>)
    requires value <= VALUE_MAX && PossibleRun(Start(value, error), ops)
    ensures var l := Run(Start(value, error), ops);
            && value + l.released + l.moved == l.s.value + |l.given| + l.taken
            && (l.s.value > 0 ==> l.s.waiters == [])
  {
    var l := Start(value, error);
    assert Known(l);
    RunKeeps(l, ops);
  }

  /**
   A take that waited returns success exactly if a release gave its thread a token; the error of a
   timeout exactly if its time was up first; and that of a reset exactly if a reset found it waiting.
   */
  lemma ReturnsByCause(value: nat, error: map<int, Code>, ops: seq<Op>, t: int)
    requires value <= VALUE_MAX && PossibleRun(Start(value, error), ops)
    requires Possible(Run(Start(value, error), ops).s, Return(t))
    ensures var l := Run(Start(value, error), ops);
            && (ReturnSpec(l.s, t).1 == EOK <==> t in l.given)
            && (ReturnSpec(l.s, t).1 == ETIMEOUT <==> t in l.late)
            && (ReturnSpec(l.s, t).1 == ERROR <==> t in l.failed)
            && t in l.given + l.late + l.failed
  {
    var l := Start(value, error);
    assert Known(l);
    RunKeeps(l, ops);
    assert PendingOk(Run(l, ops).s, t);
  }

  class Counter {
    var value: nat
    var waiters: seq<int>
    var error: map<int, Code>
    ghost var pending: set<int>

    ghost function Model(): State
      reads this
    {
      State(value, waiters, error, pending)
    }

    ghost predicate Valid()
      reads this
    {
      Sound(Model())
    }

    /** rt_sem_init, with the threads there are. */
    constructor (value: nat, error: map<int, Code>)
      requires value <= VALUE_MAX
      ensures Valid() && Model() == Start(value, error).s
    {
      this.value, waiters, this.error, pending := value, [], error, {};
    }

    /** rt_sem_take until it returns or its thread is switched out. */
    method TryTake(t: int, wait: bool, k: nat) returns (r: Code)
      requires Valid() && Possible(Model(), Take(t, wait, k))
      modifies this
      ensures Valid() && (Model(), r) == TakeSpec(old(Model()), t, wait, k)
    {
      StepSound(Model(), Take(t, wait, k));
      if value > 0 {
        value := value - 1;
        return EOK;
      }
      if !wait { return ETIMEOUT; }
      error := error[t := EOK];
      waiters := Inserted(waiters, k, t);
      pending := pending + {t};
      return BLOCKED;
    }

    /** rt_sem_release. */
    method Give() returns (r: Code)
      requires Valid()
      modifies this
      ensures Valid() && (Model(), r) == ReleaseSpec(old(Model()))
    {
      StepSound(Model(), Release);
      if waiters != [] {
        waiters := waiters[1..];
      } else if value < VALUE_MAX {
        value := value + 1;
      } else {
        return EFULL;
      }
      return EOK;
    }

    /** _thread_timeout for a waiter. */
    method Expire(t: int)
      requires Valid() && Possible(Model(), Timeout(t))
      modifies this
      ensures Valid() && Model() == TimeoutSpec(old(Model()), t)
    {
      StepSound(Model(), Timeout(t));
      error := error[t := ETIMEOUT];
      waiters := Without(waiters, t);
    }

    /** rt_sem_control with RT_IPC_CMD_RESET: the loop of _ipc_list_resume_all, then the value. */
    method Restart(v: nat)
      requires Valid()
      modifies this
      ensures Valid() && Model() == ResetSpec(old(Model()), v)
    {
      StepSound(Model(), Reset(v));
      ghost var error0, ws := error, waiters;
      while waiters != []
        invariant pending == old(pending) && Failed(error, waiters) == Failed(error0, ws)
        decreases |waiters|
      {
        var t := waiters[0];
        error := error[t := ERROR];
        waiters := waiters[1..];
      }
      value := v % (VALUE_MAX + 1);
    }

    /** rt_sem_take from where its thread runs again. */
    method Resume(t: int) returns (r: Code)
      requires Valid() && Possible(Model(), Return(t))
      modifies `pending
      ensures Valid() && (Model(), r) == ReturnSpec(old(Model()), t)
    {
      StepSound(Model(), Return(t));
      pending := pending - {t};
      return error[t];
    }
  }
}
