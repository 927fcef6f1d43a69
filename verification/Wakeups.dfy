/**
 Waiting for a unit of something (a mail, a message, a free slot, a memory block) in
 rt-thread/src/ipc.c and rt-thread/src/mempool.c. A unit that is put resumes one waiter; the
 resumed thread looks again when it runs, and by then another thread may have taken the unit.
 */
module Wakeups {
  import opened RtList

  /** `woken` are the threads resumed with RT_EOK that have not run yet. */
  datatype Pool = Pool(units: nat, waiters: seq<int>, woken: set<int>)

  /** No wakeup is lost: while a thread waits, every unit there is has a resumed thread coming for it. */
  ghost predicate NoneLost(p: Pool) {
    p.waiters != [] ==> p.units <= |p.woken|
  }

  ghost predicate Sound(p: Pool) {
    Distinct(p.waiters) && (forall t :: t in p.waiters ==> t !in p.woken) && NoneLost(p)
  }

  /** A unit is put, and the first waiter resumed. */
  function Put(p: Pool): Pool {
    if p.waiters == [] then p.(units := p.units + 1)
    else Pool(p.units + 1, p.waiters[1..], p.woken + {p.waiters[0]})
  }

  /** A thread, resumed or not, takes a unit. */
  function Taken(p: Pool, t: int): Pool
    requires p.units > 0
  {
    Pool(p.units - 1, p.waiters, p.woken - {t})
  }

  /** A thread, resumed or not, finds nothing and waits, at place `k` of the list. */
  function Await(p: Pool, t: int, k: nat): Pool
    requires k <= |p.waiters|
  {
    Pool(p.units, Inserted(p.waiters, k, t), p.woken - {t})
  }

  /** A thread, resumed or not, finds nothing and returns. */
  function GivenUp(p: Pool, t: int): Pool { p.(woken := p.woken - {t}) }

  /** A waiter's time is up. */
  function Expired(p: Pool, t: int): Pool { p.(waiters := Without(p.waiters, t)) }

  /** _ipc_list_resume_all resumes all waiters with an error; then there are `units` units. */
  function Flushed(p: Pool, units: nat): Pool { Pool(units, [], p.woken) }

  // ----- Who waits and who was resumed

  /** A put resumes the thread that is first in the list, if any, and nobody else. */
  lemma PutMeaning(p: Pool)
    ensures var p' := Put(p);
            && p'.units == p.units + 1
            && if p.waiters == [] then p'.waiters == [] && p'.woken == p.woken
               else p.waiters == [p.waiters[0]] + p'.waiters && p'.woken == p.woken + {p.waiters[0]}
  {
  }

  /** A thread that waits is at its place in the list, before or behind all others as they were. */
  lemma AwaitMeaning(p: Pool, t: int, k: nat)
    requires k <= |p.waiters|
    ensures var p' := Await(p, t, k);
            && p'.units == p.units && p'.woken == p.woken - {t} && |p'.waiters| == |p.waiters| + 1
            && p'.waiters[k] == t && p'.waiters[..k] == p.waiters[..k] && p'.waiters[k + 1..] == p.waiters[k..]
  {
  }

  /** A thread whose time is up leaves the list, and the others keep their order; nobody is resumed for a unit. */
  lemma ExpiredMeaning(p: Pool, t: int)
    requires t in p.waiters
    ensures var (p', ws) := (Expired(p, t), p.waiters);
            && p'.units == p.units && p'.woken == p.woken
            && exists k :: 0 <= k < |ws| && ws[k] == t && p'.waiters == ws[..k] + ws[k + 1..]
  {
    hide Without, IndexOf;
    WithoutIs(p.waiters, t);
  }

  /** A reset leaves nobody waiting, and those on their way to a unit as they were. */
  lemma FlushedMeaning(p: Pool, units: nat)
    ensures var p' := Flushed(p, units); p'.units == units && p'.waiters == [] && p'.woken == p.woken
  {
  }

  lemma PutSound(p: Pool)
    requires Sound(p)
    ensures Sound(Put(p))
  {
    if p.waiters != [] {
      var w := p.waiters[0];
      assert w in p.waiters && w !in p.woken;
      assert p.waiters == [w] + p.waiters[1..];
      forall j | 0 <= j < |p.waiters[1..]| ensures p.waiters[1..][j] != w { assert p.waiters[0] != p.waiters[j + 1]; }
      forall t | t in p.waiters[1..] ensures t !in p.woken + {w} {
      }
    }
  }

  lemma TakenSound(p: Pool, t: int)
    requires Sound(p) && p.units > 0
    ensures Sound(Taken(p, t))
  {
  }

  lemma AwaitSound(p: Pool, t: int, k: nat)
    requires Sound(p) && p.units == 0 && k <= |p.waiters| && t !in p.waiters
    ensures Sound(Await(p, t, k))
  {
    InsertedMeaning(p.waiters, k, t);
  }

  lemma GivenUpSound(p: Pool, t: int)
    requires Sound(p) && p.units == 0
    ensures Sound(GivenUp(p, t))
  {
  }

  lemma ExpiredSound(p: Pool, t: int)
    requires Sound(p)
    ensures Sound(Expired(p, t))
  {
    WithoutMembers(p.waiters, t);
  }

  lemma FlushedSound(p: Pool, units: nat)
    ensures Sound(Flushed(p, units))
  {
  }

  /** Deleting a resumed thread before it runs loses its wakeup exactly when the other resumed threads are too few. */
  lemma DeletionLoses(p: Pool, t: int)
    requires Sound(p) && t in p.woken && p.waiters != []
    ensures NoneLost(GivenUp(p, t)) <==> p.units < |p.woken|
  {
  }
}
