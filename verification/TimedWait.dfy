/**
 The timed retry loops of rt_mb_send_wait, rt_mb_recv, rt_mq_send_wait, rt_mq_recv
 (rt-thread/src/ipc.c) and rt_mp_alloc (rt-thread/src/mempool.c). A thread that is resumed and
 finds nothing waits again for what is left of its time, computed in 32-bit tick arithmetic.
 */
module TimedWait {
  /** The number of tick values; the timeout is an rt_int32_t. */
  const TICKS := 0x1_0000_0000
  const HALF := 0x8000_0000

  function ToInt32(x: int): int { (x + HALF) % TICKS - HALF }

  /** What is left of `timeout`, never less than zero: the ticks since `start` are taken off it in 32 bits. */
  function Left(timeout: int, start: nat, now: nat): int {
    var delta := (now % TICKS - start % TICKS) % TICKS;
    var left := ToInt32(timeout - delta);
    if left < 0 then 0 else left
  }

  lemma {:induction false} TurnsAway(x: int, k: int)
    ensures (x + TICKS * k) % TICKS == x % TICKS
    decreases if k < 0 then -k else k
  {
    if k > 0 { TurnsAway(x, k - 1); assert x + TICKS * k == (x + TICKS * (k - 1)) + TICKS; }
    if k < 0 { TurnsAway(x, k + 1); assert x + TICKS * k == (x + TICKS * (k + 1)) - TICKS; }
  }

  /**
   The wrapping arithmetic leaves what true time leaves, exactly as long as the thread runs again
   within 2^31 ticks of its deadline.
   */
  lemma LeftExact(timeout: int, start: nat, now: nat)
    requires 0 < timeout < HALF && start <= now < start + TICKS
    ensures (Left(timeout, start, now) == if start + timeout <= now then 0 else start + timeout - now) <==>
              now <= start + timeout + HALF
  {
    assert now == TICKS * (now / TICKS) + now % TICKS && start == TICKS * (start / TICKS) + start % TICKS;
    TurnsAway(now % TICKS - start % TICKS, now / TICKS - start / TICKS);
    assert (now % TICKS - start % TICKS) % TICKS == now - start;
    var x := timeout - (now - start);
    if x + HALF < 0 {
      TurnsAway(x + HALF, 1);
      assert ToInt32(x) == x + TICKS > 0;
    } else {
      assert ToInt32(x) == x;
    }
  }

  // ----- The memory pool: interrupts are enabled between reading the clock and waiting again

  /** A spurious wakeup: when the thread read the clock, and when it waits again if it does. */
  datatype Wake = Wake(now: nat, again: nat)

  /** Clock readings in order; each wait is over within 2^31 ticks of its deadline. */
  predicate Timely(start: nat, timeout: int, wakes: seq<Wake>)
    decreases |wakes|
  {
    wakes == [] ||
    (start <= wakes[0].now <= wakes[0].again && wakes[0].now < start + TICKS && wakes[0].now <= start + timeout + HALF
     && (wakes[0].now < start + timeout ==> Timely(wakes[0].again, start + timeout - wakes[0].now, wakes[1..])))
  }

  /** How much later than read the clock is when each of the first `n` waits begins again. */
  function Drift(wakes: seq<Wake>, n: nat): int
    requires n <= |wakes|
  {
    if n == 0 then 0 else Drift(wakes, n - 1) + wakes[n - 1].again - wakes[n - 1].now
  }

  /**
   The retry loop over a run of spurious wakeups. Every wait ends at the deadline of the first,
   moved only by the ticks between reading the clock and waiting again; and the call gives up
   exactly when it is resumed at that deadline or later.
   */
  method Retry(start: nat, timeout: int, wakes: seq<Wake>) returns (deadlines: seq<int>, gaveUp: bool)
    requires 0 < timeout < HALF && Timely(start, timeout, wakes)
    ensures 1 <= |deadlines| <= |wakes| + 1
    ensures forall i :: 0 <= i < |deadlines| ==> deadlines[i] == start + timeout + Drift(wakes, i)
    ensures gaveUp <==> |deadlines| <= |wakes| && wakes[|deadlines| - 1].now >= deadlines[|deadlines| - 1]
    ensures gaveUp || |deadlines| == |wakes| + 1
  {
    var since: nat, left: int := start, timeout;
    deadlines, gaveUp := [since + left], false;
    var n := 0;
    while n < |wakes|
      invariant 0 <= n <= |wakes| && |deadlines| == n + 1 && 0 < left < HALF
      invariant Timely(since, left, wakes[n..]) && since + left == start + timeout + Drift(wakes, n) == deadlines[n]
      invariant forall i :: 0 <= i < |deadlines| ==> deadlines[i] == start + timeout + Drift(wakes, i)
    {
      var w := wakes[n];
      assert wakes[n..][0] == w && wakes[n..][1..] == wakes[n + 1..];
      LeftExact(left, since, w.now);
      left := Left(left, since, w.now);
      if left == 0 {
        gaveUp := true;
        return;
      }
      since := w.again;
      deadlines := deadlines + [since + left];
      n := n + 1;
    }
  }

  // ----- Mailbox and message queue: interrupts are disabled from reading the clock to waiting again

  /** The clock at each spurious wakeup, in order and within 2^31 ticks of the deadline. */
  predicate Prompt(start: nat, deadline: int, wakes: seq<nat>) {
    forall i :: 0 <= i < |wakes| ==>
                  && (if i == 0 then start else wakes[i - 1]) <= wakes[i] <= deadline + HALF
                  && wakes[i] < (if i == 0 then start else wakes[i - 1]) + TICKS
  }

  /**
   The retry loop of a mailbox or a message queue. However often the thread is resumed in vain
   and waits again, every wait ends at the first deadline; and the call gives up at the first
   wakeup that comes at the deadline or later.
   */
  method RetryLocked(start: nat, timeout: int, wakes: seq<nat>) returns (deadlines: seq<int>, gaveUp: bool)
    requires 0 < timeout < HALF && Prompt(start, start + timeout, wakes)
    ensures forall d :: d in deadlines ==> d == start + timeout
    ensures 1 <= |deadlines| <= |wakes| + 1 && (gaveUp <==> exists w :: w in wakes && w >= start + timeout)
    ensures gaveUp ==> |deadlines| <= |wakes| && wakes[|deadlines| - 1] >= start + timeout
    ensures forall i :: 0 <= i < |deadlines| - 1 ==> wakes[i] < start + timeout
    ensures !gaveUp ==> |deadlines| == |wakes| + 1
  {
    var since: nat, left: int := start, timeout;
    deadlines, gaveUp := [since + left], false;
    var n := 0;
    while n < |wakes|
      invariant 0 <= n <= |wakes| && |deadlines| == n + 1 && 0 < left < HALF
      invariant since == (if n == 0 then start else wakes[n - 1]) && since + left == start + timeout
      invariant forall d :: d in deadlines ==> d == start + timeout
      invariant forall i :: 0 <= i < n ==> wakes[i] < start + timeout
    {
      LeftExact(left, since, wakes[n]);
      left := Left(left, since, wakes[n]);
      if left == 0 {
        assert wakes[n] in wakes;
        gaveUp := true;
        return;
      }
      since := wakes[n];
      deadlines := deadlines + [since + left];
      n := n + 1;
    }
  }
}
