/**
 The 32-bit tick values of rt-thread/src/timer.c: when their wrapping comparisons decide as true
 time does, and when the search of rt_timer_start, which uses them, finds the right place.
 */
module TimerTicks {
  import opened TimerRuns

  /** A subtraction of rt_tick_t values. */
  function Sub32(a: nat, b: nat): (d: nat) { (a - b) % TICKS }

  /** The comparison of rt_timer_start: is deadline `a` of a listed timer later than a new deadline `b`? */
  function Later32(a: nat, b: nat): bool { 0 < Sub32(a, b) < HALF }

  /** The wrapping comparison decides as unbounded time does, whatever the new interval. */
  lemma CompareExact(now: nat, a: nat, b: nat)
    requires now - LATE <= a < now + HALF && now <= b < now + HALF
    ensures Sub32(a % TICKS, b % TICKS) == 0 <==> a == b
    ensures Later32(a % TICKS, b % TICKS) <==> a > b
  {
    SubWraps(a, b);
  }

  lemma SubWraps(a: int, b: int)
    ensures Sub32(a % TICKS, b % TICKS) == (a - b) % TICKS
  {
    assert a == TICKS * (a / TICKS) + a % TICKS && b == TICKS * (b / TICKS) + b % TICKS;
    ModShift(a % TICKS - b % TICKS, a / TICKS - b / TICKS);
  }

  lemma AddWraps(a: nat, b: nat)
    ensures (a % TICKS + b) % TICKS == (a + b) % TICKS
  {
    assert a == TICKS * (a / TICKS) + a % TICKS;
    ModShift(a % TICKS + b, a / TICKS);
  }

  lemma {:induction false} ModShift(x: int, k: int)
    ensures (x + TICKS * k) % TICKS == x % TICKS
    decreases if k < 0 then -k else k
  {
    if k > 0 { ModShift(x, k - 1); assert (x + TICKS * k) == (x + TICKS * (k - 1)) + TICKS; }
    if k < 0 { ModShift(x, k + 1); assert (x + TICKS * k) == (x + TICKS * (k + 1)) - TICKS; }
  }

  /**
   Three ticks is how late a listed timer may be: the comparison is right against every new
   deadline exactly when the listed timer is at most that late.
   */
  lemma LatenessBound(now: nat, a: nat)
    requires now - HALF <= a < now + HALF
    ensures now - LATE <= a <==>
              forall b: nat :: now <= b < now + HALF ==> (Later32(a % TICKS, b % TICKS) <==> a > b)
  {
    if now - LATE <= a {
      forall b: nat | now <= b < now + HALF ensures Later32(a % TICKS, b % TICKS) <==> a > b {
        CompareExact(now, a, b);
      }
    } else {
      var b := now + HALF - 1;
      SubWraps(a, b);
      assert Later32(a % TICKS, b % TICKS) && a < b;
    }
  }

  /** The expiry test of rt_timer_check. */
  lemma DueExact(now: nat, a: nat)
    requires now - LATE <= a < now + HALF
    ensures Sub32(now % TICKS, a % TICKS) < HALF <==> a <= now
  {
    SubWraps(now, a);
  }

  /**
   ... for any two times less than half the range ahead: how late `a` is then is only known up to
   a turn of the clock.
   */
  lemma LaterIff(a: int, b: int)
    requires a < b + HALF
    ensures Later32(a % TICKS, b % TICKS) <==> a > b || (b - a) % TICKS > TICKS - HALF
  {
    SubWraps(a, b);
    Opposite(b - a);
    if a > b { assert (a - b) % TICKS == a - b; }
  }

  lemma Opposite(x: int)
    ensures (-x) % TICKS == if x % TICKS == 0 then 0 else TICKS - x % TICKS
  {
    assert x == TICKS * (x / TICKS) + x % TICKS;
    ModShift(-(x % TICKS), -(x / TICKS));
  }

  /** ... and the expiry test for any listed deadline. */
  lemma DueSeenIff(now: int, a: int)
    requires a < now + HALF
    ensures (Sub32(now % TICKS, a % TICKS) < HALF <==> a <= now) <==> a > now || (now - a) % TICKS < HALF
  {
    SubWraps(now, a);
    if a > now {
      Opposite(a - now);
      assert (a - now) % TICKS == a - now;
    }
  }

  // ----- The search

  /** The search takes the listed timer for one that is due later than `due`. */
  predicate Seen(info: map<int, Timer>, t: int, due: int) { Later32(Due(info, t) % TICKS, due % TICKS) }

  lemma SeenIs(info: map<int, Timer>, t: int, due: int)
    requires t in info
    ensures var d := Sub32(info[t].due % TICKS, due % TICKS); Seen(info, t, due) <==> d != 0 && d < HALF
  {
  }

  /** Where the search of rt_timer_start puts a deadline. */
  function PlaceSeen(order: seq<int>, info: map<int, Timer>, due: int, from: nat := 0): (k: nat)
    requires from <= |order|
    ensures from <= k <= |order| && (k < |order| ==> Seen(info, order[k], due))
    ensures forall j :: from <= j < k ==> !Seen(info, order[j], due)
    decreases |order| - from
  {
    if from == |order| || Seen(info, order[from], due) then from else PlaceSeen(order, info, due, from + 1)
  }

  lemma PlaceSeenIs(order: seq<int>, info: map<int, Timer>, due: int, k: nat)
    requires k <= |order| && (k < |order| ==> Seen(info, order[k], due))
    requires forall j :: 0 <= j < k ==> !Seen(info, order[j], due)
    ensures PlaceSeen(order, info, due) == k
  {
  }

  lemma PlaceIs(order: seq<int>, info: map<int, Timer>, due: int, k: nat)
    requires k <= |order| && (k < |order| ==> Due(info, order[k]) > due)
    requires forall j :: 0 <= j < k ==> Due(info, order[j]) <= due
    ensures Place(order, info, due) == k
  {
  }

  ghost predicate Ascending(order: seq<int>, info: map<int, Timer>) {
    forall i, j :: 0 <= i < j < |order| ==> Due(info, order[i]) <= Due(info, order[j])
  }

  /** How much earlier than `due` a timer is, as 32-bit ticks show it. */
  function Lead(info: map<int, Timer>, t: int, due: int): nat { (due - Due(info, t)) % TICKS }

  /** No listed timer that is due by `due` leads by so much that it looks later. */
  ghost predicate Clear(order: seq<int>, info: map<int, Timer>, due: int) {
    forall t :: t in order && Due(info, t) <= due ==> Lead(info, t, due) <= TICKS - HALF
  }

  /** The search finds the place for a deadline exactly if no lead wraps. */
  lemma PlaceSeenIff(order: seq<int>, info: map<int, Timer>, due: int)
    requires Ascending(order, info) && forall t :: t in order ==> Due(info, t) < due + HALF
    ensures PlaceSeen(order, info, due) == Place(order, info, due) <==> Clear(order, info, due)
  {
    hide Seen, Lead;
    var k := Place(order, info, due);
    forall j | 0 <= j < |order|
      ensures Seen(info, order[j], due) <==>
                Due(info, order[j]) > due || Lead(info, order[j], due) > TICKS - HALF
    {
      assert order[j] in order;
      SeenLater(info, order[j], due);
    }
    if Clear(order, info, due) {
      forall j | 0 <= j < k ensures !Seen(info, order[j], due) { assert order[j] in order; }
      PlaceSeenIs(order, info, due, k);
    } else {
      var t :| t in order && Due(info, t) <= due && Lead(info, t, due) > TICKS - HALF;
      var j :| 0 <= j < |order| && order[j] == t;
      assert j < k;
    }
  }

  /** The search goes wrong in one direction only. */
  lemma SeenBefore(order: seq<int>, info: map<int, Timer>, due: int)
    requires forall t :: t in order ==> Due(info, t) < due + HALF
    ensures PlaceSeen(order, info, due) <= Place(order, info, due)
  {
    hide Seen, Lead;
    var k := Place(order, info, due);
    if k < |order| {
      assert order[k] in order;
      SeenLater(info, order[k], due);
    }
  }

  lemma SeenLater(info: map<int, Timer>, t: int, due: int)
    requires Due(info, t) < due + HALF
    ensures Seen(info, t, due) <==> Due(info, t) > due || Lead(info, t, due) > TICKS - HALF
  {
    LaterIff(Due(info, t), due);
  }

  /** With no deadline a whole turn of the clock behind, it is enough to look at the first timer. */
  lemma HeadIff(order: seq<int>, info: map<int, Timer>, due: int)
    requires Ascending(order, info) && forall t :: t in order ==> due - TICKS < Due(info, t)
    ensures Clear(order, info, due) <==>
              order == [] || Due(info, order[0]) > due || due - Due(info, order[0]) <= TICKS - HALF
  {
    if order != [] {
      assert order[0] in order;
      forall t | t in order ensures Due(info, order[0]) <= Due(info, t) {
        var j :| 0 <= j < |order| && order[j] == t;
        assert j > 0 ==> Due(info, order[0]) <= Due(info, order[j]);
      }
    }
  }

  /**
   A start finds its place whatever its interval, exactly if the first timer is at most three
   ticks late, provided that no listed timer is half the range late.
   */
  lemma AnyIntervalIff(order: seq<int>, info: map<int, Timer>, now: int)
    requires Ascending(order, info) && forall t :: t in order ==> now - HALF < Due(info, t)
    ensures (forall due: int :: now <= due < now + HALF ==> Clear(order, info, due)) <==>
              order == [] || now - LATE <= Due(info, order[0])
  {
    hide Clear;
    forall due: int | now <= due < now + HALF
      ensures Clear(order, info, due) <==>
                order == [] || Due(info, order[0]) > due || due - Due(info, order[0]) <= TICKS - HALF
    {
      HeadIff(order, info, due);
    }
    if order != [] && Due(info, order[0]) < now - LATE {
      var due := now + HALF - 1;
      assert !Clear(order, info, due);
    }
  }

  /** While no listed timer is more than three ticks late the search is right. */
  lemma SoundSeen(s: State, due: int)
    requires Sound(s) && s.now <= due < s.now + HALF
    ensures PlaceSeen(s.order, s.info, due) == Place(s.order, s.info, due)
  {
    forall t | t in s.order ensures s.now - LATE <= Due(s.info, t) < s.now + HALF { assert Listed(s, t); }
    SortedAscending(s.info, s.order);
    PlaceSeenIff(s.order, s.info, due);
    if s.order != [] { assert s.order[0] in s.order; }
    HeadIff(s.order, s.info, due);
  }

  lemma SortedAscending(info: map<int, Timer>, order: seq<int>)
    requires Sorted(info, order)
    ensures Ascending(order, info)
  {
    forall i, j | 0 <= i < j < |order| ensures Due(info, order[i]) <= Due(info, order[j]) {
      assert Before(info, order[i], order[j]);
    }
  }
}
