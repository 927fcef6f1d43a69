/**
 The bitmaps of the ready queue: the bit scan of rt-thread/src/kservice.c, and the two-level
 bitmap that rt-thread/src/scheduler.c keeps for more than 32 priorities. A word is a number,
 and the bitwise operators are defined on its binary digits.
 */
module ReadyBits {
  const WORD := 0x1_0000_0000

  // ----- Words

  /** Bit `p` of `g` is set. */
  predicate Has(g: nat, p: nat) {
    if p == 0 then g % 2 == 1 else Has(g / 2, p - 1)
  }

  /** 1 << p. */
  function One(p: nat): (r: nat)
    ensures r > 0
  {
    if p == 0 then 1 else 2 * One(p - 1)
  }

  /** g | h. */
  function Or(g: nat, h: nat): nat
    decreases g + h
  {
    if g == 0 && h == 0 then 0 else 2 * Or(g / 2, h / 2) + (if g % 2 == 1 then 1 else h % 2)
  }

  /** g & ~h. */
  function AndNot(g: nat, h: nat): nat {
    if g == 0 then 0 else 2 * AndNot(g / 2, h / 2) + (if h % 2 == 1 then 0 else g % 2)
  }

  lemma {:induction false} OrHas(g: nat, h: nat, p: nat)
    ensures Has(Or(g, h), p) <==> Has(g, p) || Has(h, p)
    decreases p
  {
    if p > 0 {
      if g == 0 && h == 0 { ZeroHas(p); } else { OrHas(g / 2, h / 2, p - 1); }
    }
  }

  lemma {:induction false} AndNotHas(g: nat, h: nat, p: nat)
    ensures Has(AndNot(g, h), p) <==> Has(g, p) && !Has(h, p)
    decreases p
  {
    if g == 0 { ZeroHas(p); } else if p > 0 { AndNotHas(g / 2, h / 2, p - 1); }
  }

  lemma {:induction false} ZeroHas(p: nat)
    ensures !Has(0, p)
  {
    if p > 0 { ZeroHas(p - 1); }
  }

  lemma {:induction false} OneHas(p: nat, q: nat)
    ensures Has(One(p), q) <==> p == q
    decreases q
  {
    if p == 0 && q > 0 { ZeroHas(q - 1); }
    if p > 0 && q > 0 { OneHas(p - 1, q - 1); }
  }

  lemma {:induction false} OrBound(g: nat, h: nat, n: nat)
    requires g < One(n) && h < One(n)
    ensures Or(g, h) < One(n)
  {
    if n > 0 { OrBound(g / 2, h / 2, n - 1); }
  }

  lemma {:induction false} AndNotBound(g: nat, h: nat)
    ensures AndNot(g, h) <= g
  {
    if g > 0 { AndNotBound(g / 2, h / 2); }
  }

  // ----- The bit scan

  const FIRST_ROW := [0, 0, 1, 0, 2, 0, 1, 0, 3, 0, 1, 0, 2, 0, 1, 0]

  /** __lowest_bit_bitmap: in every row the first row repeats, but for the first entry of the row. */
  function LowestBit(n: nat): nat
    requires n < 256
  {
    if n % 16 != 0 then FIRST_ROW[n % 16] else if n == 0 then 0 else 4 + FIRST_ROW[n / 16]
  }

  /** __rt_ffs: the table looked up at the lowest byte that is not zero. */
  function Ffs(value: nat): nat
    requires value < WORD
  {
    if value == 0 then 0
    else if value % 0x100 != 0 then LowestBit(value % 0x100) + 1
    else if value / 0x100 % 0x100 != 0 then LowestBit(value / 0x100 % 0x100) + 9
    else if value / 0x1_0000 % 0x100 != 0 then LowestBit(value / 0x1_0000 % 0x100) + 17
    else LowestBit(value / 0x100_0000 % 0x100) + 25
  }

  /** Bit `p` is set and no lower one. */
  ghost predicate Lowest(g: nat, p: nat) {
    Has(g, p) && forall q: nat :: q < p ==> !Has(g, q)
  }

  lemma LowestShift(g: nat, p: nat)
    requires g % 2 == 0 && Lowest(g / 2, p)
    ensures Lowest(g, p + 1)
  {
    forall q: nat | q < p + 1 ensures !Has(g, q) {
      if q > 0 { assert !Has(g / 2, q - 1); }
    }
  }

  /** g >> n. */
  function Drop(g: nat, n: nat): nat {
    if n == 0 then g else Drop(g / 2, n - 1)
  }

  /** The low `n` bits. */
  function Low(g: nat, n: nat): nat {
    if n == 0 then 0 else 2 * Low(g / 2, n - 1) + g % 2
  }

  lemma Nibble(g: nat)
    ensures Drop(g, 4) == g / 16 && Low(g, 4) == g % 16
  {
    var a, b, c := g / 2, g / 2 / 2, g / 2 / 2 / 2;
    assert Low(c, 1) == c % 2 && Drop(c, 1) == c / 2;
    assert Low(b, 2) == 2 * Low(c, 1) + b % 2 && Drop(b, 2) == c / 2;
    assert Low(a, 3) == 2 * Low(b, 2) + a % 2 && Drop(a, 3) == c / 2;
    assert g == 16 * (c / 2) + 8 * (c % 2) + 4 * (b % 2) + 2 * (a % 2) + g % 2;
  }

  lemma {:induction false} LowestShifts(g: nat, n: nat, p: nat)
    requires Low(g, n) == 0 && Lowest(Drop(g, n), p)
    ensures Lowest(g, n + p)
    decreases n
  {
    if n > 0 {
      LowestShifts(g / 2, n - 1, p);
      LowestShift(g, n - 1 + p);
    }
  }

  lemma LowestByte(n: nat)
    requires 0 < n < 16
    ensures Lowest(n, FIRST_ROW[n])
  {
    if n % 2 == 1 {
    } else if n % 4 == 2 {
      assert Lowest(n / 2, 0);
      LowestShift(n, 0);
    } else if n % 8 == 4 {
      assert Lowest(n / 4, 0);
      LowestShift(n / 2, 0);
      LowestShift(n, 1);
    } else {
      assert n == 8 && Lowest(1, 0);
      LowestShift(2, 0);
      LowestShift(4, 1);
      LowestShift(8, 2);
    }
  }

  /** Only the low bits matter to their lowest bit. */
  lemma {:induction false} LowestLow(g: nat, n: nat, p: nat)
    requires p < n && Lowest(Low(g, n), p)
    ensures Lowest(g, p)
    decreases n
  {
    if p > 0 {
      assert !Has(Low(g, n), 0);
      var low := Low(g / 2, n - 1);
      forall q: nat | q < p - 1 ensures !Has(low, q) { assert !Has(Low(g, n), q + 1); }
      LowestLow(g / 2, n - 1, p - 1);
      LowestShift(g, p - 1);
    }
  }

  lemma LowestBitIs(g: nat)
    requires g % 256 != 0
    ensures g % 16 != 0 ==> LowestBit(g % 256) == FIRST_ROW[g % 16]
    ensures g % 16 == 0 ==> g / 16 % 16 != 0 && LowestBit(g % 256) == 4 + FIRST_ROW[g / 16 % 16]
  {
    var n, q := g % 256, g / 256;
    assert g == 16 * (16 * q + n / 16) + n % 16;
    assert g / 16 == 16 * q + n / 16;
    assert n % 16 == g % 16 && n / 16 == g / 16 % 16;
  }

  lemma LowestBitLowest(g: nat)
    requires g % 256 != 0
    ensures LowestBit(g % 256) < 8 && Lowest(g, LowestBit(g % 256))
  {
    hide Lowest, Low, Drop;
    Nibble(g);
    Nibble(g / 16);
    LowestBitIs(g);
    hide LowestBit;
    if g % 16 != 0 {
      LowestByte(g % 16);
      LowestLow(g, 4, FIRST_ROW[g % 16]);
    } else {
      LowestByte(g / 16 % 16);
      LowestLow(g / 16, 4, FIRST_ROW[g / 16 % 16]);
      LowestShifts(g, 4, FIRST_ROW[g / 16 % 16]);
    }
  }

  lemma LowestAbove(g: nat, p: nat)
    requires g % 256 == 0 && Lowest(g / 256, p)
    ensures Lowest(g, 8 + p)
  {
    hide Lowest, Low, Drop;
    Nibble(g);
    Nibble(g / 16);
    LowestShifts(g / 16, 4, p);
    LowestShifts(g, 4, 4 + p);
  }

  /** The scan finds the lowest bit that is set. */
  lemma FfsLowest(value: nat)
    requires 0 < value < WORD
    ensures 1 <= Ffs(value) <= 32 && Lowest(value, Ffs(value) - 1)
  {
    hide Lowest, Low, Drop, LowestBit;
    if value % 0x100 != 0 {
      LowestBitLowest(value);
    } else if value / 0x100 % 0x100 != 0 {
      LowestBitLowest(value / 0x100);
      LowestAbove(value, LowestBit(value / 0x100 % 0x100));
    } else if value / 0x1_0000 % 0x100 != 0 {
      var p := LowestBit(value / 0x1_0000 % 0x100);
      LowestBitLowest(value / 0x1_0000);
      LowestAbove(value / 0x100, p);
      LowestAbove(value, 8 + p);
    } else {
      var p := LowestBit(value / 0x100_0000 % 0x100);
      LowestBitLowest(value / 0x100_0000);
      LowestAbove(value / 0x1_0000, p);
      LowestAbove(value / 0x100, 8 + p);
      LowestAbove(value, 16 + p);
    }
  }

  // ----- One level: up to 32 priorities

  /** The group has a bit for exactly the priorities in `ps`. */
  ghost predicate Shows(group: nat, ps: set<nat>) {
    group < WORD && forall p: nat :: p in ps <==> Has(group, p)
  }

  lemma SetShows(group: nat, ps: set<nat>, p: nat)
    requires Shows(group, ps) && p < 32
    ensures Shows(Or(group, One(p)), ps + {p})
  {
    WordIs();
    OneBelow(p, 32);
    OrBound(group, One(p), 32);
    forall q: nat ensures q in ps + {p} <==> Has(Or(group, One(p)), q) {
      OrHas(group, One(p), q);
      OneHas(p, q);
    }
  }

  lemma ClearShows(group: nat, ps: set<nat>, p: nat)
    requires Shows(group, ps)
    ensures Shows(AndNot(group, One(p)), ps - {p})
  {
    AndNotBound(group, One(p));
    forall q: nat ensures q in ps - {p} <==> Has(AndNot(group, One(p)), q) {
      AndNotHas(group, One(p), q);
      OneHas(p, q);
    }
  }

  lemma {:induction false} OneBelow(p: nat, n: nat)
    requires p < n
    ensures One(p) < One(n)
  {
    if p > 0 { OneBelow(p - 1, n - 1); }
  }

  lemma WordIs()
    ensures One(32) == WORD && One(8) == 256
  {
    assert One(8) == 256;
    assert One(16) == 0x1_0000;
    assert One(24) == 0x100_0000;
  }

  /** The group is zero when there is nothing to show, and otherwise the scan finds the least priority. */
  lemma ScanFindsLeast(group: nat, ps: set<nat>)
    requires Shows(group, ps)
    ensures group == 0 <==> ps == {}
    ensures group != 0 ==> var r := Ffs(group) - 1; 0 <= r < 32 && r in ps && forall p :: p in ps ==> r <= p
  {
    if group == 0 {
      forall p: nat ensures p !in ps { ZeroHas(p); }
    } else {
      FfsLowest(group);
      var r := Ffs(group) - 1;
      assert r in ps;
    }
  }

  // ----- Two levels: up to 256 priorities

  /** rt_thread_ready_priority_group and rt_thread_ready_table, whose entries are bytes. */
  datatype Levels = Levels(group: nat, table: seq<nat>)

  ghost predicate RowShown(l: Levels, n: nat)
    requires n < |l.table|
  {
    l.table[n] < 256 && (Has(l.group, n) <==> l.table[n] != 0)
  }

  /** Both levels show exactly the priorities in `ps`: number is the priority over 8, the bit in the entry the rest. */
  ghost predicate BothShow(l: Levels, ps: set<nat>) {
    && l.group < WORD && |l.table| == 32 && (forall n :: 0 <= n < 32 ==> RowShown(l, n))
    && (forall p :: p in ps ==> p < 256) && (forall p :: 0 <= p < 256 ==> (p in ps <==> Has(l.table[p / 8], p % 8)))
  }

  /** The bitmap part of rt_schedule_insert_thread. */
  function Raise(l: Levels, p: nat): Levels
    requires p / 8 < |l.table|
  {
    var n := p / 8;
    Levels(Or(l.group, One(n)), l.table[n := Or(l.table[n], One(p % 8))])
  }

  /** The bitmap part of rt_schedule_remove_thread, once the list of the priority is empty. */
  function Lower(l: Levels, p: nat): Levels
    requires p / 8 < |l.table|
  {
    var n := p / 8;
    var row := AndNot(l.table[n], One(p % 8));
    Levels(if row == 0 then AndNot(l.group, One(n)) else l.group, l.table[n := row])
  }

  /** The two scans of _scheduler_get_highest_priority_thread. */
  function Highest(l: Levels): int
    requires 0 < l.group < WORD && |l.table| == 32 && forall n :: 0 <= n < 32 ==> RowShown(l, n)
  {
    FfsLowest(l.group);
    var number := Ffs(l.group) - 1;
    assert RowShown(l, number);
    number * 8 + Ffs(l.table[number]) - 1
  }

  lemma RaiseShows(l: Levels, ps: set<nat>, p: nat)
    requires BothShow(l, ps) && p < 256
    ensures BothShow(Raise(l, p), ps + {p})
  {
    hide Has, Or, One;
    var n, l' := p / 8, Raise(l, p);
    WordIs();
    OneBelow(n, 32);
    OrBound(l.group, One(n), 32);
    OneBelow(p % 8, 8);
    assert RowShown(l, n);
    OrBound(l.table[n], One(p % 8), 8);
    OrHas(l.table[n], One(p % 8), p % 8);
    OneHas(p % 8, p % 8);
    ZeroHas(p % 8);
    forall m | 0 <= m < 32 ensures RowShown(l', m) {
      assert RowShown(l, m);
      OrHas(l.group, One(n), m);
      OneHas(n, m);
    }
    forall q | 0 <= q < 256 ensures q in ps + {p} <==> Has(l'.table[q / 8], q % 8) {
      OrHas(l.table[n], One(p % 8), q % 8);
      OneHas(p % 8, q % 8);
    }
  }

  lemma LowerShows(l: Levels, ps: set<nat>, p: nat)
    requires BothShow(l, ps) && p < 256
    ensures BothShow(Lower(l, p), ps - {p})
  {
    hide Has, AndNot, One;
    var n, l' := p / 8, Lower(l, p);
    AndNotBound(l.group, One(n));
    assert RowShown(l, n);
    AndNotBound(l.table[n], One(p % 8));
    forall m | 0 <= m < 32 ensures RowShown(l', m) {
      assert RowShown(l, m);
      AndNotHas(l.group, One(n), m);
      OneHas(n, m);
    }
    forall q | 0 <= q < 256 ensures q in ps - {p} <==> Has(l'.table[q / 8], q % 8) {
      AndNotHas(l.table[n], One(p % 8), q % 8);
      OneHas(p % 8, q % 8);
    }
  }

  /** The two scans find the least priority shown. */
  lemma HighestIsLeast(l: Levels, ps: set<nat>, p: nat)
    requires BothShow(l, ps) && p in ps
    ensures 0 < l.group && 0 <= Highest(l) < 256 && Highest(l) in ps && Highest(l) <= p
  {
    hide Has, Ffs;
    assert RowShown(l, p / 8);
    ZeroHas(p / 8);
    ZeroHas(p % 8);
    FfsLowest(l.group);
    var n := Ffs(l.group) - 1;
    assert RowShown(l, n);
    FfsLowest(l.table[n]);
    var low := Ffs(l.table[n]) - 1;
    ByteBits(l.table[n], low, 8);
    assert Highest(l) / 8 == n && Highest(l) % 8 == low;
    assert !(p / 8 < n);
    assert p / 8 == n ==> low <= p % 8;
  }

  lemma {:induction false} ByteBits(g: nat, p: nat, n: nat)
    requires g < One(n) && Has(g, p)
    ensures p < n
    decreases p
  {
    if n == 0 { ZeroHas(p); } else if p > 0 { ByteBits(g / 2, p - 1, n - 1); }
  }
}
