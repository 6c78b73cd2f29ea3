/** Processor statistics: a ring of the last 3000 samples, and the load over several windows. */
module CpuRing {
  import opened Options
  import opened Words

  const CAPACITY: nat := 3000

  datatype CpuStat = CpuStat(id: string, user: nat, nice: nat, system: nat, idle: nat,
                             ioWait: nat, irq: nat, softIrq: nat, steal: nat)

  datatype Stat = Stat(all: CpuStat, cpus: seq<CpuStat>)

  // ---------- The load between two samples ----------

  function Sum(c: CpuStat): nat { c.user + c.nice + c.system + c.idle + c.ioWait + c.irq + c.softIrq + c.steal }

  function Div(a: nat, n: nat): nat
    requires n > 0
  {
    a / n
  }

  function Ticks(cur: CpuStat, last: CpuStat): nat { Wrap(Wrap(Sum(cur)) - Wrap(Sum(last))) }

  function Load(total: nat, idle: nat): nat {
    if total == 0 then 0 else Div(Wrap(100 * Wrap(total - idle)), total)
  }

  function Percent(cur: CpuStat, last: CpuStat): nat { Load(Ticks(cur, last), Wrap(cur.idle - last.idle)) }

  /** A counter has grown from `last`, and may have wrapped around. */
  predicate Grew(cur: nat, last: nat, grown: nat) { cur == Wrap(last + grown) }

  predicate AllGrew(cur: CpuStat, last: CpuStat, d: CpuStat) {
    && Grew(cur.user, last.user, d.user) && Grew(cur.nice, last.nice, d.nice)
    && Grew(cur.system, last.system, d.system) && Grew(cur.idle, last.idle, d.idle)
    && Grew(cur.ioWait, last.ioWait, d.ioWait) && Grew(cur.irq, last.irq, d.irq)
    && Grew(cur.softIrq, last.softIrq, d.softIrq) && Grew(cur.steal, last.steal, d.steal)
  }

  lemma WrapShift(x: int, k: int)
    ensures Wrap(x + k * WORD) == Wrap(x)
  {
  }

  lemma WrapSmall(x: int)
    requires 0 <= x < WORD
    ensures Wrap(x) == x
  {
  }

  /** How often a counter has wrapped. */
  lemma Wraps(cur: nat, last: nat, grown: nat) returns (k: int)
    requires Grew(cur, last, grown)
    ensures cur == last + grown + k * WORD
  {
    k := -((last + grown) / WORD);
  }

  lemma TotalWraps(cur: CpuStat, last: CpuStat, d: CpuStat) returns (k: int)
    requires AllGrew(cur, last, d)
    ensures Sum(cur) == Sum(last) + Sum(d) + k * WORD
  {
    var a := Wraps(cur.user, last.user, d.user);
    var b := Wraps(cur.nice, last.nice, d.nice);
    var c := Wraps(cur.system, last.system, d.system);
    var e := Wraps(cur.idle, last.idle, d.idle);
    var f := Wraps(cur.ioWait, last.ioWait, d.ioWait);
    var g := Wraps(cur.irq, last.irq, d.irq);
    var h := Wraps(cur.softIrq, last.softIrq, d.softIrq);
    var i := Wraps(cur.steal, last.steal, d.steal);
    k := a + b + c + e + f + g + h + i;
  }

  lemma WrapDifference(x: int, y: int)
    ensures Wrap(Wrap(x) - Wrap(y)) == Wrap(x - y)
  {
  }

  lemma TicksAre(cur: CpuStat, last: CpuStat, d: CpuStat)
    requires AllGrew(cur, last, d) && Sum(d) < WORD
    ensures Ticks(cur, last) == Sum(d)
  {
    var k := TotalWraps(cur, last, d);
    WrapDifference(Sum(cur), Sum(last));
    WrapShift(Sum(d), k);
    WrapSmall(Sum(d));
  }

  lemma IdleIs(cur: nat, last: nat, grown: nat)
    requires Grew(cur, last, grown) && grown < WORD
    ensures Wrap(cur - last) == grown
  {
    var k := Wraps(cur, last, grown);
    WrapShift(grown, k);
    WrapSmall(grown);
  }

  /** The share of ticks that were not idle, as a whole percentage. */
  function BusyShare(total: nat, idle: nat): nat
    requires idle <= total
  {
    if total == 0 then 0 else Div(100 * (total - idle), total)
  }

  lemma DivParts(a: nat, n: nat)
    requires n > 0
    ensures a == Div(a, n) * n + a % n && a % n < n
  {
  }

  lemma Apart(q: nat, r: nat, q': nat, r': nat, n: nat)
    requires r < n && r' < n && q * n + r + n <= q' * n + r'
    ensures q < q'
  {
    if q' <= q { MulOrder(q', q, n); }
  }

  lemma MulOrder(a: nat, b: nat, n: nat)
    requires a <= b
    ensures a * n <= b * n
  {
  }

  /** Taking at least `n` away takes at least one off the quotient. */
  lemma QuotientDrops(x: nat, y: nat, n: nat)
    requires 0 < n && y + n <= x
    ensures Div(y, n) < Div(x, n)
  {
    DivParts(y, n);
    DivParts(x, n);
    Apart(Div(y, n), y % n, Div(x, n), x % n, n);
  }

  lemma LoadIs(total: nat, idle: nat)
    requires idle <= total && 100 * total < WORD
    ensures Load(total, idle) == BusyShare(total, idle) <= 100
  {
    WrapSmall(total - idle);
    WrapSmall(100 * (total - idle));
    if total > 0 { Share(100 * (total - idle), total); }
  }

  /** The multiplication may wrap around: the load is the share exactly when it does not. */
  lemma LoadIff(total: nat, idle: nat)
    requires idle <= total < WORD
    ensures Load(total, idle) == BusyShare(total, idle) <==> 100 * (total - idle) < WORD
  {
    WrapSmall(total - idle);
    var x := 100 * (total - idle);
    if x < WORD {
      WrapSmall(x);
    } else {
      var k := x / WORD;
      assert Wrap(x) == x - k * WORD && k >= 1;
      QuotientDrops(x, Wrap(x), total);
    }
  }

  lemma IdleIsPart(d: CpuStat)
    ensures d.idle <= Sum(d)
  {
  }

  lemma PercentFrom(cur: CpuStat, last: CpuStat, total: nat, idle: nat)
    requires Ticks(cur, last) == total && Wrap(cur.idle - last.idle) == idle && idle <= total < WORD
    ensures Percent(cur, last) == BusyShare(total, idle) <==> 100 * (total - idle) < WORD
    ensures 100 * total < WORD ==> Percent(cur, last) <= 100
  {
    LoadIff(total, idle);
    if 100 * total < WORD { LoadIs(total, idle); }
  }

  /** The load is the share of ticks that were not idle, as a whole percentage, even across the
      wrap-around of any counter, exactly when a hundred times the busy ticks fit; and it is
      between 0 and 100 when a hundred times all ticks do. */
  lemma PercentIsLoadIff(cur: CpuStat, last: CpuStat, d: CpuStat)
    requires AllGrew(cur, last, d) && Sum(d) < WORD
    ensures d.idle <= Sum(d)
    ensures Percent(cur, last) == BusyShare(Sum(d), d.idle) <==> 100 * (Sum(d) - d.idle) < WORD
    ensures 100 * Sum(d) < WORD ==> Percent(cur, last) <= 100
  {
    IdleIsPart(d);
    TicksAre(cur, last, d);
    IdleIs(cur.idle, last.idle, d.idle);
    PercentFrom(cur, last, Sum(d), d.idle);
  }

  lemma Share(a: nat, n: nat)
    requires n > 0 && a <= 100 * n
    ensures Div(a, n) <= 100
  {
  }

  // ---------- The ring and the history ----------

  /** The sample `n` back in the history, 1 being the latest. */
  function Back(h: seq<Stat>, n: nat): Option<Stat> {
    if 1 <= n <= |h| then Some(h[|h| - n]) else None
  }

  /** What the ring holds once the samples of `h` have been written: in each slot the latest
      sample whose number falls on it. */
  function RingSlot(h: seq<Stat>, i: nat): Option<Stat>
    requires i < CAPACITY
  {
    var w := |h| % CAPACITY;
    var j := if i < w then |h| - w + i else |h| - w - CAPACITY + i;
    if j >= 0 then Some(h[j]) else None
  }

  /** The slot read for an offset, computed in 64 bits. */
  function Slot(writeIdx: nat, offset: nat): (r: nat)
    ensures r < CAPACITY
  {
    Wrap(writeIdx + CAPACITY - offset) % CAPACITY
  }

  /** Within the capacity, the slot at an offset holds the sample that far back. */
  lemma SlotIsBack(h: seq<Stat>, n: nat)
    requires 1 <= n <= CAPACITY
    ensures RingSlot(h, Slot(|h| % CAPACITY, n)) == Back(h, n)
  {
    var w := |h| % CAPACITY;
    WrapSmall(w + CAPACITY - n);
    assert Slot(w, n) == if w >= n then w - n else w + CAPACITY - n;
  }

  /** A sample that tells its number. */
  function Numbered(i: nat): Stat { Stat(CpuStat("", i, 0, 0, 0, 0, 0, 0, 0), []) }

  ghost predicate ReadsBack(h: seq<Stat>, n: nat) { RingSlot(h, Slot(|h| % CAPACITY, n)) == Back(h, n) }

  /** Once the ring is full, every slot holds one of the latest samples. */
  lemma FullRing(h: seq<Stat>, i: nat) returns (j: nat)
    requires i < CAPACITY <= |h|
    ensures |h| - CAPACITY <= j < |h| && RingSlot(h, i) == Some(h[j])
  {
    var w := |h| % CAPACITY;
    j := if i < w then |h| - w + i else |h| - w - CAPACITY + i;
  }

  lemma OutOfReach(n: nat) returns (h: seq<Stat>)
    requires n == 0 || n > CAPACITY
    ensures !ReadsBack(h, n)
  {
    h := seq(n + CAPACITY, i requires 0 <= i < n + CAPACITY => Numbered(i));
    var j := FullRing(h, Slot(|h| % CAPACITY, n));
    if n > CAPACITY {
      assert h[j] == Numbered(j) && h[CAPACITY] == Numbered(CAPACITY);
      assert h[j].all.user != h[CAPACITY].all.user;
    }
  }

  /** An offset always reads the sample that far back exactly when it is within the capacity. */
  lemma ReadsBackIff(n: nat)
    ensures (forall h :: ReadsBack(h, n)) <==> 1 <= n <= CAPACITY
  {
    if 1 <= n <= CAPACITY {
      forall h ensures ReadsBack(h, n) { SlotIsBack(h, n); }
    } else {
      var h := OutOfReach(n);
    }
  }

  /** The offset within the capacity that one beyond it amounts to. */
  function Nearby(n: nat): (m: nat)
    ensures 1 <= m <= CAPACITY
  {
    CAPACITY - (WORD % CAPACITY + CAPACITY - n % CAPACITY) % CAPACITY
  }

  lemma ModShift(x: int, k: int)
    ensures (x + k * CAPACITY) % CAPACITY == x % CAPACITY
  {
  }

  /** `n` and its nearby offset differ from 2^64 by a multiple of the capacity. */
  lemma NearbyIs(n: nat) returns (k: int)
    ensures WORD - n == k * CAPACITY - Nearby(n)
  {
    var c := WORD % CAPACITY + CAPACITY - n % CAPACITY;
    k := WORD / CAPACITY - n / CAPACITY + c / CAPACITY;
  }

  lemma SlotWraps(w: nat, n: nat)
    requires w < CAPACITY && 2 * CAPACITY <= n < WORD
    ensures Slot(w, n) == Slot(w, Nearby(n))
  {
    var x := w + CAPACITY - n;
    WrapShift(x, 1);
    WrapSmall(x + WORD);
    WrapSmall(w + CAPACITY - Nearby(n));
    var k := NearbyIs(n);
    ModShift(w + CAPACITY - Nearby(n), k);
  }

  /** Beyond the capacity the subtraction wraps around, and the offset reads what another one
      within the capacity does. */
  lemma LongOffsetReads(h: seq<Stat>, n: nat)
    requires 2 * CAPACITY <= n < WORD
    ensures RingSlot(h, Slot(|h| % CAPACITY, n)) == Back(h, Nearby(n))
  {
    SlotWraps(|h| % CAPACITY, n);
    SlotIsBack(h, Nearby(n));
  }

  /** So the window called five minutes starts at the sample 2384 back. */
  lemma LongOffset(h: seq<Stat>)
    ensures RingSlot(h, Slot(|h| % CAPACITY, 30000)) == Back(h, 2384)
  {
    LongOffsetReads(h, 30000);
    assert WORD % CAPACITY == 616;
  }

  lemma {:induction false} WriteMovesOn(h: seq<Stat>, s: Stat, i: nat)
    requires i < CAPACITY
    ensures RingSlot(h + [s], i) == if i == |h| % CAPACITY then Some(s) else RingSlot(h, i)
  {
    var w := |h| % CAPACITY;
    assert |h + [s]| % CAPACITY == if w + 1 == CAPACITY then 0 else w + 1;
  }

  // ---------- The report ----------

  /** How many samples back each window starts: 100ms, 1s, 5s, 1min and the last. */
  const STARTS: seq<nat> := [2, 10, 50, 600, 2384]

  datatype Util = Util(id: string, rates: seq<nat>)

  datatype Report = Report(all: Util, cpus: seq<Util>)

  const NO_RATES: seq<nat> := [0, 0, 0, 0, 0]

  /** The sample that a window starts with, if there are samples enough. */
  ghost function Start(h: seq<Stat>, w: nat): Option<Stat>
    requires w < 5
  {
    Back(h, STARTS[w])
  }

  /** The window starts with no more processors than the last two samples have; with more, the
      report indexes out of range. */
  ghost predicate Indexable(h: seq<Stat>, w: nat)
    requires w < 5 && |h| >= 2
  {
    Start(h, w).Some? ==> |Start(h, w).value.cpus| <= |h[|h| - 1].cpus| && |Start(h, w).value.cpus| <= |h[|h| - 2].cpus|
  }

  /** The load of the whole machine over a window; 0 until there are samples enough. */
  ghost function RateAll(h: seq<Stat>, w: nat): nat
    requires w < 5 && |h| >= 2
  {
    if Start(h, w).None? then 0 else Percent(h[|h| - 1].all, Start(h, w).value.all)
  }

  /** The load of one processor; also 0 if it was not there at the start of the window. */
  ghost function RateOf(h: seq<Stat>, c: nat, w: nat): nat
    requires w < 5 && |h| >= 2 && c < |h[|h| - 1].cpus|
  {
    if Start(h, w).None? || c >= |Start(h, w).value.cpus| then 0
    else Percent(h[|h| - 1].cpus[c], Start(h, w).value.cpus[c])
  }

  /** `r` reports the first `n` windows of the history. */
  ghost predicate Reports(h: seq<Stat>, r: Report, n: nat)
    requires n <= 5 && |h| >= 2 && Indexable(h, 0)
  {
    && |r.all.rates| == 5 && |r.cpus| == |h[|h| - 2].cpus|
    && r.all.id == h[|h| - 1].all.id
    && (forall w :: 0 <= w < 5 ==> r.all.rates[w] == if w < n then RateAll(h, w) else 0)
    && (forall c :: 0 <= c < |r.cpus| ==> CpuReports(h, r.cpus[c], c, n))
  }

  ghost predicate CpuReports(h: seq<Stat>, u: Util, c: nat, n: nat)
    requires n <= 5 && |h| >= 2 && Indexable(h, 0) && c < |h[|h| - 2].cpus|
  {
    && |u.rates| == 5 && u.id == h[|h| - 2].cpus[c].id
    && (forall w :: 0 <= w < 5 ==> u.rates[w] == if w < n then RateOf(h, c, w) else 0)
  }

  /** A window that has too few samples leaves it, and every longer one, at zero. */
  lemma RestIsZero(h: seq<Stat>, r: Report, n: nat)
    requires n < 5 && 2 <= |h| < STARTS[n] && Indexable(h, 0) && Reports(h, r, n)
    ensures Reports(h, r, 5) && forall w :: n <= w < 5 ==> Indexable(h, w)
  {
    forall c | 0 <= c < |r.cpus| ensures CpuReports(h, r.cpus[c], c, 5) {
      assert CpuReports(h, r.cpus[c], c, n);
    }
  }

  /** Whether the report of all windows is made. */
  ghost predicate AllIndexable(h: seq<Stat>, n: nat)
    requires n <= 5 && |h| >= 2
  {
    forall w :: 0 <= w < n ==> Indexable(h, w)
  }

  /** The sample at the start of a window and the latest one, of the whole machine or of one
      processor, are what a rate compares; without the first it is 0. */
  function RateSince(h: seq<Stat>, back: nat): nat
    requires h != []
  {
    if 1 <= back <= |h| then Percent(h[|h| - 1].all, h[|h| - back].all) else 0
  }

  function CpuSince(h: seq<Stat>, c: nat, back: nat): nat
    requires h != [] && c < |h[|h| - 1].cpus|
  {
    if 1 <= back <= |h| && c < |h[|h| - back].cpus| then Percent(h[|h| - 1].cpus[c], h[|h| - back].cpus[c]) else 0
  }

  /** What a report says: the latest sample against those 2, 10, 50, 600 and 2384 back, for the
      machine and for each processor of the last but one. */
  lemma ReportSays(h: seq<Stat>, r: Report)
    requires |h| >= 2 && AllIndexable(h, 5) && Indexable(h, 0) && Reports(h, r, 5)
    ensures r.all == Util(h[|h| - 1].all.id, [RateSince(h, 2), RateSince(h, 10), RateSince(h, 50), RateSince(h, 600), RateSince(h, 2384)])
    ensures |r.cpus| == |h[|h| - 2].cpus| <= |h[|h| - 1].cpus|
    ensures forall c :: 0 <= c < |r.cpus| ==>
              r.cpus[c] == Util(h[|h| - 2].cpus[c].id, [CpuSince(h, c, 2), CpuSince(h, c, 10), CpuSince(h, c, 50), CpuSince(h, c, 600), CpuSince(h, c, 2384)])
  {
    assert Indexable(h, 0) && STARTS[0] == 2;
    forall c | 0 <= c < |r.cpus|
      ensures r.cpus[c] == Util(h[|h| - 2].cpus[c].id, [CpuSince(h, c, 2), CpuSince(h, c, 10), CpuSince(h, c, 50), CpuSince(h, c, 600), CpuSince(h, c, 2384)])
    {
      assert CpuReports(h, r.cpus[c], c, 5);
    }
  }

  predicate NoMore(h: seq<Stat>, back: nat)
    requires |h| >= 2
  {
    1 <= back <= |h| ==> |h[|h| - back].cpus| <= |h[|h| - 1].cpus| && |h[|h| - back].cpus| <= |h[|h| - 2].cpus|
  }

  /** A report is made exactly when none of these samples has more processors than the last two. */
  lemma ReportedIff(h: seq<Stat>)
    requires |h| >= 2
    ensures AllIndexable(h, 5) <==> NoMore(h, 2) && NoMore(h, 10) && NoMore(h, 50) && NoMore(h, 600) && NoMore(h, 2384)
  {
    assert STARTS == [2, 10, 50, 600, 2384];
    assert AllIndexable(h, 5) <==> Indexable(h, 0) && Indexable(h, 1) && Indexable(h, 2) && Indexable(h, 3) && Indexable(h, 4);
  }

  class StatsRing {
    var writeIdx: nat
    const buff: array<Option<Stat>>
    ghost var history: seq<Stat>

    ghost predicate Valid()
      reads this, buff
    {
      && buff.Length == CAPACITY
      && writeIdx == |history| % CAPACITY
      && (forall i :: 0 <= i < CAPACITY ==> buff[i] == RingSlot(history, i))
    }

    constructor ()
      ensures Valid() && fresh(buff) && history == []
    {
      writeIdx, history := 0, [];
      buff := new Option<Stat>[CAPACITY](_ => None);
    }

    method WriteStatsToBuffer(s: Stat)
      requires Valid()
      modifies this, buff
      ensures Valid() && history == old(history) + [s]
    {
      ghost var h := history;
      buff[writeIdx] := Some(s);
      writeIdx := writeIdx + 1;
      writeIdx := writeIdx % CAPACITY;
      history := history + [s];
      forall i | 0 <= i < CAPACITY ensures buff[i] == RingSlot(history, i) { WriteMovesOn(h, s, i); }
    }

    method Read(offset: nat, ghost n: nat) returns (s: Option<Stat>)
      requires Valid() && (if offset == 30000 then n == 2384 else 1 <= offset == n <= CAPACITY)
      ensures s == Back(history, n)
    {
      s := buff[Slot(writeIdx, offset)];
      if offset == 30000 { LongOffset(history); } else { SlotIsBack(history, n); }
    }

    /** Fill in one more window, unless that indexes out of range. */
    method Window(w: nat, cur: Stat, last: Stat, r: Report) returns (r': Option<Report>)
      requires w < 5 && |history| >= 2 && Indexable(history, 0) && Reports(history, r, w)
      requires cur == history[|history| - 1] && Start(history, w) == Some(last)
      ensures r'.Some? <==> Indexable(history, w)
      ensures r'.Some? ==> Reports(history, r'.value, w + 1)
    {
      var all := r.all.(rates := r.all.rates[w := Percent(cur.all, last.all)]);
      var cpus := r.cpus;
      for i := 0 to |last.cpus|
        invariant |cpus| == |r.cpus| && i <= |cpus| && i <= |cur.cpus|
        invariant forall c :: 0 <= c < i ==> CpuReports(history, cpus[c], c, w + 1)
        invariant forall c :: i <= c < |cpus| ==> cpus[c] == r.cpus[c]
      {
        if i >= |cur.cpus| || i >= |cpus| { return None; }
        assert CpuReports(history, r.cpus[i], i, w);
        cpus := cpus[i := cpus[i].(rates := cpus[i].rates[w := Percent(cur.cpus[i], last.cpus[i])])];
      }
      forall c | |last.cpus| <= c < |cpus| ensures CpuReports(history, cpus[c], c, w + 1) {
        assert CpuReports(history, r.cpus[c], c, w);
      }
      r' := Some(Report(all, cpus));
    }

    /** The shortest window also lists the processors. */
    method First(cur: Stat, last: Stat) returns (r: Option<Report>)
      requires |history| >= 2
      requires cur == history[|history| - 1] && last == history[|history| - 2]
      ensures r.Some? <==> Indexable(history, 0)
      ensures r.Some? ==> Reports(history, r.value, 1)
    {
      var cpus := [];
      for i := 0 to |last.cpus|
        invariant |cpus| == i <= |cur.cpus|
        invariant forall c :: 0 <= c < i ==>
          cpus[c] == Util(last.cpus[c].id, NO_RATES[0 := Percent(cur.cpus[c], last.cpus[c])])
      {
        if i >= |cur.cpus| { return None; }
        cpus := cpus + [Util(last.cpus[i].id, NO_RATES[0 := Percent(cur.cpus[i], last.cpus[i])])];
      }
      r := Some(Report(Util(cur.all.id, NO_RATES[0 := Percent(cur.all, last.all)]), cpus));
    }

    /** The sample at an offset and, if there is one, its window. */
    method Next(w: nat, offset: nat, cur: Stat, r: Report) returns (r': Option<Report>, done: bool)
      requires Valid() && w < 5 && (if offset == 30000 then STARTS[w] == 2384 else offset == STARTS[w])
      requires |history| >= 2 && Indexable(history, 0) && Reports(history, r, w) && cur == history[|history| - 1]
      ensures r'.Some? <==> Indexable(history, w)
      ensures r'.Some? ==> Reports(history, r'.value, if done then 5 else w + 1)
      ensures done && r'.Some? ==> forall v :: w <= v < 5 ==> Indexable(history, v)
      ensures r'.None? ==> done
    {
      var last := Read(offset, STARTS[w]);
      if last.None? {
        RestIsZero(history, r, w);
        return Some(r), true;
      }
      r' := Window(w, cur, last.value, r);
      done := r'.None?;
    }

    /** The report is that of the whole history, though only the ring is read; there is none
        exactly when some window starts with more processors than the last two samples have. */
    method GetCpuUtilStat() returns (r: Option<Report>)
      requires Valid()
      ensures |history| < 2 ==> r == Some(Report(Util("", NO_RATES), []))
      ensures |history| >= 2 ==> (r.Some? <==> AllIndexable(history, 5))
      ensures |history| >= 2 && r.Some? ==> Indexable(history, 0) && Reports(history, r.value, 5)
    {
      var last := Read(2, 2);
      if last.None? { return Some(Report(Util("", NO_RATES), [])); }
      var cur := Read(1, 1);
      r := First(cur.value, last.value);
      if r.None? { return; }
      var done;
      r, done := Next(1, 10, cur.value, r.value);
      if done { return; }
      r, done := Next(2, 50, cur.value, r.value);
      if done { return; }
      r, done := Next(3, 600, cur.value, r.value);
      if done { return; }
      r, done := Next(4, 30000, cur.value, r.value);
    }
  }
}
