/** What a filled block holds: exactly the packets accepted into it, independent of their order,
    with missed-packet counters that count what is missing. */
module Exactness {
  import opened Words
  import opened DivMod
  import opened Layout
  import opened Reassembler
  import opened History
  import opened Window

  // ---- the data are those of the last writers

  ghost predicate LastWrite(cfg: Config, ps: seq<Packet>, w: nat, i: nat)
    requires cfg.Valid() && i < |ps|
  {
    WordAt(cfg, ps[i], w).Some? && forall j :: i < j < |ps| ==> WordAt(cfg, ps[j], w).None?
  }

  /** Every word is what the last packet to write it wrote, and a word nobody wrote is untouched. */
  lemma {:induction false} DataAreLastWrites(cfg: Config, base: seq<U64>, ps: seq<Packet>, w: nat)
    requires cfg.Valid() && w < |base|
    ensures forall i :: 0 <= i < |ps| && LastWrite(cfg, ps, w, i) ==>
              PlaceAll(cfg, base, ps)[w] == WordAt(cfg, ps[i], w).value
    ensures (forall i :: 0 <= i < |ps| ==> WordAt(cfg, ps[i], w).None?) ==> PlaceAll(cfg, base, ps)[w] == base[w]
  {
    if ps != [] {
      var front, p := ps[..|ps| - 1], ps[|ps| - 1];
      DataAreLastWrites(cfg, base, front, w);
      forall i | 0 <= i < |ps| && LastWrite(cfg, ps, w, i)
        ensures PlaceAll(cfg, base, ps)[w] == WordAt(cfg, ps[i], w).value
      {
        if i < |front| {
          LastWriteInFront(cfg, ps, w, i);
        }
      }
    }
  }

  lemma LastWriteInFront(cfg: Config, ps: seq<Packet>, w: nat, i: nat)
    requires cfg.Valid() && i < |ps| - 1 && LastWrite(cfg, ps, w, i)
    ensures LastWrite(cfg, ps[..|ps| - 1], w, i) && WordAt(cfg, ps[|ps| - 1], w).None?
  {
  }

  lemma {:induction false} SomeLastWrite(cfg: Config, ps: seq<Packet>, w: nat, k: nat) returns (i: nat)
    requires cfg.Valid() && k < |ps| && WordAt(cfg, ps[k], w).Some?
    ensures k <= i < |ps| && LastWrite(cfg, ps, w, i)
    decreases |ps| - k
  {
    if LastWrite(cfg, ps, w, k) {
      i := k;
    } else {
      var j :| k < j < |ps| && WordAt(cfg, ps[j], w).Some?;
      i := SomeLastWrite(cfg, ps, w, j);
    }
  }

  // ---- order does not matter between distinct slots

  ghost predicate DistinctSlots(cfg: Config, ps: seq<Packet>)
    requires cfg.Valid()
  {
    forall i, j :: 0 <= i < j < |ps| ==> Slot(cfg, ps[i]) != Slot(cfg, ps[j])
  }

  lemma SameElements(ps: seq<Packet>, qs: seq<Packet>, i: nat) returns (j: nat)
    requires multiset(ps) == multiset(qs) && i < |ps|
    ensures j < |qs| && qs[j] == ps[i]
  {
    assert ps[i] in multiset(qs);
    j :| 0 <= j < |qs| && qs[j] == ps[i];
  }

  lemma OneWordOrderIndependent(cfg: Config, base: seq<U64>, ps: seq<Packet>, qs: seq<Packet>, w: nat)
    requires cfg.Valid() && PacketsOk(cfg, ps) && PacketsOk(cfg, qs)
    requires multiset(ps) == multiset(qs) && DistinctSlots(cfg, ps) && w < |base|
    ensures PlaceAll(cfg, base, ps)[w] == PlaceAll(cfg, base, qs)[w]
  {
    DataAreLastWrites(cfg, base, ps, w);
    DataAreLastWrites(cfg, base, qs, w);
    if k :| 0 <= k < |ps| && WordAt(cfg, ps[k], w).Some? {
      var i := SomeLastWrite(cfg, ps, w, k);
      var l := SameElements(ps, qs, i);
      var j := SomeLastWrite(cfg, qs, w, l);
      var i' := SameElements(qs, ps, j);
      WritesOwnSlot(cfg, ps[i], w);
      WritesOwnSlot(cfg, ps[i'], w);
      assert i == i';
    } else {
      forall j | 0 <= j < |qs|
        ensures WordAt(cfg, qs[j], w).None?
      {
        var i := SameElements(qs, ps, j);
      }
    }
  }

  /** Packets for distinct slots may arrive in any order: the block's data come out the same. */
  lemma OrderIndependent(cfg: Config, base: seq<U64>, ps: seq<Packet>, qs: seq<Packet>)
    requires cfg.Valid() && PacketsOk(cfg, ps) && PacketsOk(cfg, qs)
    requires multiset(ps) == multiset(qs) && DistinctSlots(cfg, ps)
    ensures PlaceAll(cfg, base, ps) == PlaceAll(cfg, base, qs)
  {
    forall w | 0 <= w < |base|
      ensures PlaceAll(cfg, base, ps)[w] == PlaceAll(cfg, base, qs)[w]
    {
      OneWordOrderIndependent(cfg, base, ps, qs, w);
    }
  }

  /** Within one block, sharing a slot means sharing the mcnt and, at Arecibo, the beam. */
  lemma SlotsWithinBlock(cfg: Config, start: nat, p: Packet, q: Packet)
    requires cfg.Valid()
    requires start <= p.mcnt < start + cfg.nm && start <= q.mcnt < start + cfg.nm
    ensures Slot(cfg, p) == Slot(cfg, q) <==> p.mcnt == q.mcnt && (cfg.instrument.S6? ==> p.sid == q.sid)
  {
    var t, u := Phase(cfg, p.mcnt), Phase(cfg, q.mcnt);
    if p.mcnt < q.mcnt {
      ModDistinct(p.mcnt, q.mcnt, cfg.nm);
    } else if q.mcnt < p.mcnt {
      ModDistinct(q.mcnt, p.mcnt, cfg.nm);
    }
    if cfg.instrument.S6? {
      DivModUnique(Slot(cfg, p), cfg.nm, p.sid, t);
      DivModUnique(Slot(cfg, q), cfg.nm, q.sid, u);
    }
  }

  lemma {:induction false} AcceptedOk(cfg: Config, ps: seq<Packet>)
    requires PacketsOk(cfg, ps)
    ensures PacketsOk(cfg, Accepted(cfg, ps))
    ensures forall p :: p in Accepted(cfg, ps) ==> p in ps && ValidSid(cfg, p)
  {
    if ps != [] {
      AcceptedOk(cfg, ps[..|ps| - 1]);
    }
  }

  /** Two filled blocks, from any two runs, that started from the same data and accepted the same
      packets in distinct slots, in whatever orders, hold the same data. */
  lemma FilledBlocksAgree(cfg: Config, e: Filled, f: Filled)
    requires cfg.Valid() && FilledOk(cfg, e) && FilledOk(cfg, f) && e.past.base == f.past.base
    requires multiset(Accepted(cfg, e.past.filed)) == multiset(Accepted(cfg, f.past.filed))
    requires DistinctSlots(cfg, Accepted(cfg, e.past.filed))
    ensures e.block.data == f.block.data
  {
    AcceptedOk(cfg, e.past.filed);
    AcceptedOk(cfg, f.past.filed);
    DataIs(cfg, e.block.data, e.past);
    DataIs(cfg, f.block.data, f.past);
    OrderIndependent(cfg, e.past.base, Accepted(cfg, e.past.filed), Accepted(cfg, f.past.filed));
  }

  // ---- missed-packet counters count what is missing

  predicate ChargedTo(cfg: Config, p: Packet, c: nat)
    requires cfg.Valid()
  {
    ValidSid(cfg, p) && Counter(cfg, p) == c
  }

  /** The mcnts for which a packet charged to counter `c` was accepted. */
  ghost function Seen(cfg: Config, ps: seq<Packet>, c: nat): set<nat>
    requires cfg.Valid()
  {
    set i | 0 <= i < |ps| && ChargedTo(cfg, ps[i], c) :: ps[i].mcnt
  }

  ghost function Interval(start: nat, n: nat): (s: set<nat>)
    ensures |s| == n && forall m :: m in s <==> start <= m < start + n
  {
    if n == 0 then {} else Interval(start, n - 1) + {start + n - 1}
  }

  ghost predicate Distinct(xs: seq<nat>) {
    forall i, j :: 0 <= i < j < |xs| ==> xs[i] != xs[j]
  }

  ghost function Elements(xs: seq<nat>): set<nat> {
    set i | 0 <= i < |xs| :: xs[i]
  }

  lemma {:induction false} DistinctCount(xs: seq<nat>)
    requires Distinct(xs)
    ensures |Elements(xs)| == |xs|
  {
    if xs == [] {
      assert Elements(xs) == {};
    } else {
      var front, x := xs[..|xs| - 1], xs[|xs| - 1];
      assert forall i :: 0 <= i < |front| ==> front[i] == xs[i];
      DistinctCount(front);
      assert Elements(xs) == Elements(front) + {x};
    }
  }

  lemma SubsetOfSameSize(a: set<nat>, b: set<nat>)
    requires a <= b && |a| == |b|
    ensures a == b
  {
    assert b == a + (b - a);
    assert |b| == |a| + |b - a|;
  }

  /** `n` distinct numbers below `start + n`, none below `start`, are all of them. */
  lemma Pigeonhole(xs: seq<nat>, start: nat, n: nat, x: nat) returns (i: nat)
    requires Distinct(xs) && |xs| == n && start <= x < start + n
    requires forall i :: 0 <= i < |xs| ==> start <= xs[i] < start + n
    ensures i < |xs| && xs[i] == x
  {
    DistinctCount(xs);
    SubsetOfSameSize(Elements(xs), Interval(start, n));
    assert x in Elements(xs);
    i :| 0 <= i < |xs| && xs[i] == x;
  }

  /** The mcnts of a block for which no packet charged to counter `c` was accepted. */
  ghost function Missing(cfg: Config, ps: seq<Packet>, c: nat, start: nat): set<nat>
    requires cfg.Valid()
  {
    Interval(start, cfg.nm) - Seen(cfg, ps, c)
  }

  /** No two accepted packets charged to counter `c` have the same mcnt. */
  ghost predicate NoDuplicates(cfg: Config, ps: seq<Packet>, c: nat)
    requires cfg.Valid()
  {
    forall i, j :: 0 <= i < j < |ps| && ChargedTo(cfg, ps[i], c) && ChargedTo(cfg, ps[j], c) ==>
      ps[i].mcnt != ps[j].mcnt
  }

  lemma SeenStep(cfg: Config, front: seq<Packet>, p: Packet, c: nat)
    requires cfg.Valid()
    ensures Seen(cfg, front + [p], c) == Seen(cfg, front, c) + if ChargedTo(cfg, p, c) then {p.mcnt} else {}
  {
    var ps := front + [p];
    assert ps[|front|] == p;
    forall m | m in Seen(cfg, front, c)
      ensures m in Seen(cfg, ps, c)
    {
      var i :| 0 <= i < |front| && ChargedTo(cfg, front[i], c) && front[i].mcnt == m;
      assert ps[i] == front[i];
    }
  }

  lemma DuplicatesStep(cfg: Config, front: seq<Packet>, p: Packet, c: nat)
    requires cfg.Valid()
    ensures NoDuplicates(cfg, front + [p], c) <==>
            NoDuplicates(cfg, front, c) && (ChargedTo(cfg, p, c) ==> p.mcnt !in Seen(cfg, front, c))
  {
    var ps := front + [p];
    assert ps[|front|] == p;
    assert forall i :: 0 <= i < |front| ==> ps[i] == front[i];
    if ChargedTo(cfg, p, c) && p.mcnt in Seen(cfg, front, c) {
      var i :| 0 <= i < |front| && ChargedTo(cfg, front[i], c) && front[i].mcnt == p.mcnt;
      assert ps[i].mcnt == ps[|front|].mcnt;
    }
  }

  /** Pigeonhole: there are as many distinct mcnts as charged packets exactly when none repeats. */
  lemma {:induction false} SeenCount(cfg: Config, ps: seq<Packet>, c: nat)
    requires cfg.Valid()
    ensures |Seen(cfg, ps, c)| <= Charged(cfg, ps, c)
    ensures |Seen(cfg, ps, c)| == Charged(cfg, ps, c) <==> NoDuplicates(cfg, ps, c)
  {
    if ps == [] {
      assert Seen(cfg, ps, c) == {};
    } else {
      var front, p := ps[..|ps| - 1], ps[|ps| - 1];
      assert ps == front + [p];
      SeenCount(cfg, front, c);
      SeenStep(cfg, front, p, c);
      DuplicatesStep(cfg, front, p, c);
    }
  }

  lemma MissingCount(cfg: Config, ps: seq<Packet>, c: nat, start: nat)
    requires cfg.Valid() && RangeOk(cfg, ps, start)
    ensures |Missing(cfg, ps, c, start)| == cfg.nm - |Seen(cfg, ps, c)|
  {
    var all, seen, missing := Interval(start, cfg.nm), Seen(cfg, ps, c), Missing(cfg, ps, c, start);
    assert all == seen + missing && seen !! missing;
  }

  /** A block's missed-packet counter is the number of its mcnts that counter never saw, exactly when
      no accepted packet was a duplicate. A duplicate makes it too small, or wraps it round. */
  lemma MissedCountExact(cfg: Config, b: Block, counter: nat, past: Past, start: nat, c: nat)
    requires cfg.Valid() && BlockOk(cfg, b, counter, past, start) && c < cfg.nBors && |past.filed| < TWO_64 - cfg.nm
    ensures b.header.missed[c] == |Missing(cfg, past.filed, c, start)| <==> NoDuplicates(cfg, past.filed, c)
    ensures NoDuplicates(cfg, past.filed, c) ==> b.header.missed[c] == cfg.nm - Charged(cfg, past.filed, c)
  {
    assert CounterOk(cfg, b.header.missed, past.filed, c);
    var charged, seen, missing := Counted(cfg, past.filed, c, start);
    CountsAgree(b.header.missed[c], cfg.nm, charged, seen, missing);
  }

  lemma Counted(cfg: Config, ps: seq<Packet>, c: nat, start: nat) returns (charged: nat, seen: nat, missing: nat)
    requires cfg.Valid() && RangeOk(cfg, ps, start)
    ensures charged == Charged(cfg, ps, c) && missing == |Missing(cfg, ps, c, start)|
    ensures missing == cfg.nm - seen && seen <= charged <= |ps|
    ensures seen == charged <==> NoDuplicates(cfg, ps, c)
  {
    charged, seen, missing := Charged(cfg, ps, c), |Seen(cfg, ps, c)|, |Missing(cfg, ps, c, start)|;
    SeenCount(cfg, ps, c);
    MissingCount(cfg, ps, c, start);
  }

  /** Counting down `charged` times from `n`, modulo 2^64, gives what is missing if all are seen once. */
  lemma CountsAgree(count: U64, n: nat, charged: nat, seen: nat, missing: nat)
    requires count == Trunc64(n - charged) && missing == n - seen
    requires seen <= charged < TWO_64 - n
    ensures count == missing <==> seen == charged
    ensures seen == charged ==> count == n - charged
  {
    TruncOnce(n - charged);
  }

  lemma TruncOnce(a: int)
    requires -TWO_64 < a < TWO_64
    ensures Trunc64(a) == if a >= 0 then a else a + TWO_64
  {
  }

  lemma {:induction false} AcceptedHas(cfg: Config, ps: seq<Packet>, i: nat)
    requires i < |ps| && ValidSid(cfg, ps[i])
    ensures ps[i] in Accepted(cfg, ps)
  {
    if i < |ps| - 1 {
      AcceptedHas(cfg, ps[..|ps| - 1], i);
    }
  }

  lemma {:induction false} AcceptedIndex(cfg: Config, ps: seq<Packet>, i: nat) returns (j: nat)
    requires i < |Accepted(cfg, ps)|
    ensures j < |ps| && ps[j] == Accepted(cfg, ps)[i] && ValidSid(cfg, ps[j])
  {
    if i < |Accepted(cfg, ps[..|ps| - 1])| {
      j := AcceptedIndex(cfg, ps[..|ps| - 1], i);
    } else {
      j := |ps| - 1;
    }
  }

  /** Counters `c` and `d` count packets for the same slots. At Green Bank the source id does not choose
      the slot, elsewhere every counter has its own. */
  predicate SharesSlots(cfg: Config, c: nat, d: nat) {
    d == c || cfg.instrument.Dibas?
  }

  /** No counter that shares its slots with `c` saw a packet for mcnt `m`. */
  ghost predicate MissingFor(cfg: Config, ps: seq<Packet>, c: nat, start: nat, m: nat)
    requires cfg.Valid()
  {
    forall d: nat :: d < cfg.nBors && SharesSlots(cfg, c, d) ==> m in Missing(cfg, ps, d, start)
  }

  ghost predicate SlotUnused(cfg: Config, ps: seq<Packet>, slot: nat)
    requires cfg.Valid()
  {
    forall i :: 0 <= i < |ps| ==> Slot(cfg, ps[i]) != slot
  }

  /** An mcnt is missing exactly when the block's slot for it was given no packet, and the words of
      such a slot are as they were when the block was initialised. (At FAST all packets are charged to
      counter 0, so the packet `p` standing for mcnt and counter is one charged there.) */
  lemma MissingSlotsUntouched(cfg: Config, b: Block, counter: nat, past: Past, start: nat, p: Packet)
    requires cfg.Valid() && BlockOk(cfg, b, counter, past, start)
    requires ValidSid(cfg, p) && start <= p.mcnt < start + cfg.nm
    ensures MissingFor(cfg, past.filed, Counter(cfg, p), start, p.mcnt)
       <==> SlotUnused(cfg, Accepted(cfg, past.filed), Slot(cfg, p))
    ensures MissingFor(cfg, past.filed, Counter(cfg, p), start, p.mcnt) ==>
      forall w: nat :: w < cfg.blockWords && SlotOfWord(cfg, w) == Slot(cfg, p) ==> b.data[w] == past.base[w]
  {
    var acc, c := Accepted(cfg, past.filed), Counter(cfg, p);
    AcceptedOk(cfg, past.filed);
    DataIs(cfg, b.data, past);
    if SlotUnused(cfg, acc, Slot(cfg, p)) {
      UnusedIsMissing(cfg, past.filed, start, p);
    } else {
      UsedIsSeen(cfg, past.filed, start, p);
    }
    if MissingFor(cfg, past.filed, c, start, p.mcnt) {
      forall w: nat | w < cfg.blockWords && SlotOfWord(cfg, w) == Slot(cfg, p)
        ensures b.data[w] == past.base[w]
      {
        UnusedSlotKept(cfg, past.base, acc, w);
      }
    }
  }

  lemma UnusedIsMissing(cfg: Config, ps: seq<Packet>, start: nat, p: Packet)
    requires cfg.Valid() && RangeOk(cfg, ps, start) && ValidSid(cfg, p) && start <= p.mcnt < start + cfg.nm
    requires SlotUnused(cfg, Accepted(cfg, ps), Slot(cfg, p))
    ensures MissingFor(cfg, ps, Counter(cfg, p), start, p.mcnt)
  {
    forall d: nat | d < cfg.nBors && SharesSlots(cfg, Counter(cfg, p), d)
      ensures p.mcnt !in Seen(cfg, ps, d)
    {
      if p.mcnt in Seen(cfg, ps, d) {
        var i :| 0 <= i < |ps| && ChargedTo(cfg, ps[i], d) && ps[i].mcnt == p.mcnt;
        AcceptedHas(cfg, ps, i);
        SlotsWithinBlock(cfg, start, ps[i], p);
        assert false;
      }
    }
  }

  lemma UsedIsSeen(cfg: Config, ps: seq<Packet>, start: nat, p: Packet)
    requires cfg.Valid() && RangeOk(cfg, ps, start) && ValidSid(cfg, p) && start <= p.mcnt < start + cfg.nm
    requires !SlotUnused(cfg, Accepted(cfg, ps), Slot(cfg, p))
    ensures !MissingFor(cfg, ps, Counter(cfg, p), start, p.mcnt)
  {
    var acc := Accepted(cfg, ps);
    var i :| 0 <= i < |acc| && Slot(cfg, acc[i]) == Slot(cfg, p);
    var j := AcceptedIndex(cfg, ps, i);
    var d := Counter(cfg, ps[j]);
    SlotsWithinBlock(cfg, start, ps[j], p);
    assert ChargedTo(cfg, ps[j], d);
    assert p.mcnt in Seen(cfg, ps, d);
    assert p.mcnt !in Missing(cfg, ps, d, start);
  }

  /** The words of a slot no packet was given are not written. */
  lemma UnusedSlotKept(cfg: Config, base: seq<U64>, ps: seq<Packet>, w: nat)
    requires cfg.Valid() && PacketsOk(cfg, ps) && w < |base| && SlotUnused(cfg, ps, SlotOfWord(cfg, w))
    ensures PlaceAll(cfg, base, ps)[w] == base[w]
  {
    forall i | 0 <= i < |ps|
      ensures WordAt(cfg, ps[i], w).None?
    {
      if WordAt(cfg, ps[i], w).Some? {
        WritesOwnSlot(cfg, ps[i], w);
      }
    }
    DataAreLastWrites(cfg, base, ps, w);
  }

  // ---- conservation

  function SumMissed(missed: seq<U64>): nat {
    if missed == [] then 0 else SumMissed(missed[..|missed| - 1]) + missed[|missed| - 1]
  }

  /** Packets charged to the first `k` counters. */
  function ChargedBelow(cfg: Config, ps: seq<Packet>, k: nat): nat
    requires cfg.Valid()
  {
    if k == 0 then 0 else ChargedBelow(cfg, ps, k - 1) + Charged(cfg, ps, k - 1)
  }

  predicate WithinBlock(cfg: Config, ps: seq<Packet>, c: nat)
    requires cfg.Valid()
  {
    Charged(cfg, ps, c) <= cfg.nm
  }

  /** 2^64 for each of the first `k` counters that was charged more than `nm` times. */
  function Overdraft(cfg: Config, ps: seq<Packet>, k: nat): nat
    requires cfg.Valid()
  {
    if k == 0 then 0 else Overdraft(cfg, ps, k - 1) + if WithinBlock(cfg, ps, k - 1) then 0 else TWO_64
  }

  lemma {:induction false} ChargedBelowStep(cfg: Config, ps: seq<Packet>, k: nat)
    requires cfg.Valid() && ps != []
    ensures var p := ps[|ps| - 1];
      ChargedBelow(cfg, ps, k)
      == ChargedBelow(cfg, ps[..|ps| - 1], k) + if ValidSid(cfg, p) && Counter(cfg, p) < k then 1 else 0
  {
    if k > 0 {
      ChargedBelowStep(cfg, ps, k - 1);
    }
  }

  lemma {:induction false} NothingCharged(cfg: Config, k: nat)
    requires cfg.Valid()
    ensures ChargedBelow(cfg, [], k) == 0
  {
    if k > 0 {
      NothingCharged(cfg, k - 1);
    }
  }

  /** Every accepted packet is charged to exactly one counter. */
  lemma {:induction false} EachChargedOnce(cfg: Config, ps: seq<Packet>)
    requires cfg.Valid()
    ensures ChargedBelow(cfg, ps, cfg.nBors) == |Accepted(cfg, ps)|
  {
    if ps == [] {
      NothingCharged(cfg, cfg.nBors);
    } else {
      EachChargedOnce(cfg, ps[..|ps| - 1]);
      ChargedBelowStep(cfg, ps, cfg.nBors);
    }
  }

  lemma {:induction false} SumMissedBelow(cfg: Config, missed: seq<U64>, ps: seq<Packet>, k: nat)
    requires cfg.Valid() && MissedOk(cfg, missed, ps) && k <= cfg.nBors && |ps| < TWO_64 - cfg.nm
    ensures SumMissed(missed[..k]) == cfg.nm * k - ChargedBelow(cfg, ps, k) + Overdraft(cfg, ps, k)
  {
    if k > 0 {
      SumMissedBelow(cfg, missed, ps, k - 1);
      assert CounterOk(cfg, missed, ps, k - 1);
      assert missed[..k][..k - 1] == missed[..k - 1];
      TruncOnce(cfg.nm - Charged(cfg, ps, k - 1));
      MulStep(cfg.nm, k - 1);
    }
  }

  /** Conservation: missed plus counted packets make up the block and the bad-source packets, as
      integers, exactly when no counter was charged more than `nm` times; and always modulo 2^64. */
  lemma CountersConserve(cfg: Config, b: Block, counter: nat, past: Past, start: int)
    requires cfg.Valid() && BlockOk(cfg, b, counter, past, start) && |past.filed| < TWO_64 - cfg.nm
    ensures var bad := |past.filed| - |Accepted(cfg, past.filed)|;
      && SumMissed(b.header.missed) + counter
         == cfg.nm * cfg.nBors + bad + Overdraft(cfg, past.filed, cfg.nBors)
      && (Overdraft(cfg, past.filed, cfg.nBors) == 0 <==>
          forall c :: 0 <= c < cfg.nBors ==> WithinBlock(cfg, past.filed, c))
  {
    var missed := b.header.missed;
    SumMissedBelow(cfg, missed, past.filed, cfg.nBors);
    assert missed[..cfg.nBors] == missed;
    EachChargedOnce(cfg, past.filed);
    NoOverdraft(cfg, past.filed, cfg.nBors);
  }

  lemma {:induction false} NoOverdraft(cfg: Config, ps: seq<Packet>, k: nat)
    requires cfg.Valid()
    ensures Overdraft(cfg, ps, k) == 0 <==> forall c :: 0 <= c < k ==> WithinBlock(cfg, ps, c)
  {
    if k > 0 {
      NoOverdraft(cfg, ps, k - 1);
      if !WithinBlock(cfg, ps, k - 1) {
        assert Overdraft(cfg, ps, k) > 0;
      }
    }
  }

  // ---- successive fills

  /** Blocks filled one after the other without a resync in between follow on exactly. */
  ghost predicate Consecutive(cfg: Config, log: seq<Filled>) {
    forall i :: 0 <= i < |log| - 1 && log[i].epoch == log[i + 1].epoch ==> log[i + 1].mcnt == log[i].mcnt + cfg.nm
  }

  ghost predicate LogFollowsOn(cfg: Config, t: Track) {
    && Consecutive(cfg, t.log)
    && (t.log != [] ==>
          var last := t.log[|t.log| - 1];
          last.epoch <= t.epoch && (last.epoch == t.epoch ==> t.net.mcntStart == last.mcnt + cfg.nm))
  }

  lemma MoveFollowsOn(cfg: Config, t: Track, r: Track, move: Move)
    requires Moves(cfg, t, r, move) && LogFollowsOn(cfg, t)
    ensures LogFollowsOn(cfg, r)
  {
    if move.Advance? {
      assert forall i :: 0 <= i < |t.log| ==> r.log[i] == t.log[i];
    }
  }

  /** Over every run from start-up: fills are strictly cyclic in the ring, whatever resyncs happen,
      and their mcnts advance by one block between resyncs. */
  lemma {:induction false} FillsCyclicAndConsecutive(cfg: Config, memory: seq<Block>, ps: seq<Packet>)
    requires cfg.Valid() && cfg.SpanFits() && RingShape(cfg, memory) && PacketsOk(cfg, ps)
    ensures var t := TRun(cfg, TStart(cfg, memory), ps);
      WindowInv(cfg, t) && LogFollowsOn(cfg, t)
  {
    StartInv(cfg, memory);
    if ps != [] {
      var t := TRun(cfg, TStart(cfg, memory), ps[..|ps| - 1]);
      FillsCyclicAndConsecutive(cfg, memory, ps[..|ps| - 1]);
      StepInv(cfg, t, ps[|ps| - 1]);
      StepMoves(cfg, t, ps[|ps| - 1]);
      MoveFollowsOn(cfg, t, TStep(cfg, t, ps[|ps| - 1]), MoveOf(cfg, t.net, ps[|ps| - 1]));
    }
  }

  /** The `i`-th block filled lies in ring slot `i` modulo the ring, which is its mcnt's, and its header
      carries that mcnt. */
  lemma FillsInRotation(cfg: Config, memory: seq<Block>, ps: seq<Packet>, i: nat)
    requires cfg.Valid() && cfg.SpanFits() && RingShape(cfg, memory) && PacketsOk(cfg, ps)
    requires i < |TRun(cfg, TStart(cfg, memory), ps).log|
    ensures var e := TRun(cfg, TStart(cfg, memory), ps).log[i];
      && e.slot == i % cfg.nBlocks == e.mcnt / cfg.nm % cfg.nBlocks
      && e.block.header.mcnt == e.mcnt && e.mcnt % cfg.nm == 0
  {
    StartInv(cfg, memory);
    RunInv(cfg, TStart(cfg, memory), ps);
    assert EntryOk(cfg, TRun(cfg, TStart(cfg, memory), ps).log, i);
  }

  // ---- late-packet warnings

  /** A dropped late packet is reported exactly when a block has been filled since start-up or the
      last resync: right after either, leftovers of the previous stream are expected. */
  ghost predicate LateReportsSettled(cfg: Config, t: Track) {
    && t.net.mcntLogLate <= t.net.mcntStart + cfg.nm
    && (t.net.mcntStart >= t.net.mcntLogLate <==> t.log != [] && t.log[|t.log| - 1].epoch == t.epoch)
  }

  lemma MoveSettles(cfg: Config, t: Track, r: Track, move: Move)
    requires cfg.Valid() && Moves(cfg, t, r, move) && LogFollowsOn(cfg, t) && LateReportsSettled(cfg, t)
    ensures LateReportsSettled(cfg, r)
  {
  }

  lemma {:induction false} LateReports(cfg: Config, memory: seq<Block>, ps: seq<Packet>, p: Packet)
    requires cfg.Valid() && cfg.SpanFits() && RingShape(cfg, memory) && PacketsOk(cfg, ps) && PacketOk(cfg, p)
    ensures var t := TRun(cfg, TStart(cfg, memory), ps);
      && LateReportsSettled(cfg, t)
      && (LateWarns(cfg, t.net, p) <==>
          Classify(cfg, t.net, p).Late? && t.log != [] && t.log[|t.log| - 1].epoch == t.epoch)
  {
    if ps != [] {
      var front, q := ps[..|ps| - 1], ps[|ps| - 1];
      FillsCyclicAndConsecutive(cfg, memory, front);
      LateReports(cfg, memory, front, q);
      var t := TRun(cfg, TStart(cfg, memory), front);
      StepMoves(cfg, t, q);
      MoveSettles(cfg, t, TStep(cfg, t, q), MoveOf(cfg, t.net, q));
    }
  }
}
