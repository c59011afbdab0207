/** Which packets a block's missed-packet counters count, in terms of their source ids. */
module Counts {
  import opened Words
  import opened Layout
  import opened Reassembler
  import opened History
  import opened Window
  import opened Exactness

  /** The positions of the packets charged to counter `c`. */
  ghost function ChargedAt(cfg: Config, ps: seq<Packet>, c: nat): set<nat>
    requires cfg.Valid()
  {
    set i: nat | i < |ps| && ChargedTo(cfg, ps[i], c)
  }

  lemma ChargedAtStep(cfg: Config, front: seq<Packet>, p: Packet, c: nat)
    requires cfg.Valid()
    ensures ChargedAt(cfg, front + [p], c)
         == ChargedAt(cfg, front, c) + if ChargedTo(cfg, p, c) then {|front|} else {}
  {
    var ps := front + [p];
    assert ps[|front|] == p && forall i: nat :: i < |front| ==> ps[i] == front[i];
  }

  lemma {:induction false} ChargedIsCount(cfg: Config, ps: seq<Packet>, c: nat)
    requires cfg.Valid()
    ensures Charged(cfg, ps, c) == |ChargedAt(cfg, ps, c)|
  {
    if ps == [] {
      assert ChargedAt(cfg, ps, c) == {};
    } else {
      var front, p := ps[..|ps| - 1], ps[|ps| - 1];
      assert ps == front + [p];
      ChargedIsCount(cfg, front, c);
      ChargedAtStep(cfg, front, p, c);
    }
  }

  /** At Arecibo and Green Bank, counter `s` of a block is `nm` less the packets of source `s` counted in
      the block, as a 64-bit word. */
  lemma MissedOfSource(cfg: Config, b: Block, counter: nat, past: Past, start: int, s: nat)
    requires cfg.Valid() && !cfg.instrument.Fast? && BlockOk(cfg, b, counter, past, start) && s < cfg.nBors
    ensures b.header.missed[s]
         == (cfg.nm - |set i: nat | i < |past.filed| && past.filed[i].sid == s|) % 0x1_0000_0000_0000_0000
  {
    assert CounterOk(cfg, b.header.missed, past.filed, s);
    ChargedIsCount(cfg, past.filed, s);
    assert (set i: nat | i < |past.filed| && past.filed[i].sid == s)
        == ChargedAt(cfg, past.filed, s);
  }

  /** At FAST, counter 0 is `nm` less the packets counted in the block with a source id in range, and the
      other counters stay at `nm`. */
  lemma MissedAtFast(cfg: Config, b: Block, counter: nat, past: Past, start: int)
    requires cfg.Valid() && cfg.instrument.Fast? && BlockOk(cfg, b, counter, past, start)
    ensures b.header.missed[0]
         == (cfg.nm - |set i: nat | i < |past.filed| && past.filed[i].sid < cfg.nSources|) % 0x1_0000_0000_0000_0000
    ensures forall c :: 1 <= c < cfg.nBors ==> b.header.missed[c] == cfg.nm
  {
    assert CounterOk(cfg, b.header.missed, past.filed, 0);
    ChargedIsCount(cfg, past.filed, 0);
    assert (set i: nat | i < |past.filed| && past.filed[i].sid < cfg.nSources)
        == ChargedAt(cfg, past.filed, 0);
    forall c | 1 <= c < cfg.nBors
      ensures b.header.missed[c] == cfg.nm
    {
      assert CounterOk(cfg, b.header.missed, past.filed, c);
      ChargedIsCount(cfg, past.filed, c);
      assert ChargedAt(cfg, past.filed, c) == {};
      SmallTrunc(cfg.nm);
    }
  }

  lemma NoWrap(count: U64, n: nat, charged: nat, missing: nat)
    requires count == Trunc64(n - charged) && missing == n - charged && n < TWO_64
    ensures count == missing
  {
    SmallTrunc(missing);
  }

  lemma SourceAndCounter(cfg: Config, ps: seq<Packet>, s: nat)
    requires cfg.Valid() && !cfg.instrument.Fast? && s < cfg.nBors
    ensures (set i | 0 <= i < |ps| && ps[i].sid == s :: ps[i].mcnt) == Seen(cfg, ps, s)
    ensures (forall i, j :: 0 <= i < j < |ps| && ps[i].sid == s && ps[j].sid == s ==> ps[i].mcnt != ps[j].mcnt)
        ==> NoDuplicates(cfg, ps, s)
  {
    assert forall p: Packet :: ChargedTo(cfg, p, s) <==> p.sid == s;
  }

  lemma SourcesAtFast(cfg: Config, ps: seq<Packet>)
    requires cfg.Valid() && cfg.instrument.Fast?
    ensures (set i | 0 <= i < |ps| && ps[i].sid < cfg.nSources :: ps[i].mcnt) == Seen(cfg, ps, 0)
    ensures (forall i, j :: 0 <= i < j < |ps| && ps[i].mcnt == ps[j].mcnt ==>
               cfg.nSources <= ps[i].sid || cfg.nSources <= ps[j].sid) ==> NoDuplicates(cfg, ps, 0)
  {
    assert forall p: Packet :: ChargedTo(cfg, p, 0) <==> p.sid < cfg.nSources;
  }

  /** With no packet of source `s` repeated, counter `s` is the number of the block's mcnts for which no
      packet of source `s` was counted. */
  lemma MissedMcntsOfSource(cfg: Config, b: Block, counter: nat, past: Past, start: nat, s: nat)
    requires cfg.Valid() && !cfg.instrument.Fast? && BlockOk(cfg, b, counter, past, start) && s < cfg.nBors
    requires forall i, j :: 0 <= i < j < |past.filed| && past.filed[i].sid == s && past.filed[j].sid == s ==>
      past.filed[i].mcnt != past.filed[j].mcnt
    ensures b.header.missed[s] == |Interval(start, cfg.nm)
                                    - (set i | 0 <= i < |past.filed| && past.filed[i].sid == s :: past.filed[i].mcnt)|
  {
    SourceAndCounter(cfg, past.filed, s);
    var charged, _, missing := Counted(cfg, past.filed, s, start);
    assert CounterOk(cfg, b.header.missed, past.filed, s);
    NoWrap(b.header.missed[s], cfg.nm, charged, missing);
  }

  /** The same at FAST, where all packets with a source id in range count as one source. */
  lemma MissedMcntsAtFast(cfg: Config, b: Block, counter: nat, past: Past, start: nat)
    requires cfg.Valid() && cfg.instrument.Fast? && BlockOk(cfg, b, counter, past, start)
    requires forall i, j :: 0 <= i < j < |past.filed| && past.filed[i].mcnt == past.filed[j].mcnt ==>
      cfg.nSources <= past.filed[i].sid || cfg.nSources <= past.filed[j].sid
    ensures b.header.missed[0]
         == |Interval(start, cfg.nm)
             - (set i | 0 <= i < |past.filed| && past.filed[i].sid < cfg.nSources :: past.filed[i].mcnt)|
  {
    SourcesAtFast(cfg, past.filed);
    var charged, _, missing := Counted(cfg, past.filed, 0, start);
    assert CounterOk(cfg, b.header.missed, past.filed, 0);
    NoWrap(b.header.missed[0], cfg.nm, charged, missing);
  }
}
