/** Where packets land at Arecibo and FAST, in plain arithmetic on their fields. */
module Placement {
  import opened Words
  import opened DivMod
  import opened Layout
  import opened Window
  import opened Exactness
  import opened CornerTurn

  /** A packet's payload goes, word by word, to the row of its time sample (at Arecibo, in its beam's part
      of the block), and changes nothing else. The Arecibo copy drops what is left over after whole
      32-byte units. */
  lemma PayloadInPlace(cfg: Config, data: seq<U64>, p: Packet)
    requires cfg.Valid() && !cfg.instrument.Dibas? && cfg.DataFits() && |data| == cfg.blockWords
    requires PacketOk(cfg, p) && p.sid < cfg.nSources
    ensures var at := ((if cfg.instrument.S6? then p.sid * cfg.nm else 0) + p.mcnt % cfg.nm) * cfg.rowWords;
      var n := if cfg.instrument.S6? then |p.payload| / 4 * 4 else |p.payload|;
      && 0 <= at && at + n <= |data|
      && forall w :: 0 <= w < |data| ==>
           Place(cfg, data, p)[w] == if at <= w < at + n then p.payload[w - at] else data[w]
  {
    SlotInside(cfg, p);
  }

  /** Accepted packets of a block, no two for the same time sample (and beam, at Arecibo). */
  ghost predicate OncePerSample(cfg: Config, ps: seq<Packet>) {
    && (forall i :: 0 <= i < |ps| ==> ps[i].sid < cfg.nSources)
    && forall i, j :: 0 <= i < j < |ps| && ps[i].mcnt == ps[j].mcnt ==>
         cfg.instrument.S6? && ps[i].sid != ps[j].sid
  }

  lemma OncePerSlot(cfg: Config, start: nat, ps: seq<Packet>)
    requires cfg.Valid() && !cfg.instrument.Dibas? && RangeOk(cfg, ps, start) && OncePerSample(cfg, ps)
    ensures DistinctSlots(cfg, ps)
  {
    forall i, j | 0 <= i < j < |ps|
      ensures Slot(cfg, ps[i]) != Slot(cfg, ps[j])
    {
      SlotsWithinBlock(cfg, start, ps[i], ps[j]);
    }
  }

  /** In a slot of its own, a packet is the last to write its words. */
  lemma LastInSlot(cfg: Config, start: nat, ps: seq<Packet>, i: nat, w: nat)
    requires cfg.Valid() && RangeOk(cfg, ps, start) && DistinctSlots(cfg, ps)
    requires i < |ps| && WordAt(cfg, ps[i], w).Some?
    ensures LastWrite(cfg, ps, w, i)
  {
    WritesOwnSlot(cfg, ps[i], w);
    forall j | i < j < |ps|
      ensures WordAt(cfg, ps[j], w).None?
    {
      if WordAt(cfg, ps[j], w).Some? {
        WritesOwnSlot(cfg, ps[j], w);
      }
    }
  }

  lemma WordPlaced(cfg: Config, start: nat, base: seq<U64>, ps: seq<Packet>, i: nat, w: nat)
    requires cfg.Valid() && RangeOk(cfg, ps, start) && DistinctSlots(cfg, ps)
    requires i < |ps| && w < |base| && WordAt(cfg, ps[i], w).Some?
    ensures PlaceAll(cfg, base, ps)[w] == WordAt(cfg, ps[i], w).value
  {
    LastInSlot(cfg, start, ps, i, w);
    DataAreLastWrites(cfg, base, ps, w);
  }

  lemma PayloadWord(cfg: Config, p: Packet, c: nat)
    requires cfg.Valid() && !cfg.instrument.Dibas? && cfg.DataFits() && PacketOk(cfg, p) && p.sid < cfg.nSources
    requires c < CopiedWords(cfg, p)
    ensures var at := ((if cfg.instrument.S6? then p.sid * cfg.nm else 0) + p.mcnt % cfg.nm) * cfg.rowWords;
      0 <= at && at + c < cfg.blockWords && WordAt(cfg, p, at + c) == Some(p.payload[c])
  {
    SlotInside(cfg, p);
  }

  lemma SampleAt(cfg: Config, start: nat, base: seq<U64>, ps: seq<Packet>, i: nat, c: nat, w: nat)
    requires cfg.Valid() && !cfg.instrument.Dibas? && RangeOk(cfg, ps, start) && OncePerSample(cfg, ps)
    requires i < |ps| && c < |ps[i].payload| && w < |base| && WordAt(cfg, ps[i], w) == Some(ps[i].payload[c])
    ensures PlaceAll(cfg, base, ps)[w] == ps[i].payload[c]
  {
    OncePerSlot(cfg, start, ps);
    WordPlaced(cfg, start, base, ps, i, w);
  }

  /** Whatever order the packets of a block come in, word `c` of the payload of each is at column `c` of
      the row of its own time sample (in its own beam's part, at Arecibo). */
  lemma SamplesInPlace(cfg: Config, start: nat, base: seq<U64>, ps: seq<Packet>, i: nat, c: nat)
    requires cfg.Valid() && !cfg.instrument.Dibas? && cfg.DataFits() && |base| == cfg.blockWords
    requires RangeOk(cfg, ps, start) && OncePerSample(cfg, ps) && i < |ps|
    requires c < if cfg.instrument.S6? then |ps[i].payload| / 4 * 4 else |ps[i].payload|
    ensures var at := ((if cfg.instrument.S6? then ps[i].sid * cfg.nm else 0) + ps[i].mcnt % cfg.nm) * cfg.rowWords;
      0 <= at && at + c < |base| && PlaceAll(cfg, base, ps)[at + c] == ps[i].payload[c]
  {
    var at := ((if cfg.instrument.S6? then ps[i].sid * cfg.nm else 0) + ps[i].mcnt % cfg.nm) * cfg.rowWords;
    PayloadWord(cfg, ps[i], c);
    SampleAt(cfg, start, base, ps, i, c, at + c);
  }

  /** As many packets as a block has slots, each in its own, take all of them. */
  lemma AllSlotsTaken(cfg: Config, ps: seq<Packet>, slot: nat) returns (i: nat)
    requires cfg.Valid() && cfg.DataFits() && OncePerSample(cfg, ps) && DistinctSlots(cfg, ps)
    requires |ps| == cfg.Slots() && slot < cfg.Slots()
    ensures i < |ps| && Slot(cfg, ps[i]) == slot
  {
    forall j | 0 <= j < |ps|
      ensures Slot(cfg, ps[j]) < cfg.Slots()
    {
      SlotInside(cfg, ps[j]);
    }
    i := Pigeonhole(seq(|ps|, j requires 0 <= j < |ps| => Slot(cfg, ps[j])), 0, cfg.Slots(), slot);
  }

  /** The packet in a slot, by time sample and beam. */
  lemma SlotOwner(cfg: Config, start: nat, p: Packet)
    requires cfg.Valid() && !cfg.instrument.Dibas?
    requires start % cfg.nm == 0 && start <= p.mcnt < start + cfg.nm
    ensures p.mcnt == start + Slot(cfg, p) % cfg.nm
    ensures cfg.instrument.S6? ==> p.sid == Slot(cfg, p) / cfg.nm
  {
    PhaseInBlock(cfg, start, p.mcnt);
    if cfg.instrument.S6? {
      CellParts(p.sid, cfg.nm, Phase(cfg, p.mcnt));
    } else {
      ModSmall(Phase(cfg, p.mcnt), cfg.nm);
    }
  }

  /** When a block's packets have arrived once each with full rows, in any order, every word of its rows
      is a sample: row `r` holds mcnt `start + r % nm` (of beam `r / nm`, at Arecibo), in payload order. */
  lemma BlockInPlace(cfg: Config, start: nat, base: seq<U64>, ps: seq<Packet>, w: nat) returns (i: nat)
    requires cfg.Valid() && !cfg.instrument.Dibas? && cfg.DataFits() && |base| == cfg.blockWords
    requires RangeOk(cfg, ps, start) && start % cfg.nm == 0 && OncePerSample(cfg, ps)
    requires |ps| == if cfg.instrument.S6? then cfg.nSources * cfg.nm else cfg.nm
    requires forall j :: 0 <= j < |ps| ==> |ps[j].payload| == cfg.rowWords
    requires cfg.instrument.S6? ==> cfg.rowWords % 4 == 0
    requires w < |ps| * cfg.rowWords
    ensures i < |ps| && w < |base| && w % cfg.rowWords < |ps[i].payload|
    ensures ps[i].mcnt == start + w / cfg.rowWords % cfg.nm
    ensures cfg.instrument.S6? ==> ps[i].sid == w / cfg.rowWords / cfg.nm
    ensures PlaceAll(cfg, base, ps)[w] == ps[i].payload[w % cfg.rowWords]
  {
    var slot, col := Rounds(w, cfg.rowWords), Wrap(w, cfg.rowWords);
    OncePerSlot(cfg, start, ps);
    RoundsBelow(w, cfg.Slots(), cfg.rowWords);
    i := AllSlotsTaken(cfg, ps, slot);
    SlotOwner(cfg, start, ps[i]);
    CellOf(w, cfg.rowWords);
    SamplesInPlace(cfg, start, base, ps, i, col);
  }
}
