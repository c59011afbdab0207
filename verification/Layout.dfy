/** Build-time constants, decoded packets, and where a packet's payload lands inside a block. */
module Layout {
  import opened Words
  import opened DivMod

  /** The three instruments: Arecibo (s6_net_thread), Green Bank and FAST (s6_pktsock_thread). */
  datatype Instrument = S6 | Dibas | Fast

  /** The constants a build fixes.
      `nm` mcnts per block, `nBlocks` input blocks in the ring, `nSources` accepted source ids,
      `nBors` missed-packet counters, `rowWords` 64-bit words in one row of the block's data,
      `nSpectra` spectra in a packet, `nSub` sub-spectra in a spectrum, `blockWords` words of data in a block. */
  datatype Config = Config(
    instrument: Instrument, nm: nat, nBlocks: nat, nSources: nat, nBors: nat,
    rowWords: nat, nSpectra: nat, nSub: nat, blockWords: nat)
  {
    /** Number of fine channels: rows in one sub-spectrum. */
    function Fine(): (f: nat)
      ensures 1 <= nSpectra && 1 <= nm ==> 1 <= f
    {
      nSpectra * nm
    }

    /** Places of packets in a block. */
    function Slots(): nat {
      if instrument.S6? then nSources * nm else nm
    }

    /** Rows of a Green Bank block. */
    function Rows(): nat {
      nSub * Fine()
    }

    /** Rows of a Green Bank payload. */
    function PayloadRows(): nat {
      nSpectra * nSub
    }

    /** One more than the largest mcnt the packet header can carry (48 or 56 bits). */
    function McntLimit(): int {
      if instrument.S6? then 0x1_0000_0000_0000 else 0x100_0000_0000_0000
    }

    predicate Valid() {
      && 2 <= nm && 2 <= nBlocks && 1 <= nSources && 1 <= nBors
      && 1 <= rowWords && 1 <= nSpectra && 1 <= nSub
      && nm < 0x100_0000_0000_0000
      && (!instrument.Fast? ==> nSources == nBors)
    }

    /** Mcnts once round the ring. */
    function Span(): int {
      nm * nBlocks
    }

    /** Once round the ring leaves ample room in 64 bits. */
    predicate SpanFits() {
      0 < Span() <= 0x100_0000_0000_0000
    }

    /** A block's data hold all its slots. */
    predicate DataFits() {
      if instrument.Dibas? then Rows() * rowWords == blockWords && nSpectra <= 256
      else Slots() * rowWords <= blockWords
    }

    /** Out-of-sequence packets tolerated in a row. */
    function MaxOutOfSeq(): nat {
      2 * nBors
    }

    /** Packets this far behind the window, or further, are out of sequence and not merely late. */
    function LateThreshold(): int {
      2 * Span()
    }
  }

  /** A packet after its header has been decoded. */
  datatype Packet = Packet(mcnt: U64, pchan: U64, nchan: U64, sid: U64, payload: seq<U64>)

  /** What the receiver guarantees of a packet it hands on: the mcnt fits its header field, and
      the payload has a size the instrument sends. */
  predicate PacketOk(cfg: Config, p: Packet) {
    && p.mcnt < cfg.McntLimit()
    && (if cfg.instrument.Dibas? then |p.payload| == cfg.PayloadRows() * cfg.rowWords
        else |p.payload| <= cfg.rowWords)
  }

  predicate ValidSid(cfg: Config, p: Packet) {
    p.sid < cfg.nSources
  }

  /** The missed-packet counter a packet is charged to. */
  function Counter(cfg: Config, p: Packet): (c: nat)
    requires cfg.Valid()
    ensures ValidSid(cfg, p) ==> c < cfg.nBors
  {
    if cfg.instrument.Fast? then 0 else p.sid
  }

  /** Number, since mcnt 0, of the block that holds `mcnt`. */
  function BlockNumber(cfg: Config, mcnt: nat): nat
    requires cfg.Valid()
  {
    Rounds(mcnt, cfg.nm)
  }

  /** Physical ring slot of the `k`-th block since mcnt 0. */
  function RingSlot(cfg: Config, k: nat): (b: nat)
    requires cfg.Valid()
    ensures b < cfg.nBlocks
  {
    Wrap(k, cfg.nBlocks)
  }

  /** Physical ring slot of the block that holds `mcnt`. */
  function BlockForMcnt(cfg: Config, mcnt: nat): (b: nat)
    requires cfg.Valid()
    ensures b < cfg.nBlocks
  {
    RingSlot(cfg, BlockNumber(cfg, mcnt))
  }

  /** A packet's place in its block, in mcnts. */
  function Phase(cfg: Config, mcnt: nat): (t: nat)
    requires cfg.Valid()
    ensures t < cfg.nm
  {
    Wrap(mcnt, cfg.nm)
  }

  /** The unit of placement: one time sample of one beam at Arecibo, one time sample elsewhere. */
  function Slot(cfg: Config, p: Packet): nat
    requires cfg.Valid()
  {
    if cfg.instrument.S6? then Cell(p.sid, cfg.nm, Phase(cfg, p.mcnt)) else Phase(cfg, p.mcnt)
  }

  /** Words of payload copied: the Arecibo copy moves whole 32-byte units and drops the rest. */
  function CopiedWords(cfg: Config, p: Packet): nat {
    if cfg.instrument.S6? then |p.payload| / 4 * 4 else |p.payload|
  }

  // Green Bank data are grouped by sub-spectrum, then by time; payloads by spectrum, then by sub-spectrum.

  /** The sub-spectrum a word of a Green Bank block belongs to. */
  function DibasSub(cfg: Config, w: nat): nat
    requires cfg.Valid()
  {
    Rounds(Rounds(w, cfg.rowWords), cfg.Fine())
  }

  /** The row (time) the word has in its sub-spectrum. */
  function DibasFine(cfg: Config, w: nat): nat
    requires cfg.Valid()
  {
    Wrap(Rounds(w, cfg.rowWords), cfg.Fine())
  }

  /** The place in the block of the packet that carries the word. */
  function DibasPhase(cfg: Config, w: nat): nat
    requires cfg.Valid()
  {
    Rounds(DibasFine(cfg, w), cfg.nSpectra)
  }

  /** The spectrum of that packet. */
  function DibasSpectrum(cfg: Config, w: nat): (s: nat)
    requires cfg.Valid()
    ensures s < cfg.nSpectra
  {
    Wrap(DibasFine(cfg, w), cfg.nSpectra)
  }

  /** The payload word that belongs at word `w`. */
  function DibasSource(cfg: Config, w: nat): nat
    requires cfg.Valid()
  {
    Cell(Cell(DibasSpectrum(cfg, w), cfg.nSub, DibasSub(cfg, w)), cfg.rowWords, Wrap(w, cfg.rowWords))
  }

  /** The word that packet `p` puts at word `w` of its block, if it writes there at all. */
  function WordAt(cfg: Config, p: Packet, w: nat): Option<U64>
    requires cfg.Valid()
  {
    if cfg.instrument.Dibas? then
      var src := DibasSource(cfg, w);
      if DibasPhase(cfg, w) == Phase(cfg, p.mcnt) && DibasSub(cfg, w) < cfg.nSub && src < |p.payload|
      then Some(p.payload[src]) else None
    else
      var dest := Cell(Slot(cfg, p), cfg.rowWords, 0);
      if dest <= w < dest + CopiedWords(cfg, p) then Some(p.payload[w - dest]) else None
  }

  /** Block data after unpacking `p` into it. */
  function Place(cfg: Config, data: seq<U64>, p: Packet): (r: seq<U64>)
    requires cfg.Valid()
    ensures |r| == |data|
    ensures forall w :: 0 <= w < |data| ==>
      r[w] == match WordAt(cfg, p, w) case Some(v) => v case None => data[w]
  {
    seq(|data|, w requires 0 <= w < |data| => match WordAt(cfg, p, w) case Some(v) => v case None => data[w])
  }

  /** Block data after unpacking `ps` in order. */
  function PlaceAll(cfg: Config, base: seq<U64>, ps: seq<Packet>): (r: seq<U64>)
    requires cfg.Valid()
    ensures |r| == |base|
  {
    if ps == [] then base else Place(cfg, PlaceAll(cfg, base, ps[..|ps| - 1]), ps[|ps| - 1])
  }

  /** The slot a word of the block belongs to. */
  function SlotOfWord(cfg: Config, w: nat): nat
    requires cfg.Valid()
  {
    if cfg.instrument.Dibas? then DibasPhase(cfg, w) else Rounds(w, cfg.rowWords)
  }

  /** A packet writes only the words of its own slot. */
  lemma WritesOwnSlot(cfg: Config, p: Packet, w: nat)
    requires cfg.Valid() && PacketOk(cfg, p)
    requires WordAt(cfg, p, w).Some?
    ensures SlotOfWord(cfg, w) == Slot(cfg, p)
  {
    if !cfg.instrument.Dibas? {
      var slot := Slot(cfg, p);
      CellParts(slot, cfg.rowWords, w - Cell(slot, cfg.rowWords, 0));
    }
  }

  /** A packet with a valid source id has one of the block's slots, and room for a row there. */
  lemma SlotInside(cfg: Config, p: Packet)
    requires cfg.Valid() && cfg.DataFits() && ValidSid(cfg, p)
    ensures Slot(cfg, p) < cfg.Slots()
    ensures !cfg.instrument.Dibas? ==> Cell(Slot(cfg, p), cfg.rowWords, 0) + cfg.rowWords <= cfg.blockWords
  {
    if cfg.instrument.S6? {
      CellInRange(p.sid, cfg.nm, Phase(cfg, p.mcnt), cfg.nSources);
    }
    CellInRange(Slot(cfg, p), cfg.rowWords, 0, cfg.Slots());
  }

  /** All words written stay inside the block's data. */
  lemma WritesInsideBlock(cfg: Config, p: Packet, w: nat)
    requires cfg.Valid() && cfg.DataFits() && PacketOk(cfg, p) && ValidSid(cfg, p)
    requires WordAt(cfg, p, w).Some?
    ensures w < cfg.blockWords
  {
    SlotInside(cfg, p);
    if cfg.instrument.Dibas? {
      var row := Rounds(w, cfg.rowWords);
      CellOf(w, cfg.rowWords);
      CellOf(row, cfg.Fine());
      CellInRange(DibasSub(cfg, w), cfg.Fine(), DibasFine(cfg, w), cfg.nSub);
      CellInRange(row, cfg.rowWords, Wrap(w, cfg.rowWords), cfg.Rows());
    }
  }
}
