/** The shared input ring in memory, and the routines that write to it in place. */
module InputRing {
  import opened Words
  import opened DivMod
  import opened Layout
  import opened Reassembler
  import opened CornerTurn

  /** A block header's scalar fields. */
  datatype Fields = Fields(mcnt: U64, chanId: U64, numChan: U64, sid: U64)

  /** Row `b` of a two-dimensional buffer. */
  ghost function RowOf(a: array2<U64>, b: nat): (r: seq<U64>)
    requires b < a.Length0
    reads a
    ensures |r| == a.Length1 && forall w :: 0 <= w < a.Length1 ==> r[w] == a[b, w]
  {
    seq(a.Length1, w requires 0 <= w < a.Length1 reads a => a[b, w])
  }

  class InputDatabuf {
    const cfg: Config
    const filled: array<bool>
    const header: array<Fields>
    const missed: array2<U64>
    const data: array2<U64>

    ghost predicate Valid() {
      && cfg.Valid()
      && filled.Length == cfg.nBlocks && header.Length == cfg.nBlocks
      && missed.Length0 == cfg.nBlocks && missed.Length1 == cfg.nBors
      && data.Length0 == cfg.nBlocks && data.Length1 == cfg.blockWords
      && missed != data
    }

    /** Block `b` as a value. */
    ghost function BlockAt(b: nat): (r: Block)
      requires Valid() && b < cfg.nBlocks
      reads header, missed, data
      ensures BlockShape(cfg, r)
    {
      var h := header[b];
      Block(Header(h.mcnt, h.chanId, h.numChan, h.sid, RowOf(missed, b)), RowOf(data, b))
    }

    /** The whole ring as a value. */
    ghost function Blocks(): (r: seq<Block>)
      requires Valid()
      reads header, missed, data
      ensures RingShape(cfg, r) && forall b :: 0 <= b < cfg.nBlocks ==> r[b] == BlockAt(b)
    {
      seq(cfg.nBlocks, b requires 0 <= b < cfg.nBlocks reads header, missed, data => BlockAt(b))
    }

    constructor (cfg: Config)
      requires cfg.Valid()
      ensures Valid() && this.cfg == cfg
      ensures fresh(filled) && fresh(header) && fresh(missed) && fresh(data)
      ensures forall b :: 0 <= b < cfg.nBlocks ==> !filled[b]
    {
      this.cfg := cfg;
      filled := new bool[cfg.nBlocks](_ => false);
      header := new Fields[cfg.nBlocks](_ => Fields(0, 0, 0, 0));
      missed := new U64[cfg.nBlocks, cfg.nBors]((_, _) => 0);
      data := new U64[cfg.nBlocks, cfg.blockWords]((_, _) => 0);
    }

    /** If only block `b` changed, the ring's value differs at `b` alone. */
    twostate lemma OneBlockChanged(b: nat)
      requires Valid() && b < cfg.nBlocks
      requires forall b' :: 0 <= b' < cfg.nBlocks && b' != b ==> header[b'] == old(header[b'])
      requires forall b', c :: 0 <= b' < cfg.nBlocks && b' != b && 0 <= c < cfg.nBors ==>
        missed[b', c] == old(missed[b', c])
      requires forall b', w :: 0 <= b' < cfg.nBlocks && b' != b && 0 <= w < cfg.blockWords ==>
        data[b', w] == old(data[b', w])
      ensures Blocks() == old(Blocks())[b := BlockAt(b)]
      ensures (forall w :: 0 <= w < cfg.blockWords ==> data[b, w] == old(data[b, w])) ==>
                BlockAt(b).data == old(BlockAt(b)).data
    {
      forall b' | 0 <= b' < cfg.nBlocks && b' != b
        ensures BlockAt(b') == old(BlockAt(b'))
      {
        assert RowOf(missed, b') == old(RowOf(missed, b'));
        assert RowOf(data, b') == old(RowOf(data, b'));
      }
    }

    /** `initialize_block`: the missed-packet counters are set one by one, then the header fields. */
    method InitializeBlock(mcnt: U64, p: Packet)
      requires Valid()
      modifies header, missed
      ensures Blocks() == InitBlock(cfg, old(Blocks()), mcnt, p)
      ensures var b := mcnt / cfg.nm % cfg.nBlocks;
        && 0 <= b < cfg.nBlocks && header[b] == Fields(mcnt - mcnt % cfg.nm, p.pchan, p.nchan, p.sid)
        && forall c :: 0 <= c < cfg.nBors ==> missed[b, c] == cfg.nm
    {
      var b := BlockForMcnt(cfg, mcnt);
      for i := 0 to cfg.nBors
        invariant header[..] == old(header[..])
        invariant forall c :: 0 <= c < i ==> missed[b, c] == cfg.nm
        invariant forall b', c :: 0 <= b' < cfg.nBlocks && b' != b && 0 <= c < cfg.nBors ==>
          missed[b', c] == old(missed[b', c])
      {
        missed[b, i] := cfg.nm;
      }
      header[b] := Fields(RoundDown(cfg, mcnt), p.pchan, p.nchan, p.sid);
      assert RowOf(missed, b) == FreshHeader(cfg, mcnt, p).missed;
      OneBlockChanged(b);
    }

    /** Words `dest` up to `dest + n` of block `b` hold `src[from..from + n]`; all else is as it was. */
    twostate predicate Copied(b: nat, dest: nat, src: seq<U64>, from: nat, n: nat)
      requires Valid() && b < cfg.nBlocks && dest + n <= cfg.blockWords && from + n <= |src|
      reads data
    {
      && (forall w :: dest <= w < dest + n ==> data[b, w] == src[from + w - dest])
      && (forall b', w :: 0 <= b' < cfg.nBlocks && 0 <= w < cfg.blockWords && (b' != b || w < dest || dest + n <= w) ==>
            data[b', w] == old(data[b', w]))
    }

    /** `memcpy` of `n` words. */
    method CopyWords(b: nat, dest: nat, src: seq<U64>, from: nat, n: nat)
      requires Valid() && b < cfg.nBlocks && dest + n <= cfg.blockWords && from + n <= |src|
      modifies data
      ensures Copied(b, dest, src, from, n)
    {
      for i := 0 to n
        invariant Copied(b, dest, src, from, i)
      {
        data[b, dest + i] := src[from + i];
      }
    }

    /** `s6_memcpy`: 32 bytes at a time, loaded as two halves; a remainder is not copied. */
    method S6Memcpy(b: nat, dest: nat, src: seq<U64>)
      requires Valid() && b < cfg.nBlocks && dest + |src| <= cfg.blockWords
      modifies data
      ensures Copied(b, dest, src, 0, |src| / 4 * 4)
    {
      for i := 0 to |src| / 4
        invariant Copied(b, dest, src, 0, i * 4)
      {
        var lo0, lo1 := src[4 * i], src[4 * i + 1];
        var hi0, hi1 := src[4 * i + 2], src[4 * i + 3];
        data[b, dest + 4 * i] := lo0;
        data[b, dest + 4 * i + 1] := lo1;
        data[b, dest + 4 * i + 2] := hi0;
        data[b, dest + 4 * i + 3] := hi1;
      }
    }

    /** The data of all blocks, row by row. */
    ghost function Rows(): (r: seq<seq<U64>>)
      requires Valid()
      reads data
      ensures |r| == cfg.nBlocks
      ensures forall b :: 0 <= b < cfg.nBlocks ==> r[b] == RowOf(data, b)
    {
      seq(cfg.nBlocks, b requires 0 <= b < cfg.nBlocks reads data => RowOf(data, b))
    }

    /** Block `b` holds, over its earlier data, what packet `p` writes; the other blocks are as they were. */
    ghost predicate Unpacked(was: seq<seq<U64>>, b: nat, p: Packet)
      requires Valid() && b < cfg.nBlocks == |was| && |was[b]| == cfg.blockWords
      reads data
    {
      Rows() == was[b := Place(cfg, was[b], p)]
    }

    lemma Placed(was: seq<seq<U64>>, b: nat, p: Packet)
      requires Valid() && b < cfg.nBlocks == |was| && forall b' :: 0 <= b' < cfg.nBlocks ==> |was[b']| == cfg.blockWords
      requires forall b', w :: 0 <= b' < cfg.nBlocks && b' != b && 0 <= w < cfg.blockWords ==> data[b', w] == was[b'][w]
      requires forall w :: 0 <= w < cfg.blockWords ==>
        data[b, w] == if WordAt(cfg, p, w).Some? then WordAt(cfg, p, w).value else was[b][w]
      ensures Unpacked(was, b, p)
    {
      assert RowOf(data, b) == Place(cfg, was[b], p);
      forall b' | 0 <= b' < cfg.nBlocks && b' != b
        ensures RowOf(data, b') == was[b']
      {
      }
    }

    /** Unpacking at Arecibo (`s6_memcpy`) and FAST (`memcpy`): one contiguous run of words. */
    method UnpackRow(b: nat, p: Packet)
      requires Valid() && cfg.DataFits() && b < cfg.nBlocks && !cfg.instrument.Dibas?
      requires PacketOk(cfg, p) && ValidSid(cfg, p)
      modifies data
      ensures Unpacked(old(Rows()), b, p)
    {
      ghost var was := Rows();
      SlotInside(cfg, p);
      var slot := Phase(cfg, p.mcnt);
      if cfg.instrument.S6? {
        slot := Cell(p.sid, cfg.nm, slot);
      }
      var dest := Cell(slot, cfg.rowWords, 0);
      if cfg.instrument.S6? {
        S6Memcpy(b, dest, p.payload);
      } else {
        CopyWords(b, dest, p.payload, 0, |p.payload|);
      }
      Placed(was, b, p);
    }

    /** Unpacking at Green Bank, part way: the runs before sub-spectrum `k` of spectrum `i` are done. */
    ghost predicate UnpackedTo(was: seq<seq<U64>>, b: nat, p: Packet, i: nat, k: nat)
      requires Valid() && b < cfg.nBlocks == |was| && forall b' :: 0 <= b' < cfg.nBlocks ==> |was[b']| == cfg.blockWords
      reads data
    {
      && (forall b', w :: 0 <= b' < cfg.nBlocks && b' != b && 0 <= w < cfg.blockWords ==> data[b', w] == was[b'][w])
      && forall w :: 0 <= w < cfg.blockWords ==>
           data[b, w] == if RunBefore(cfg, p, w, i, k) then WordAt(cfg, p, w).value else was[b][w]
    }

    /** One run: a sub-spectrum of one spectrum. */
    method CopyRun(b: nat, p: Packet, i: nat, k: nat, dest: nat, src: nat, ghost was: seq<seq<U64>>)
      requires Valid() && cfg.DataFits() && b < cfg.nBlocks == |was| && cfg.instrument.Dibas? && PacketOk(cfg, p)
      requires forall b' :: 0 <= b' < cfg.nBlocks ==> |was[b']| == cfg.blockWords
      requires i < cfg.nSpectra && k < cfg.nSub && UnpackedTo(was, b, p, i, k)
      requires dest == Dest(cfg, Phase(cfg, p.mcnt), i, k, 0) && src == Source(cfg, i, k, 0)
      modifies data
      ensures UnpackedTo(was, b, p, i, k + 1)
    {
      RunFits(cfg, p, i, k);
      CopyWords(b, dest, p.payload, src, cfg.rowWords);
      forall w | 0 <= w < cfg.blockWords
        ensures data[b, w] == if RunBefore(cfg, p, w, i, k + 1) then WordAt(cfg, p, w).value else was[b][w]
      {
        RunOfWords(cfg, p, i, k, w);
      }
    }

    /** The inner loop: all sub-spectra of spectrum `i`. */
    method UnpackSpectrum(b: nat, p: Packet, i: nat, src: nat, ghost was: seq<seq<U64>>) returns (next: nat)
      requires Valid() && cfg.DataFits() && b < cfg.nBlocks == |was| && cfg.instrument.Dibas? && PacketOk(cfg, p)
      requires forall b' :: 0 <= b' < cfg.nBlocks ==> |was[b']| == cfg.blockWords
      requires i < cfg.nSpectra && UnpackedTo(was, b, p, i, 0) && src == Source(cfg, i, 0, 0)
      modifies data
      ensures UnpackedTo(was, b, p, i, cfg.nSub) && next == Source(cfg, i, cfg.nSub, 0)
    {
      var spectrumMcnt := Trunc64(Cell(p.mcnt, cfg.nSpectra, i));
      next := src;
      for k := 0 to cfg.nSub
        invariant next == Source(cfg, i, k, 0)
        invariant UnpackedTo(was, b, p, i, k)
      {
        var dest := Cell(Cell(k, cfg.Fine(), Wrap(spectrumMcnt, cfg.Fine())), cfg.rowWords, 0);
        SpectrumRow(cfg, p, i);
        CopyRun(b, p, i, k, dest, next, was);
        next := next + cfg.rowWords;
        NextSource(cfg, i, k);
      }
    }

    /** Unpacking at Green Bank: for each spectrum of the packet, for each of its sub-spectra, one run
        of words goes to that sub-spectrum's part of the block. The source pointer only advances. */
    method UnpackDibas(b: nat, p: Packet)
      requires Valid() && cfg.DataFits() && b < cfg.nBlocks && cfg.instrument.Dibas? && PacketOk(cfg, p)
      modifies data
      ensures Unpacked(old(Rows()), b, p)
    {
      ghost var was := Rows();
      var src: nat := 0;
      FirstSource(cfg);
      for i := 0 to cfg.nSpectra
        invariant src == Source(cfg, i, 0, 0)
        invariant UnpackedTo(was, b, p, i, 0)
      {
        src := UnpackSpectrum(b, p, i, src, was);
        SpectrumDone(cfg, p, i);
        NextSpectrum(cfg, i);
      }
      AllRunsDone(cfg, p);
      Placed(was, b, p);
    }

    /** Charging an accepted packet to its missed-packet counter, and unpacking it into its block. */
    method UnpackPacket(b: nat, p: Packet)
      requires Valid() && cfg.DataFits() && b < cfg.nBlocks && PacketOk(cfg, p) && ValidSid(cfg, p)
      modifies missed, data
      ensures Blocks() == old(Blocks())[b := Unpack(cfg, old(Blocks())[b], p)]
    {
      ghost var was := Rows();
      var c := Counter(cfg, p);
      missed[b, c] := Sub64(missed[b, c], 1);
      ghost var rows := Rows();
      SameRows(was);
      if cfg.instrument.Dibas? {
        UnpackDibas(b, p);
      } else {
        UnpackRow(b, p);
      }
      assert rows == was;
      RowsAt(was[b := Place(cfg, was[b], p)]);
      assert RowOf(missed, b) == old(RowOf(missed, b))[c := Sub64(old(missed[b, c]), 1)];
      assert RowOf(data, b) == Place(cfg, old(RowOf(data, b)), p);
      OneBlockChanged(b);
    }

    lemma RowsAt(rows: seq<seq<U64>>)
      requires Valid() && Rows() == rows
      ensures |rows| == cfg.nBlocks
      ensures forall b, w :: 0 <= b < cfg.nBlocks && 0 <= w < cfg.blockWords ==>
        |rows[b]| == cfg.blockWords && data[b, w] == rows[b][w]
    {
      forall b | 0 <= b < cfg.nBlocks
        ensures rows[b] == RowOf(data, b)
      {
      }
    }

    twostate lemma SameRows(was: seq<seq<U64>>)
      requires Valid() && was == old(Rows())
      requires forall b, w :: 0 <= b < cfg.nBlocks && 0 <= w < cfg.blockWords ==> data[b, w] == old(data[b, w])
      ensures Rows() == was
    {
      forall b | 0 <= b < cfg.nBlocks
        ensures RowOf(data, b) == old(RowOf(data, b))
      {
      }
    }

    /** `set_filled`: hands the block to the consumer. */
    method SetFilled(b: nat)
      requires Valid() && b < cfg.nBlocks
      modifies filled
      ensures filled[..] == old(filled[..])[b := true]
    {
      filled[b] := true;
    }

    /** `busywait_free`: on return the consumer has given block `b` back; no other status is the
        producer's to change. */
    method BusywaitFree(b: nat)
      requires Valid() && b < cfg.nBlocks
      modifies filled
      ensures filled[..] == old(filled[..])[b := false]
    {
      filled[b] := false;
    }
  }

  /** Packet `p` writes word `w`, in a run before sub-spectrum `k` of spectrum `i`. */
  predicate RunBefore(cfg: Config, p: Packet, w: nat, i: nat, k: nat)
    requires cfg.Valid()
  {
    WordAt(cfg, p, w).Some? && (DibasSpectrum(cfg, w) < i || (DibasSpectrum(cfg, w) == i && DibasSub(cfg, w) < k))
  }

  lemma SpectrumDone(cfg: Config, p: Packet, i: nat)
    requires cfg.Valid() && cfg.instrument.Dibas? && cfg.DataFits()
    ensures forall w: nat :: w < cfg.blockWords ==>
      (RunBefore(cfg, p, w, i, cfg.nSub) <==> RunBefore(cfg, p, w, i + 1, 0))
  {
    forall w: nat | w < cfg.blockWords
      ensures DibasSub(cfg, w) < cfg.nSub
    {
      var phase, spectrum, sub, col := DestOnto(cfg, w);
      DestParts(cfg, phase, spectrum, sub, col);
    }
  }

  lemma AllRunsDone(cfg: Config, p: Packet)
    requires cfg.Valid()
    ensures forall w: nat :: RunBefore(cfg, p, w, cfg.nSpectra, 0) <==> WordAt(cfg, p, w).Some?
  {
  }

  lemma FirstSource(cfg: Config)
    ensures Source(cfg, 0, 0, 0) == 0
  {
  }

  lemma NextSource(cfg: Config, i: nat, k: nat)
    ensures Source(cfg, i, k + 1, 0) == Source(cfg, i, k, 0) + cfg.rowWords
  {
    MulStep(cfg.rowWords, Cell(i, cfg.nSub, k));
  }

  lemma NextSpectrum(cfg: Config, i: nat)
    ensures Source(cfg, i + 1, 0, 0) == Source(cfg, i, cfg.nSub, 0)
  {
    MulStep(cfg.nSub, i);
  }

  lemma RunFits(cfg: Config, p: Packet, i: nat, k: nat)
    requires cfg.Valid() && cfg.instrument.Dibas? && cfg.DataFits() && PacketOk(cfg, p)
    requires i < cfg.nSpectra && k < cfg.nSub
    ensures Dest(cfg, Phase(cfg, p.mcnt), i, k, 0) + cfg.rowWords <= cfg.blockWords
    ensures Source(cfg, i, k, 0) + cfg.rowWords <= |p.payload|
  {
    MapsInRange(cfg, Phase(cfg, p.mcnt), i, k, cfg.rowWords - 1);
  }

  /** The words of one copied run are exactly those the packet writes for that spectrum and sub-spectrum. */
  lemma RunOfWords(cfg: Config, p: Packet, spectrum: nat, sub: nat, w: nat)
    requires cfg.Valid() && cfg.instrument.Dibas? && cfg.DataFits() && PacketOk(cfg, p)
    requires spectrum < cfg.nSpectra && sub < cfg.nSub && w < cfg.blockWords
    ensures var dest := Dest(cfg, Phase(cfg, p.mcnt), spectrum, sub, 0);
      && Source(cfg, spectrum, sub, 0) + cfg.rowWords <= |p.payload|
      && (dest <= w < dest + cfg.rowWords <==>
            WordAt(cfg, p, w).Some? && DibasSpectrum(cfg, w) == spectrum && DibasSub(cfg, w) == sub)
      && (dest <= w < dest + cfg.rowWords ==>
            WordAt(cfg, p, w) == Some(p.payload[Source(cfg, spectrum, sub, 0) + (w - dest)]))
  {
    var t := Phase(cfg, p.mcnt);
    var dest := Dest(cfg, t, spectrum, sub, 0);
    RunFits(cfg, p, spectrum, sub);
    if dest <= w < dest + cfg.rowWords {
      assert w == Dest(cfg, t, spectrum, sub, w - dest);
      DestParts(cfg, t, spectrum, sub, w - dest);
      WordAtDest(cfg, p, spectrum, sub, w - dest);
    } else if WordAt(cfg, p, w).Some? && DibasSpectrum(cfg, w) == spectrum && DibasSub(cfg, w) == sub {
      var phase, spectrum', sub', col := DestOnto(cfg, w);
      DestParts(cfg, phase, spectrum', sub', col);
      assert false;
    }
  }

  /** The row computed from the 64-bit spectrum number, which does not wrap. */
  lemma SpectrumRow(cfg: Config, p: Packet, i: nat)
    requires cfg.Valid() && cfg.instrument.Dibas? && cfg.DataFits() && PacketOk(cfg, p) && i < cfg.nSpectra
    ensures Wrap(Trunc64(Cell(p.mcnt, cfg.nSpectra, i)), cfg.Fine()) == Cell(Phase(cfg, p.mcnt), cfg.nSpectra, i)
  {
    CellInRange(p.mcnt, cfg.nSpectra, i, cfg.McntLimit());
    MulMono(cfg.McntLimit(), cfg.nSpectra, 256);
    SmallTrunc(Cell(p.mcnt, cfg.nSpectra, i));
    FineIndex(cfg, p.mcnt, i);
  }
}
