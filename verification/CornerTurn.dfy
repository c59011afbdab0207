/** The Green Bank corner turn: packets carry a few whole spectra; a block groups by sub-spectrum. */
module CornerTurn {
  import opened Words
  import opened DivMod
  import opened Layout
  import opened Window
  import opened Exactness

  /** Word of the block for column `col` of sub-spectrum `sub` of the `spectrum`-th spectrum of the
      packet `phase` packets into the block. */
  function Dest(cfg: Config, phase: nat, spectrum: nat, sub: nat, col: nat): nat {
    Cell(Cell(sub, cfg.Fine(), Cell(phase, cfg.nSpectra, spectrum)), cfg.rowWords, col)
  }

  /** Word of the packet's payload for the same sample. */
  function Source(cfg: Config, spectrum: nat, sub: nat, col: nat): nat {
    Cell(Cell(spectrum, cfg.nSub, sub), cfg.rowWords, col)
  }

  ghost predicate Coordinates(cfg: Config, phase: nat, spectrum: nat, sub: nat, col: nat) {
    phase < cfg.nm && spectrum < cfg.nSpectra && sub < cfg.nSub && col < cfg.rowWords
  }

  /** The row within a sub-spectrum that the program computes from the packet's mcnt. */
  lemma FineIndex(cfg: Config, mcnt: nat, spectrum: nat)
    requires cfg.Valid() && spectrum < cfg.nSpectra
    ensures Wrap(Cell(mcnt, cfg.nSpectra, spectrum), cfg.Fine()) == Cell(Phase(cfg, mcnt), cfg.nSpectra, spectrum)
  {
    CellModulo(mcnt, cfg.nSpectra, spectrum, cfg.nm);
  }

  /** The row of a packet's spectrum is one of its sub-spectrum's. */
  lemma FineInRange(cfg: Config, phase: nat, spectrum: nat)
    requires phase < cfg.nm && spectrum < cfg.nSpectra
    ensures Cell(phase, cfg.nSpectra, spectrum) < cfg.Fine()
  {
    CellInRange(phase, cfg.nSpectra, spectrum, cfg.nm);
  }

  /** Row and column of a destination, taken apart again. */
  lemma DestParts(cfg: Config, phase: nat, spectrum: nat, sub: nat, col: nat)
    requires cfg.Valid() && Coordinates(cfg, phase, spectrum, sub, col)
    ensures var w := Dest(cfg, phase, spectrum, sub, col);
      && Wrap(w, cfg.rowWords) == col && DibasSub(cfg, w) == sub
      && DibasPhase(cfg, w) == phase && DibasSpectrum(cfg, w) == spectrum
  {
    var fine := Cell(phase, cfg.nSpectra, spectrum);
    var row := Cell(sub, cfg.Fine(), fine);
    FineInRange(cfg, phase, spectrum);
    CellParts(row, cfg.rowWords, col);
    CellParts(sub, cfg.Fine(), fine);
    CellParts(phase, cfg.nSpectra, spectrum);
  }

  /** The destination map stays inside the block and the source map inside the payload. */
  lemma MapsInRange(cfg: Config, phase: nat, spectrum: nat, sub: nat, col: nat)
    requires cfg.Valid() && Coordinates(cfg, phase, spectrum, sub, col)
    ensures Dest(cfg, phase, spectrum, sub, col) < cfg.Rows() * cfg.rowWords
    ensures Source(cfg, spectrum, sub, col) < cfg.PayloadRows() * cfg.rowWords
  {
    var fine := Cell(phase, cfg.nSpectra, spectrum);
    FineInRange(cfg, phase, spectrum);
    CellInRange(sub, cfg.Fine(), fine, cfg.nSub);
    CellInRange(Cell(sub, cfg.Fine(), fine), cfg.rowWords, col, cfg.Rows());
    CellInRange(spectrum, cfg.nSub, sub, cfg.nSpectra);
    CellInRange(Cell(spectrum, cfg.nSub, sub), cfg.rowWords, col, cfg.PayloadRows());
  }

  /** One to one: different samples go to different words. */
  lemma DestInjective(cfg: Config, p1: nat, s1: nat, k1: nat, c1: nat, p2: nat, s2: nat, k2: nat, c2: nat)
    requires cfg.Valid() && Coordinates(cfg, p1, s1, k1, c1) && Coordinates(cfg, p2, s2, k2, c2)
    requires Dest(cfg, p1, s1, k1, c1) == Dest(cfg, p2, s2, k2, c2)
    ensures p1 == p2 && s1 == s2 && k1 == k2 && c1 == c2
  {
    DestParts(cfg, p1, s1, k1, c1);
    DestParts(cfg, p2, s2, k2, c2);
  }

  /** Onto: every word of the block is the destination of some sample. */
  lemma DestOnto(cfg: Config, w: nat) returns (phase: nat, spectrum: nat, sub: nat, col: nat)
    requires cfg.Valid() && w < cfg.Rows() * cfg.rowWords
    ensures Coordinates(cfg, phase, spectrum, sub, col) && Dest(cfg, phase, spectrum, sub, col) == w
  {
    var row, fine := Rounds(w, cfg.rowWords), DibasFine(cfg, w);
    phase, spectrum, sub, col := DibasPhase(cfg, w), DibasSpectrum(cfg, w), DibasSub(cfg, w), Wrap(w, cfg.rowWords);
    RoundsBelow(w, cfg.Rows(), cfg.rowWords);
    RoundsBelow(row, cfg.nSub, cfg.Fine());
    PhaseBelow(cfg, fine);
    CellOf(w, cfg.rowWords);
    CellOf(row, cfg.Fine());
    CellOf(fine, cfg.nSpectra);
  }

  lemma PhaseBelow(cfg: Config, fine: nat)
    requires cfg.Valid() && fine < cfg.Fine()
    ensures Rounds(fine, cfg.nSpectra) < cfg.nm
  {
    RoundsBelow(fine, cfg.nm, cfg.nSpectra);
  }

  /** The word-level meaning of unpacking agrees with the sample maps. */
  lemma WordAtDest(cfg: Config, p: Packet, spectrum: nat, sub: nat, col: nat)
    requires cfg.Valid() && cfg.instrument.Dibas? && PacketOk(cfg, p)
    requires Coordinates(cfg, Phase(cfg, p.mcnt), spectrum, sub, col)
    ensures Source(cfg, spectrum, sub, col) < |p.payload|
    ensures WordAt(cfg, p, Dest(cfg, Phase(cfg, p.mcnt), spectrum, sub, col))
         == Some(p.payload[Source(cfg, spectrum, sub, col)])
  {
    DestParts(cfg, Phase(cfg, p.mcnt), spectrum, sub, col);
    MapsInRange(cfg, Phase(cfg, p.mcnt), spectrum, sub, col);
  }

  /** No other packet of the block writes there. */
  lemma OnlyWriter(cfg: Config, start: nat, p: Packet, q: Packet, w: nat)
    requires cfg.Valid() && cfg.instrument.Dibas? && PacketOk(cfg, p) && PacketOk(cfg, q)
    requires start <= p.mcnt < start + cfg.nm && start <= q.mcnt < start + cfg.nm && p.mcnt != q.mcnt
    requires WordAt(cfg, p, w).Some?
    ensures WordAt(cfg, q, w).None?
  {
    SlotsWithinBlock(cfg, start, p, q);
    WritesOwnSlot(cfg, p, w);
    if WordAt(cfg, q, w).Some? {
      WritesOwnSlot(cfg, q, w);
    }
  }

  ghost predicate DistinctMcnts(ps: seq<Packet>) {
    forall i, j :: 0 <= i < j < |ps| ==> ps[i].mcnt != ps[j].mcnt
  }

  /** With distinct mcnts, whoever writes a word is its last writer. */
  lemma LastWriter(cfg: Config, start: nat, ps: seq<Packet>, i: nat, w: nat)
    requires cfg.Valid() && cfg.instrument.Dibas? && RangeOk(cfg, ps, start) && DistinctMcnts(ps)
    requires i < |ps| && WordAt(cfg, ps[i], w).Some?
    ensures LastWrite(cfg, ps, w, i)
  {
    forall j | i < j < |ps|
      ensures WordAt(cfg, ps[j], w).None?
    {
      OnlyWriter(cfg, start, ps[i], ps[j], w);
    }
  }

  /** Each packet's samples are where the corner turn puts them, whatever order the packets came in. */
  lemma SamplesTurned(cfg: Config, start: nat, base: seq<U64>, ps: seq<Packet>,
                      i: nat, spectrum: nat, sub: nat, col: nat)
    requires cfg.Valid() && cfg.instrument.Dibas? && cfg.DataFits() && |base| == cfg.blockWords
    requires RangeOk(cfg, ps, start) && Phase(cfg, start) == 0 && DistinctMcnts(ps) && i < |ps|
    requires Coordinates(cfg, ps[i].mcnt - start, spectrum, sub, col)
    ensures Dest(cfg, ps[i].mcnt - start, spectrum, sub, col) < |base|
    ensures Source(cfg, spectrum, sub, col) < |ps[i].payload|
    ensures PlaceAll(cfg, base, ps)[Dest(cfg, ps[i].mcnt - start, spectrum, sub, col)]
         == ps[i].payload[Source(cfg, spectrum, sub, col)]
    ensures Dest(cfg, ps[i].mcnt - start, spectrum, sub, col)
         == (sub * (cfg.nSpectra * cfg.nm) + ((ps[i].mcnt - start) * cfg.nSpectra + spectrum)) * cfg.rowWords + col
    ensures Source(cfg, spectrum, sub, col) == (spectrum * cfg.nSub + sub) * cfg.rowWords + col
  {
    var w, src := Dest(cfg, ps[i].mcnt - start, spectrum, sub, col), Source(cfg, spectrum, sub, col);
    PhaseInBlock(cfg, start, ps[i].mcnt);
    WordAtDest(cfg, ps[i], spectrum, sub, col);
    MapsInRange(cfg, ps[i].mcnt - start, spectrum, sub, col);
    WordTurned(cfg, start, base, ps, i, w, src);
    MapsPlainly(cfg, ps[i].mcnt - start, spectrum, sub, col);
  }

  /** The two maps in plain arithmetic. */
  lemma MapsPlainly(cfg: Config, phase: nat, spectrum: nat, sub: nat, col: nat)
    ensures Dest(cfg, phase, spectrum, sub, col)
         == (sub * (cfg.nSpectra * cfg.nm) + (phase * cfg.nSpectra + spectrum)) * cfg.rowWords + col
    ensures Source(cfg, spectrum, sub, col) == (spectrum * cfg.nSub + sub) * cfg.rowWords + col
  {
  }

  lemma WordTurned(cfg: Config, start: nat, base: seq<U64>, ps: seq<Packet>, i: nat, w: nat, src: nat)
    requires cfg.Valid() && cfg.instrument.Dibas? && RangeOk(cfg, ps, start) && DistinctMcnts(ps)
    requires i < |ps| && w < |base| && src < |ps[i].payload| && WordAt(cfg, ps[i], w) == Some(ps[i].payload[src])
    ensures PlaceAll(cfg, base, ps)[w] == ps[i].payload[src]
  {
    LastWriter(cfg, start, ps, i, w);
    DataAreLastWrites(cfg, base, ps, w);
  }

  lemma PhaseInBlock(cfg: Config, start: nat, m: nat)
    requires cfg.Valid() && Phase(cfg, start) == 0 && start <= m < start + cfg.nm
    ensures Phase(cfg, m) == m - start
  {
    BlockAfter(cfg, start, 0, m);
  }

  /** `nm` packets with distinct mcnts in a block cover all its mcnts. */
  lemma AllPhasesArrive(cfg: Config, start: nat, ps: seq<Packet>, m: nat) returns (i: nat)
    requires cfg.Valid() && RangeOk(cfg, ps, start) && DistinctMcnts(ps) && |ps| == cfg.nm
    requires start <= m < start + cfg.nm
    ensures i < |ps| && ps[i].mcnt == m
  {
    i := Pigeonhole(seq(|ps|, j requires 0 <= j < |ps| => ps[j].mcnt), start, cfg.nm, m);
  }

  /** The corner turn. When the `nm` packets of a block have arrived once each, in any order, every
      word of the block is a sample: the word in row `t` of sub-spectrum `sub` is column `col` of that
      sub-spectrum of spectrum `t % nSpectra` in the packet for mcnt `start + t / nSpectra`. */
  lemma CornerTurnComplete(cfg: Config, start: nat, base: seq<U64>, ps: seq<Packet>, w: nat)
      returns (i: nat, spectrum: nat, sub: nat, col: nat)
    requires cfg.Valid() && cfg.instrument.Dibas? && cfg.DataFits() && |base| == cfg.blockWords && w < |base|
    requires RangeOk(cfg, ps, start) && Phase(cfg, start) == 0 && DistinctMcnts(ps) && |ps| == cfg.nm
    ensures i < |ps| && start <= ps[i].mcnt && Coordinates(cfg, ps[i].mcnt - start, spectrum, sub, col)
    ensures w == (sub * (cfg.nSpectra * cfg.nm) + ((ps[i].mcnt - start) * cfg.nSpectra + spectrum)) * cfg.rowWords + col
    ensures var src := (spectrum * cfg.nSub + sub) * cfg.rowWords + col;
      0 <= src < |ps[i].payload| && PlaceAll(cfg, base, ps)[w] == ps[i].payload[src]
  {
    var phase;
    phase, spectrum, sub, col := DestOnto(cfg, w);
    i := AllPhasesArrive(cfg, start, ps, start + phase);
    SamplesTurned(cfg, start, base, ps, i, spectrum, sub, col);
  }
}
