/** The header word of a packet, as each instrument lays it out. */
module Headers {
  import opened Words
  import opened Layout

  const TWO_56: int := 0x100_0000_0000_0000

  /** The top byte of a header word. */
  function TopByte(raw: U64): (b: U64)
    ensures b < 256
  {
    raw / 0x100_0000_0000_0000
  }

  /** The 56 bits below it. */
  function LowBits(raw: U64): (m: U64)
    ensures m < TWO_56
  {
    raw % 0x100_0000_0000_0000
  }

  // ---- Arecibo: 48-bit mcnt, 12-bit first channel, 4-bit beam

  function DecodeS6(raw: U64, nchan: U64, payload: seq<U64>): (p: Packet)
    ensures p.mcnt < 0x1_0000_0000_0000 && p.pchan < 4096 && p.sid < 16
  {
    Packet(raw / 0x1_0000, raw / 16 % 4096, nchan, raw % 16, payload)
  }

  function EncodeS6(mcnt: U64, pchan: U64, sid: U64): U64
    requires mcnt < 0x1_0000_0000_0000 && pchan < 4096 && sid < 16
  {
    mcnt * 0x1_0000 + pchan * 16 + sid
  }

  /** Every header word is the encoding of its fields, and of no others. */
  lemma S6HeaderRoundTrip(raw: U64, mcnt: U64, pchan: U64, sid: U64, nchan: U64, payload: seq<U64>)
    requires mcnt < 0x1_0000_0000_0000 && pchan < 4096 && sid < 16
    ensures var p := DecodeS6(raw, nchan, payload);
      && EncodeS6(p.mcnt, p.pchan, p.sid) == raw == p.mcnt * 0x1_0000 + p.pchan * 16 + p.sid
      && p.mcnt < 0x1_0000_0000_0000 && p.pchan < 4096 && p.sid < 16 && p.nchan == nchan && p.payload == payload
    ensures DecodeS6(EncodeS6(mcnt, pchan, sid), nchan, payload) == Packet(mcnt, pchan, nchan, sid, payload)
  {
    S6WordOfFields(raw);
    S6FieldsOfWord(mcnt, pchan, sid);
  }

  lemma S6WordOfFields(raw: nat)
    ensures raw / 0x1_0000 * 0x1_0000 + raw / 16 % 4096 * 16 + raw % 16 == raw
  {
    var high, low := raw / 16, raw % 16;
    var top, mid := high / 4096, high % 4096;
    assert raw == top * 0x1_0000 + (mid * 16 + low);
    assert raw / 0x1_0000 == top;
  }

  lemma S6FieldsOfWord(mcnt: nat, pchan: nat, sid: nat)
    requires pchan < 4096 && sid < 16
    ensures var raw := mcnt * 0x1_0000 + pchan * 16 + sid;
      raw / 0x1_0000 == mcnt && raw / 16 % 4096 == pchan && raw % 16 == sid
  {
    var raw := mcnt * 0x1_0000 + pchan * 16 + sid;
    assert raw / 16 == mcnt * 4096 + pchan;
  }

  // ---- Green Bank: 8-bit node, 56-bit mcnt

  function DecodeDibas(raw: U64, coarseChans: nat, nchan: U64, payload: seq<U64>): (p: Packet)
    requires coarseChans < TWO_56
    ensures p.mcnt < TWO_56 && p.sid < 256
  {
    Packet(LowBits(raw), Trunc64(TopByte(raw) * coarseChans), nchan, TopByte(raw), payload)
  }

  function EncodeDibas(mcnt: U64, node: U64): U64
    requires mcnt < TWO_56 && node < 256
  {
    node * 0x100_0000_0000_0000 + mcnt
  }

  lemma DibasHeaderRoundTrip(raw: U64, mcnt: U64, node: U64, coarseChans: nat, nchan: U64, payload: seq<U64>)
    requires mcnt < TWO_56 && node < 256 && coarseChans < TWO_56
    ensures var p := DecodeDibas(raw, coarseChans, nchan, payload);
      && EncodeDibas(p.mcnt, p.sid) == raw == p.sid * 0x100_0000_0000_0000 + p.mcnt
      && p.mcnt < 0x100_0000_0000_0000 && p.nchan == nchan && p.payload == payload
      && p.pchan == p.sid * coarseChans % 0x1_0000_0000_0000_0000
    ensures DecodeDibas(EncodeDibas(mcnt, node), coarseChans, nchan, payload)
         == Packet(mcnt, node * coarseChans % 0x1_0000_0000_0000_0000, nchan, node, payload)
  {
    TopAndLow(node, mcnt);
  }

  // ---- FAST: 2 unused bits, 5-bit beam counted from 1, 1-bit polarisation, 56-bit mcnt

  function FastBeam(raw: U64): (beam: nat)
    ensures beam < 32
  {
    TopByte(raw) / 2 % 32
  }

  function FastPol(raw: U64): (pol: nat)
    ensures pol < 2
  {
    TopByte(raw) % 2
  }

  /** Beam and polarisation folded into a source id counted from 0. For beam 0 the signed result is
      negative, and wraps to a huge unsigned value. */
  function FastSid(beam: nat, pol: nat): U64 {
    Trunc64((beam - 1) * 2 + pol)
  }

  function DecodeFast(raw: U64, nchan: U64, payload: seq<U64>): (p: Packet)
    ensures p.mcnt < TWO_56
  {
    Packet(LowBits(raw), 0, nchan, FastSid(FastBeam(raw), FastPol(raw)), payload)
  }

  function EncodeFast(unused: nat, beam: nat, pol: nat, mcnt: U64): U64
    requires unused < 4 && beam < 32 && pol < 2 && mcnt < TWO_56
  {
    (unused * 64 + beam * 2 + pol) * 0x100_0000_0000_0000 + mcnt
  }

  /** Packing and decoding recovers mcnt, beam and polarisation, whatever the unused bits hold. */
  lemma FastHeaderRoundTrip(unused: nat, beam: nat, pol: nat, mcnt: U64, nchan: U64, payload: seq<U64>)
    requires unused < 4 && beam < 32 && pol < 2 && mcnt < TWO_56
    ensures var raw := EncodeFast(unused, beam, pol, mcnt);
      && FastBeam(raw) == beam && FastPol(raw) == pol
      && DecodeFast(raw, nchan, payload) == Packet(mcnt, 0, nchan, FastSid(beam, pol), payload)
  {
    TopAndLow(unused * 64 + beam * 2 + pol, mcnt);
  }

  /** The fields of a FAST header word, in plain arithmetic: for a beam from 1 on, the source id counts
      beams from 0 and polarisations, and with the unused bits makes up the word's top byte. */
  lemma FastFields(raw: U64, nchan: U64, payload: seq<U64>)
    ensures var p := DecodeFast(raw, nchan, payload);
      var top := raw / 0x100_0000_0000_0000;
      && p.mcnt == raw % 0x100_0000_0000_0000 && p.pchan == 0 && p.nchan == nchan && p.payload == payload
      && (2 <= top % 64 ==> p.sid == top % 64 - 2)
      && (top % 64 < 2 ==> p.sid == 0x1_0000_0000_0000_0000 - 2 + top % 64)
  {
    var b := TopByte(raw);
    assert b % 64 == b / 2 % 32 * 2 + b % 2;
    FastSidValue(FastBeam(raw), FastPol(raw));
  }

  /** A byte put on top of 56 bits comes off again. */
  lemma TopAndLow(b: nat, m: nat)
    requires b < 256 && m < TWO_56
    ensures 0 <= b * 0x100_0000_0000_0000 + m < TWO_64
    ensures TopByte(b * 0x100_0000_0000_0000 + m) == b && LowBits(b * 0x100_0000_0000_0000 + m) == m
  {
  }

  /** A source id counts from 0 over beams from 1 and polarisations; for beam 0 it is out of any range. */
  lemma FastSidValue(beam: nat, pol: nat)
    requires beam < 32 && pol < 2
    ensures 1 <= beam ==> FastSid(beam, pol) == 2 * (beam - 1) + pol
    ensures beam == 0 ==> FastSid(beam, pol) == TWO_64 - 2 + pol
  {
  }

  /** The range check on source ids admits exactly beams 1 to `nBeams`, and the output thread's
      division and remainder by 2 recover the beam (from 0) and the polarisation. */
  lemma FastSourceRange(cfg: Config, nBeams: nat, raw: U64, nchan: U64, payload: seq<U64>)
    requires cfg.Valid() && cfg.nSources == 2 * nBeams && nBeams < 32
    ensures var p := DecodeFast(raw, nchan, payload);
      && (ValidSid(cfg, p) <==> 1 <= FastBeam(raw) <= nBeams)
      && (ValidSid(cfg, p) ==> p.sid / 2 == FastBeam(raw) - 1 && p.sid % 2 == FastPol(raw))
  {
    FastSidValue(FastBeam(raw), FastPol(raw));
  }

  /** Whatever arrives, a decoded mcnt fits its field: with a payload of a proper size the packet is
      one the reassembler's guarantees cover. */
  lemma DecodedPacketOk(cfg: Config, raw: U64, coarseChans: nat, nchan: U64, payload: seq<U64>)
    requires cfg.Valid() && coarseChans < TWO_56
    requires if cfg.instrument.Dibas? then |payload| == cfg.PayloadRows() * cfg.rowWords
             else |payload| <= cfg.rowWords
    ensures PacketOk(cfg, match cfg.instrument
                          case S6 => DecodeS6(raw, nchan, payload)
                          case Dibas => DecodeDibas(raw, coarseChans, nchan, payload)
                          case Fast => DecodeFast(raw, nchan, payload))
  {
  }
}
