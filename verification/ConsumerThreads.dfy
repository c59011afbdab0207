/** The GPU thread (its FAST branch) and the output thread, one pass of each loop, on the shared rings. */
module ConsumerThreads {
  import opened Words
  import opened Layout
  import opened Reassembler
  import opened InputRing
  import opened Pipeline
  import opened PipelineRuns

  /** The output ring in memory. */
  class OutputDatabuf {
    const nBlock: nat
    const nBors: nat
    const blockWords: nat
    const filled: array<bool>
    const header: array<Fields>
    const missed: array2<U64>
    const data: array2<U64>

    ghost predicate Valid() {
      && 1 <= nBlock == filled.Length == header.Length
      && missed.Length0 == nBlock && missed.Length1 == nBors
      && data.Length0 == nBlock && data.Length1 == blockWords
      && missed != data
    }

    ghost function BlockAt(b: nat): Block
      requires Valid() && b < nBlock
      reads header, missed, data
    {
      var h := header[b];
      Block(Header(h.mcnt, h.chanId, h.numChan, h.sid, RowOf(missed, b)), RowOf(data, b))
    }

    ghost function Blocks(): (r: seq<Block>)
      requires Valid()
      reads header, missed, data
      ensures |r| == nBlock && forall b :: 0 <= b < nBlock ==> r[b] == BlockAt(b)
    {
      seq(nBlock, b requires 0 <= b < nBlock reads header, missed, data => BlockAt(b))
    }

    constructor (nBlock: nat, nBors: nat, blockWords: nat)
      requires 1 <= nBlock
      ensures Valid() && this.nBlock == nBlock && this.nBors == nBors && this.blockWords == blockWords
      ensures fresh(filled) && fresh(header) && fresh(missed) && fresh(data)
      ensures forall b :: 0 <= b < nBlock ==> !filled[b]
    {
      this.nBlock, this.nBors, this.blockWords := nBlock, nBors, blockWords;
      filled := new bool[nBlock](_ => false);
      header := new Fields[nBlock](_ => Fields(0, 0, 0, 0));
      missed := new U64[nBlock, nBors]((_, _) => 0);
      data := new U64[nBlock, blockWords]((_, _) => 0);
    }

    /** Everything but block `b` is as it was. */
    twostate predicate OnlyBlock(b: nat)
      requires Valid() && b < nBlock
      reads header, missed, data
    {
      && (forall b' :: 0 <= b' < nBlock && b' != b ==> header[b'] == old(header[b']))
      && (forall b', c :: 0 <= b' < nBlock && b' != b && 0 <= c < nBors ==> missed[b', c] == old(missed[b', c]))
      && (forall b', w :: 0 <= b' < nBlock && b' != b && 0 <= w < blockWords ==> data[b', w] == old(data[b', w]))
    }

    twostate lemma OneBlockChanged(b: nat)
      requires Valid() && b < nBlock && OnlyBlock(b)
      ensures Blocks() == old(Blocks())[b := BlockAt(b)]
    {
      forall b' | 0 <= b' < nBlock && b' != b
        ensures BlockAt(b') == old(BlockAt(b'))
      {
        assert RowOf(missed, b') == old(RowOf(missed, b'));
        assert RowOf(data, b') == old(RowOf(data, b'));
      }
    }

    /** `memset` of a whole block to zero. */
    method Zero(b: nat)
      requires Valid() && b < nBlock
      modifies header, missed, data
      ensures Blocks() == old(Blocks())[b := Zeroed(old(BlockAt(b)))]
      ensures header[b] == Fields(0, 0, 0, 0)
      ensures forall c :: 0 <= c < nBors ==> missed[b, c] == 0
      ensures forall w :: 0 <= w < blockWords ==> data[b, w] == 0
    {
      header[b] := Fields(0, 0, 0, 0);
      for c := 0 to nBors
        invariant header[..] == old(header[..])[b := Fields(0, 0, 0, 0)]
        invariant forall b', w' :: 0 <= b' < nBlock && 0 <= w' < blockWords ==> data[b', w'] == old(data[b', w'])
        invariant forall c' :: 0 <= c' < c ==> missed[b, c'] == 0
        invariant forall b', c' :: 0 <= b' < nBlock && b' != b && 0 <= c' < nBors ==>
          missed[b', c'] == old(missed[b', c'])
      {
        missed[b, c] := 0;
      }
      for w := 0 to blockWords
        invariant header[..] == old(header[..])[b := Fields(0, 0, 0, 0)]
        invariant forall c' :: 0 <= c' < nBors ==> missed[b, c'] == 0
        invariant forall b', c' :: 0 <= b' < nBlock && b' != b && 0 <= c' < nBors ==>
          missed[b', c'] == old(missed[b', c'])
        invariant forall w' :: 0 <= w' < w ==> data[b, w'] == 0
        invariant forall b', w' :: 0 <= b' < nBlock && b' != b && 0 <= w' < blockWords ==>
          data[b', w'] == old(data[b', w'])
      {
        data[b, w] := 0;
      }
      OneBlockChanged(b);
      assert BlockAt(b) == Zeroed(old(BlockAt(b)));
    }
  }

  class GpuThread {
    const cfg: Config
    const dbIn: InputDatabuf
    const dbOut: OutputDatabuf
    var curBlockIn: nat
    var curBlockOut: nat

    ghost predicate Valid()
      reads this
    {
      && dbIn.Valid() && dbIn.cfg == cfg && cfg.instrument.Fast?
      && dbOut.Valid() && dbOut.nBors == cfg.nBors && dbOut.blockWords == cfg.blockWords
      && dbIn.filled != dbOut.filled && dbIn.header != dbOut.header
      && {dbIn.missed, dbIn.data} !! {dbOut.missed, dbOut.data}
      && curBlockIn < cfg.nBlocks && curBlockOut < dbOut.nBlock
    }

    /** The thread's indices and the two rings as a value. */
    ghost function View(): GpuView
      requires Valid()
      reads this, dbIn.filled, dbIn.header, dbIn.missed, dbIn.data
      reads dbOut.filled, dbOut.header, dbOut.missed, dbOut.data
    {
      GpuView(dbIn.filled[..], dbIn.Blocks(), dbOut.filled[..], dbOut.Blocks(), curBlockIn, curBlockOut)
    }

    constructor (cfg: Config, dbIn: InputDatabuf, dbOut: OutputDatabuf)
      requires dbIn.Valid() && dbIn.cfg == cfg && cfg.instrument.Fast?
      requires dbOut.Valid() && dbOut.nBors == cfg.nBors && dbOut.blockWords == cfg.blockWords
      requires dbIn.filled != dbOut.filled && dbIn.header != dbOut.header
      requires {dbIn.missed, dbIn.data} !! {dbOut.missed, dbOut.data}
      ensures Valid() && this.dbIn == dbIn && this.dbOut == dbOut && curBlockIn == 0 == curBlockOut
    {
      this.cfg, this.dbIn, this.dbOut, curBlockIn, curBlockOut := cfg, dbIn, dbOut, 0, 0;
    }

    /** Metadata are passed on field by field, the missed-packet counters as one copy. */
    method CopyHeader()
      requires Valid()
      modifies dbOut.header, dbOut.missed
      ensures dbOut.OnlyBlock(curBlockOut)
      ensures dbOut.header[curBlockOut] == dbIn.header[curBlockIn]
      ensures forall c :: 0 <= c < cfg.nBors ==> dbOut.missed[curBlockOut, c] == dbIn.missed[curBlockIn, c]
    {
      var h := dbIn.header[curBlockIn];
      dbOut.header[curBlockOut] := dbOut.header[curBlockOut].(mcnt := h.mcnt);
      dbOut.header[curBlockOut] := dbOut.header[curBlockOut].(chanId := h.chanId);
      dbOut.header[curBlockOut] := dbOut.header[curBlockOut].(numChan := h.numChan);
      for c := 0 to cfg.nBors
        invariant dbOut.OnlyBlock(curBlockOut)
        invariant dbOut.header[curBlockOut].(sid := h.sid) == h
        invariant forall c' :: 0 <= c' < c ==> dbOut.missed[curBlockOut, c'] == dbIn.missed[curBlockIn, c']
      {
        dbOut.missed[curBlockOut, c] := dbIn.missed[curBlockIn, c];
      }
      dbOut.header[curBlockOut] := dbOut.header[curBlockOut].(sid := h.sid);
    }

    /** The FAST branch moves the data to the output block unprocessed. */
    method CopyData()
      requires Valid()
      modifies dbOut.data
      ensures dbOut.OnlyBlock(curBlockOut)
      ensures forall w :: 0 <= w < cfg.blockWords ==> dbOut.data[curBlockOut, w] == dbIn.data[curBlockIn, w]
    {
      for w := 0 to cfg.blockWords
        invariant dbOut.OnlyBlock(curBlockOut)
        invariant forall w' :: 0 <= w' < w ==> dbOut.data[curBlockOut, w'] == dbIn.data[curBlockIn, w']
      {
        dbOut.data[curBlockOut, w] := dbIn.data[curBlockIn, w];
      }
    }

    /** The output block becomes the input block, in full. */
    method CopyBlock()
      requires Valid()
      modifies dbOut.header, dbOut.missed, dbOut.data
      ensures dbOut.Blocks() == old(dbOut.Blocks())[curBlockOut := dbIn.Blocks()[curBlockIn]]
      ensures dbIn.Blocks() == old(dbIn.Blocks())
    {
      CopyHeader();
      CopyData();
      assert RowOf(dbOut.missed, curBlockOut) == RowOf(dbIn.missed, curBlockIn);
      assert RowOf(dbOut.data, curBlockOut) == RowOf(dbIn.data, curBlockIn);
      dbOut.OneBlockChanged(curBlockOut);
    }

    /** One pass of the loop, once both waits have returned: the output block becomes the input block,
        the output block is marked filled and the input block free, and both indices advance. This is
        the pass that the pipeline's GPU steps make up (`PipelineRuns.GpuPass`). */
    method ProcessBlock()
      requires Valid() && dbIn.filled[curBlockIn] && !dbOut.filled[curBlockOut]
      modifies this, dbIn.filled, dbOut.filled, dbOut.header, dbOut.missed, dbOut.data
      ensures Valid()
      ensures View() == GpuPassed(old(View()))
    {
      CopyBlock();
      dbOut.filled[curBlockOut] := true;
      curBlockOut := (curBlockOut + 1) % dbOut.nBlock;
      dbIn.filled[curBlockIn] := false;
      curBlockIn := (curBlockIn + 1) % cfg.nBlocks;
    }
  }

  class OutputThread {
    const db: OutputDatabuf
    var blockIdx: nat
    var beam: nat
    var pol: nat
    var file: seq<U64>
    var fileNum: nat

    ghost predicate Valid()
      reads this
    {
      db.Valid() && blockIdx < db.nBlock
    }

    /** The thread's index and the ring as a value. */
    ghost function View(): OutputView
      requires Valid()
      reads this, db.filled, db.header, db.missed, db.data
    {
      OutputView(db.filled[..], db.Blocks(), blockIdx)
    }

    constructor (db: OutputDatabuf)
      requires db.Valid()
      ensures Valid() && this.db == db && blockIdx == 0 && fileNum == 0
    {
      this.db, blockIdx, beam, pol, file, fileNum := db, 0, 0, 0, [], 0;
    }

    /** Beam and polarisation of the block's source id. */
    method ReadSource()
      requires Valid()
      modifies `beam, `pol
      ensures db.header[blockIdx].sid == 2 * beam + pol && pol < 2
    {
      beam, pol := db.header[blockIdx].sid / 2, db.header[blockIdx].sid % 2;
    }

    /** `write_to_file`: the file is created anew and holds the block's data. */
    method WriteToFile()
      requires Valid()
      modifies `file
      ensures file == db.Blocks()[blockIdx].data
    {
      file := [];
      for w := 0 to db.blockWords
        invariant |file| == w && forall w' :: 0 <= w' < w ==> file[w'] == db.data[blockIdx, w']
      {
        file := file + [db.data[blockIdx, w]];
      }
      assert file == RowOf(db.data, blockIdx);
    }

    /** One pass of the loop, once the wait has returned: beam and polarisation are taken from the
        block's source id; in test mode, or when told to run always, its data replace the file's; then
        the block is zeroed and marked free. This is the pass that the pipeline's output steps make up
        (`PipelineRuns.OutputPass`), on the block they consume. */
    method ProcessBlock(testMode: bool, runAlways: bool)
      requires Valid() && db.filled[blockIdx]
      modifies this, db.filled, db.header, db.missed, db.data
      ensures Valid()
      ensures var sid := old(db.Blocks())[old(blockIdx)].header.sid; sid == 2 * beam + pol && pol < 2
      ensures file == if testMode || runAlways then old(db.Blocks())[old(blockIdx)].data else old(file)
      ensures fileNum == old(fileNum) + if testMode || runAlways then 1 else 0
      ensures View() == OutputPassed(old(View()))
      ensures db.header[old(blockIdx)] == Fields(0, 0, 0, 0)
      ensures forall c :: 0 <= c < db.nBors ==> db.missed[old(blockIdx), c] == 0
      ensures forall w :: 0 <= w < db.blockWords ==> db.data[old(blockIdx), w] == 0
    {
      ReadSource();
      if testMode || runAlways {
        WriteToFile();
        fileNum := fileNum + 1;
      }
      db.Zero(blockIdx);
      db.filled[blockIdx] := false;
      blockIdx := (blockIdx + 1) % db.nBlock;
    }
  }
}
