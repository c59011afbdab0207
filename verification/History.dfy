/** The reassembler with its history: which packets each block has been given since it was
    initialised, and a log of every block marked filled. The history never influences a step. */
module History {
  import opened Words
  import opened Layout
  import opened Reassembler

  /** A block's past: its data when it was initialised, the in-window packets counted in it since, and
      the packet it was initialised for, if not at start-up. */
  datatype Past = Past(base: seq<U64>, filed: seq<Packet>, opener: Option<Packet>)

  /** A block at the moment it was marked filled, and the packet that closed it. `epoch` counts the
      resyncs before that. */
  datatype Filled = Filled(mcnt: U64, slot: nat, block: Block, counter: nat, past: Past, epoch: nat, closer: Packet)

  datatype Track = Track(net: Net, cur: Past, nxt: Past, log: seq<Filled>, epoch: nat)

  function Accepted(cfg: Config, ps: seq<Packet>): seq<Packet> {
    if ps == [] then []
    else
      var front := Accepted(cfg, ps[..|ps| - 1]);
      if ValidSid(cfg, ps[|ps| - 1]) then front + [ps[|ps| - 1]] else front
  }

  function NewPast(b: Block, opener: Option<Packet>): Past {
    Past(b.data, [], opener)
  }

  function TStart(cfg: Config, memory: seq<Block>): (t: Track)
    requires cfg.Valid() && RingShape(cfg, memory)
    ensures Shape(cfg, t.net)
  {
    var n := Start(cfg, memory);
    Track(n, NewPast(n.blocks[0], None), NewPast(n.blocks[1], None), [], 0)
  }

  /** The first half of a closing call: everything up to the wait for a free block. */
  function TClose(cfg: Config, t: Track, p: Packet): (r: Track)
    requires Shape(cfg, t.net)
    ensures Shape(cfg, r.net)
  {
    var b := FillTarget(cfg, t.net);
    var entry := Filled(t.net.mcntStart, b, t.net.blocks[b], t.net.counters[b], t.cur, t.epoch, p);
    t.(net := Close(cfg, t.net), cur := t.nxt, log := t.log + [entry])
  }

  function TAcquire(cfg: Config, t: Track, p: Packet): (r: Track)
    requires Shape(cfg, t.net)
    ensures Shape(cfg, r.net)
  {
    t.(net := Acquire(cfg, t.net, p), nxt := NewPast(t.net.blocks[NextBlock(cfg, t.net.blockI)], Some(p)))
  }

  function TFile(cfg: Config, t: Track, p: Packet): (r: Track)
    requires Shape(cfg, t.net)
    ensures Shape(cfg, r.net)
  {
    var u := t.(net := File(cfg, t.net, p));
    if Distance(t.net, p) < cfg.nm then u.(cur := t.cur.(filed := t.cur.filed + [p]))
    else u.(nxt := t.nxt.(filed := t.nxt.filed + [p]))
  }

  function TOutOfSeq(cfg: Config, t: Track, p: Packet): (r: Track)
    requires Shape(cfg, t.net)
    ensures Shape(cfg, r.net)
  {
    var n := CountOutOfSeq(cfg, t.net, p);
    if n.outOfSeq > cfg.MaxOutOfSeq()
    then t.(net := n, epoch := t.epoch + 1, cur := NewPast(n.blocks[n.blockI], Some(p)),
            nxt := NewPast(n.blocks[NextBlock(cfg, n.blockI)], Some(p)))
    else t.(net := n)
  }

  function TStep(cfg: Config, t: Track, p: Packet): (r: Track)
    requires Shape(cfg, t.net)
    ensures Shape(cfg, r.net)
    ensures r.net == Step(cfg, t.net, p)
  {
    match Classify(cfg, t.net, p)
    case InWindow => TFile(cfg, if Closes(cfg, t.net, p) then TAcquire(cfg, TClose(cfg, t, p), p) else t, p)
    case Late => t
    case OutOfSequence => TOutOfSeq(cfg, t, p)
  }

  function TRun(cfg: Config, t: Track, ps: seq<Packet>): (r: Track)
    requires Shape(cfg, t.net)
    ensures Shape(cfg, r.net)
    ensures r.net == Run(cfg, t.net, ps)
  {
    if ps == [] then t else TStep(cfg, TRun(cfg, t, ps[..|ps| - 1]), ps[|ps| - 1])
  }
}
