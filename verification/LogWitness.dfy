/** A run of the log's own operations after which the last `end_op` finds no buffer to commit with. */
module LogWitness {
  import opened Params
  import opened Options
  import opened LogDisk
  import opened BufferCache
  import opened Log

  const HOME := 40             // the first block that the operations write; 39 is read

  function ZeroBlock(): (b: Block)
    ensures |b| == BLOCK_WORDS && Lists(b, [])
  {
    seq(BLOCK_WORDS, _ => 0)
  }

  /** The kernel after start: an empty log of LOGSIZE blocks at block 2, and NBUF empty buffers. */
  method Fresh() returns (log: Log)
    ensures fresh(log) && fresh(log.cache) && fresh(log.dev) && log.layout == Layout(2, LOGSIZE)
    ensures log.Steady() && log.changed == {} && log.lh == [] && log.outstanding == 0
    ensures Quiet(log.cache.bufs) && |log.cache.bufs| == NBUF && |log.dev.blocks| == 100
  {
    var dev := new Device(seq(100, _ => ZeroBlock()));
    var cache := new Cache(NBUF, dev, ZeroBlock());
    log := new Log(cache, Layout(2, LOGSIZE));
  }

  lemma NoneHeld(bufs: seq<Buf>)
    requires Quiet(bufs)
    ensures CleanHeld(bufs) == {}
  {
  }

  /** One block changed and logged, inside an operation. */
  method WriteOne(log: Log, b: nat, data: Block)
    requires log.Steady() && log.changed == {} && log.outstanding >= 1 && Quiet(log.cache.bufs)
    requires IsHome(log.layout, |log.dev.blocks|, b) && b !in log.lh && |data| == BLOCK_WORDS
    requires |log.lh| < LOGSIZE && |log.lh| < log.layout.size - 1 && |log.lh| < |log.cache.bufs|
    modifies log, log.cache
    ensures log.Steady() && log.changed == {} && log.outstanding == old(log.outstanding) && Quiet(log.cache.bufs)
    ensures log.lh == old(log.lh) + [b] && |log.cache.bufs| == |old(log.cache.bufs)|
  {
    hide Coherent, Linked, Settled, HeldAreHome, PinnedAre, Lists, IsHeader, IsDisk;
    Spare(log.layout, log.cache.bufs, log.dev.blocks, log.lh);
    var r := log.Bread(b);
    var i := r.value;
    log.Modify(i, data);
    var ok := log.LogWrite(i);
    log.Brelse(i);
  }

  /** Three operations are open and have logged 29 blocks between them, the most that the list takes. */
  method FillLog() returns (log: Log)
    ensures fresh(log) && fresh(log.cache) && fresh(log.dev) && log.layout == Layout(2, LOGSIZE)
    ensures log.Steady() && log.changed == {} && |log.lh| == LOGSIZE - 1 && log.outstanding == 3
    ensures Quiet(log.cache.bufs) && |log.cache.bufs| == NBUF && |log.dev.blocks| == 100 && HOME - 1 !in log.lh
  {
    hide Coherent, Linked, Settled, HeldAreHome, PinnedAre, Lists, IsHeader, IsDisk, Quiet;
    log := Fresh();
    log.BeginOp();
    log.BeginOp();
    log.BeginOp();
    for k := 0 to LOGSIZE - 1
      invariant fresh(log) && fresh(log.cache) && fresh(log.dev)
      invariant log.Steady() && log.changed == {} && log.outstanding == 3 && Quiet(log.cache.bufs)
      invariant log.layout == Layout(2, LOGSIZE) && |log.cache.bufs| == NBUF && |log.dev.blocks| == 100
      invariant log.lh == seq(k, i => HOME + i)
    {
      assert HOME + k !in log.lh;
      WriteOne(log, HOME + k, ZeroBlock());
    }
  }

  /**
    A reader outside any operation holds the thirtieth buffer when the operations end, and the last
    `end_op` panics.
  */
  method CommitRunsOut() returns (log: Log, ok: bool)
    ensures !ok
  {
    hide Coherent, Linked, Settled, HeldAreHome, Lists, IsHeader, IsDisk;
    log := FillLog();
    Spare(log.layout, log.cache.bufs, log.dev.blocks, log.lh);
    var r := log.Bread(HOME - 1);
    OneHeld(log.cache.bufs, r.value, log.lh);
    ok := log.EndOp();
    ok := log.EndOp();
    ok := log.EndOp();
  }

  /** With nobody reading, one buffer is left. */
  lemma Spare(l: Layout, bufs: seq<Buf>, blocks: Disk, lh: seq<nat>)
    requires Coherent(bufs, blocks) && PinnedAre(bufs, lh) && IsHeader(l, |blocks|, lh) && Quiet(bufs) && |lh| < |bufs|
    ensures Free(bufs)
  {
    FreeIff(bufs, blocks, lh);
    NoneHeld(bufs);
  }

  lemma OneHeld(bufs: seq<Buf>, i: nat, lh: seq<nat>)
    requires i < |bufs| && bufs[i].refcnt > 0 && bufs[i].tag.Tag? && bufs[i].tag.blockno !in lh && PinnedAre(bufs, lh)
    requires forall j | 0 <= j < |bufs| && j != i :: bufs[j].refcnt == 0
    ensures CleanHeld(bufs) == {i}
  {
    var b := bufs[i].tag.blockno;
    assert !Pinned(bufs, b);
  }
}
