/**
  log.c over the buffer cache of bio.c: `log_write` collects blocks, `commit` and
  `recover_from_log` move them, and the writes that reach the disk are exactly the sequences
  that the crash runs are about.
*/
module Log {
  import opened Params
  import opened Options
  import opened LogDisk
  import opened BufferCache

  /** The log has pinned block b in the cache. */
  ghost predicate Pinned(bufs: seq<Buf>, b: nat) {
    exists i :: 0 <= i < |bufs| && bufs[i].dirty && bufs[i].tag == Tag(b)
  }

  ghost predicate PinnedAre(bufs: seq<Buf>, s: seq<nat>) {
    forall b: nat :: Pinned(bufs, b) <==> b in s
  }

  /** Nobody holds a buffer. */
  ghost predicate Quiet(bufs: seq<Buf>) {
    forall i | 0 <= i < |bufs| :: bufs[i].refcnt == 0
  }

  ghost predicate OnDisk(b: Buf, blocks: Disk) {
    b.valid && !b.dirty ==> b.tag.Tag? && b.tag.blockno < |blocks| && b.data == blocks[b.tag.blockno]
  }

  /** Whoever holds a buffer, a clean one is as on disk, except for those in `changed`. */
  ghost predicate Settled(bufs: seq<Buf>, blocks: Disk, changed: set<nat>) {
    forall i | 0 <= i < |bufs| && i !in changed :: OnDisk(bufs[i], blocks)
  }

  /** Nobody holds a block of the log. */
  ghost predicate HeldAreHome(l: Layout, nblocks: nat, bufs: seq<Buf>) {
    forall i | 0 <= i < |bufs| && bufs[i].refcnt > 0 :: bufs[i].tag.Tag? && IsHome(l, nblocks, bufs[i].tag.blockno)
  }

  /** Some buffer can be recycled. */
  ghost predicate Free(bufs: seq<Buf>) {
    exists i :: 0 <= i < |bufs| && !Busy(bufs[i])
  }

  ghost predicate AllBusyBut(bufs: seq<Buf>, h: nat) {
    forall i | 0 <= i < |bufs| && i != h :: Busy(bufs[i])
  }

  /** There is no buffer for a first block, or none left for a second one that is not pinned. */
  ghost predicate NoRoom(bufs: seq<Buf>, home: nat) {
    !Free(bufs) || (!Pinned(bufs, home) && exists h :: AllBusyBut(bufs, h))
  }

  /** Buffer a after it was perhaps given to another block and `extra` more references were taken. */
  ghost predicate Lent(a: Buf, b: Buf, extra: nat) {
    && b.refcnt == a.refcnt + extra && b.dirty == a.dirty
    && (Busy(a) ==> b.tag == a.tag && (a.valid ==> b.valid))
  }

  ghost predicate LentTwo(bufs: seq<Buf>, bufs': seq<Buf>, f: nat, s: nat) {
    |bufs| == |bufs'| && forall i | 0 <= i < |bufs| :: Lent(bufs[i], bufs'[i], if i == f || i == s then 1 else 0)
  }

  /** Nothing new is pinned, and whoever holds a buffer still holds it, for the same block. */
  ghost predicate KeptBuf(a: Buf, b: Buf) {
    && b.refcnt == a.refcnt && (b.dirty ==> a.dirty)
    && (a.refcnt > 0 ==> b.tag == a.tag && (a.valid ==> b.valid))
  }

  ghost predicate Kept(bufs: seq<Buf>, bufs': seq<Buf>) {
    |bufs| == |bufs'| && forall i | 0 <= i < |bufs| :: KeptBuf(bufs[i], bufs'[i])
  }

  lemma KeptTrans(a: seq<Buf>, b: seq<Buf>, c: seq<Buf>)
    requires Kept(a, b) && Kept(b, c)
    ensures Kept(a, c)
  {
    forall i | 0 <= i < |a| ensures KeptBuf(a[i], c[i]) { assert KeptBuf(a[i], b[i]) && KeptBuf(b[i], c[i]); }
  }

  lemma KeptRefl(bufs: seq<Buf>)
    ensures Kept(bufs, bufs)
  {}

  lemma KeptCount(bufs: seq<Buf>, bufs': seq<Buf>)
    requires Kept(bufs, bufs')
    ensures |bufs| == |bufs'|
  {}

  lemma KeptFree(bufs: seq<Buf>, bufs': seq<Buf>)
    requires Kept(bufs, bufs') && Free(bufs)
    ensures Free(bufs')
  {
    var i :| 0 <= i < |bufs| && !Busy(bufs[i]);
    assert KeptBuf(bufs[i], bufs'[i]);
    assert !Busy(bufs'[i]);
  }

  lemma KeptHome(l: Layout, n: nat, bufs: seq<Buf>, bufs': seq<Buf>)
    requires Kept(bufs, bufs')
    ensures HeldAreHome(l, n, bufs) ==> HeldAreHome(l, n, bufs')
    ensures Quiet(bufs) ==> Quiet(bufs')
  {
    forall i | 0 <= i < |bufs| ensures KeptBuf(bufs[i], bufs'[i]) {}
  }

  lemma LentTwice(bufs: seq<Buf>, bufs1: seq<Buf>, bufs2: seq<Buf>, f: nat, s: nat)
    requires LentTwo(bufs, bufs1, f, f) && LentTwo(bufs1, bufs2, s, s) && f < |bufs| && s < |bufs|
    requires bufs2 == bufs1[s := bufs2[s]] && bufs1[f].tag != bufs2[s].tag
    requires bufs1[f].refcnt > 0
    ensures f != s && LentTwo(bufs, bufs2, f, s) && bufs2[f] == bufs1[f] && bufs2[s].refcnt > 0
  {
    assert Lent(bufs1[s], bufs2[s], 1);
    forall i | 0 <= i < |bufs| ensures Lent(bufs[i], bufs2[i], if i == f || i == s then 1 else 0) {
      assert Lent(bufs[i], bufs1[i], if i == f then 1 else 0) && Lent(bufs1[i], bufs2[i], if i == s then 1 else 0);
    }
  }

  /** Two references are given back. */
  lemma LentBack(bufs: seq<Buf>, bufs1: seq<Buf>, bufs2: seq<Buf>, f: nat, s: nat)
    requires LentTwo(bufs, bufs1, f, s) && |bufs2| == |bufs1|
    requires forall i | 0 <= i < |bufs1| ::
               && bufs2[i].tag == bufs1[i].tag && bufs2[i].valid == bufs1[i].valid
               && (bufs2[i].dirty ==> bufs1[i].dirty)
               && bufs1[i].refcnt == bufs2[i].refcnt + if i == f || i == s then 1 else 0
    ensures Kept(bufs, bufs2)
  {
    forall i | 0 <= i < |bufs| ensures KeptBuf(bufs[i], bufs2[i]) {
      assert Lent(bufs[i], bufs1[i], if i == f || i == s then 1 else 0);
    }
  }

  /** A block of the log that is in the cache is in a buffer that can be recycled. */
  lemma LogBlocksIdle(l: Layout, bufs: seq<Buf>, blocks: Disk, lh: seq<nat>, b: nat)
    requires HeldAreHome(l, |blocks|, bufs) && PinnedAre(bufs, lh) && b !in lh && !IsHome(l, |blocks|, b)
    ensures (exists i :: 0 <= i < |bufs| && bufs[i].tag == Tag(b)) ==> Free(bufs)
  {
    if i :| 0 <= i < |bufs| && bufs[i].tag == Tag(b) {
      assert !bufs[i].dirty by { assert bufs[i].dirty ==> Pinned(bufs, b); }
      assert !Busy(bufs[i]);
    }
  }

  /** An unpinned block of a settled cache reads as it is on disk. */
  lemma UnpinnedOnDisk(bufs: seq<Buf>, blocks: Disk, b: nat)
    requires Coherent(bufs, blocks) && Settled(bufs, blocks, {}) && b < |blocks| && !Pinned(bufs, b)
    ensures View(bufs, blocks, b) == blocks[b]
  {
    if i :| 0 <= i < |bufs| && Holds(bufs[i], b) {
      ViewCached(bufs, blocks, i);
      assert OnDisk(bufs[i], blocks);
    }
  }

  /** `bread` leaves a settled cache settled. */
  lemma ReadSettled(bufs: seq<Buf>, bufs': seq<Buf>, blocks: Disk, changed: set<nat>, i: nat, b: nat)
    requires Coherent(bufs, blocks) && Coherent(bufs', blocks) && Settled(bufs, blocks, changed)
    requires i < |bufs| == |bufs'| && bufs' == bufs[i := bufs'[i]] && b < |blocks|
    requires bufs'[i].tag == Tag(b) && bufs'[i].data == View(bufs, blocks, b)
    requires bufs[i].tag == Tag(b) ==> bufs'[i].dirty == bufs[i].dirty
    ensures Settled(bufs', blocks, changed)
  {
    if j :| 0 <= j < |bufs| && Holds(bufs[j], b) {
      ViewCached(bufs, blocks, j);
      if j != i { SameBuf(bufs', i, j); }
    }
    forall k | 0 <= k < |bufs'| && k !in changed ensures OnDisk(bufs'[k], blocks) {
      assert OnDisk(bufs[k], blocks);
    }
  }

  /** Writing one buffer to its block leaves a settled cache settled. */
  lemma WriteSettled(bufs: seq<Buf>, bufs': seq<Buf>, blocks: Disk, blocks': Disk, i: nat)
    requires Coherent(bufs, blocks) && Settled(bufs, blocks, {}) && i < |bufs| == |bufs'| && bufs[i].tag.Tag?
    requires bufs'[i].tag == bufs[i].tag && bufs[i].tag.blockno < |blocks|
    requires blocks' == blocks[bufs[i].tag.blockno := bufs'[i].data]
    requires forall k | 0 <= k < |bufs| && k != i ::
               bufs'[k].tag == bufs[k].tag && bufs'[k].dirty == bufs[k].dirty && bufs'[k].valid == bufs[k].valid
               && bufs'[k].data == bufs[k].data
    ensures Settled(bufs', blocks', {})
  {
    forall k | 0 <= k < |bufs'| ensures OnDisk(bufs'[k], blocks') {
      assert OnDisk(bufs[k], blocks);
      if k != i && bufs[k].tag == bufs[i].tag { SameBuf(bufs, i, k); }
    }
  }

  /** Reading a block pins and unpins nothing. */
  lemma SamePinned(bufs: seq<Buf>, bufs': seq<Buf>, i: nat, b: nat)
    requires i < |bufs| == |bufs'| && bufs' == bufs[i := bufs'[i]] && bufs'[i].tag == Tag(b)
    requires if bufs[i].tag == Tag(b) then bufs'[i].dirty == bufs[i].dirty else !bufs[i].dirty && !bufs'[i].dirty
    ensures forall c: nat :: Pinned(bufs', c) <==> Pinned(bufs, c)
  {
    forall c: nat ensures Pinned(bufs', c) <==> Pinned(bufs, c) {
      if j :| 0 <= j < |bufs| && bufs[j].dirty && bufs[j].tag == Tag(c) {
        assert bufs'[j].dirty && bufs'[j].tag == Tag(c);
      }
      if j :| 0 <= j < |bufs| && bufs'[j].dirty && bufs'[j].tag == Tag(c) {
        assert bufs[j].dirty && bufs[j].tag == Tag(c);
      }
    }
  }

  /** Writing a block unpins that block only. */
  lemma CleanedPinned(bufs: seq<Buf>, bufs': seq<Buf>, from: nat, to: nat)
    requires Unique(bufs) && from < |bufs| == |bufs'| && to < |bufs| && from != to
    requires bufs[to].tag.Tag? && bufs'[to].tag == bufs[to].tag && !bufs'[to].dirty
    requires bufs'[from].tag == bufs[from].tag && bufs'[from].dirty == bufs[from].dirty
    requires forall i | 0 <= i < |bufs| && i != from && i != to :: bufs'[i] == bufs[i]
    ensures forall c: nat :: Pinned(bufs', c) <==> Pinned(bufs, c) && Tag(c) != bufs[to].tag
  {
    forall c: nat ensures Pinned(bufs', c) <==> Pinned(bufs, c) && Tag(c) != bufs[to].tag {
      if j :| 0 <= j < |bufs| && bufs[j].dirty && bufs[j].tag == Tag(c) && j != to {
        assert bufs'[j].dirty && bufs'[j].tag == Tag(c);
      }
      if j :| 0 <= j < |bufs| && bufs'[j].dirty && bufs'[j].tag == Tag(c) {
        assert bufs[j].dirty && bufs[j].tag == Tag(c);
        if Tag(c) == bufs[to].tag { SameBuf(bufs, j, to); }
      }
    }
  }

  lemma DistinctSnoc(s: seq<nat>, b: nat)
    requires Distinct(s) && b !in s
    ensures Distinct(s + [b])
  {
    forall i: nat, j: nat | i < j < |s| + 1 ensures Apart(s + [b], i, j) {
      if j < |s| { assert Apart(s, i, j); }
    }
  }

  /** Pinning one more buffer pins exactly its block. */
  lemma PinnedMore(bufs: seq<Buf>, bufs': seq<Buf>, i: nat)
    requires i < |bufs| && bufs[i].tag.Tag? && bufs' == bufs[i := bufs[i].(dirty := true)]
    ensures forall c: nat :: Pinned(bufs', c) <==> Pinned(bufs, c) || c == bufs[i].tag.blockno
  {
    forall c: nat ensures Pinned(bufs', c) <==> Pinned(bufs, c) || c == bufs[i].tag.blockno {
      assert bufs'[i].dirty;
      if j :| 0 <= j < |bufs| && bufs[j].dirty && bufs[j].tag == Tag(c) {
        assert bufs'[j].dirty && bufs'[j].tag == Tag(c);
      }
      if j :| 0 <= j < |bufs| && bufs'[j].dirty && bufs'[j].tag == Tag(c) && j != i {
        assert bufs[j].dirty && bufs[j].tag == Tag(c);
      }
    }
  }

  // --- how many buffers are left ----------------------------------------------------------

  ghost function Dirty(bufs: seq<Buf>): set<nat> { set i: nat | i < |bufs| && bufs[i].dirty }

  /** The buffers that are held, and not pinned as well. */
  ghost function CleanHeld(bufs: seq<Buf>): set<nat> {
    set i: nat | i < |bufs| && bufs[i].refcnt > 0 && !bufs[i].dirty
  }

  ghost predicate Tagged(bufs: seq<Buf>, i: nat, b: nat) { i < |bufs| && bufs[i].tag == Tag(b) }

  /** The buffers in ix hold exactly the distinct blocks in s, one each. */
  lemma {:induction false} OneBufferEach(bufs: seq<Buf>, ix: set<nat>, s: seq<nat>)
    requires Unique(bufs) && Distinct(s)
    requires forall i | i in ix :: i < |bufs| && bufs[i].tag.Tag? && bufs[i].tag.blockno in s
    requires forall b | b in s :: exists i :: i in ix && Tagged(bufs, i, b)
    ensures |ix| == |s|
    decreases |s|
  {
    if s == [] {
      assert ix == {};
    } else {
      var last := |s| - 1;
      var b, r := s[last], s[..last];
      assert b in s;
      var i :| i in ix && Tagged(bufs, i, b);
      forall k: nat | k < last ensures s[k] != b { assert Apart(s, k, last); }
      forall k: nat, j: nat | k < j < |r| ensures Apart(r, k, j) { assert Apart(s, k, j); }
      forall j | j in ix - {i} ensures bufs[j].tag.blockno in r {
        if bufs[j].tag.blockno == b { SameBuf(bufs, i, j); }
      }
      forall c | c in r ensures exists j :: j in ix - {i} && Tagged(bufs, j, c) {
        assert c in s;
        var j :| j in ix && Tagged(bufs, j, c);
        assert j in ix - {i};
      }
      OneBufferEach(bufs, ix - {i}, r);
    }
  }

  /** As many buffers are pinned as the header lists blocks. */
  lemma PinnedCount(bufs: seq<Buf>, blocks: Disk, s: seq<nat>)
    requires Coherent(bufs, blocks) && PinnedAre(bufs, s) && Distinct(s)
    ensures |Dirty(bufs)| == |s|
  {
    var ix := Dirty(bufs);
    forall i | i in ix ensures bufs[i].tag.Tag? && bufs[i].tag.blockno in s {
      assert WellFormed(bufs[i], blocks);
      assert Pinned(bufs, bufs[i].tag.blockno);
    }
    forall b | b in s ensures exists i :: i in ix && Tagged(bufs, i, b) {
      assert Pinned(bufs, b);
      var i :| 0 <= i < |bufs| && bufs[i].dirty && bufs[i].tag == Tag(b);
      assert i in ix && Tagged(bufs, i, b);
    }
    OneBufferEach(bufs, ix, s);
  }

  ghost function Below(n: nat): (ix: set<nat>)
    ensures |ix| == n && forall i :: i in ix <==> 0 <= i < n
  {
    if n == 0 then {} else Below(n - 1) + {n - 1}
  }

  lemma ProperSubset(a: set<nat>, b: set<nat>)
    requires a <= b
    ensures |a| <= |b| && (|a| == |b| <==> a == b)
  {
    assert b == a + (b - a);
    assert |b| == |a| + |b - a|;
  }

  /** A buffer can be recycled iff the listed blocks and the buffers that others hold leave one over. */
  lemma FreeIff(bufs: seq<Buf>, blocks: Disk, s: seq<nat>)
    requires Coherent(bufs, blocks) && PinnedAre(bufs, s) && Distinct(s)
    ensures Free(bufs) <==> |s| + |CleanHeld(bufs)| < |bufs|
  {
    PinnedCount(bufs, blocks, s);
    var busy := Dirty(bufs) + CleanHeld(bufs);
    assert |busy| == |s| + |CleanHeld(bufs)|;
    var all := Below(|bufs|);
    ProperSubset(busy, all);
    if Free(bufs) {
      var i :| 0 <= i < |bufs| && !Busy(bufs[i]);
      assert i in all && i !in busy;
    } else {
      forall i | i in all ensures i in busy { assert Busy(bufs[i]); }
    }
  }

  /** With nothing held or pinned, two buffers are room for any copy. */
  lemma QuietRoom(bufs: seq<Buf>, blocks: Disk, home: nat)
    requires Coherent(bufs, blocks) && Quiet(bufs) && PinnedAre(bufs, []) && 2 <= |bufs|
    ensures Free(bufs) && !NoRoom(bufs, home)
  {
    forall i | 0 <= i < |bufs| ensures !Busy(bufs[i]) {
      assert WellFormed(bufs[i], blocks);
      assert bufs[i].dirty ==> Pinned(bufs, bufs[i].tag.blockno);
    }
    assert !Busy(bufs[0]);
    forall h: nat ensures !AllBusyBut(bufs, h) {
      var i := if h == 0 then 1 else 0;
      assert !Busy(bufs[i]);
    }
  }

  /** The transaction that the cache holds for the blocks of a header. */
  ghost function PendingTxn(bufs: seq<Buf>, blocks: Disk, lh: seq<nat>): (t: Txn)
    requires forall i | 0 <= i < |lh| :: lh[i] < |blocks|
    ensures t.blocks == lh && |t.data| == |lh|
    ensures forall i | 0 <= i < |lh| :: t.data[i] == View(bufs, blocks, lh[i])
  {
    Txn(lh, seq(|lh|, i requires 0 <= i < |lh| && lh[i] < |blocks| => View(bufs, blocks, lh[i])))
  }

  // --- sequences of writes ----------------------------------------------------------------

  /** From disk d and write record w the writes ws were issued, leading to d' and w'. */
  ghost predicate Issued(d: Disk, w: seq<Write>, ws: seq<Write>, d': Disk, w': seq<Write>) {
    InRange(|d|, ws) && d' == ApplyAll(d, ws) && w' == w + ws
  }

  /** Issuing `rest` from (d, w) ends where issuing `all` from (d0, w0) ends. */
  ghost predicate Remaining(d: Disk, w: seq<Write>, rest: seq<Write>, d0: Disk, w0: seq<Write>, all: seq<Write>) {
    InRange(|d|, rest) && InRange(|d0|, all) && ApplyAll(d, rest) == ApplyAll(d0, all) && w + rest == w0 + all
  }

  lemma Progress(d: Disk, w: seq<Write>, x: Write, rest: seq<Write>, d0: Disk, w0: seq<Write>, all: seq<Write>)
    requires Remaining(d, w, [x] + rest, d0, w0, all)
    ensures x.blockno < |d| && Remaining(d[x.blockno := x.data], w + [x], rest, d0, w0, all)
  {
    var s := [x] + rest;
    assert s[0] == x && s[1..] == rest;
    assert forall i | 0 <= i < |rest| :: rest[i] == s[i + 1];
    assert w + s == (w + [x]) + rest;
  }

  lemma NoneIssued(d: Disk, w: seq<Write>, all: seq<Write>)
    requires InRange(|d|, all)
    ensures Remaining(d, w, all, d, w, all)
  {}

  lemma Done(d: Disk, w: seq<Write>, d0: Disk, w0: seq<Write>, all: seq<Write>)
    requires Remaining(d, w, [], d0, w0, all)
    ensures Issued(d0, w0, all, d, w)
  {
    assert w + [] == w;
  }

  lemma IssuedChain(d: Disk, w: seq<Write>, a: seq<Write>, d1: Disk, w1: seq<Write>, b: seq<Write>, d2: Disk,
                    w2: seq<Write>)
    requires Issued(d, w, a, d1, w1) && Issued(d1, w1, b, d2, w2)
    ensures Issued(d, w, a + b, d2, w2)
  {
    ApplyAppend(d, a, b);
    assert (w + a) + b == w + (a + b);
  }

  lemma CommitSplits(l: Layout, h: Block, t: Txn)
    requires |t.blocks| < |h| && |t.data| == |t.blocks|
    ensures CommitFrom(l, h, t, 0) ==
              (LogWrites(l, t, 0) + [Write(l.start, HeadBlock(h, t.blocks))])
              + (HomeWrites(t, 0) + [ClearWrite(l, HeadBlock(h, t.blocks))])
  {}

  class Log {
    const cache: Cache
    const dev: Device
    const layout: Layout
    var lh: seq<nat>      // log.lh.block[0 .. log.lh.n]
    var outstanding: int
    ghost var changed: set<nat>  // buffers whose holder has changed the data and not yet called log_write

    constructor (cache: Cache, layout: Layout)
      ensures this.cache == cache && this.dev == cache.dev && this.layout == layout
      ensures lh == [] && outstanding == 0 && changed == {}
    {
      this.cache, this.dev, this.layout, lh, outstanding, changed := cache, cache.dev, layout, [], 0, {};
    }

    ghost predicate Valid()
      reads this, cache, dev
    {
      cache.dev == dev && cache.Valid() && IsDisk(layout, dev.blocks)
    }

    /** Exactly the blocks `s` are pinned; others may hold home blocks, which they have not changed. */
    ghost predicate Resting(s: seq<nat>)
      reads this, cache, dev
    {
      && Valid() && PinnedAre(cache.bufs, s)
      && Settled(cache.bufs, dev.blocks, {}) && HeldAreHome(layout, |dev.blocks|, cache.bufs)
    }

    /** `bread` of any block, in terms of what is held, pinned and changed. */
    method Hold(b: nat, ghost c: set<nat>) returns (r: Option<nat>)
      requires Valid() && Settled(cache.bufs, dev.blocks, c) && b < |dev.blocks|
      modifies cache`bufs
      ensures Valid() && Settled(cache.bufs, dev.blocks, c)
      ensures r.None? ==> cache.bufs == old(cache.bufs) && !Free(cache.bufs) && !Pinned(cache.bufs, b)
      ensures r.Some? ==>
                && r.value < |cache.bufs| && Holds(cache.bufs[r.value], b)
                && cache.bufs[r.value].data == old(cache.Contents(b))
                && LentTwo(old(cache.bufs), cache.bufs, r.value, r.value)
                && cache.bufs == old(cache.bufs)[r.value := cache.bufs[r.value]]
                && (old(cache.bufs)[r.value].tag == Tag(b) || !Busy(old(cache.bufs)[r.value]))
      ensures forall b: nat | b < |dev.blocks| :: cache.Contents(b) == old(cache.Contents(b))
      ensures forall b: nat :: Pinned(cache.bufs, b) <==> old(Pinned(cache.bufs, b))
    {
      hide Coherent, Linked, View;
      ghost var bufs := cache.bufs;
      r := cache.Read(b);
      if r.Some? {
        SamePinned(bufs, cache.bufs, r.value, b);
        ReadSettled(bufs, cache.bufs, dev.blocks, c, r.value, b);
      }
    }

    /** `bread` the log block, then the home block.  ok is false when the cache runs out of buffers (a panic). */
    method ReadPair(logno: nat, home: nat) returns (ok: bool, f: nat, s: nat)
      requires Valid() && Settled(cache.bufs, dev.blocks, {})
      requires logno < |dev.blocks| && home < |dev.blocks| && logno != home
      modifies cache`bufs
      ensures !ok ==> NoRoom(old(cache.bufs), home) && (Pinned(old(cache.bufs), home) ==> cache.bufs == old(cache.bufs))
      ensures ok ==>
                && Valid() && f < |cache.bufs| && s < |cache.bufs| && f != s
                && Holds(cache.bufs[f], logno) && Holds(cache.bufs[s], home)
                && cache.bufs[f].refcnt > 0 && cache.bufs[s].refcnt > 0
                && cache.bufs[f].data == old(cache.Contents(logno)) && cache.bufs[s].data == old(cache.Contents(home))
                && LentTwo(old(cache.bufs), cache.bufs, f, s) && Settled(cache.bufs, dev.blocks, {})
                && (old(cache.bufs)[f].tag == Tag(logno) || !Busy(old(cache.bufs)[f]))
                && (forall b: nat | b < |dev.blocks| :: cache.Contents(b) == old(cache.Contents(b)))
                && (forall b: nat :: Pinned(cache.bufs, b) <==> old(Pinned(cache.bufs, b)))
    {
      hide Coherent, Linked, View, Settled, Pinned;
      ok, f, s := false, 0, 0;
      ghost var bufs := cache.bufs;
      var first := Hold(logno, {});
      if first.None? { return; }
      f := first.value;
      ghost var bufs' := cache.bufs;
      var second := Hold(home, {});
      if second.None? {
        forall i | 0 <= i < |bufs| && i != f ensures Busy(bufs[i]) {
          assert Busy(bufs'[i]) && Lent(bufs[i], bufs'[i], 0);
        }
        assert AllBusyBut(bufs, f);
        return;
      }
      s := second.value;
      LentTwice(bufs, bufs', cache.bufs, f, s);
      ok := true;
    }

    /** Change a held buffer and `bwrite` it. */
    method WriteOver(to: nat, data: Block)
      requires Valid() && to < |cache.bufs| && cache.bufs[to].valid && cache.bufs[to].refcnt > 0
      requires Settled(cache.bufs, dev.blocks, {}) && |data| == BLOCK_WORDS
      modifies cache`bufs, dev
      ensures Valid() && Settled(cache.bufs, dev.blocks, {})
      ensures cache.bufs == old(cache.bufs)[to := old(cache.bufs)[to].(dirty := false, data := data)]
      ensures var dst := old(cache.bufs)[to].tag.blockno;
              && dev.writes == old(dev.writes) + [Write(dst, data)]
              && dst < |old(dev.blocks)| && dev.blocks == old(dev.blocks)[dst := data]
              && (forall b: nat | b < |dev.blocks| ::
                    cache.Contents(b) == if b == dst then data else old(cache.Contents(b)))
    {
      hide View;
      ghost var bufs, blocks := cache.bufs, dev.blocks;
      cache.Modify(to, data);
      cache.Write(to);
      WriteSettled(bufs, cache.bufs, blocks, dev.blocks, to);
    }

    /** Copy one held buffer over another, `bwrite` it, and release both. */
    method MoveHeld(from: nat, to: nat)
      requires Valid() && from < |cache.bufs| && to < |cache.bufs| && from != to
      requires cache.bufs[from].valid && cache.bufs[to].valid && cache.bufs[from].tag != cache.bufs[to].tag
      requires cache.bufs[from].refcnt > 0 && cache.bufs[to].refcnt > 0 && Settled(cache.bufs, dev.blocks, {})
      modifies cache, dev
      ensures Valid() && Settled(cache.bufs, dev.blocks, {})
      ensures var bufs := old(cache.bufs);
              cache.bufs == bufs[from := bufs[from].(refcnt := bufs[from].refcnt - 1)]
                                [to := bufs[to].(refcnt := bufs[to].refcnt - 1, dirty := false,
                                                 data := bufs[from].data)]
      ensures var dst, data := old(cache.bufs)[to].tag.blockno, old(cache.bufs)[from].data;
              && dev.writes == old(dev.writes) + [Write(dst, data)]
              && dst < |old(dev.blocks)| && dev.blocks == old(dev.blocks)[dst := data]
              && (forall b: nat | b < |dev.blocks| ::
                    cache.Contents(b) == if b == dst then data else old(cache.Contents(b)))
              && (forall b: nat :: Pinned(cache.bufs, b) <==> old(Pinned(cache.bufs, b)) && b != dst)
    {
      hide View, Pinned;
      ghost var bufs, blocks := cache.bufs, dev.blocks;
      assert OnDisk(bufs[from], blocks);
      WriteOver(to, cache.bufs[from].data);
      assert OnDisk(cache.bufs[from], dev.blocks) && OnDisk(cache.bufs[to], dev.blocks);
      cache.Release(from);
      cache.Release(to);
      CleanedPinned(bufs, cache.bufs, from, to);
    }

    /**
      One turn of `write_log` (toLog) or `install_trans`: read the log block, read the home
      block, copy one over the other, write it, release both.
    */
    method Copy(logno: nat, home: nat, toLog: bool) returns (ok: bool)
      requires Valid() && Settled(cache.bufs, dev.blocks, {})
      requires logno < |dev.blocks| && home < |dev.blocks| && logno != home
      modifies cache, dev
      ensures !ok ==>
                && NoRoom(old(cache.bufs), home) && dev.blocks == old(dev.blocks) && dev.writes == old(dev.writes)
                && (Pinned(old(cache.bufs), home) ==> cache.bufs == old(cache.bufs))
      ensures ok ==>
                var src, dst := if toLog then home else logno, if toLog then logno else home;
                && Valid() && Settled(cache.bufs, dev.blocks, {}) && Kept(old(cache.bufs), cache.bufs)
                && dev.writes == old(dev.writes) + [Write(dst, old(cache.Contents(src)))]
                && dev.blocks == old(dev.blocks)[dst := old(cache.Contents(src))]
                && (forall b: nat | b < |dev.blocks| ::
                      cache.Contents(b) == old(cache.Contents(if b == dst then src else b)))
                && (forall b: nat :: Pinned(cache.bufs, b) <==> old(Pinned(cache.bufs, b)) && b != dst)
      ensures ok ==>
              Free(old(cache.bufs)) || exists i :: 0 <= i < |old(cache.bufs)| && old(cache.bufs)[i].tag == Tag(logno)
    {
      hide Coherent, Linked, View, Settled, Pinned, LentTwo, Kept;
      var f, s;
      ok, f, s := ReadPair(logno, home);
      if ok {
        var from, to := if toLog then s else f, if toLog then f else s;
        ghost var bufs := cache.bufs;
        MoveHeld(from, to);
        LentBack(old(cache.bufs), bufs, cache.bufs, f, s);
      }
    }

    /** `write_head`. */
    method WriteHead(ghost pins: seq<nat>)
      requires Resting(pins) && Free(cache.bufs) && layout.start !in pins && |lh| <= LOGSIZE
      modifies cache, dev
      ensures Resting(pins) && Kept(old(cache.bufs), cache.bufs)
      ensures Issued(old(dev.blocks), old(dev.writes),
                     [Write(layout.start, HeadBlock(old(dev.blocks)[layout.start], lh))],
                     dev.blocks, dev.writes)
    {
      var i := HoldHead(pins);
      ghost var bufs, blocks := cache.bufs, dev.blocks;
      ApplyOne(blocks, Write(layout.start, HeadBlock(cache.bufs[i].data, lh)));
      WriteOver(i, HeadBlock(cache.bufs[i].data, lh));
      assert OnDisk(cache.bufs[i], dev.blocks);
      cache.Release(i);
      SamePinned(bufs, cache.bufs, i, layout.start);
      LentBack(old(cache.bufs), bufs, cache.bufs, i, i);
      KeptHome(layout, |dev.blocks|, old(cache.bufs), cache.bufs);
    }

    /** `bread` of the header block, which is never pinned. */
    method HoldHead(ghost pins: seq<nat>) returns (i: nat)
      requires Resting(pins) && Free(cache.bufs) && layout.start !in pins
      modifies cache`bufs
      ensures Valid() && PinnedAre(cache.bufs, pins) && i < |cache.bufs|
      ensures cache.bufs[i] == Buf(Tag(layout.start), true, false, 1, dev.blocks[layout.start])
      ensures LentTwo(old(cache.bufs), cache.bufs, i, i) && Settled(cache.bufs, dev.blocks, {})
    {
      UnpinnedOnDisk(cache.bufs, dev.blocks, layout.start);
      var r := Hold(layout.start, {});
      assert r.Some?;
      i := r.value;
      assert !cache.bufs[i].dirty by { assert !Pinned(cache.bufs, layout.start); }
    }

    /** One turn of the loop of `write_log`: entry `tail` is logged, no home block changes. */
    method LogEntry(tail: nat) returns (ok: bool)
      requires Resting(lh) && IsHeader(layout, |dev.blocks|, lh) && tail < |lh|
      modifies cache, dev
      ensures ok <==> Free(old(cache.bufs))
      ensures !ok ==> cache.bufs == old(cache.bufs) && dev.blocks == old(dev.blocks) && dev.writes == old(dev.writes)
      ensures ok ==>
              var logno, data := layout.start + 1 + tail, old(cache.Contents(lh[tail]));
              && Resting(lh) && Kept(old(cache.bufs), cache.bufs)
              && dev.writes == old(dev.writes) + [Write(logno, data)]
              && dev.blocks == old(dev.blocks)[logno := data]
              && forall i | 0 <= i < |lh| :: cache.Contents(lh[i]) == old(cache.Contents(lh[i]))
    {
      ghost var bufs := cache.bufs;
      assert Pinned(bufs, lh[tail]);
      LogBlocksIdle(layout, bufs, dev.blocks, lh, layout.start + tail + 1);
      ok := Copy(layout.start + tail + 1, lh[tail], true);
      if ok { KeptHome(layout, |dev.blocks|, bufs, cache.bufs); }
    }

    /** `write_log`: it runs out of buffers, if at all, before it has written anything. */
    method WriteLog() returns (ok: bool)
      requires Resting(lh) && IsHeader(layout, |dev.blocks|, lh)
      modifies cache, dev
      ensures ok <==> lh == [] || Free(old(cache.bufs))
      ensures !ok ==> cache.bufs == old(cache.bufs) && dev.blocks == old(dev.blocks) && dev.writes == old(dev.writes)
      ensures ok ==>
              && Resting(lh) && Kept(old(cache.bufs), cache.bufs)
              && Issued(old(dev.blocks), old(dev.writes),
                        LogWrites(layout, PendingTxn(old(cache.bufs), old(dev.blocks), lh), 0), dev.blocks, dev.writes)
    {
      hide Remaining, Issued, Kept, Free, PinnedAre, Settled, HeldAreHome;
      ghost var t := PendingTxn(cache.bufs, dev.blocks, lh);
      LogWritesInRange(layout, |dev.blocks|, t, 0);
      NoneIssued(dev.blocks, dev.writes, LogWrites(layout, t, 0));
      KeptRefl(cache.bufs);
      var tail := 0;
      ok := true;
      while tail < |lh|
        invariant 0 <= tail <= |lh| && ok
        invariant Resting(lh) && Kept(old(cache.bufs), cache.bufs) && (tail > 0 ==> Free(old(cache.bufs)))
        invariant tail == 0 ==> cache.bufs == old(cache.bufs)
        invariant tail == 0 ==> dev.blocks == old(dev.blocks) && dev.writes == old(dev.writes)
        invariant |dev.blocks| == |old(dev.blocks)|
        invariant Remaining(dev.blocks, dev.writes, LogWrites(layout, t, tail),
                            old(dev.blocks), old(dev.writes), LogWrites(layout, t, 0))
        invariant forall i | 0 <= i < |lh| :: cache.Contents(lh[i]) == t.data[i]
      {
        Progress(dev.blocks, dev.writes, Write(layout.start + 1 + tail, t.data[tail]), LogWrites(layout, t, tail + 1),
                 old(dev.blocks), old(dev.writes), LogWrites(layout, t, 0));
        ghost var bufs := cache.bufs;
        if tail > 0 { KeptFree(old(cache.bufs), bufs); }
        ok := LogEntry(tail);
        if !ok { return; }
        KeptTrans(old(cache.bufs), bufs, cache.bufs);
        tail := tail + 1;
      }
      Done(dev.blocks, dev.writes, old(dev.blocks), old(dev.writes), LogWrites(layout, t, 0));
    }

    /** Commit finds the listed blocks pinned and a buffer to spare; recovery finds the cache quiet. */
    ghost predicate CanInstall(pins: seq<nat>)
      reads this, cache, dev
    {
      && Resting(pins) && Free(cache.bufs) && IsHeader(layout, |dev.blocks|, lh)
      && (pins == [] ==> Quiet(cache.bufs) && 2 <= |cache.bufs|)
    }

    /** One turn of the loop of `install_trans`, with the entries from `tail` on pinned, or nothing. */
    method InstallEntry(tail: nat, ghost pins: seq<nat>)
      requires CanInstall(pins) && tail < |lh| && (pins == [] || pins == lh[tail..])
      modifies cache, dev
      ensures Resting(if pins == [] then [] else lh[tail + 1..]) && Kept(old(cache.bufs), cache.bufs)
      ensures var data := old(dev.blocks)[layout.start + 1 + tail];
              && dev.writes == old(dev.writes) + [Write(lh[tail], data)]
              && dev.blocks == old(dev.blocks)[lh[tail] := data]
    {
      ghost var bufs := cache.bufs;
      if pins == [] { QuietRoom(bufs, dev.blocks, lh[tail]); } else { assert Pinned(bufs, lh[tail]); }
      UnpinnedOnDisk(cache.bufs, dev.blocks, layout.start + tail + 1);
      var ok := Copy(layout.start + tail + 1, lh[tail], false);
      assert ok;
      KeptHome(layout, |dev.blocks|, bufs, cache.bufs);
      assert lh[tail..] == [lh[tail]] + lh[tail + 1..];
      forall i: nat | tail < i < |lh| ensures lh[i] != lh[tail] { assert Apart(lh, tail, i); }
    }

    /**
      `install_trans`, either inside a commit (every listed block pinned) or in recovery
      (nothing pinned).  Nothing is pinned at the end.
    */
    method InstallTrans(ghost pins: seq<nat>)
      requires CanInstall(pins) && (pins == [] || pins == lh)
      modifies cache, dev
      ensures Resting([]) && Kept(old(cache.bufs), cache.bufs)
      ensures Issued(old(dev.blocks), old(dev.writes), InstallWrites(layout, old(dev.blocks), lh, 0),
                     dev.blocks, dev.writes)
    {
      hide Remaining, Issued, Kept, Free, PinnedAre, Settled, HeldAreHome;
      ghost var d, now := dev.blocks, pins;
      InstallInRange(layout, d, lh, 0);
      NoneIssued(d, dev.writes, InstallWrites(layout, d, lh, 0));
      KeptRefl(cache.bufs);
      var tail := 0;
      assert lh[0..] == lh;
      while tail < |lh|
        invariant 0 <= tail <= |lh| && Kept(old(cache.bufs), cache.bufs)
        invariant Resting(now) && now == if pins == [] then [] else lh[tail..]
        invariant |dev.blocks| == |d|
        invariant Remaining(dev.blocks, dev.writes, InstallWrites(layout, d, lh, tail),
                            d, old(dev.writes), InstallWrites(layout, d, lh, 0))
        invariant forall b | layout.start <= b < layout.start + layout.size :: dev.blocks[b] == d[b]
      {
        Progress(dev.blocks, dev.writes, Write(lh[tail], d[layout.start + 1 + tail]),
                 InstallWrites(layout, d, lh, tail + 1),
                 d, old(dev.writes), InstallWrites(layout, d, lh, 0));
        ghost var bufs := cache.bufs;
        KeptFree(old(cache.bufs), bufs);
        KeptHome(layout, |d|, old(cache.bufs), bufs);
        KeptCount(old(cache.bufs), bufs);
        InstallEntry(tail, now);
        KeptTrans(old(cache.bufs), bufs, cache.bufs);
        tail := tail + 1;
        now := if pins == [] then [] else lh[tail..];
      }
      assert lh[|lh|..] == [];
      Done(dev.blocks, dev.writes, d, old(dev.writes), InstallWrites(layout, d, lh, 0));
    }

    /** The end of `commit`, and the whole of recovery after `read_head`: install, then erase the log. */
    method InstallAndClear(ghost pins: seq<nat>)
      requires CanInstall(pins) && (pins == [] || pins == lh)
      modifies this`lh, cache, dev
      ensures Resting([]) && lh == [] && Kept(old(cache.bufs), cache.bufs)
      ensures Issued(old(dev.blocks), old(dev.writes), RecoverFrom(layout, old(dev.blocks), old(lh), 0),
                     dev.blocks, dev.writes)
    {
      ghost var d, w, ws := dev.blocks, dev.writes, InstallWrites(layout, dev.blocks, lh, 0);
      InstallTrans(pins);
      InstallAt(layout, d, lh, layout.start);
      ghost var d1, w1, bufs := dev.blocks, dev.writes, cache.bufs;
      KeptFree(old(cache.bufs), bufs);
      lh := [];
      WriteHead([]);
      KeptTrans(old(cache.bufs), bufs, cache.bufs);
      IssuedChain(d, w, ws, d1, w1, [ClearWrite(layout, d[layout.start])], dev.blocks, dev.writes);
    }

    /** The pending transaction is pinned, and the log on disk is empty. */
    ghost predicate Collecting()
      reads this, cache, dev
    {
      && Valid() && IsHeader(layout, |dev.blocks|, lh) && PinnedAre(cache.bufs, lh)
      && Lists(dev.blocks[layout.start], [])
    }

    /** The start of `commit`: the log, then the header, which is the commit point. */
    method LogAndHead() returns (ok: bool)
      requires Resting(lh) && IsHeader(layout, |dev.blocks|, lh) && lh != []
      modifies cache, dev
      ensures ok <==> Free(old(cache.bufs))
      ensures !ok ==> cache.bufs == old(cache.bufs) && dev.blocks == old(dev.blocks) && dev.writes == old(dev.writes)
      ensures ok ==>
              var t := PendingTxn(old(cache.bufs), old(dev.blocks), lh);
              && Resting(lh) && Kept(old(cache.bufs), cache.bufs)
              && Issued(old(dev.blocks), old(dev.writes),
                        LogWrites(layout, t, 0) + [Write(layout.start, HeadBlock(old(dev.blocks)[layout.start], lh))],
                        dev.blocks, dev.writes)
    {
      ghost var d, w, t := dev.blocks, dev.writes, PendingTxn(cache.bufs, dev.blocks, lh);
      ok := WriteLog();
      if !ok { return; }
      LogWritesAt(layout, d, t, 0, layout.start);
      ghost var d1, w1, bufs := dev.blocks, dev.writes, cache.bufs;
      KeptFree(old(cache.bufs), bufs);
      WriteHead(lh);
      KeptTrans(old(cache.bufs), bufs, cache.bufs);
      IssuedChain(d, w, LogWrites(layout, t, 0), d1, w1, [Write(layout.start, HeadBlock(d[layout.start], lh))],
                  dev.blocks, dev.writes);
    }

    /** The body of `commit`: exactly the commit sequence of the pending transaction is issued. */
    method CommitSequence() returns (ok: bool)
      requires Resting(lh) && Collecting()
      modifies this`lh, cache, dev
      ensures ok <==> old(lh) == [] || Free(old(cache.bufs))
      ensures !ok ==> lh == old(lh) && cache.bufs == old(cache.bufs)
                      && dev.blocks == old(dev.blocks) && dev.writes == old(dev.writes)
      ensures ok ==>
              && Resting([]) && lh == [] && Kept(old(cache.bufs), cache.bufs)
              && Issued(old(dev.blocks), old(dev.writes),
                        CommitWrites(layout, old(dev.blocks), PendingTxn(old(cache.bufs), old(dev.blocks), old(lh))),
                        dev.blocks, dev.writes)
    {
      if |lh| > 0 {
        ghost var d, w, h, t := dev.blocks, dev.writes, dev.blocks[layout.start],
          PendingTxn(cache.bufs, dev.blocks, lh);
        ok := LogAndHead();
        if !ok { return; }
        ghost var d1, w1, bufs := dev.blocks, dev.writes, cache.bufs;
        LoggedDisk(layout, d, t);
        InstallIsHome(layout, d1, t, 0);
        KeptFree(old(cache.bufs), bufs);
        InstallAndClear(lh);
        KeptTrans(old(cache.bufs), bufs, cache.bufs);
        CommitSplits(layout, h, t);
        IssuedChain(d, w, LogWrites(layout, t, 0) + [Write(layout.start, HeadBlock(h, t.blocks))], d1, w1,
                    HomeWrites(t, 0) + [ClearWrite(layout, HeadBlock(h, t.blocks))], dev.blocks, dev.writes);
      } else {
        ok := true;
        KeptRefl(cache.bufs);
        assert dev.writes + [] == dev.writes;
      }
    }

    /** What every operation below keeps: the pinned buffers are exactly the blocks that the header lists. */
    ghost predicate Steady()
      reads this, cache, dev
    {
      && Collecting() && HeldAreHome(layout, |dev.blocks|, cache.bufs)
      && Settled(cache.bufs, dev.blocks, changed)
      && (forall i | i in changed :: i < |cache.bufs| && cache.bufs[i].valid && cache.bufs[i].refcnt > 0)
    }

    /**
      `commit`.  Others may hold buffers, so long as none of them is between changing a block and
      logging it.  The commit goes through iff the listed blocks and the clean buffers that are held
      leave a buffer over; if not, it panics before it has written anything.  It issues exactly the
      commit sequence of the pending transaction, and ends with an empty log, nothing pinned, and a
      disk and a cache that both have, for every home block, what the cache presented before.
    */
    method Commit() returns (ok: bool)
      requires Steady() && changed == {}
      modifies this`lh, cache, dev
      ensures ok <==> old(lh) == [] || old(|lh| + |CleanHeld(cache.bufs)| < |cache.bufs|)
      ensures !ok ==> lh == old(lh) && cache.bufs == old(cache.bufs)
                      && dev.blocks == old(dev.blocks) && dev.writes == old(dev.writes)
      ensures ok ==>
              && Steady() && lh == [] && Kept(old(cache.bufs), cache.bufs)
              && Issued(old(dev.blocks), old(dev.writes),
                        CommitWrites(layout, old(dev.blocks), PendingTxn(old(cache.bufs), old(dev.blocks), old(lh))),
                        dev.blocks, dev.writes)
              && forall b: nat | IsHome(layout, |dev.blocks|, b) ::
                   dev.blocks[b] == old(cache.Contents(b)) && cache.Contents(b) == old(cache.Contents(b))
    {
      ghost var bufs, d, s := cache.bufs, dev.blocks, lh;
      FreeIff(bufs, d, s);
      ok := CommitSequence();
      if !ok { return; }
      CommitClears(layout, bufs, d, s);
      forall b: nat | IsHome(layout, |dev.blocks|, b)
        ensures dev.blocks[b] == View(bufs, d, b) && cache.Contents(b) == View(bufs, d, b)
      {
        CommitEffect(layout, bufs, d, s, b);
        UnpinnedOnDisk(cache.bufs, dev.blocks, b);
      }
    }

    /** `recover_from_log` on a freshly started cache: exactly the recovery sequence of the disk it finds. */
    method Recover()
      requires Resting([]) && Quiet(cache.bufs) && 2 <= |cache.bufs| && changed == {}
      requires exists s :: Lists(dev.blocks[layout.start], s) && IsHeader(layout, |dev.blocks|, s)
      modifies this`lh, cache, dev
      ensures Steady() && Quiet(cache.bufs) && lh == [] && |cache.bufs| == |old(cache.bufs)|
      ensures Issued(old(dev.blocks), old(dev.writes), RecoveryWrites(layout, old(dev.blocks)), dev.blocks, dev.writes)
    {
      hide View, Pinned, Coherent, Linked;
      ghost var s :| Lists(dev.blocks[layout.start], s) && IsHeader(layout, |dev.blocks|, s);
      QuietRoom(cache.bufs, dev.blocks, layout.start);
      var i := HoldHead([]);
      ghost var bufs := cache.bufs;
      lh := ReadHead(cache.bufs[i].data);
      cache.Release(i);
      SamePinned(bufs, cache.bufs, i, layout.start);
      LentBack(old(cache.bufs), bufs, cache.bufs, i, i);
      KeptHome(layout, |dev.blocks|, old(cache.bufs), cache.bufs);
      KeptFree(old(cache.bufs), cache.bufs);
      assert lh == s;
      RecoverEffect(layout, dev.blocks, s, layout.start);
      bufs := cache.bufs;
      InstallAndClear([]);
      KeptHome(layout, |dev.blocks|, bufs, cache.bufs);
    }

    // --- what the rest of the kernel does between commits ---------------------------------

    /** `begin_op` once it is admitted. */
    method BeginOp()
      requires Steady()
      modifies this`outstanding
      ensures Steady() && outstanding == old(outstanding) + 1
    {
      outstanding := outstanding + 1;
    }

    /** `end_op`: the last operation commits.  Its changes have all been logged, as are those of the others. */
    method EndOp() returns (ok: bool)
      requires Steady() && outstanding >= 1 && (outstanding == 1 ==> changed == {})
      modifies this`lh, this`outstanding, cache, dev
      ensures outstanding == old(outstanding) - 1
      ensures ok <==> outstanding > 0 || old(lh) == [] || old(|lh| + |CleanHeld(cache.bufs)| < |cache.bufs|)
      ensures ok ==> Steady() && |dev.blocks| == |old(dev.blocks)| && (outstanding == 0 ==> lh == [])
      ensures outstanding > 0 ==>
              && lh == old(lh) && cache.bufs == old(cache.bufs)
              && dev.blocks == old(dev.blocks) && dev.writes == old(dev.writes)
      ensures ok && outstanding == 0 ==>
              Issued(old(dev.blocks), old(dev.writes),
                     CommitWrites(layout, old(dev.blocks), PendingTxn(old(cache.bufs), old(dev.blocks), old(lh))),
                     dev.blocks, dev.writes)
      ensures ok ==> forall b: nat | IsHome(layout, |dev.blocks|, b) :: cache.Contents(b) == old(cache.Contents(b))
    {
      outstanding := outstanding - 1;
      ok := true;
      if outstanding == 0 { ok := Commit(); }
    }

    /** `bread` of a home block, in or out of an operation: the latest contents, logged or not. */
    method Bread(b: nat) returns (r: Option<nat>)
      requires Steady() && IsHome(layout, |dev.blocks|, b)
      modifies cache`bufs
      ensures Steady() && (forall c: nat | c < |dev.blocks| :: cache.Contents(c) == old(cache.Contents(c)))
      ensures r.None? ==> cache.bufs == old(cache.bufs) && !Free(cache.bufs)
      ensures r.Some? ==>
              && r.value < |cache.bufs| == |old(cache.bufs)|
              && cache.bufs == old(cache.bufs)[r.value := cache.bufs[r.value]]
              && Holds(cache.bufs[r.value], b) && Lent(old(cache.bufs)[r.value], cache.bufs[r.value], 1)
              && cache.bufs[r.value].data == old(cache.Contents(b))
    {
      r := Hold(b, changed);
    }

    /** A holder changes a block in place. */
    method Modify(i: nat, data: Block)
      requires Steady() && i < |cache.bufs| && cache.bufs[i].valid && cache.bufs[i].refcnt > 0 && |data| == BLOCK_WORDS
      modifies cache`bufs, this`changed
      ensures Steady() && changed == old(changed) + {i}
      ensures cache.bufs == old(cache.bufs)[i := old(cache.bufs)[i].(data := data)]
      ensures forall b: nat | b < |dev.blocks| ::
                cache.Contents(b) == if b == cache.bufs[i].tag.blockno then data else old(cache.Contents(b))
    {
      ghost var bufs := cache.bufs;
      cache.Modify(i, data);
      changed := changed + {i};
      SamePinned(bufs, cache.bufs, i, bufs[i].tag.blockno);
      forall k | 0 <= k < |cache.bufs| && k !in changed ensures OnDisk(cache.bufs[k], dev.blocks) {
        assert OnDisk(bufs[k], dev.blocks);
      }
    }

    /**
      `log_write` of a held buffer: an already listed block is absorbed, a new one is appended,
      and the buffer is pinned.  ok is false for the two panics, which leave everything alone.
    */
    method LogWrite(i: nat) returns (ok: bool)
      requires Steady() && i < |cache.bufs| && cache.bufs[i].valid && cache.bufs[i].refcnt > 0
      modifies this`lh, this`changed, cache`bufs
      ensures Steady() && |cache.bufs| == |old(cache.bufs)|
      ensures ok <==> old(|lh|) < LOGSIZE && old(|lh|) < layout.size - 1 && outstanding >= 1
      ensures !ok ==> lh == old(lh) && cache.bufs == old(cache.bufs) && changed == old(changed)
      ensures ok ==> var b := old(cache.bufs)[i].tag.blockno;
                && lh == (if b in old(lh) then old(lh) else old(lh) + [b])
                && cache.bufs == old(cache.bufs)[i := old(cache.bufs)[i].(dirty := true)]
                && changed == old(changed) - {i}
    {
      if |lh| >= LOGSIZE || |lh| >= layout.size - 1 || outstanding < 1 { return false; }
      var b := cache.bufs[i].tag.blockno;
      var k := 0;
      while k < |lh|
        invariant 0 <= k <= |lh| && b !in lh[..k]
      {
        if lh[k] == b { break; }
        k := k + 1;
      }
      if k == |lh| {
        DistinctSnoc(lh, b);
        lh := lh + [b];
      }
      cache.Pin(i);
      PinnedMore(old(cache.bufs), cache.bufs, i);
      changed := changed - {i};
      ok := true;
    }

    /** `brelse`; a holder that has changed the block has logged it first. */
    method Brelse(i: nat)
      requires Steady() && i < |cache.bufs| && cache.bufs[i].refcnt > 0 && i !in changed
      modifies cache
      ensures Steady() && (forall c: nat | c < |dev.blocks| :: cache.Contents(c) == old(cache.Contents(c)))
      ensures cache.bufs == old(cache.bufs)[i := old(cache.bufs)[i].(refcnt := old(cache.bufs)[i].refcnt - 1)]
    {
      ghost var bufs := cache.bufs;
      assert OnDisk(bufs[i], dev.blocks);
      cache.Release(i);
      SamePinned(bufs, cache.bufs, i, bufs[i].tag.blockno);
      forall k | 0 <= k < |cache.bufs| && k !in changed ensures OnDisk(cache.bufs[k], dev.blocks) {
        assert OnDisk(bufs[k], dev.blocks);
      }
    }
  }

  /** Installing copies the log blocks to the listed blocks and leaves the others. */
  lemma InstallAt(l: Layout, d: Disk, s: seq<nat>, b: nat)
    requires IsHeader(l, |d|, s) && l.start + l.size <= |d| && b < |d|
    ensures var ws := InstallWrites(l, d, s, 0);
            && InRange(|d|, ws)
            && (forall i | 0 <= i < |s| && s[i] == b :: ApplyAll(d, ws)[b] == d[l.start + 1 + i])
            && (b !in s ==> ApplyAll(d, ws)[b] == d[b])
  {
    var t := Txn(s, d[l.start + 1..l.start + 1 + |s|]);
    assert forall i | 0 <= i < |s| :: t.data[i] == d[l.start + 1 + i];
    InstallIsHome(l, d, t, 0);
    ApplyTxnAt(d, t, 0, b);
    assert s[0..] == s;
  }

  /** What recovery leaves: an empty log, listed blocks as in the log, every other home block as it was. */
  lemma RecoverEffect(l: Layout, d: Disk, s: seq<nat>, b: nat)
    requires IsHeader(l, |d|, s) && l.start + l.size <= |d| && d[l.start] != [] && b < |d|
    ensures var ws := RecoverFrom(l, d, s, 0);
            && InRange(|d|, ws) && Lists(ApplyAll(d, ws)[l.start], [])
            && (forall i | 0 <= i < |s| && s[i] == b :: ApplyAll(d, ws)[b] == d[l.start + 1 + i])
            && (b !in s && b != l.start ==> ApplyAll(d, ws)[b] == d[b])
  {
    var a, w := InstallWrites(l, d, s, 0), ClearWrite(l, d[l.start]);
    InstallAt(l, d, s, b);
    ApplyAppend(d, a, [w]);
    ApplyOne(ApplyAll(d, a), w);
  }

  /** The effect of a whole commit on home block b and on the header. */
  lemma CommitFromEffect(l: Layout, d: Disk, t: Txn, b: nat)
    requires IsDisk(l, d) && IsHeader(l, |d|, t.blocks) && |t.data| == |t.blocks| && IsHome(l, |d|, b)
    ensures var ws := CommitFrom(l, d[l.start], t, 0);
            && InRange(|d|, ws) && Lists(ApplyAll(d, ws)[l.start], [])
            && (forall i | 0 <= i < |t.blocks| && t.blocks[i] == b :: ApplyAll(d, ws)[b] == t.data[i])
            && (b !in t.blocks ==> ApplyAll(d, ws)[b] == d[b])
  {
    var head := Write(l.start, HeadBlock(d[l.start], t.blocks));
    var logs := LogWrites(l, t, 0);
    var a, z := logs + [head], HomeWrites(t, 0) + [ClearWrite(l, head.data)];
    CommitSplits(l, d[l.start], t);
    LoggedDisk(l, d, t);
    var d1 := ApplyAll(d, a);
    assert d1[b] == d[b] by {
      LogWritesAt(l, d, t, 0, b);
      ApplyAppend(d, logs, [head]);
      ApplyOne(ApplyAll(d, logs), head);
    }
    InstallIsHome(l, d1, t, 0);
    RecoverEffect(l, d1, t.blocks, b);
    assert z == RecoverFrom(l, d1, t.blocks, 0);
    ApplyAppend(d, a, z);
  }

  lemma CommitClears(l: Layout, bufs: seq<Buf>, d: Disk, lh: seq<nat>)
    requires IsDisk(l, d) && IsHeader(l, |d|, lh) && Lists(d[l.start], [])
    ensures var ws := CommitWrites(l, d, PendingTxn(bufs, d, lh));
            InRange(|d|, ws) && Lists(ApplyAll(d, ws)[l.start], [])
  {
    if lh != [] { CommitFromEffect(l, d, PendingTxn(bufs, d, lh), lh[0]); }
  }

  /** Committing puts on disk, for every home block, exactly what the cache presented. */
  lemma CommitEffect(l: Layout, bufs: seq<Buf>, d: Disk, lh: seq<nat>, b: nat)
    requires IsDisk(l, d) && Coherent(bufs, d) && Settled(bufs, d, {}) && PinnedAre(bufs, lh)
    requires IsHeader(l, |d|, lh) && Lists(d[l.start], []) && IsHome(l, |d|, b)
    ensures var ws := CommitWrites(l, d, PendingTxn(bufs, d, lh));
            InRange(|d|, ws) && ApplyAll(d, ws)[b] == View(bufs, d, b)
  {
    if b !in lh { UnpinnedOnDisk(bufs, d, b); }
    if lh != [] { CommitFromEffect(l, d, PendingTxn(bufs, d, lh), b); }
  }

  /** After `write_log` and `write_head` the log blocks hold the transaction. */
  lemma LoggedDisk(l: Layout, d: Disk, t: Txn)
    requires IsDisk(l, d) && IsHeader(l, |d|, t.blocks) && |t.data| == |t.blocks|
    ensures var ws := LogWrites(l, t, 0) + [Write(l.start, HeadBlock(d[l.start], t.blocks))];
            && InRange(|d|, ws)
            && ApplyAll(d, ws)[l.start] == HeadBlock(d[l.start], t.blocks)
            && forall i | 0 <= i < |t.blocks| :: ApplyAll(d, ws)[l.start + 1 + i] == t.data[i]
  {
    var a, w := LogWrites(l, t, 0), Write(l.start, HeadBlock(d[l.start], t.blocks));
    LogWritesInRange(l, |d|, t, 0);
    ApplyAppend(d, a, [w]);
    ApplyOne(ApplyAll(d, a), w);
    forall i | 0 <= i < |t.blocks| ensures ApplyAll(d, a + [w])[l.start + 1 + i] == t.data[i] {
      LogWritesAt(l, d, t, 0, l.start + 1 + i);
    }
  }
}
