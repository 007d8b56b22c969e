/**
  Volumes on which the bounds are met and the promises fail: a kernel is started on each and
  makes the call.

  The small ones have one file, with its direct blocks from the first data block on, and then
  free blocks, all in one block of the free map.
*/
module FsWitness {
  import opened Params
  import opened FsVolume
  import opened FsSteps
  import opened FsBitmap
  import opened FsRanges
  import opened FsContent
  import opened FsLogging
  import opened FsChunks
  import opened Fs
  import opened FileOps
  import Mkfs

  /** A file of nd direct blocks, at `first` and behind it. */
  function DirectInode(kind: Kind, size: nat, first: nat, nd: nat): Inode {
    Inode(kind, 1, size, seq(NDIRECT + 1, j requires 0 <= j => if j < nd then first + j else 0))
  }

  ghost function Small(kind: Kind, size: nat, nd: nat, nfree: nat): Volume {
    var n := 2 + nd + nfree;
    Volume(seq(n, b => b < 2 + nd), seq(n, _ => Zeros()), [DirectInode(kind, size, 2, nd)])
  }

  ghost function DirectOwner(first: nat, nd: nat): (m: map<nat, Place>)
    ensures forall b: nat :: b in m <==> first <= b < first + nd
    ensures forall b | b in m :: m[b] == Place(0, b - first)
  {
    map b | b in Interval(first, nd) :: Place(0, b - first)
  }

  lemma DirectSlots(v: Volume, kind: Kind, size: nat, first: nat, nd: nat, j: nat)
    requires v.inodes != [] && v.inodes[0] == DirectInode(kind, size, first, nd) && nd <= NDIRECT && j < SLOTS
    ensures SlotAt(v, Place(0, j)) == if j < nd then first + j else 0
  {
  }

  lemma SizeOfDirect(kind: Kind, size: nat, first: nat, nd: nat)
    ensures DirectInode(kind, size, first, nd).kind == kind && DirectInode(kind, size, first, nd).size == size
  {
  }

  lemma SmallSound(kind: Kind, size: nat, nd: nat, nfree: nat)
    requires kind != Free && size <= MAXFILE * BSIZE && nd <= NDIRECT && nfree < BPB
    ensures Sound(Small(kind, size, nd, nfree), DirectOwner(2, nd), 2)
  {
    hide SlotAt, DirectOwner, DirectInode;
    var v, owner := Small(kind, size, nd, nfree), DirectOwner(2, nd);
    assert InodeFine(v.inodes[0]) by { SizeOfDirect(kind, size, 2, nd); }
    forall p | IsPlace(v, p)
      ensures SlotFine(v, owner, p)
    {
      DirectSlots(v, kind, size, 2, nd, p.slot);
    }
    forall b | 0 <= b < |v.used|
      ensures BlockFine(v, owner, 2, b)
    {
      if b in owner {
        DirectSlots(v, kind, size, 2, nd, b - 2);
      }
    }
  }

  lemma SmallFrees(kind: Kind, size: nat, nd: nat, nfree: nat)
    ensures |Frees(Small(kind, size, nd, nfree).used)| == nfree
  {
    assert Frees(Small(kind, size, nd, nfree).used) == Interval(2 + nd, nfree);
  }

  /** A kernel started on a small volume. */
  method SmallFs(kind: Kind, size: nat, nd: nat, nfree: nat) returns (fs: FileSystem)
    requires kind != Free && size <= MAXFILE * BSIZE && nd <= NDIRECT && nfree < 100
    ensures fresh(fs) && fs.Good() && fs.V() == Small(kind, size, nd, nfree)
    ensures fs.bmapstart == 1 && fs.inodestart == 0 && fs.dinodes == fs.inodes && fs.outstanding == 0
    ensures fs.Limit() == LOGSIZE - 1
  {
    hide Sound, Bit;
    var n := 2 + nd + nfree;
    var bytes := Mkfs.FreeMap(2 + nd);
    fs := new FileSystem(n, 0, 1, 2, LOGSIZE, bytes, seq(n, _ => Zeros()), [DirectInode(kind, size, 2, nd)],
                         DirectOwner(2, nd));
    assert fs.V().used == Small(kind, size, nd, nfree).used;
    SmallSound(kind, size, nd, nfree);
  }

  // --- a hole loses its block -------------------------------------------------------------

  /**
    Writing where a file has a hole below its size returns normally, gives the inode in memory a block
    and leaves the inode on disk without it: the inode cache is not write-through then.
  */
  method WriteInHole(fs: FileSystem, i: nat, off: nat, src: seq<Byte>) returns (r: Outcome)
    requires fs.Good() && i < |fs.inodes| && fs.inodes[i].kind == Dir && fs.dinodes[i] == fs.inodes[i]
    requires 0 < |src| <= BSIZE - off % BSIZE && off < NDIRECT * BSIZE && off + |src| <= fs.inodes[i].size
    requires Data(fs.V(), i, off / BSIZE) == 0 && fs.outstanding == 0 && fs.Limit() > MAXOPBLOCKS
    modifies fs
    ensures fs.Good() && r == if |Frees(old(fs.V()).used)| > 0 then Value(|src|) else Panic
    ensures r == Value(|src|) ==>
      && i < |fs.inodes| == |fs.dinodes|
      && fs.inodes[i].addrs[off / BSIZE] != 0 && fs.dinodes[i].addrs[off / BSIZE] == 0
  {
    hide Sound, SlotAt, Fits, Frees, NewCount, Updated, LogSet, Content, Overwrite, Written, RangeFits, FilesDense;
    ghost var v := fs.V();
    SoundSizes(v, fs.owner, fs.start);
    SlotIsAddr(v, i, off / BSIZE);
    CountOne(v, i, off, off + |src|);
    ChunkFits(v, fs.owner, fs.inodestart, fs.bmapstart, fs.start, i, off, off + |src|, false, fs.Limit());
    fs.BeginOp();
    assert fs.Header() == {};
    ghost var news;
    r, news := fs.Writei(i, off, src);
    if r == Value(|src|) {
      HoleFilled(v, fs.V(), i, off, src, news);
    }
  }

  lemma HoleFilled(v: Volume, w: Volume, i: nat, off: nat, src: seq<Byte>, news: set<nat>)
    requires i < |v.inodes| && Updated(v, w, i, off, src, news) && 0 < |src| && off < NDIRECT * BSIZE
    ensures i < |w.inodes| && w.inodes[i].addrs[off / BSIZE] != 0
  {
    var bn := off / BSIZE;
    assert Covers(off, off + |src|, bn);
    assert Data(w, i, bn) != 0;
    SlotIsAddr(w, i, bn);
  }

  /** A directory of one block that is not allocated, and one free block. */
  method HoleIsLost(src: seq<Byte>) returns (fs: FileSystem, r: Outcome)
    requires |src| == 16
    ensures fs.Good() && fs.inodes != [] && |fs.dinodes| == |fs.inodes| && r == Value(16)
    ensures fs.inodes[0].addrs[0] != 0 && fs.dinodes[0].addrs[0] == 0
  {
    hide Sound, SlotAt, Fits, Frees;
    fs := SmallFs(Dir, BSIZE, 0, 1);
    SmallFrees(Dir, BSIZE, 0, 1);
    DirectSlots(fs.V(), Dir, BSIZE, 2, 0, 0);
    r := WriteInHole(fs, 0, 0, src);
  }

  /** Reading such a hole with no operation under way makes the kernel panic, where a free block or none is left. */
  method HoleReadPanics() returns (f: OpenFile, r: Outcome)
    ensures f.readable && f.fs.Good() && f.off == 0 && r == Panic
  {
    hide Sound, SlotAt, Fits, Frees, Content, NewCount, ReadRoom;
    var fs := SmallFs(Dir, BSIZE, 0, 1);
    DirectSlots(fs.V(), Dir, BSIZE, 2, 0, 0);
    CountOne(fs.V(), 0, 0, 16);
    f := new OpenFile(fs, 0, true, false);
    var bytes;
    r, bytes := f.Read(16);
  }

  /**
    mkfs itself leaves such a hole: when the entries of the root fill its blocks, the size is rounded
    up by a block that is not allocated, and the first entry written there is lost.
  */
  method RootHole(files: seq<Mkfs.HostFile>, entry: seq<Byte>) returns (fs: FileSystem, r: Outcome)
    requires |files| < Mkfs.NINODES - 1 && (|files| + 2) % 32 == 0 && |entry| == 16
    requires (forall k | 0 <= k < |files| :: Mkfs.Allowed(files[k])) && Mkfs.Total(files, |files|) < FSSIZE
    ensures fs.Good() && r == Value(16)
    ensures
      var bn := (|files| + 2) / 32;
      && ROOTINO < |fs.inodes| == |fs.dinodes|
      && fs.inodes[ROOTINO].addrs[bn] != 0 && fs.dinodes[ROOTINO].addrs[bn] == 0
  {
    hide Sound, SlotAt, Fits, Frees, Content, Mkfs.Prefix, Mkfs.Entries, Mkfs.Placed, Dense, FilesDense, Mkfs.Total;
    var ok, image, dense := Mkfs.MakeFs(files);
    Mkfs.EntriesLength(files, |files|);
    Mkfs.PrefixFrees(image.freeblock);
    fs := Mkfs.Boot(image);
    SoundSizes(fs.V(), fs.owner, fs.start);
    r := WriteInHole(fs, ROOTINO, 16 * (|files| + 2), entry);
  }

  /** Thirty empty files with names of one byte. */
  function Thirty(): (files: seq<Mkfs.HostFile>)
    ensures |files| == 30 && forall k | 0 <= k < 30 :: Mkfs.Allowed(files[k]) && files[k].data == []
  {
    seq(30, k requires 0 <= k < 30 => Mkfs.HostFile([97 + k], []))
  }

  lemma {:induction false} EmptyTotal(files: seq<Mkfs.HostFile>, n: nat)
    requires n <= |files| && forall k | 0 <= k < |files| :: files[k].data == []
    ensures Mkfs.DataTotal(files, n) == 0
  {
    if n > 0 {
      EmptyTotal(files, n - 1);
    }
  }

  lemma ThirtyTotal()
    ensures Mkfs.Total(Thirty(), 30) == Mkfs.NMETA + 1
  {
    hide Thirty;
    EmptyTotal(Thirty(), 30);
  }

  method RootHoleThirty(entry: seq<Byte>) returns (fs: FileSystem, r: Outcome)
    requires |entry| == 16
    ensures fs.Good() && r == Value(16) && ROOTINO < |fs.inodes| == |fs.dinodes|
    ensures fs.inodes[ROOTINO].addrs[1] != 0 && fs.dinodes[ROOTINO].addrs[1] == 0
  {
    hide Thirty, Mkfs.Total, Sound;
    ThirtyTotal();
    fs, r := RootHole(Thirty(), entry);
  }

  /** On the same image, reading the root directory to its end makes the kernel panic. */
  method RootReadPanics() returns (f: OpenFile, r: Outcome)
    ensures f.readable && f.ip == ROOTINO && f.off == 0 && r == Panic
  {
    hide Sound, SlotAt, Fits, Frees, Content, Mkfs.Prefix, Mkfs.Entries, Mkfs.Placed, Dense, FilesDense, Mkfs.Total;
    hide Thirty, NewCount, ReadRoom;
    ThirtyTotal();
    var ok, image, dense := Mkfs.MakeFs(Thirty());
    Mkfs.EntriesLength(Thirty(), 30);
    var fs := Mkfs.Boot(image);
    SoundSizes(fs.V(), fs.owner, fs.start);
    ContentLength(fs.V(), ROOTINO);
    HoleCounts(fs.V(), ROOTINO, 1, 0, 1024);
    f := new OpenFile(fs, ROOTINO, true, false);
    var bytes;
    r, bytes := f.Read(1024);
  }

  lemma HoleCounts(v: Volume, i: nat, bn: nat, off: nat, end: nat)
    requires i < |v.inodes| && bn < MAXFILE && Covers(off, end, bn) && Data(v, i, bn) == 0
    ensures NewCount(v, i, off, end) > 0
  {
    assert bn in NewBlocks(v, i, off, end);
  }

  // --- the largest chunk on a volume with one block of free map ---------------------------

  const SEVEN_OFF := 11 * BSIZE + 1

  lemma TailIsNew(v: Volume, size: nat, first: nat)
    requires v.inodes != [] && v.inodes[0] == DirectInode(File, size, first, NDIRECT) && 0 < first
    ensures NewBlocks(v, 0, SEVEN_OFF, SEVEN_OFF + CHUNK) == {12, 13, 14}
    ensures NewEntry(v, 0, SEVEN_OFF, SEVEN_OFF + CHUNK) && NewCount(v, 0, SEVEN_OFF, SEVEN_OFF + CHUNK) == 4
    ensures size <= 12 * BSIZE ==> Dense(v, 0)
  {
    hide SlotAt;
    forall bn: nat | bn < MAXFILE
      ensures Data(v, 0, bn) == if bn < NDIRECT then first + bn else 0
    {
      DirectSlots(v, File, size, first, NDIRECT, DataSlot(bn));
    }
    assert Covers(SEVEN_OFF, SEVEN_OFF + CHUNK, 12);
  }

  lemma SevenCount(nfree: nat)
    requires nfree == 4
    ensures LogCount(Small(File, SEVEN_OFF, NDIRECT, nfree), 1, 0, SEVEN_OFF, SEVEN_OFF + CHUNK) == 6
  {
    hide SlotAt, NewEntry, NewBlocks, NewCount, FirstFree, Frees;
    var v := Small(File, SEVEN_OFF, NDIRECT, nfree);
    TailIsNew(v, SEVEN_OFF, 2);
    SmallFrees(File, SEVEN_OFF, NDIRECT, nfree);
    FirstFreeAll(v.used);
    var news := Frees(v.used);
    assert Maps(1, news) == {1} by {
      FreeIn(v.used, 14);
      forall c | c in news
        ensures 1 + c / BPB == 1
      {
        FreeInside(v.used, c);
      }
    }
  }

  lemma FreeIn(u: seq<bool>, b: nat)
    requires b < |u| && !u[b]
    ensures b in Frees(u)
  {
  }

  lemma FreeInside(u: seq<bool>, b: nat)
    requires b in Frees(u)
    ensures b < |u| && !u[b]
  {
  }

  /** The bound of 7 is met: a chunk from inside the last direct block on. */
  method ReachesSeven(src: seq<Byte>) returns (f: OpenFile, r: Outcome)
    requires |src| == CHUNK
    ensures f.fs.Good() && |f.fs.V().used| <= BPB && r == Value(CHUNK) && |f.fs.logged| == 7
  {
    hide Sound, SlotAt, Fits, Frees, NewCount, Content, LogCount, Advanced, NewEntry, NewBlocks, Dense, FilesDense;
    hide RangeFits;
    var fs := SmallFs(File, SEVEN_OFF, NDIRECT, 4);
    ghost var v := fs.V();
    TailIsNew(v, SEVEN_OFF, 2);
    SmallFrees(File, SEVEN_OFF, NDIRECT, 4);
    SevenCount(4);
    f := new OpenFile(fs, 0, true, true);
    f.off := SEVEN_OFF;
    r := f.WriteChunk(src);
  }

  // --- changing a size logs too much ------------------------------------------------------

  /** A file of ten blocks cut to nothing: ten zeroed blocks and the inode, one more than an operation may log. */
  method CutLogsEleven() returns (f: OpenFile, r: Outcome)
    ensures f.fs.Good() && r == Value(0) && |f.fs.logged| == MAXOPBLOCKS + 1
  {
    hide Sound, SlotAt, Fits, Frees, NewCount, Content, LogCount, NewEntry, NewBlocks, Resize, FilesDense, RangeFits;
    var fs := SmallFs(File, 10 * BSIZE, 10, 0);
    ghost var v := fs.V();
    forall bn: nat | bn < 10
      ensures Data(v, 0, bn) != 0
    {
      DirectSlots(v, File, 10 * BSIZE, 2, 10, bn);
    }
    ShrinkCount(v, 1, 0, 0);
    DenseNeedsNone(v, 0, 0, 10 * BSIZE);
    NoneNeeded(v, 0, 0, 10 * BSIZE);
    f := new OpenFile(fs, 0, true, true);
    r := f.NewSize(0);
  }

  lemma NoneNeeded(v: Volume, i: nat, off: nat, end: nat)
    requires i < |v.inodes| && NewBlocks(v, i, off, end) == {} && !NewEntry(v, i, off, end)
    ensures NewCount(v, i, off, end) == 0
  {
  }

  /** An empty file grown to k blocks: the data, one block of the free map, and the table. */
  lemma GrowCount(nfree: nat, k: nat)
    requires 0 < k <= MAXFILE && k < nfree < 100
    ensures var v := Small(File, 0, 0, nfree);
            var table := if k > NDIRECT then 1 else 0;
            NewCount(v, 0, 0, k * BSIZE) == k + table && LogCount(v, 1, 0, 0, k * BSIZE) == k + 1 + table
  {
    hide SlotAt, FirstFree, Frees, Interval, Maps;
    var v, end := Small(File, 0, 0, nfree), k * BSIZE;
    forall bn: nat | bn < MAXFILE
      ensures Data(v, 0, bn) == 0
      ensures Covers(0, end, bn) <==> bn < k
    {
      DirectSlots(v, File, 0, 2, 0, DataSlot(bn));
    }
    assert NewBlocks(v, 0, 0, end) == Interval(0, k);
    if k > NDIRECT { assert Covers(0, end, NDIRECT); }
    assert NewEntry(v, 0, 0, end) <==> k > NDIRECT;
    SizeOfDirect(File, 0, 2, 0);
    SlotIsAddr(v, 0, TABLE);
    DirectSlots(v, File, 0, 2, 0, TABLE);
    SmallFrees(File, 0, 0, nfree);
    FirstFreeCard(v.used, NewCount(v, 0, 0, end));
    OneMap(v.used, NewCount(v, 0, 0, end));
  }

  lemma OneMap(u: seq<bool>, n: nat)
    requires |u| <= BPB && FirstFree(u, n) != {}
    ensures |Maps(1, FirstFree(u, n))| == 1
  {
    var c :| c in FirstFree(u, n);
    assert Maps(1, FirstFree(u, n)) == {1};
  }

  /** An empty file grown to ten blocks: ten data blocks, the free map and the inode. */
  method GrowLogsTwelve() returns (f: OpenFile, r: Outcome)
    ensures f.fs.Good() && r == Value(10 * BSIZE) && |f.fs.logged| == MAXOPBLOCKS + 2
  {
    r, f := Grow(10);
  }

  /** An empty file grown to k blocks, with no other operation under way: 26 is the most. */
  method Grow(k: nat) returns (r: Outcome, f: OpenFile)
    requires 0 < k < 40
    ensures r == if k <= 26 then Value(k * BSIZE) else Panic
    ensures r != Panic ==> f.fs.Good() && |f.fs.logged| == k + 2 + if k > NDIRECT then 1 else 0
  {
    hide Sound, SlotAt, Fits, Frees, NewCount, Content, LogCount, NewEntry, NewBlocks, Resize, FilesDense, RangeFits;
    var fs := SmallFs(File, 0, 0, 50);
    GrowCount(50, k);
    SmallFrees(File, 0, 0, 50);
    f := new OpenFile(fs, 0, true, true);
    r := f.NewSize(k * BSIZE);
  }

  // --- two chunks while another operation is under way ------------------------------------

  /** Blocks of other operations, outside the small volume. */
  ghost function Others(n: nat): (h: set<nat>)
    ensures |h| == n && forall b :: b in h <==> 1000 <= b < 1000 + n
  {
    Interval(1000, n)
  }

  lemma OthersApart(n: nat, x: set<nat>)
    requires forall b | b in x :: b < 1000
    ensures |Others(n) + x| == n + |x|
  {
    hide Others;
    UnionCard(Others(n), x);
  }

  lemma SmallLog(k: nat)
    requires 0 < k <= 6
    ensures var v := Small(File, 0, 0, 50);
            && |LogSet(1, v, 0, 0, k * BSIZE)| == k + 1 && 0 !in LogSet(1, v, 0, 0, k * BSIZE)
            && forall b | b in LogSet(1, v, 0, 0, k * BSIZE) :: b < 1000
  {
    hide Sound, NewCount, LogCount, Frees, Small;
    var v := Small(File, 0, 0, 50);
    GrowCount(50, k);
    SmallFrees(File, 0, 0, 50);
    SmallSound(File, 0, 0, 50);
    SmallLayout(50);
    LogSetCard(v, DirectOwner(2, 0), 0, 1, 2, 0, 0, k * BSIZE);
    SmallLogged(v, k * BSIZE);
  }

  lemma SmallLayout(nfree: nat)
    requires nfree < 100
    ensures var v := Small(File, 0, 0, nfree);
            && Layout(v, 0, 1, 2) && |v.used| <= 1000 && |v.inodes| == 1
            && forall j | 0 <= j <= TABLE :: v.inodes[0].addrs[j] == 0
  {
  }

  lemma SmallLogged(v: Volume, end: nat)
    requires |v.inodes| == 1 && |v.used| <= 1000 && forall j | 0 <= j <= TABLE :: v.inodes[0].addrs[j] == 0
    ensures forall b | b in LogSet(1, v, 0, 0, end) :: b < 1000
  {
  }

  /** The log has room for the range, but not for the inode that the first chunk lists. */
  lemma NoSecondChunk()
    ensures var v := Small(File, 0, 0, 50);
            && RangeFits(Others(21), 1, v, 0, 0, 2 * CHUNK, true, LOGSIZE - 1)
            && !ChunksFit(false, Others(21), 0, 1, v, 0, 0, 0, 2 * CHUNK, LOGSIZE - 1)
  {
    hide NewCount, LogSet, Frees, Others, Small, Before, ChunksFit;
    var v := Small(File, 0, 0, 50);
    SmallLayout(50);
    SmallSize(50);
    GrowCount(50, 6);
    SmallFrees(File, 0, 0, 50);
    SmallLog(6);
    var e := LogSet(1, v, 0, 0, 2 * CHUNK);
    OthersApart(21, e);
    OthersApart(21, e + {0});
    LogWhole(1, v, 0, 0, 2 * CHUNK, Others(21), LOGSIZE - 1);
    FitsFrom(false, Others(21), 0, 1, v, 0, 0, 0, 2 * CHUNK, LOGSIZE - 1);
    FitsFrom(false, Others(21), 0, 1, v, 0, 0, CHUNK, CHUNK, LOGSIZE - 1);
  }

  lemma SmallSize(nfree: nat)
    ensures |Small(File, 0, 0, nfree).inodes| > 0
    ensures Small(File, 0, 0, nfree).inodes[0].size == 0 && Small(File, 0, 0, nfree).inodes[0].kind == File
  {
  }

  /** An empty file, and another operation that has listed 21 blocks. */
  method Crowded() returns (fs: FileSystem)
    ensures fresh(fs) && fs.Good() && fs.V() == Small(File, 0, 0, 50) && fs.outstanding == 1
    ensures fs.Listed() == Others(21) && fs.Limit() == LOGSIZE - 1 && fs.bmapstart == 1 && fs.inodestart == 0
  {
    hide Sound, SlotAt, Fits, Others, Small;
    fs := SmallFs(File, 0, 0, 50);
    SmallLayout(50);
    fs.BeginOp();
    ghost var v := fs.V();
    for k := 0 to 21
      invariant fs.Good() && fs.V() == v && fs.base == {} && fs.logged == Others(k) && fs.outstanding == 1
      invariant fs.Limit() == LOGSIZE - 1 && fs.bmapstart == 1 && fs.inodestart == 0
    {
      OthersNext(k);
      var ok := fs.LogWrite(1000 + k);
    }
  }

  /**
    Another operation has listed 21 blocks.  Two chunks written to an empty file log seven more, which
    leaves the list below its limit; but the first chunk lists the inode as well, and the second panics.
  */
  method TwoChunksPanic(src: seq<Byte>) returns (f: OpenFile, r: Outcome)
    requires |src| == 2 * CHUNK
    ensures r == Panic
    ensures var v := Small(File, 0, 0, 50);
            && f.ip < |v.inodes|
            && RangeFits(Others(21), f.fs.bmapstart, v, f.ip, 0, |src|, true, f.fs.Limit())
  {
    hide Sound, SlotAt, Fits, Frees, NewCount, Content, LogSet, FilesDense, RangeFits, ChunksFit, Room, Dense;
    hide Others, Small;
    var fs := Crowded();
    SmallSize(50);
    assert fs.inodes == Small(File, 0, 0, 50).inodes;
    NoSecondChunk();
    f := new OpenFile(fs, 0, true, true);
    ghost var done, ops;
    r, done, ops := f.Write(src);
  }

  lemma OthersNext(k: nat)
    ensures Others(k + 1) == Others(k) + {1000 + k} && {} + Others(k) == Others(k) && Others(0) == {}
  {
    hide Others;
  }
}
