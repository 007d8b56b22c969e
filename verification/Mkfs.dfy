/**
  mkfs: building the first image.

  Blocks and inodes are handed out in order, and the free map is written last, as a prefix of
  ones.  A read beyond the image, or a file with too many blocks, ends the program; the methods
  return false exactly there.
*/
module Mkfs {
  import opened Params
  import opened Options
  import opened FsVolume
  import opened FsSteps
  import opened FsBitmap
  import opened FsRanges
  import opened FsContent
  import opened FsLogging
  import opened Fs
  import opened Directory

  const NINODES := 200
  const NLOG := LOGSIZE
  const NINODEBLOCKS := NINODES / IPB + 1
  const NBITMAP := FSSIZE / BPB + 1
  const INODESTART := 2 + NLOG
  const BMAPSTART := 2 + NLOG + NINODEBLOCKS
  const NMETA := 2 + NLOG + NINODEBLOCKS + NBITMAP

  function Prefix(n: nat): (u: seq<bool>)
    ensures |u| == FSSIZE && forall b | 0 <= b < FSSIZE :: u[b] == (b < n)
  {
    seq(FSSIZE, b => b < n)
  }

  lemma PrefixFrees(n: nat)
    requires n <= FSSIZE
    ensures |Frees(Prefix(n))| == FSSIZE - n
  {
    assert Frees(Prefix(n)) == Interval(n, FSSIZE - n);
  }

  /** Blocks that have not been handed out are still zero. */
  ghost predicate Fresh(blocks: seq<Block>, freeblock: nat) {
    forall b | freeblock <= b < |blocks| :: blocks[b] == Zeros()
  }

  /** File i has exactly the blocks its size needs, and is zero beyond its size. */
  ghost predicate Tidy(v: Volume, i: nat)
    requires i < |v.inodes|
  {
    && Dense(v, i)
    && (forall bn | 0 <= bn < MAXFILE && bn * BSIZE >= v.inodes[i].size :: Data(v, i, bn) == 0)
    && (v.inodes[i].size <= NDIRECT * BSIZE ==> v.inodes[i].addrs[TABLE] == 0)
    && (forall k | v.inodes[i].size <= k < MAXFILE * BSIZE :: ByteAt(v, i, k) == 0)
  }

  class Image {
    var blocks: seq<Block>
    var dinodes: seq<Inode>
    var freeinode: nat
    var freeblock: nat
    ghost var owner: map<nat, Place>

    predicate Shape()
      reads this
    {
      |blocks| == FSSIZE && |dinodes| == NINODES && NMETA <= freeblock <= FSSIZE
    }

    /** The volume as the kernel will see it, once the free map is written. */
    ghost function V(): (v: Volume)
      reads this
      ensures v.blocks == blocks && v.inodes == dinodes
    {
      Volume(Prefix(freeblock), blocks, dinodes)
    }

    /** The volume is sound at every moment. */
    ghost predicate Good()
      reads this
    {
      Shape() && Sound(V(), owner, NMETA) && Fresh(blocks, freeblock)
    }

    /** The image before any file. */
    constructor ()
      ensures Neat() && freeinode == 1 && freeblock == NMETA
      ensures forall i | 0 <= i < NINODES :: dinodes[i] == Inode(Free, 0, 0, seq(NDIRECT + 1, _ => 0))
    {
      blocks := seq(FSSIZE, _ => Zeros());
      dinodes := seq(NINODES, _ => Inode(Free, 0, 0, seq(NDIRECT + 1, _ => 0)));
      freeinode := 1;
      freeblock := NMETA;
      owner := map[];
      new;
      EmptySound(V());
      EmptyTidy(V());
    }

    /** The part of iappend that finds block fbn of file i, or takes the next free one. */
    method MapBlock(i: nat, fbn: nat) returns (ok: bool, x: nat, ghost news: set<nat>)
      requires Good() && i < NINODES && dinodes[i].kind != Free && fbn < MAXFILE
      modifies this`dinodes, this`blocks, this`freeblock, this`owner
      ensures ok <==> Need(old(V()), i, fbn) <= FSSIZE - old(freeblock)
      ensures ok ==> Good() && Changed(old(V()), V(), i, fbn, news) && x == Data(V(), i, fbn) != 0
      ensures ok ==> |news| == Need(old(V()), i, fbn) && freeblock == old(freeblock) + |news|
    {
      if fbn < NDIRECT {
        ok, x, news := MapDirect(i, fbn);
      } else {
        ok, x, news := MapIndirect(i, fbn);
      }
    }

    method MapDirect(i: nat, fbn: nat) returns (ok: bool, x: nat, ghost news: set<nat>)
      requires Good() && i < NINODES && dinodes[i].kind != Free && fbn < NDIRECT
      modifies this`dinodes, this`freeblock, this`owner
      ensures ok <==> Need(old(V()), i, fbn) <= FSSIZE - old(freeblock)
      ensures ok ==> Good() && Changed(old(V()), V(), i, fbn, news) && x == Data(V(), i, fbn) != 0
      ensures ok ==> |news| == Need(old(V()), i, fbn) && freeblock == old(freeblock) + |news|
    {
      hide Sound, SlotAt, Kept, Changed, SlotsChanged;
      ghost var v := V();
      ChangedSelf(v, i, fbn);
      SlotIsAddr(v, i, fbn);
      news := {};
      ok, x := true, 0;
      if dinodes[i].addrs[fbn] == 0 {
        ok := TakeDirect(i, fbn);
        if !ok { return; }
        news := {freeblock - 1};
        ChangedOne(v, V(), i, fbn, Place(i, fbn), freeblock - 1);
      }
      x := dinodes[i].addrs[fbn];
      SlotIsAddr(V(), i, fbn);
    }

    method MapTable(i: nat, fbn: nat) returns (ok: bool, ghost news: set<nat>)
      requires Good() && i < NINODES && dinodes[i].kind != Free && NDIRECT <= fbn < MAXFILE
      modifies this`dinodes, this`freeblock, this`owner
      ensures ok <==> old(dinodes)[i].addrs[TABLE] != 0 || old(freeblock) < FSSIZE
      ensures ok ==> Good() && Changed(old(V()), V(), i, fbn, news) && freeblock == old(freeblock) + |news|
      ensures old(dinodes)[i].addrs[TABLE] == 0 ==> Data(old(V()), i, fbn) == 0
      ensures ok ==> dinodes[i].addrs[TABLE] != 0 && dinodes[i].kind != Free
      ensures ok && old(dinodes)[i].addrs[TABLE] == 0 ==>
        |news| == 1 && Data(V(), i, fbn) == 0
      ensures ok && old(dinodes)[i].addrs[TABLE] != 0 ==> news == {} && V() == old(V())
    {
      hide Sound, SlotAt, Kept, Changed;
      ghost var v := V();
      ChangedSelf(v, i, fbn);
      NoTable(v, i, fbn - NDIRECT);
      news := {};
      ok := true;
      if dinodes[i].addrs[TABLE] == 0 {
        ok := TakeDirect(i, TABLE);
        if !ok { return; }
        news := {freeblock - 1};
        ChangedOne(v, V(), i, fbn, Place(i, TABLE), freeblock - 1);
        assert IsPlace(v, Place(i, DataSlot(fbn)));
      }
    }

    method MapIndirect(i: nat, fbn: nat) returns (ok: bool, x: nat, ghost news: set<nat>)
      requires Good() && i < NINODES && dinodes[i].kind != Free && NDIRECT <= fbn < MAXFILE
      modifies this`dinodes, this`blocks, this`freeblock, this`owner
      ensures ok <==> Need(old(V()), i, fbn) <= FSSIZE - old(freeblock)
      ensures ok ==> Good() && Changed(old(V()), V(), i, fbn, news) && x == Data(V(), i, fbn) != 0
      ensures ok ==> |news| == Need(old(V()), i, fbn) && freeblock == old(freeblock) + |news|
    {
      hide Sound, SlotAt, Kept, Changed, Word, SlotsChanged;
      ghost var v := V();
      var e := fbn - NDIRECT;
      x := 0;
      ok, news := MapTable(i, fbn);
      if !ok { return; }
      ghost var u := V();
      TableEntry(u, owner, NMETA, i, e);
      x := Word(blocks[dinodes[i].addrs[TABLE]], e);
      if x == 0 {
        ghost var before := news;
        ok := TakeEntry(i, e);
        if !ok { return; }
        ghost var b := freeblock - 1;
        ChangedOne(u, V(), i, fbn, Place(i, 13 + e), b);
        ChangedTwice(v, u, V(), i, fbn, before, {b});
        news := before + {b};
        SlotGot(u, V(), Place(i, 13 + e), b);
        TableEntry(V(), owner, NMETA, i, e);
        x := Word(blocks[dinodes[i].addrs[TABLE]], e);
      }
    }

    method TakeDirect(i: nat, j: nat) returns (ok: bool)
      requires Good() && i < NINODES && dinodes[i].kind != Free && j <= TABLE && dinodes[i].addrs[j] == 0
      modifies this`dinodes, this`freeblock, this`owner
      ensures ok <==> old(freeblock) < FSSIZE
      ensures ok ==> Good() && freeblock == old(freeblock) + 1 && Kept(old(V()), V())
      ensures ok ==> SlotsChanged(old(V()), V(), Place(i, j), old(freeblock)) && OthersSame(old(dinodes), dinodes, i)
      ensures ok ==> dinodes[i] == old(dinodes)[i].(addrs := old(dinodes)[i].addrs[j := old(freeblock)])
      ensures ok ==> V().used == old(V()).used[old(freeblock) := true]
    {
      hide Sound, Kept, SlotsChanged, AllocDirect;
      ghost var v := V();
      var b := freeblock;
      if b >= FSSIZE { return false; }
      AllocDirectSound(v, owner, NMETA, i, j, b);
      AllocDirectIs(v, i, j, b);
      freeblock := freeblock + 1;
      dinodes := dinodes[i := dinodes[i].(addrs := dinodes[i].addrs[j := b])];
      owner := owner[b := Place(i, j)];
      assert V().used == v.used[b := true];
      assert blocks[b := Zeros()] == blocks;
      assert V() == AllocDirect(v, i, j, b);
      ok := true;
    }

    method TakeEntry(i: nat, e: nat) returns (ok: bool)
      requires Good() && i < NINODES && dinodes[i].kind != Free && e < NINDIRECT
      requires dinodes[i].addrs[TABLE] != 0 && SlotAt(V(), Place(i, 13 + e)) == 0
      modifies this`blocks, this`freeblock, this`owner
      ensures ok <==> old(freeblock) < FSSIZE
      ensures ok ==> Good() && freeblock == old(freeblock) + 1 && Kept(old(V()), V())
      ensures ok ==> SlotsChanged(old(V()), V(), Place(i, 13 + e), old(freeblock))
      ensures ok ==> V().used == old(V()).used[old(freeblock) := true]
    {
      hide Sound, Kept, SlotsChanged, AllocEntry, PutWord;
      ghost var v := V();
      var b := freeblock;
      if b >= FSSIZE { return false; }
      AllocEntrySound(v, owner, NMETA, i, e, b);
      AllocEntryIs(v, i, e, b);
      var t := dinodes[i].addrs[TABLE];
      assert t < b by { SlotIsAddr(v, i, TABLE); SlotInside(v, owner, NMETA, Place(i, TABLE)); }
      freeblock := freeblock + 1;
      assert blocks[b := Zeros()] == blocks;
      blocks := blocks[t := PutWord(blocks[t], e, b)];
      owner := owner[b := Place(i, 13 + e)];
      assert V().used == v.used[b := true];
      assert V() == AllocEntry(v, i, e, b);
      ok := true;
    }

    // --- files ----------------------------------------------------------------------------

    ghost predicate Neat()
      reads this
    {
      Good() && forall i | 0 <= i < NINODES :: Tidy(V(), i)
    }

    method Ialloc(kind: Kind) returns (inum: nat)
      requires Neat() && 1 <= freeinode < NINODES && dinodes[freeinode].kind == Free && kind != Free
      requires dinodes[freeinode].size == 0
      modifies this`dinodes, this`freeinode
      ensures Neat() && inum == old(freeinode) && freeinode == inum + 1
      ensures dinodes == old(dinodes)[inum := Inode(kind, 1, 0, seq(NDIRECT + 1, _ => 0))]
      ensures OthersKept(old(V()), V(), inum)
    {
      inum := freeinode;
      ghost var v := V();
      NewInode(v, owner, inum, kind);
      freeinode := freeinode + 1;
      dinodes := dinodes[inum := Inode(kind, 1, 0, seq(NDIRECT + 1, _ => 0))];
      assert V() == v.(inodes := dinodes);
    }

    /** One turn of iappend's loop. */
    method AppendBlock(i: nat, off: nat, src: seq<Byte>) returns (ok: bool, ghost news: set<nat>)
      requires Good() && i < NINODES && dinodes[i].kind != Free && 0 < |src| <= BSIZE - off % BSIZE
               && off < MAXFILE * BSIZE
      modifies this`dinodes, this`blocks, this`freeblock, this`owner
      ensures ok <==> Need(old(V()), i, off / BSIZE) <= FSSIZE - old(freeblock)
      ensures ok ==> Good() && RangeDone(old(V()), V(), i, off, src, news)
      ensures ok ==> freeblock == old(freeblock) + NewCount(old(V()), i, off, off + |src|)
    {
      hide Sound, SlotAt, RangeDone, NewCount, WriteData, Changed, Need;
      ghost var v := V();
      var x;
      ok, x, news := MapBlock(i, off / BSIZE);
      if ok {
        ghost var u := V();
        AddressInside(u, owner, NMETA, i, off / BSIZE);
        HandedOut(u, owner, i, off / BSIZE, freeblock);
        ChangedShape(v, u, i, off / BSIZE, news);
        CountOne(v, i, off, off + |src|);
        BlockDone(v, u, owner, NMETA, i, off, src, news);
        WriteDataIs(u, x, off % BSIZE, src);
        blocks := blocks[x := Splice(blocks[x], off % BSIZE, src)];
      }
    }

    /** The loop of iappend. */
    method AppendRange(i: nat, at: nat, src: seq<Byte>) returns (ok: bool, ghost news: set<nat>)
      requires Good() && i < NINODES && dinodes[i].kind != Free
      modifies this`dinodes, this`blocks, this`freeblock, this`owner
      ensures ok <==>
        || src == []
        || (at + |src| <= MAXFILE * BSIZE && NewCount(old(V()), i, at, at + |src|) <= FSSIZE - old(freeblock))
      ensures ok ==> Good() && RangeDone(old(V()), V(), i, at, src, news)
      ensures ok ==> freeblock == old(freeblock) + NewCount(old(V()), i, at, at + |src|)
    {
      hide Sound, SlotAt, RangeDone, LogSet, Prefix, Fresh, NewCount, Need, Mapped;
      ghost var v := V();
      var tot, off := 0, at;
      news := {};
      RangeNone(0, v, i, at);
      MappedNone(v, i, at);
      MappedCount(v, v, i, at, at, 0);
      while tot < |src|
        invariant tot <= |src| && off == at + tot && (tot > 0 ==> off <= MAXFILE * BSIZE)
        invariant Good() && dinodes[i].kind != Free && freeblock == old(freeblock) + NewCount(v, i, at, off)
        invariant RangeDone(v, V(), i, at, src[..tot], news)
      {
        if off / BSIZE >= MAXFILE { return false, {}; }
        ghost var u, left := V(), FSSIZE - freeblock;
        var room := (off / BSIZE + 1) * BSIZE - off;
        RestOfBlock(off);
        var m := if |src| - tot < room then |src| - tot else room;
        ghost var more;
        ok, more := AppendBlock(i, off, src[tot..tot + m]);
        if !ok {
          TurnFails(v, u, i, at, src, tot, m, news, left);
          return;
        }
        InsideFile(off, m);
        TurnDone(v, u, V(), i, at, src, tot, m, news, more);
        tot, off, news := tot + m, off + m, news + more;
      }
      assert src[..tot] == src;
      ok := true;
    }

    /** iappend: the file grows by exactly the bytes given, and takes the blocks that its new size needs. */
    method Iappend(i: nat, src: seq<Byte>) returns (ok: bool)
      requires Neat() && i < NINODES && dinodes[i].kind != Free
      modifies this`dinodes, this`blocks, this`freeblock, this`owner
      ensures
        var size := old(dinodes)[i].size;
        && size <= MAXFILE * BSIZE
        && (ok <==> && size + |src| <= MAXFILE * BSIZE
                    && old(freeblock) + BlocksFor(size + |src|) <= FSSIZE + BlocksFor(size))
        && (ok ==> freeblock + BlocksFor(size) == old(freeblock) + BlocksFor(size + |src|))
      ensures ok ==> Neat() && OthersKept(old(V()), V(), i) && Content(V(), i) == old(Content(V(), i)) + src
      ensures ok ==> dinodes[i].kind == old(dinodes)[i].kind
    {
      hide Sound, SlotAt, RangeDone, Updated, Content, Overwrite, Tidy, NewCount, BlocksFor;
      ghost var v := V();
      SoundSizes(v, owner, NMETA);
      var off := dinodes[i].size;
      if off + |src| <= MAXFILE * BSIZE { TidyCount(v, i, off + |src|); }
      ghost var news;
      ok, news := AppendRange(i, off, src);
      if ok {
        ghost var w := V();
        Appended(v, w, owner, i, src, news);
        dinodes := dinodes[i := dinodes[i].(size := off + |src|)];
        assert V() == SetSize(w, i, off + |src|);
      }
    }

    /**
      The last change to the root: its size is rounded up to whole blocks, always by at least
      one byte.  The blocks below the new size are all allocated exactly if the old size was
      not a whole number of blocks already.
    */
    method RoundRoot(root: nat) returns (ok: bool)
      requires Neat() && root < NINODES && dinodes[root].kind != Free && dinodes[root].size < MAXFILE * BSIZE
      modifies this`dinodes
      ensures Good() && OthersKept(old(V()), V(), root) && OtherSlots(old(V()), V(), root)
      ensures var size := old(dinodes)[root].size;
              dinodes[root] == old(dinodes)[root].(size := (size / BSIZE + 1) * BSIZE)
      ensures Content(V(), root) == Resize(old(Content(V(), root)), dinodes[root].size)
      ensures ok == (old(dinodes)[root].size % BSIZE != 0) && (ok <==> Dense(V(), root))
      ensures !ok ==> Data(V(), root, old(dinodes)[root].size / BSIZE) == 0
    {
      hide Sound, Resize;
      ghost var v := V();
      SoundSizes(v, owner, NMETA);
      var off := dinodes[root].size;
      ok := off % BSIZE != 0;
      off := (off / BSIZE + 1) * BSIZE;
      RootRounded(v, owner, root, off);
      dinodes := dinodes[root := dinodes[root].(size := off)];
      assert V() == SetSize(v, root, off);
    }
  }

  /** How many blocks a file without holes has, the table included. */
  function BlocksFor(size: nat): nat { (size + BSIZE - 1) / BSIZE + if size > NDIRECT * BSIZE then 1 else 0 }

  lemma BlocksMono(m: nat, n: nat)
    requires m <= n
    ensures BlocksFor(m) <= BlocksFor(n) && BlocksFor(0) == 0
  {
  }

  /** What a longer file takes is the difference of what the two sizes need. */
  lemma TidyCount(v: Volume, i: nat, end: nat)
    requires i < |v.inodes| && Tidy(v, i) && v.inodes[i].size <= end <= MAXFILE * BSIZE
    ensures NewCount(v, i, v.inodes[i].size, end) + BlocksFor(v.inodes[i].size) == BlocksFor(end)
  {
    hide SlotAt;
    var size := v.inodes[i].size;
    var lo, hi := (size + BSIZE - 1) / BSIZE, (end + BSIZE - 1) / BSIZE;
    forall bn: nat
      ensures bn in NewBlocks(v, i, size, end) <==> lo <= bn < hi
    {
      NewIsBeyond(v, i, end, bn);
    }
    assert NewBlocks(v, i, size, end) == Interval(lo, hi - lo);
    TidyTable(v, i, end);
  }

  lemma NewIsBeyond(v: Volume, i: nat, end: nat, bn: nat)
    requires i < |v.inodes| && Tidy(v, i) && v.inodes[i].size <= end <= MAXFILE * BSIZE
    ensures bn in NewBlocks(v, i, v.inodes[i].size, end) <==>
            (v.inodes[i].size + BSIZE - 1) / BSIZE <= bn < (end + BSIZE - 1) / BSIZE
  {
    hide SlotAt;
    if bn < MAXFILE {
      assert Data(v, i, bn) == 0 <==> bn * BSIZE >= v.inodes[i].size;
    }
  }

  lemma TidyTable(v: Volume, i: nat, end: nat)
    requires i < |v.inodes| && Tidy(v, i) && v.inodes[i].size <= end <= MAXFILE * BSIZE
    ensures v.inodes[i].addrs[TABLE] == 0 && NewEntry(v, i, v.inodes[i].size, end) <==>
            v.inodes[i].size <= NDIRECT * BSIZE < end
  {
    hide SlotAt;
    var size := v.inodes[i].size;
    if size > NDIRECT * BSIZE {
      assert Data(v, i, NDIRECT) != 0;
      NoTable(v, i, 0);
    } else if end > NDIRECT * BSIZE {
      NewIsBeyond(v, i, end, NDIRECT);
      assert Covers(size, end, NDIRECT) && Data(v, i, NDIRECT) == 0;
    } else {
      forall bn | NDIRECT <= bn < MAXFILE
        ensures !Covers(size, end, bn)
      {
      }
    }
  }

  lemma Appended(v: Volume, w: Volume, owner: map<nat, Place>, i: nat, src: seq<Byte>, news: set<nat>)
    requires i < |v.inodes| && RangeDone(v, w, i, v.inodes[i].size, src, news) && Sound(w, owner, NMETA)
    requires v.inodes[i].size + |src| <= MAXFILE * BSIZE && forall k | 0 <= k < |v.inodes| :: Tidy(v, k)
    ensures |w.inodes| == |v.inodes|
    ensures var x := SetSize(w, i, v.inodes[i].size + |src|);
            && Sound(x, owner, NMETA) && OthersKept(v, x, i) && x.inodes[i].kind == v.inodes[i].kind
            && Content(x, i) == Content(v, i) + src && forall k | 0 <= k < |v.inodes| :: Tidy(x, k)
  {
    hide Sound, RangeDone, Updated, Content, Overwrite, Tidy, OthersKept;
    var off := v.inodes[i].size;
    RangeShape(v, w, i, off, src, news);
    var x := SetSize(w, i, off + |src|);
    RangeWritten(v, w, i, off, src, news);
    UpdatedRange(v, w, owner, NMETA, i, off, src, news, off + |src|);
    ContentLength(v, i);
    WrittenContent(v, w, x, i, off, src);
    OverwriteAtEnd(Content(v, i), src);
    TidyAfter(v, w, x, owner, i, src, news);
    UpdatedOthers(v, x, i, off, src, news);
  }

  lemma RestOfBlock(off: nat)
    ensures (off / BSIZE + 1) * BSIZE - off == BSIZE - off % BSIZE > 0
    ensures off / BSIZE < MAXFILE ==> off < MAXFILE * BSIZE
  {
  }

  lemma NewInode(v: Volume, owner: map<nat, Place>, i: nat, kind: Kind)
    requires Sound(v, owner, NMETA) && i < |v.inodes| && v.inodes[i].kind == Free && v.inodes[i].size == 0
    requires forall k | 0 <= k < |v.inodes| :: Tidy(v, k)
    ensures var w := v.(inodes := v.inodes[i := Inode(kind, 1, 0, seq(NDIRECT + 1, _ => 0))]);
            Sound(w, owner, NMETA) && OthersKept(v, w, i) && forall k | 0 <= k < |v.inodes| :: Tidy(w, k)
  {
    hide Sound, Word;
    var w := v.(inodes := v.inodes[i := Inode(kind, 1, 0, seq(NDIRECT + 1, _ => 0))]);
    SoundSizes(v, owner, NMETA);
    assert InodeFine(v.inodes[i]);
    forall p | IsPlace(v, p)
      ensures SlotAt(w, p) == SlotAt(v, p)
    {
    }
    forall k | 0 <= k < |w.inodes|
      ensures InodeFine(w.inodes[k])
    {
      assert InodeFine(v.inodes[k]);
    }
    SoundSame(v, w, owner, NMETA);
    SlotsSameCells(v, w);
    forall k | 0 <= k < |v.inodes|
      ensures Tidy(w, k)
    {
      assert Tidy(v, k);
      TidySame(v, w, k);
    }
  }

  lemma SlotsSameCells(v: Volume, w: Volume)
    requires |w.inodes| == |v.inodes| && w.blocks == v.blocks
             && forall p | IsPlace(v, p) :: SlotAt(w, p) == SlotAt(v, p)
    ensures forall k | 0 <= k < |v.inodes| :: SameBytes(v, w, k)
  {
    hide SlotAt;
    forall k, bn, o | 0 <= k < |v.inodes| && 0 <= bn < MAXFILE && 0 <= o < BSIZE
      ensures Cell(w, k, bn, o) == Cell(v, k, bn, o)
    {
      assert IsPlace(v, Place(k, DataSlot(bn)));
    }
    forall k | 0 <= k < |v.inodes|
      ensures SameBytes(v, w, k)
    {
    }
  }

  lemma TidySame(v: Volume, w: Volume, k: nat)
    requires k < |v.inodes| == |w.inodes| && Tidy(v, k) && w.inodes[k].size == v.inodes[k].size && SameBytes(v, w, k)
    requires forall p | IsPlace(v, p) && p.inum == k :: SlotAt(w, p) == SlotAt(v, p)
    ensures Tidy(w, k)
  {
    hide SlotAt, Cell;
    SlotIsAddr(v, k, TABLE);
    SlotIsAddr(w, k, TABLE);
    assert IsPlace(v, Place(k, TABLE));
    forall bn | 0 <= bn < MAXFILE
      ensures Data(w, k, bn) == Data(v, k, bn)
    {
      assert IsPlace(v, Place(k, DataSlot(bn)));
    }
    forall b | 0 <= b < MAXFILE * BSIZE
      ensures ByteAt(w, k, b) == ByteAt(v, k, b)
    {
    }
  }

  lemma HandedOut(u: Volume, owner: map<nat, Place>, i: nat, bn: nat, freeblock: nat)
    requires Sound(u, owner, NMETA) && u.used == Prefix(freeblock) && i < |u.inodes| && bn < MAXFILE
             && Data(u, i, bn) != 0
    ensures Data(u, i, bn) < freeblock
  {
    SlotInside(u, owner, NMETA, Place(i, DataSlot(bn)));
  }

  lemma OverwriteAtEnd(c: seq<Byte>, src: seq<Byte>)
    ensures Overwrite(c, |c|, src) == c + src
  {
  }

  lemma TidyAfter(v: Volume, w: Volume, x: Volume, owner: map<nat, Place>, i: nat, src: seq<Byte>, news: set<nat>)
    requires i < |v.inodes| && RangeDone(v, w, i, v.inodes[i].size, src, news) && Sound(w, owner, NMETA)
    requires v.inodes[i].size + |src| <= MAXFILE * BSIZE && forall k | 0 <= k < |v.inodes| :: Tidy(v, k)
    requires i < |w.inodes| && x == SetSize(w, i, v.inodes[i].size + |src|)
    ensures |x.inodes| == |v.inodes| && forall k | 0 <= k < |v.inodes| :: Tidy(x, k)
  {
    hide Sound, SlotAt, Cell, NewCount, Marked;
    var off := v.inodes[i].size;
    var end := off + |src|;
    SetSizeKeeps(w, owner, NMETA, i, end);
    forall k | 0 <= k < |v.inodes|
      ensures Tidy(x, k)
    {
      assert Tidy(v, k);
      if k != i {
        OthersTidy(v, w, x, i, k);
      } else {
        StaysDense(v, w, x, i, off, src, news);
        TailTidy(v, w, x, i, src);
      }
    }
  }

  lemma OthersTidy(v: Volume, w: Volume, x: Volume, i: nat, k: nat)
    requires k < |v.inodes| == |w.inodes| == |x.inodes| && k != i && Tidy(v, k) && SameBytes(v, w, k)
             && SameBytes(w, x, k)
    requires OthersSame(v.inodes, w.inodes, i) && x.inodes[k].size == w.inodes[k].size && OtherSlots(v, w, i)
    requires forall p | IsPlace(w, p) :: SlotAt(x, p) == SlotAt(w, p)
    ensures Tidy(x, k)
  {
    hide SlotAt, Cell;
    assert SameBytes(v, x, k);
    forall p | IsPlace(v, p) && p.inum == k
      ensures SlotAt(x, p) == SlotAt(v, p)
    {
      assert IsPlace(w, p);
    }
    TidySame(v, x, k);
  }

  lemma TailTidy(v: Volume, w: Volume, x: Volume, i: nat, src: seq<Byte>)
    requires i < |v.inodes| == |w.inodes| == |x.inodes| && Tidy(v, i) && Dense(x, i)
    requires v.inodes[i].size + |src| == x.inodes[i].size <= MAXFILE * BSIZE
    requires Written(v, w, i, v.inodes[i].size, src) && SameBytes(w, x, i)
    requires OnlyRange(v, w, i, v.inodes[i].size, x.inodes[i].size)
             && forall p | IsPlace(w, p) :: SlotAt(x, p) == SlotAt(w, p)
    ensures Tidy(x, i)
  {
    hide SlotAt, Cell, Dense;
    var off, end := v.inodes[i].size, x.inodes[i].size;
    SlotIsAddr(v, i, TABLE);
    SlotIsAddr(x, i, TABLE);
    assert IsPlace(w, Place(i, TABLE));
    if end <= NDIRECT * BSIZE {
      assert !SlotInRange(off, end, TABLE);
    }
    forall bn | 0 <= bn < MAXFILE && bn * BSIZE >= end
      ensures Data(x, i, bn) == 0
    {
      assert IsPlace(w, Place(i, DataSlot(bn)));
      assert !SlotInRange(off, end, DataSlot(bn));
      assert Data(v, i, bn) == 0;
    }
    forall k | end <= k < MAXFILE * BSIZE
      ensures ByteAt(x, i, k) == 0
    {
      assert ByteAt(w, i, k) == ByteAt(v, i, k);
    }
  }

  lemma RootRounded(v: Volume, owner: map<nat, Place>, i: nat, n: nat)
    requires Sound(v, owner, NMETA) && i < |v.inodes| && Tidy(v, i)
    requires v.inodes[i].size < n == (v.inodes[i].size / BSIZE + 1) * BSIZE <= MAXFILE * BSIZE
    ensures var w := SetSize(v, i, n);
            && Sound(w, owner, NMETA) && OthersKept(v, w, i) && Content(w, i) == Resize(Content(v, i), n)
            && (v.inodes[i].size % BSIZE != 0 <==> Dense(w, i)) && OtherSlots(v, w, i)
            && (v.inodes[i].size % BSIZE == 0 ==> Data(w, i, v.inodes[i].size / BSIZE) == 0)
  {
    hide Sound, SlotAt, Cell;
    var w, size := SetSize(v, i, n), v.inodes[i].size;
    SetSizeKeeps(v, owner, NMETA, i, n);
    assert SameBytes(v, w, i);
    forall k | 0 <= k < n
      ensures ByteAt(w, i, k) == Resize(Content(v, i), n)[k]
    {
      assert ByteAt(w, i, k) == ByteAt(v, i, k);
    }
    forall bn | 0 <= bn < MAXFILE
      ensures Data(w, i, bn) == Data(v, i, bn)
    {
      assert IsPlace(v, Place(i, DataSlot(bn)));
    }
    var last := size / BSIZE;
    if size % BSIZE == 0 {
      assert Data(v, i, last) == 0;
      assert last * BSIZE < n && last < MAXFILE;
    }
  }

  lemma EmptySound(v: Volume)
    requires v.used == Prefix(NMETA) && |v.blocks| == FSSIZE && |v.inodes| == NINODES
    requires forall i | 0 <= i < NINODES :: v.inodes[i] == Inode(Free, 0, 0, seq(NDIRECT + 1, _ => 0))
    ensures Sound(v, map[], NMETA)
  {
    var owner: map<nat, Place> := map[];
    forall b | 0 <= b < |v.used|
      ensures BlockFine(v, owner, NMETA, b)
    {
    }
    forall p | IsPlace(v, p)
      ensures SlotFine(v, owner, p)
    {
    }
  }

  lemma EmptyTidy(v: Volume)
    requires forall i | 0 <= i < |v.inodes| :: v.inodes[i] == Inode(Free, 0, 0, seq(NDIRECT + 1, _ => 0))
    ensures forall i | 0 <= i < |v.inodes| :: Tidy(v, i)
  {
  }

  // --- the free map -----------------------------------------------------------------------

  lemma NoBits(b: nat)
    requires b < BPB
    ensures !Bit(seq(BSIZE, _ => 0), b)
  {
    ZeroAnd(Mask(b % 8));
  }

  lemma ZeroAnd(m: bv8)
    ensures 0 & m == 0
  {
  }

  /** balloc: a block of the free map with ones for the blocks below `used`. */
  method FreeMap(used: nat) returns (bytes: seq<bv8>)
    requires used < BPB
    ensures |bytes| == BSIZE && forall b | 0 <= b < BPB :: Bit(bytes, b) == (b < used)
  {
    hide Bit, SetBit;
    bytes := seq(BSIZE, _ => 0);
    forall b | 0 <= b < BPB
      ensures !Bit(bytes, b)
    {
      NoBits(b);
    }
    for i := 0 to used
      invariant |bytes| == BSIZE && forall b | 0 <= b < BPB :: Bit(bytes, b) == (b < i)
    {
      SetLength(bytes, i);
      forall b | 0 <= b < BPB
        ensures Bit(SetBit(bytes, i), b) == (b < i + 1)
      {
        SetBitAt(bytes, i, b);
      }
      bytes := SetBit(bytes, i);
    }
  }

  /** The kernel finds on the image the volume that mkfs kept in mind, and it is sound. */
  method Boot(image: Image) returns (fs: FileSystem)
    requires image.Good()
    ensures fresh(fs) && fs.Good() && fs.V() == image.V() && fs.start == NMETA && fs.bmapstart == BMAPSTART
    ensures fs.Limit() == LOGSIZE - 1 && fs.dinodes == fs.inodes && fs.outstanding == 0
  {
    hide Sound, Bit;
    var bytes := FreeMap(image.freeblock);
    fs := new FileSystem(FSSIZE, INODESTART, BMAPSTART, NMETA, NLOG, bytes, image.blocks, image.dinodes, image.owner);
    assert fs.V().used == Prefix(image.freeblock);
  }

  // --- mkfs -------------------------------------------------------------------------------

  datatype HostFile = HostFile(name: seq<Byte>, data: seq<Byte>)

  /** Names of binaries lose their leading underscore. */
  function EntryName(name: seq<Byte>): seq<Byte> { if |name| > 0 && name[0] == 95 then name[1..] else name }

  /** The root directory after the first n files. */
  function Entries(files: seq<HostFile>, n: nat): seq<Byte>
    requires n <= |files| < NINODES
  {
    if n == 0 then Dirent(ROOTINO, [46]) + Dirent(ROOTINO, [46, 46])
    else Entries(files, n - 1) + Dirent(n + 1, EntryName(files[n - 1].name))
  }

  ghost predicate Placed(v: Volume, files: seq<HostFile>, k: nat) {
    && k < |files| && k + 2 < |v.inodes| && v.inodes[k + 2].kind == File && v.inodes[k + 2].size <= MAXFILE * BSIZE
    && Content(v, k + 2) == files[k].data
  }

  lemma PlacedKept(v: Volume, w: Volume, i: nat, files: seq<HostFile>, k: nat)
    requires OthersKept(v, w, i) && k < |files| && Placed(v, files, k) && k + 2 != i
    ensures Placed(w, files, k)
  {
    SameContent(v, w, k + 2);
  }

  /** The loop over the blocks of one host file. */
  method CopyFile(image: Image, inum: nat, data: seq<Byte>) returns (ok: bool)
    requires image.Neat() && inum < NINODES && image.dinodes[inum].kind == File && image.dinodes[inum].size == 0
    modifies image`dinodes, image`blocks, image`freeblock, image`owner
    ensures ok <==> |data| <= MAXFILE * BSIZE && old(image.freeblock) + BlocksFor(|data|) <= FSSIZE
    ensures ok ==> image.freeblock == old(image.freeblock) + BlocksFor(|data|)
    ensures ok ==> image.Neat() && OthersKept(old(image.V()), image.V(), inum) && image.dinodes[inum].kind == File
    ensures ok ==> image.dinodes[inum].size <= MAXFILE * BSIZE && Content(image.V(), inum) == data
  {
    hide Sound, Tidy, Content, OthersKept, Prefix, BlocksFor;
    ghost var v := image.V();
    BlocksMono(0, |data|);
    OthersSelf(v, inum);
    SoundSizes(v, image.owner, NMETA);
    var pos := 0;
    while pos < |data|
      invariant pos <= |data| && image.Neat() && OthersKept(v, image.V(), inum) && image.dinodes[inum].kind == File
      invariant image.dinodes[inum].size <= MAXFILE * BSIZE && Content(image.V(), inum) == data[..pos]
      invariant image.freeblock == old(image.freeblock) + BlocksFor(pos) <= FSSIZE
    {
      ghost var u := image.V();
      var cc := if |data| - pos < BSIZE then |data| - pos else BSIZE;
      BlocksMono(pos + cc, |data|);
      ok := image.Iappend(inum, data[pos..pos + cc]);
      if !ok { return; }
      OthersMore(v, u, image.V(), inum);
      SoundSizes(image.V(), image.owner, NMETA);
      assert data[..pos] + data[pos..pos + cc] == data[..pos + cc];
      pos := pos + cc;
    }
    assert data[..pos] == data;
    ok := true;
  }

  lemma {:induction false} EntriesLength(files: seq<HostFile>, n: nat)
    requires n <= |files| < NINODES
    ensures |Entries(files, n)| == 16 * (n + 2)
  {
    if n > 0 {
      EntriesLength(files, n - 1);
    }
  }

  /** How many blocks the first n files and the root take, with what lies before the data. */
  function Total(files: seq<HostFile>, n: nat): nat
    requires n <= |files|
  {
    NMETA + BlocksFor(16 * (n + 2)) + DataTotal(files, n)
  }

  function DataTotal(files: seq<HostFile>, n: nat): nat
    requires n <= |files|
  {
    if n == 0 then 0 else DataTotal(files, n - 1) + BlocksFor(|files[n - 1].data|)
  }

  lemma {:induction false} TotalMono(files: seq<HostFile>, m: nat, n: nat)
    requires m <= n <= |files|
    ensures Total(files, m) <= Total(files, n)
    decreases n
  {
    hide BlocksFor;
    BlocksMono(16 * (m + 2), 16 * (n + 2));
    if m < n {
      TotalMono(files, m, n - 1);
      BlocksMono(16 * (n + 1), 16 * (n + 2));
    }
  }

  /** mkfs takes this file. */
  predicate Allowed(f: HostFile) { 47 !in f.name && |f.data| <= MAXFILE * BSIZE }

  /** The image after the first n host files. */
  ghost predicate Holds(image: Image, files: seq<HostFile>, n: nat)
    requires n <= |files| < NINODES - 1
    reads image
  {
    && image.Neat() && image.freeinode == n + 2 && image.freeblock == Total(files, n)
    && image.dinodes[ROOTINO].kind == Dir && image.dinodes[ROOTINO].size <= MAXFILE * BSIZE
    && Content(image.V(), ROOTINO) == Entries(files, n)
    && (forall k | 0 <= k < n :: Placed(image.V(), files, k))
    && (forall i | n + 2 <= i < NINODES :: image.dinodes[i].kind == Free && image.dinodes[i].size == 0)
  }

  /** One turn of mkfs's loop over its arguments. */
  method AddFile(image: Image, files: seq<HostFile>, n: nat) returns (ok: bool)
    requires n < |files| < NINODES - 1 && Holds(image, files, n)
    modifies image
    ensures ok <==> Allowed(files[n]) && Total(files, n + 1) <= FSSIZE
    ensures ok ==> Holds(image, files, n + 1)
  {
    hide Sound, Tidy, Content, Prefix, OthersKept, Dirent, Placed, BlocksFor;
    EntriesLength(files, n);
    ContentLength(image.V(), ROOTINO);
    BlocksMono(0, |files[n].data|);
    if 47 in files[n].name { return false; }
    ghost var v := image.V();
    var inum := image.Ialloc(File);
    ghost var w := image.V();
    RootKept(v, w, inum);
    ok := image.Iappend(ROOTINO, Dirent(inum, EntryName(files[n].name)));
    if !ok { return; }
    ghost var x := image.V();
    InodesKept(w, x, ROOTINO);
    SoundSizes(x, image.owner, NMETA);
    ok := CopyFile(image, inum, files[n].data);
    if !ok { return; }
    ghost var y := image.V();
    RootKept(x, y, inum);
    InodesKept(x, y, inum);
    AllPlaced(v, w, x, y, files, n);
  }

  lemma InodesKept(v: Volume, w: Volume, i: nat)
    ensures OthersKept(v, w, i) ==> OthersSame(v.inodes, w.inodes, i)
  {
  }

  lemma RootKept(v: Volume, w: Volume, i: nat)
    requires OthersKept(v, w, i) && i != ROOTINO < |v.inodes| && v.inodes[ROOTINO].size <= MAXFILE * BSIZE
    ensures OthersSame(v.inodes, w.inodes, i) && Content(w, ROOTINO) == Content(v, ROOTINO)
  {
    SameContent(v, w, ROOTINO);
  }

  lemma AllPlaced(v: Volume, w: Volume, x: Volume, y: Volume, files: seq<HostFile>, n: nat)
    requires n < |files| && OthersKept(v, w, n + 2) && OthersKept(w, x, ROOTINO) && OthersKept(x, y, n + 2)
    requires (forall k | 0 <= k < n :: Placed(v, files, k)) && n + 2 < |y.inodes|
             && y.inodes[n + 2].size <= MAXFILE * BSIZE
    requires y.inodes[n + 2].kind == File && Content(y, n + 2) == files[n].data
    ensures forall k | 0 <= k < n + 1 :: Placed(y, files, k)
  {
    hide OthersKept, Content;
    forall k | 0 <= k < n + 1
      ensures Placed(y, files, k)
    {
      if k < n {
        PlacedKept(v, w, n + 2, files, k);
        PlacedKept(w, x, ROOTINO, files, k);
        PlacedKept(x, y, n + 2, files, k);
      }
    }
  }

  /**
    mkfs.  Every host file is on the image, byte for byte, under its name in the root
    directory, which is padded with zeros to whole blocks.
  */
  method MakeFs(files: seq<HostFile>) returns (ok: bool, image: Image, dense: bool)
    requires |files| < NINODES - 1
    ensures ok <==> (forall k | 0 <= k < |files| :: Allowed(files[k])) && Total(files, |files|) <= FSSIZE
    ensures fresh(image) && (ok ==> image.freeblock == Total(files, |files|))
    ensures ok ==> image.Good() && forall k | 0 <= k < |files| :: Placed(image.V(), files, k)
    ensures ok ==> FilesDense(image.V()) && forall i | 2 <= i < |files| + 2 :: Dense(image.V(), i)
    ensures ok ==> image.dinodes[ROOTINO].kind == Dir
    ensures ok ==>
      var n := |Entries(files, |files|)|;
      Content(image.V(), ROOTINO) == Resize(Entries(files, |files|), (n / BSIZE + 1) * BSIZE)
    ensures ok ==> dense == ((|files| + 2) % 32 != 0) && (dense <==> Dense(image.V(), ROOTINO))
    ensures ok && !dense ==> Data(image.V(), ROOTINO, (|files| + 2) / 32) == 0
  {
    hide Sound, Tidy, Content, Prefix, Dirent, Resize, OthersKept, OtherSlots, Dense, Entries, Placed;
    hide Total, FilesDense, Allowed;
    dense := false;
    ok, image := Begin(files);
    if !ok { return; }
    for n := 0 to |files|
      invariant Holds(image, files, n) && fresh(image) && Total(files, n) <= FSSIZE
      invariant forall k | 0 <= k < n :: Allowed(files[k])
    {
      TotalMono(files, n + 1, |files|);
      ok := AddFile(image, files, n);
      if !ok { return; }
    }
    EntriesLength(files, |files|);
    ghost var v := image.V();
    dense := image.RoundRoot(ROOTINO);
    ghost var w := image.V();
    forall k | 0 <= k < |files|
      ensures Placed(w, files, k)
    {
      PlacedKept(v, w, ROOTINO, files, k);
    }
    RoundedDense(v, w, files);
  }

  lemma RoundedDense(v: Volume, w: Volume, files: seq<HostFile>)
    requires OthersKept(v, w, ROOTINO) && ROOTINO < |w.inodes| && w.inodes[ROOTINO].kind == Dir
    requires forall k | 0 <= k < |v.inodes| :: Tidy(v, k)
    requires forall k | 0 <= k < |files| :: Placed(w, files, k)
    ensures FilesDense(w) && |files| + 2 <= |w.inodes| && forall i | 2 <= i < |files| + 2 :: Dense(w, i)
  {
    hide OthersKept, Dense, Content;
    assert FilesDense(v) by {
      forall k | 0 <= k < |v.inodes|
        ensures Dense(v, k)
      {
        assert Tidy(v, k);
      }
    }
    OthersDense(v, w, ROOTINO);
    forall i | 2 <= i < |files| + 2
      ensures i < |w.inodes| && Dense(w, i)
    {
      assert Placed(w, files, i - 2);
    }
    if |files| > 0 { assert Placed(w, files, |files| - 1); }
  }

  /** mkfs up to the loop over its arguments: the root directory with its two first entries. */
  method Begin(files: seq<HostFile>) returns (ok: bool, image: Image)
    requires |files| < NINODES - 1
    ensures ok && fresh(image) && Holds(image, files, 0) && Total(files, 0) <= FSSIZE
  {
    hide Sound, Tidy, Content, Prefix, Dirent, SameBytes;
    image := new Image();
    var root := image.Ialloc(Dir);
    SoundSizes(image.V(), image.owner, NMETA);
    EmptyContent(image.V(), root);
    ok := image.Iappend(root, Dirent(root, [46]));
    if !ok { return; }
    SoundSizes(image.V(), image.owner, NMETA);
    ok := image.Iappend(root, Dirent(root, [46, 46]));
    if !ok { return; }
    SoundSizes(image.V(), image.owner, NMETA);
  }

  lemma EmptyContent(v: Volume, i: nat)
    requires i < |v.inodes| && v.inodes[i].size == 0
    ensures Content(v, i) == []
  {
  }

  // --- what the root directory says -------------------------------------------------------

  /** What a name should mean after the first n files. */
  function Meaning(files: seq<HostFile>, n: nat, name: seq<Byte>): Option<nat>
    requires n <= |files|
  {
    if n == 0 then if Alike(name, [46], DIRSIZ) || Alike(name, [46, 46], DIRSIZ) then Some(ROOTINO) else None
    else if Alike(name, EntryName(files[n - 1].name), DIRSIZ) then Some(n + 1)
    else Meaning(files, n - 1, name)
  }

  /** Each name is new when it comes. */
  ghost predicate Fine(files: seq<HostFile>, n: nat) {
    forall k | 0 <= k < n :: NewName(files, k)
  }

  predicate NewName(files: seq<HostFile>, k: nat) {
    k < |files| && Meaning(files, k, EntryName(files[k].name)) == None
  }

  lemma AppendLookup(c: seq<Byte>, name: seq<Byte>, inum: nat, other: seq<Byte>)
    requires |c| % DESIZE == 0 && 0 < inum < 65536 && Lookup(c, name) == None
    ensures Lookup(c + Dirent(inum, name), other) ==
            if Alike(other, name, DIRSIZ) then Some(inum) else Lookup(c, other)
  {
    hide Lookup, Dirent, Alike;
    var d := Dirent(inum, name);
    LinkLookup(c, Count(c), name, inum, other);
    assert Overwrite(c, DESIZE * Count(c), d) == c + d;
  }

  /** The root directory maps every file's name to its inode, and no other name to anything. */
  lemma {:induction false} RootMeans(files: seq<HostFile>, n: nat, name: seq<Byte>)
    requires n <= |files| < NINODES && Fine(files, n)
    ensures Lookup(Entries(files, n), name) == Meaning(files, n, name)
    decreases n
  {
    hide Lookup, Dirent;
    if n == 0 {
      FirstEntries(name);
    } else {
      var entry := EntryName(files[n - 1].name);
      EntriesLength(files, n - 1);
      RootMeans(files, n - 1, name);
      RootMeans(files, n - 1, entry);
      assert NewName(files, n - 1);
      AppendLookup(Entries(files, n - 1), entry, n + 1, name);
    }
  }

  lemma FirstEntries(name: seq<Byte>)
    ensures Lookup(Dirent(ROOTINO, [46]) + Dirent(ROOTINO, [46, 46]), name) ==
            if Alike(name, [46], DIRSIZ) || Alike(name, [46, 46], DIRSIZ) then Some(ROOTINO) else None
  {
    hide Lookup, Dirent;
    var c := Dirent(ROOTINO, [46]);
    NothingThere([46]);
    NothingThere(name);
    NothingThere([46, 46]);
    assert [] + c == c;
    AppendLookup([], [46], ROOTINO, [46, 46]);
    AppendLookup([], [46], ROOTINO, name);
    AppendLookup(c, [46, 46], ROOTINO, name);
  }

  lemma NothingThere(name: seq<Byte>)
    ensures Lookup([], name) == None
  {
  }

  /** The zeros after the last entry are free entries. */
  lemma PaddingIsFree(c: seq<Byte>, n: nat, name: seq<Byte>)
    requires |c| % DESIZE == 0 && n % DESIZE == 0 && |c| <= n
    ensures Lookup(Resize(c, n), name) == Lookup(c, name)
  {
    hide Entry, Matches, Count, Resize;
    var w := Resize(c, n);
    Padded(c, n, name);
    FindInside(c, name, 0);
    FindInside(w, name, 0);
    var x, y := Find(c, name, 0), Find(w, name, 0);
    if x.Some? {
      assert Matches(Entry(w, x.value), name);
    }
    if y.Some? {
      assert Matches(Entry(w, y.value), name);
    }
  }

  lemma Padded(c: seq<Byte>, n: nat, name: seq<Byte>)
    requires |c| % DESIZE == 0 && n % DESIZE == 0 && |c| <= n
    ensures Count(c) <= Count(Resize(c, n))
    ensures forall e | 0 <= e < Count(c) :: Entry(Resize(c, n), e) == Entry(c, e)
    ensures forall e | Count(c) <= e < Count(Resize(c, n)) :: !Matches(Entry(Resize(c, n), e), name)
  {
    var w := Resize(c, n);
    forall e | 0 <= e < Count(c)
      ensures Entry(w, e) == Entry(c, e)
    {
      EntrySame(c, w, e);
    }
    forall e | Count(c) <= e < Count(w)
      ensures !Matches(Entry(w, e), name)
    {
      assert Entry(w, e)[0] == w[DESIZE * e] == 0;
      assert Entry(w, e)[1] == w[DESIZE * e + 1] == 0;
    }
  }

  /** On the finished image, looking a file's name up in the root gives its inode. */
  lemma RootFinds(files: seq<HostFile>, c: seq<Byte>, name: seq<Byte>)
    requires |files| < NINODES && Fine(files, |files|)
    requires c == Resize(Entries(files, |files|), (|Entries(files, |files|)| / BSIZE + 1) * BSIZE)
    ensures Lookup(c, name) == Meaning(files, |files|, name)
  {
    hide Lookup, Resize, Entries, Meaning;
    EntriesLength(files, |files|);
    RootMeans(files, |files|, name);
    PaddingIsFree(Entries(files, |files|), (|Entries(files, |files|)| / BSIZE + 1) * BSIZE, name);
  }

  // --- names of programs ------------------------------------------------------------------

  lemma {:induction false} AlikeSelf(a: seq<Byte>, n: nat)
    ensures Alike(a, a, n)
    decreases n
  {
    if n > 0 && CharAt(a, 0) != 0 {
      AlikeSelf(a[1..], n - 1);
    }
  }

  lemma {:induction false} AlikeBoth(a: seq<Byte>, b: seq<Byte>, c: seq<Byte>, n: nat)
    requires Alike(a, b, n)
    ensures Alike(a, c, n) <==> Alike(b, c, n)
    decreases n
  {
    if n > 0 && CharAt(a, 0) != 0 && CharAt(c, 0) == CharAt(a, 0) {
      AlikeBoth(a[1..], b[1..], c[1..], n - 1);
    }
  }

  lemma {:induction false} MeaningAlike(files: seq<HostFile>, n: nat, a: seq<Byte>, b: seq<Byte>)
    requires n <= |files| && Alike(a, b, DIRSIZ)
    ensures Meaning(files, n, a) == Meaning(files, n, b)
    decreases n
  {
    hide Alike;
    if n == 0 {
      AlikeBoth(a, b, [46], DIRSIZ);
      AlikeBoth(a, b, [46, 46], DIRSIZ);
    } else {
      AlikeBoth(a, b, EntryName(files[n - 1].name), DIRSIZ);
      MeaningAlike(files, n - 1, a, b);
    }
  }

  /** A name that is new when it comes means its file from then on. */
  lemma {:induction false} MeaningStays(files: seq<HostFile>, k: nat, n: nat)
    requires k < n <= |files| && Fine(files, n)
    ensures Meaning(files, n, EntryName(files[k].name)) == Some(k + 2)
    decreases n
  {
    hide Alike;
    var name := EntryName(files[k].name);
    if n == k + 1 {
      AlikeSelf(name, DIRSIZ);
    } else {
      MeaningStays(files, k, n - 1);
      assert NewName(files, n - 1);
      var last := EntryName(files[n - 1].name);
      if Alike(name, last, DIRSIZ) {
        MeaningAlike(files, n - 1, name, last);
      }
    }
  }

  /**
    On the finished image a file is found in the root under the name it had on the host, and a file
    whose name begins with an underscore, as those of the programs do, under the rest of it.
  */
  lemma ProgramFound(files: seq<HostFile>, c: seq<Byte>, k: nat, name: seq<Byte>)
    requires k < |files| < NINODES && Fine(files, |files|)
    requires c == Resize(Entries(files, |files|), (|Entries(files, |files|)| / BSIZE + 1) * BSIZE)
    ensures files[k].name == [95] + name ==> Lookup(c, name) == Some(k + 2)
    ensures files[k].name == name && (name == [] || name[0] != 95) ==> Lookup(c, name) == Some(k + 2)
  {
    hide Lookup, Resize, Entries, Meaning;
    RootFinds(files, c, name);
    MeaningStays(files, k, |files|);
    if files[k].name == [95] + name {
      assert EntryName(files[k].name) == name;
    }
  }
}
