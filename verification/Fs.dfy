/**
  Inode contents (fs.c): block allocation, bmap, readi, writei, changesize, itrunc, iput.

  `inodes` is what the kernel works on, `dinodes` what the inode blocks on disk say; iupdate
  copies one to the other.  A panic stops the machine: a method that panics returns no value
  and promises little but when that happens.  `base` is the list in
  the log header that the current operation found, `logged` what it has called log_write for.
*/
module Fs {
  import opened Params
  import opened FsVolume
  import opened FsSteps
  import opened FsBitmap
  import opened FsRanges
  import opened FsContent

  /** A return value, a panic, or a call passed on to a device driver. */
  datatype Outcome = Value(n: int) | Panic | Device

  class FileSystem {
    const size: nat
    const inodestart: nat
    const bmapstart: nat
    const start: nat             // the first data block
    const logsize: nat           // log.size

    var bitmap: seq<bv8>
    var blocks: seq<Block>
    var inodes: seq<Inode>
    var dinodes: seq<Inode>
    var refs: seq<nat>           // references to the cached inodes
    var valid: seq<bool>         // which of them have been read from disk
    var outstanding: nat         // file system calls between begin_op and end_op
    var base: set<nat>
    var logged: set<nat>
    ghost var owner: map<nat, Place>

    predicate Shape()
      reads this
    {
      && size <= 8 * |bitmap| && |blocks| == size && |dinodes| == |inodes| == |refs| == |valid|
      && 0 < start && Fits(|inodes|, size, inodestart, bmapstart, start)
    }

    ghost function V(): (v: Volume)
      requires Shape()
      reads this
      ensures |v.used| == size && v.blocks == blocks && v.inodes == inodes
    {
      Volume(Bits(bitmap, size), blocks, inodes)
    }

    ghost predicate Good()
      reads this
    {
      Shape() && Sound(V(), owner, start)
    }

    /** The length of the list from which on log_write panics. */
    function Limit(): int { if LOGSIZE < logsize - 1 then LOGSIZE else logsize - 1 }

    ghost function Header(): set<nat>
      reads this
    {
      base + logged
    }

    /** The list that an operation finds when it begins: empty, unless others are under way. */
    ghost function Listed(): set<nat>
      reads this
    {
      if outstanding == 0 then {} else base + logged
    }

    /** The blocks that can still be allocated: none outside an operation, where log_write panics. */
    ghost function Avail(): nat
      requires Shape()
      reads this
    {
      if outstanding == 0 then 0 else |Frees(V().used)|
    }

    /** Nothing can be allocated: no block is free, or the log's list is full or about to be. */
    ghost predicate Stuck()
      requires Shape()
      reads this
    {
      Avail() == 0 || |Header()| + 1 >= Limit()
    }

    /** A kernel that has just started: no inode is in use. */
    constructor (size: nat, inodestart: nat, bmapstart: nat, start: nat, logsize: nat, bitmap: seq<bv8>,
                 blocks: seq<Block>, dinodes: seq<Inode>, ghost owner: map<nat, Place>)
      ensures this.size == size && this.inodestart == inodestart && this.bmapstart == bmapstart && this.start == start
      ensures this.logsize == logsize && base == {}
      ensures this.bitmap == bitmap && this.blocks == blocks && this.dinodes == this.inodes == dinodes
              && this.owner == owner
      ensures refs == seq(|dinodes|, _ => 0) && valid == seq(|dinodes|, _ => false) && logged == {} && outstanding == 0
    {
      this.size, this.inodestart, this.bmapstart, this.start := size, inodestart, bmapstart, start;
      this.logsize, base := logsize, {};
      this.bitmap, this.blocks, this.dinodes, this.inodes, this.owner := bitmap, blocks, dinodes, dinodes, owner;
      refs, valid, logged, outstanding := seq(|dinodes|, _ => 0), seq(|dinodes|, _ => false), {}, 0;
    }

    /** begin_op: nothing logged yet. */
    method BeginOp()
      modifies this`base, this`logged, this`outstanding
      ensures base == old(Listed()) && logged == {} && outstanding == old(outstanding) + 1
      ensures old(Shape()) ==> Shape() && V() == old(V()) && (old(Good()) ==> Good())
    {
      base := if outstanding == 0 then {} else base + logged;
      logged, outstanding := {}, outstanding + 1;
    }

    /** end_op. */
    method EndOp()
      requires outstanding > 0
      modifies this`outstanding
      ensures outstanding == old(outstanding) - 1
      ensures old(Shape()) ==> Shape() && V() == old(V()) && (old(Good()) ==> Good())
    {
      outstanding := outstanding - 1;
    }

    /** log_write; ok is false for its two panics. */
    method LogWrite(b: nat) returns (ok: bool)
      modifies this`logged
      ensures ok <==> |old(Header())| < Limit() && outstanding > 0
      ensures logged == if ok then old(logged) + {b} else old(logged)
    {
      ok := |base + logged| < Limit() && outstanding > 0;
      if ok {
        logged := logged + {b};
      }
    }

    // --- blocks ---------------------------------------------------------------------------

    /** The lowest free block, marked and zeroed.  ok is false where the kernel panics. */
    method Balloc() returns (ok: bool, b: nat)
      requires Good()
      modifies this`bitmap, this`blocks, this`logged
      ensures Shape()
      ensures ok <==>
        old(Avail()) > 0 && Room(old(Header()), Maps(bmapstart, FirstFree(old(V()).used, 1)), Limit())
      ensures if ok then Avail() + 1 == old(Avail()) && FirstFree(old(V()).used, 1) == {b} else unchanged(this)
      ensures ok || Stuck()
      ensures ok ==> IsFree(old(V()), start, b) && AllUsed(old(V()).used, b)
      ensures ok ==> V() == Volume(old(V()).used[b := true], old(blocks)[b := Zeros()], inodes)
      ensures ok ==> logged == old(logged) + {bmapstart + b / BPB, b}
    {
      hide Frees, FirstFree, Maps;
      var bb := 0;
      while bb < size
        invariant bb % BPB == 0
        invariant forall c | 0 <= c < bb && c < size :: Bit(bitmap, c)
        invariant unchanged(this)
      {
        var bi := 0;
        while bi < BPB && bb + bi < size
          invariant bi <= BPB && unchanged(this)
          invariant forall c | 0 <= c < bb + bi && c < size :: Bit(bitmap, c)
        {
          b := bb + bi;
          if !Bit(bitmap, b) {
            assert BlockFine(V(), owner, start, b);
            BitsSet(bitmap, size, b);
            FreesTake(V().used, b);
            FirstIs(V().used, b);
            MapsOne(bmapstart, b);
            // log_write of the free map's block, and then of the new block
            if outstanding == 0 || |base + logged + {bmapstart + b / BPB}| >= Limit() { return false, 0; }
            bitmap := SetBit(bitmap, b);
            blocks := blocks[b := Zeros()];
            logged := logged + {bmapstart + b / BPB, b};
            return true, b;
          }
          bi := bi + 1;
        }
        bb := bb + BPB;
      }
      FreesNone(V().used);
      return false, 0;
    }

    // --- bmap -----------------------------------------------------------------------------

    /** A block for an empty direct slot, or for the table. */
    method AllocHead(i: nat, j: nat) returns (ok: bool, b: nat)
      requires Good() && i < |inodes| && inodes[i].kind != Free && j <= TABLE && inodes[i].addrs[j] == 0
      modifies this`bitmap, this`blocks, this`inodes, this`owner, this`logged
      ensures Good() && Kept(old(V()), V())
      ensures ok <==>
        old(Avail()) > 0 && Room(old(Header()), Maps(bmapstart, FirstFree(old(V()).used, 1)), Limit())
      ensures if ok then Avail() + 1 == old(Avail()) && FirstFree(old(V()).used, 1) == {b} else unchanged(this)
      ensures ok || Stuck()
      ensures ok ==> IsFree(old(V()), start, b) && AllUsed(old(V()).used, b)
      ensures ok ==> V() == AllocDirect(old(V()), i, j, b) && SlotAt(V(), Place(i, j)) == b
      ensures ok ==> SlotsChanged(old(V()), V(), Place(i, j), b)
      ensures ok ==> logged == old(logged) + {bmapstart + b / BPB, b}
    {
      hide Frees, Fits, AllUsed, Sound, AllocDirect, Kept, SlotsChanged;
      ghost var v := V();
      KeptSelf(v);
      ok, b := Balloc();
      if ok {
        AllocDirectSound(v, owner, start, i, j, b);
        inodes := inodes[i := inodes[i].(addrs := inodes[i].addrs[j := b])];
        owner := owner[b := Place(i, j)];
        assert V() == AllocDirect(v, i, j, b) by { AllocDirectIs(v, i, j, b); }
      }
    }

    /** A block for an empty entry of the table: `got` tells whether there is one, ok whether the table is logged. */
    method AllocInTable(i: nat, e: nat) returns (got: bool, ok: bool, b: nat)
      requires Good() && i < |inodes| && inodes[i].kind != Free && e < NINDIRECT
      requires inodes[i].addrs[TABLE] != 0 && SlotAt(V(), Place(i, 13 + e)) == 0
      modifies this`bitmap, this`blocks, this`owner, this`logged
      ensures Good() && Kept(old(V()), V()) && (ok ==> got)
      ensures got ==> old(Avail()) > 0
      ensures ok <==>
        var f := FirstFree(old(V()).used, 1);
        old(Avail()) > 0 && Room(old(Header()), f + Maps(bmapstart, f), Limit())
      ensures if got then Avail() + 1 == old(Avail()) && FirstFree(old(V()).used, 1) == {b} else unchanged(this)
      ensures ok || Stuck()
      ensures got ==> IsFree(old(V()), start, b) && AllUsed(old(V()).used, b)
      ensures
        got ==>
          && SlotAt(V(), Place(i, 13 + e)) == b != 0 && OnlySlots(old(V()), V(), i, NDIRECT + e)
          && Marked(old(V()).used, V().used, {b})
      ensures
        ok ==>
          var f := FirstFree(old(V()).used, 1);
          logged == old(logged) + (f + Maps(bmapstart, f)) + {inodes[i].addrs[TABLE]}
    {
      hide Frees, Fits, AllUsed, Sound, AllocEntry, Kept, SlotsChanged, FirstFree, Maps, Room, OnlySlots, Marked;
      hide SlotAt;
      ghost var v, h := V(), Header();
      KeptSelf(v);
      var t := inodes[i].addrs[TABLE];
      TableEntry(v, owner, start, i, e);
      var a := blocks[t];
      got, b := Balloc();
      ok := false;
      ghost var f := FirstFree(v.used, 1);
      RoomParts(h, f, Maps(bmapstart, f), Limit());
      if got {
        AllocEntrySound(v, owner, start, i, e, b);
        blocks := blocks[t := PutWord(a, e, b)];
        owner := owner[b := Place(i, 13 + e)];
        assert V() == AllocEntry(v, i, e, b) by { AllocEntryIs(v, i, e, b); }
        EntryGot(v, V(), i, e, b);
        MarkedOne(v.used, b);
        MapsOne(bmapstart, b);
        assert Header() == h + (f + Maps(bmapstart, f));
        RoomIs(h, f + Maps(bmapstart, f), Limit());
        ok := LogWrite(t);
      }
    }

    /** The first half of bmap's indirect case: a missing table is allocated. */
    method AddTable(i: nat, e: nat) returns (ok: bool, ghost news: set<nat>)
      requires Good() && i < |inodes| && inodes[i].kind != Free && e < NINDIRECT && inodes[i].addrs[TABLE] == 0
      modifies this`bitmap, this`blocks, this`inodes, this`owner, this`logged
      ensures Good() && Changed(old(V()), V(), i, NDIRECT + e, news) && inodes[i].kind != Free
      ensures ok <==>
        old(Avail()) > 0 && Room(old(Header()), Maps(bmapstart, FirstFree(old(V()).used, 1)), Limit())
      ensures !ok ==> unchanged(this) && news == {} && Stuck()
      ensures Avail() + |news| == old(Avail())
      ensures ok ==> |news| == 1 && inodes[i].addrs[TABLE] in news && inodes[i].addrs[TABLE] != 0
      ensures ok ==> SlotAt(V(), Place(i, 13 + e)) == 0 && logged == old(logged) + (news + Maps(bmapstart, news))
    {
      hide Frees, Fits, AllUsed, Sound, AllocDirect, Kept, SlotAt, Maps, SlotsChanged, FirstFree, Room, Marked;
      ghost var v := V();
      ChangedSelf(v, i, NDIRECT + e);
      news := {};
      var t;
      ok, t := AllocHead(i, TABLE);
      if ok {
        AllocDirectIs(v, i, TABLE, t);
        ChangedOne(v, V(), i, NDIRECT + e, Place(i, TABLE), t);
        MapsOne(bmapstart, t);
        news := {t};
        NewTable(v, i, e, t);
        TableEntry(V(), owner, start, i, e);
      }
    }

    method BmapDirect(i: nat, bn: nat) returns (ok: bool, addr: nat, ghost news: set<nat>)
      requires Good() && i < |inodes| && inodes[i].kind != Free && bn < NDIRECT
      modifies this`bitmap, this`blocks, this`inodes, this`owner, this`logged
      ensures Good() && Changed(old(V()), V(), i, bn, news)
      ensures Avail() + |news| == old(Avail()) && (ok ==> addr == Data(V(), i, bn) != 0)
      ensures ok <==>
        && Need(old(V()), i, bn) <= old(Avail())
        && MapRoom(old(Header()), bmapstart, old(V()), i, bn, Limit())
      ensures ok || Stuck()
      ensures ok ==> |news| == Need(old(V()), i, bn) && logged == old(logged) + MapSet(bmapstart, old(V()), i, bn)
      ensures ok && Data(old(V()), i, bn) == 0 ==> addr in news
      ensures Data(old(V()), i, bn) != 0 ==> news == {} && unchanged(this)
    {
      hide Frees, Fits, AllUsed, Sound, AllocDirect, Kept, SlotAt, Maps, Changed, SlotsChanged, FirstFree, Room;
      hide MapSet, MapBefore, Need;
      ghost var v := V();
      ChangedSelf(v, i, bn);
      news := {};
      SlotIsAddr(v, i, bn);
      addr := inodes[i].addrs[bn];
      ok := true;
      if addr == 0 {
        DirectLogs(bmapstart, v, i, bn);
        ok, addr := AllocHead(i, bn);
        if ok {
          AllocDirectIs(v, i, bn, addr);
          ChangedOne(v, V(), i, bn, Place(i, bn), addr);
          MapsOne(bmapstart, addr);
          news := {addr};
        }
      } else {
        NoNeed(bmapstart, v, i, bn);
      }
    }

    /** The second half of the indirect case. */
    method BmapEntry(i: nat, bn: nat) returns (ok: bool, addr: nat, ghost news: set<nat>)
      requires Good() && i < |inodes| && inodes[i].kind != Free && NDIRECT <= bn < MAXFILE
      requires inodes[i].addrs[TABLE] != 0
      modifies this`bitmap, this`blocks, this`inodes, this`owner, this`logged
      ensures Good() && Changed(old(V()), V(), i, bn, news)
      ensures Avail() + |news| == old(Avail()) && (ok ==> addr == Data(V(), i, bn) != 0)
      ensures ok <==>
        && Need(old(V()), i, bn) <= old(Avail())
        && MapRoom(old(Header()), bmapstart, old(V()), i, bn, Limit())
      ensures ok || Stuck()
      ensures ok ==> |news| == Need(old(V()), i, bn) && logged == old(logged) + MapSet(bmapstart, old(V()), i, bn)
      ensures ok && Data(old(V()), i, bn) == 0 ==> addr in news
      ensures Data(old(V()), i, bn) != 0 ==> news == {} && unchanged(this)
    {
      hide Frees, Fits, AllUsed, Sound, SlotAt, Word, Bits, Changed, Maps, Marked, FirstFree, Room;
      hide MapSet, MapBefore, Need, Kept, OnlySlots;
      ghost var v := V();
      var e := bn - NDIRECT;
      ok, news := true, {};
      ChangedSelf(v, i, bn);
      TableEntry(v, owner, start, i, e);
      addr := Word(blocks[inodes[i].addrs[TABLE]], e);
      if addr == 0 {
        EntryLogs(bmapstart, v, i, bn);
        ghost var f := FirstFree(v.used, 1);
        Joined(logged, f + Maps(bmapstart, f), {inodes[i].addrs[TABLE]});
        var got;
        got, ok, addr := AllocInTable(i, e);
        if got {
          ChangedEntry(v, V(), i, bn, addr);
          news := {addr};
        }
      } else {
        NoNeed(bmapstart, v, i, bn);
      }
    }

    method BmapIndirect(i: nat, bn: nat) returns (ok: bool, addr: nat, ghost news: set<nat>)
      requires Good() && i < |inodes| && inodes[i].kind != Free && NDIRECT <= bn < MAXFILE
      modifies this`bitmap, this`blocks, this`inodes, this`owner, this`logged
      ensures Good() && Changed(old(V()), V(), i, bn, news)
      ensures Avail() + |news| == old(Avail()) && (ok ==> addr == Data(V(), i, bn) != 0)
      ensures ok <==>
        && Need(old(V()), i, bn) <= old(Avail())
        && MapRoom(old(Header()), bmapstart, old(V()), i, bn, Limit())
      ensures ok || Stuck()
      ensures ok ==> |news| == Need(old(V()), i, bn) && logged == old(logged) + MapSet(bmapstart, old(V()), i, bn)
      ensures ok && Data(old(V()), i, bn) == 0 ==> addr in news
      ensures Data(old(V()), i, bn) != 0 ==> news == {} && unchanged(this)
    {
      hide Frees, Fits, AllUsed, Sound, SlotAt, Word, Bits, Changed, Maps, Marked, FirstFree, Room;
      hide MapSet, MapBefore, MapRoom, Need, Kept, OnlySlots;
      if inodes[i].addrs[TABLE] != 0 {
        ok, addr, news := BmapEntry(i, bn);
        return;
      }
      ghost var v, h := V(), Header();
      addr := 0;
      NoTable(v, i, bn - NDIRECT);
      TableStuck(bmapstart, v, i, bn, h, Limit());
      ok, news := AddTable(i, bn - NDIRECT);
      if !ok { return; }
      ghost var w, more := V(), {};
      ghost var x := news + Maps(bmapstart, news);
      TableThen(bmapstart, v, w, i, bn, news, h, Limit());
      Joined(base, old(logged), x);
      Joined(old(logged), x, MapSet(bmapstart, w, i, bn));
      ok, addr, more := BmapEntry(i, bn);
      ChangedTwice(v, w, V(), i, bn, news, more);
      news := news + more;
    }

    /**
      The address of block bn of file i, allocating it and the table if they are missing.  It panics
      exactly for a block beyond the largest file, when there are too few blocks left, or when the
      log's list is full at one of its log_writes.
    */
    method Bmap(i: nat, bn: nat) returns (ok: bool, addr: nat, ghost news: set<nat>)
      requires Good() && i < |inodes| && inodes[i].kind != Free
      modifies this`bitmap, this`blocks, this`inodes, this`owner, this`logged
      ensures Good() && Changed(old(V()), V(), i, bn, news)
      ensures bn >= MAXFILE ==> !ok && unchanged(this)
      ensures Avail() + |news| == old(Avail())
      ensures ok <==>
        && bn < MAXFILE && Need(old(V()), i, bn) <= old(Avail())
        && MapRoom(old(Header()), bmapstart, old(V()), i, bn, Limit())
      ensures ok || bn >= MAXFILE || Stuck()
      ensures ok ==> addr == Data(V(), i, bn) != 0 && |news| == Need(old(V()), i, bn)
      ensures ok ==> logged == old(logged) + MapSet(bmapstart, old(V()), i, bn)
      ensures ok && Data(old(V()), i, bn) == 0 ==> addr in news
      ensures bn < MAXFILE && Data(old(V()), i, bn) != 0 ==> news == {} && unchanged(this)
    {
      if bn < NDIRECT {
        ok, addr, news := BmapDirect(i, bn);
      } else if bn < MAXFILE {
        ok, addr, news := BmapIndirect(i, bn);
      } else {
        KeptSelf(V());
        ok, addr, news := false, 0, {};
      }
    }

    // --- writing --------------------------------------------------------------------------

    /** One turn of the loop in writei, and in changesize: map a block, store, log. */
    method WriteBlock(i: nat, off: nat, src: seq<Byte>) returns (ok: bool, ghost news: set<nat>)
      requires Good() && i < |inodes| && inodes[i].kind != Free && 0 < |src| <= BSIZE - off % BSIZE && outstanding > 0
      modifies this`bitmap, this`blocks, this`inodes, this`owner, this`logged
      ensures Good()
      ensures ok <==>
        && off < MAXFILE * BSIZE && Need(old(V()), i, off / BSIZE) <= old(Avail())
        && Room(old(Header()), Before(bmapstart, old(V()), i, off, off + |src|), Limit())
      ensures ok || off >= MAXFILE * BSIZE || Stuck()
      ensures ok ==> Avail() + Need(old(V()), i, off / BSIZE) == old(Avail())
      ensures ok ==> RangeDone(old(V()), V(), i, off, src, news)
      ensures ok ==> logged == old(logged) + LogSet(bmapstart, old(V()), i, off, off + |src|)
    {
      hide Frees, Fits, AllUsed, Sound, SlotAt, RangeDone, LogSet, Before, NewCount, Need, MapSet, MapRoom, Room, Maps;
      hide WriteData, Changed, Bits;
      ghost var v, h := V(), Header();
      var bn, a := off / BSIZE, 0;
      if off < MAXFILE * BSIZE { BlockRoom(bmapstart, v, i, off, off + |src|, h, Limit()); }
      ok, a, news := Bmap(i, bn);
      if ok {
        ghost var u := V();
        AddressInside(u, owner, start, i, bn);
        ChangedShape(v, u, i, bn, news);
        CountOne(v, i, off, off + |src|);
        BlockDone(v, u, owner, start, i, off, src, news);
        blocks := blocks[a := Splice(blocks[a], off % BSIZE, src)];
        WriteDataIs(u, a, off % BSIZE, src);
        assert Header() == h + MapSet(bmapstart, v, i, bn);
        NewIsLogged(bmapstart, v, u, i, off, off + |src|, news);
        ok := LogWrite(a);
      }
    }

    /** The whole loop: src goes to the bytes from `at` on, one block at a time. */
    method WriteRange(i: nat, at: nat, src: seq<Byte>) returns (ok: bool, ghost news: set<nat>)
      requires Good() && i < |inodes| && inodes[i].kind != Free && outstanding > 0
      modifies this`bitmap, this`blocks, this`inodes, this`owner, this`logged
      ensures Good()
      ensures ok <==>
        || src == []
        || (&& at + |src| <= MAXFILE * BSIZE && NewCount(old(V()), i, at, at + |src|) <= old(Avail())
            && Room(old(Header()), Before(bmapstart, old(V()), i, at, at + |src|), Limit()))
      ensures ok || at + |src| > MAXFILE * BSIZE || Stuck()
      ensures ok ==> Avail() + NewCount(old(V()), i, at, at + |src|) == old(Avail())
      ensures ok ==> RangeDone(old(V()), V(), i, at, src, news)
      ensures ok ==> logged == old(logged) + LogSet(bmapstart, old(V()), i, at, at + |src|)
    {
      hide Frees, Fits, AllUsed, Sound, SlotAt, RangeDone, LogSet, Before, Bits, NewCount, Need, Mapped, Room;
      hide MapsUnder, Stuck, Avail;
      ghost var v, h, o := V(), Header(), owner;
      var tot, off := 0, at;
      news := {};
      RangeNone(bmapstart, v, i, at);
      MappedNone(v, i, at);
      MappedCount(v, v, i, at, at, 0);
      FitsMaps(|inodes|, size, inodestart, bmapstart, start);
      while tot < |src|
        invariant tot <= |src| && off == at + tot && (tot > 0 ==> off <= MAXFILE * BSIZE)
        invariant tot == 0 || off % BSIZE == 0 || tot == |src|
        invariant Good() && |inodes| == |v.inodes| && inodes[i].kind != Free
        invariant RangeDone(v, V(), i, at, src[..tot], news) && Avail() + NewCount(v, i, at, off) == old(Avail())
        invariant tot == 0 || at + |src| <= MAXFILE * BSIZE ==>
          logged == old(logged) + LogSet(bmapstart, v, i, at, off)
        invariant tot > 0 && at + |src| <= MAXFILE * BSIZE ==> Room(h, Before(bmapstart, v, i, at, off), Limit())
      {
        ghost var u := V();
        var m := if |src| - tot < BSIZE - off % BSIZE then |src| - tot else BSIZE - off % BSIZE;
        BlockEnd(off, m, |src| - tot);
        ghost var more, left := {}, Avail();
        if at + |src| <= MAXFILE * BSIZE {
          TurnLogs(bmapstart, v, u, o, owner, start, i, at, src, tot, m, news, h, Limit());
          Joined(base, old(logged), LogSet(bmapstart, v, i, at, off));
        }
        ok, more := WriteBlock(i, off, src[tot..tot + m]);
        if !ok {
          if off < MAXFILE * BSIZE && left < Need(u, i, off / BSIZE) {
            TurnFails(v, u, i, at, src, tot, m, news, left);
          }
          return;
        }
        InsideFile(off, m);
        CountOne(u, i, off, off + m);
        TurnDone(v, u, V(), i, at, src, tot, m, news, more);
        Joined(old(logged), LogSet(bmapstart, v, i, at, off), LogSet(bmapstart, u, i, off, off + m));
        tot, off, news := tot + m, off + m, news + more;
      }
      assert src[..tot] == src;
      ok := true;
    }

    /** Copies the inode to its block on disk. */
    method Iupdate(i: nat) returns (ok: bool)
      requires Shape() && i < |inodes| && outstanding > 0
      modifies this`dinodes, this`logged
      ensures Shape() && dinodes == old(dinodes)[i := inodes[i]] && (ok <==> |old(Header())| < Limit())
      ensures logged == if ok then old(logged) + {inodestart + i / IPB} else old(logged)
    {
      dinodes := dinodes[i := inodes[i]];
      ok := LogWrite(inodestart + i / IPB);
    }

    /**
      writei.  It fails exactly for a range that starts beyond the end of the file or ends
      beyond the largest file, and panics exactly if there are fewer free blocks than the range
      needs or the log's list is full at one of its log_writes; else it overwrites and extends, and
      writes the inode through if the file grew.
    */
    method Writei(i: nat, off: nat, src: seq<Byte>) returns (r: Outcome, ghost news: set<nat>)
      requires Good() && i < |inodes| && inodes[i].kind != Free && off < WORDS && |src| < WORDS && outstanding > 0
      modifies this
      ensures Good() && outstanding == old(outstanding) && base == old(base)
      ensures old(inodes)[i].kind == Dev ==> r == Device && unchanged(this)
      ensures
        old(inodes)[i].kind != Dev ==>
          if off > old(inodes)[i].size || off + |src| > MAXFILE * BSIZE then r == Value(-1) && unchanged(this)
          else
            var grows := off + |src| > old(inodes)[i].size;
            r == if RangeFits(old(Header()), bmapstart, old(V()), i, off, off + |src|, grows, Limit()) then Value(|src|)
                 else Panic
      ensures r == Panic ==> Stuck()
      ensures r == Value(|src|) ==> Updated(old(V()), V(), i, off, src, news) && Written(old(V()), V(), i, off, src)
      ensures r == Value(|src|) ==> Content(V(), i) == Overwrite(old(Content(V(), i)), off, src)
      ensures
        r == Value(|src|) ==>
          if off + |src| > old(inodes)[i].size then dinodes == old(dinodes)[i := inodes[i]]
          else dinodes == old(dinodes) && (inodes[i] == old(inodes)[i] <==> HasHeads(old(V()), i, off, off + |src|))
      ensures r == Value(|src|) ==>
        logged == old(logged) + LogSet(bmapstart, old(V()), i, off, off + |src|) +
                  if off + |src| > old(inodes)[i].size then {inodestart + i / IPB} else {}
      ensures r != Panic && FilesDense(old(V())) ==> FilesDense(V())
    {
      hide Frees, Fits, AllUsed, Sound, SlotAt, RangeDone, LogSet, Bits, Updated, HasHeads, Content, Overwrite;
      hide Written, NewCount, Before, Room, FilesDense;
      news := {};
      if inodes[i].kind == Dev { return Device, {}; }
      ghost var v, h := V(), Header();
      SoundSizes(v, owner, start);
      var n := |src|;
      if off > inodes[i].size || (off + n) % WORDS < off { return Value(-1), {}; }
      if (off + n) % WORDS > MAXFILE * BSIZE { return Value(-1), {}; }
      LogWhole(bmapstart, v, i, off, off + n, h, Limit());
      var ok;
      ok, news := WriteRange(i, off, src);
      if !ok { return Panic, {}; }
      ghost var w := V();
      RangeShape(v, w, i, off, src, news);
      RangeWritten(v, w, i, off, src, news);
      ghost var size := Max(v.inodes[i].size, off + n);
      UpdatedRange(v, w, owner, start, i, off, src, news, size);
      WrittenContent(v, w, SetSize(w, i, size), i, off, src);
      WrittenSame(v, w, SetSize(w, i, size), i, off, src, news);
      InodeSame(v, w, i, off, src, news);
      if n > 0 && off + n > inodes[i].size {
        inodes := inodes[i := inodes[i].(size := off + n)];
        assert V() == SetSize(w, i, size);
        Joined(base, old(logged), LogSet(bmapstart, v, i, off, off + n));
        RoomIs(h, LogSet(bmapstart, v, i, off, off + n), Limit());
        ok := Iupdate(i);
        if !ok { return Panic, {}; }
      }
      assert V() == SetSize(w, i, size);
      UpdatedDense(v, V(), i, off, src, news);
      r := Value(n);
    }

    /** changesize up to iupdate: the bytes between the two lengths are cleared, and the length is set. */
    method ZeroTo(i: nat, n: nat) returns (ok: bool, ghost news: set<nat>)
      requires Good() && i < |inodes| && inodes[i].kind == File && n < WORDS && outstanding > 0
      modifies this`bitmap, this`blocks, this`inodes, this`owner, this`logged
      ensures Good()
      ensures ok <==>
        var v := old(V());
        var off, end := ZeroedFrom(v.inodes[i].size, n), Max(v.inodes[i].size, n);
        && n <= MAXFILE * BSIZE && NewCount(v, i, off, end) <= |Frees(v.used)|
        && (off < end ==> Room(old(Header()), Before(bmapstart, v, i, off, end), Limit()))
      ensures ok ==>
        var size := old(inodes)[i].size;
        && i < |inodes| && Resized(old(V()), V(), i, n, news)
        && logged == old(logged) + LogSet(bmapstart, old(V()), i, ZeroedFrom(size, n), Max(size, n))
    {
      hide Frees, Fits, AllUsed, Sound, SlotAt, RangeDone, LogSet, Bits, Updated, Content, Resize, Filled;
      hide Written, NewCount, Before, Room, Zeroes, ZeroedFrom, Resized, Stuck, SetSize;
      ghost var v := V();
      SoundSizes(v, owner, start);
      var off, src := ZeroedFrom(inodes[i].size, n), Zeroes(inodes[i].size, n);
      ZeroedEnd(inodes[i].size, n);
      LogWhole(bmapstart, v, i, off, off + |src|, Header(), Limit());
      ok, news := WriteRange(i, off, src);
      if ok {
        ghost var w := V();
        ResizeDone(v, w, owner, start, i, n, news);
        SetSizeIs(w, i, n);
        inodes := inodes[i := inodes[i].(size := n)];
        assert V() == SetSize(w, i, n);
      }
    }

    /** changesize: truncates or extends with zeros, and always writes the inode through. */
    method ChangeSize(i: nat, n: nat) returns (r: Outcome, ghost news: set<nat>)
      requires Good() && i < |inodes| && inodes[i].kind != Free && n < WORDS && outstanding > 0
      modifies this
      ensures Good() && outstanding == old(outstanding) && base == old(base)
      ensures old(inodes)[i].kind != File ==> r == Value(-1) && unchanged(this)
      ensures old(inodes)[i].kind == File && n > MAXFILE * BSIZE ==> r == Panic
      ensures old(inodes)[i].kind == File && n <= MAXFILE * BSIZE ==>
        var size := old(inodes)[i].size;
        var end := Max(size, n);
        r == if RangeFits(old(Header()), bmapstart, old(V()), i, ZeroedFrom(size, n), end, true, Limit()) then Value(n)
             else Panic
      ensures r == Value(n) ==>
        var size := old(inodes)[i].size;
        && Resized(old(V()), V(), i, n, news)
        && dinodes == old(dinodes)[i := inodes[i]]
        && logged == old(logged) + LogSet(bmapstart, old(V()), i, ZeroedFrom(size, n), Max(size, n)) +
                     {inodestart + i / IPB}
      ensures r != Panic && FilesDense(old(V())) ==> FilesDense(V())
    {
      hide Frees, Fits, Sound, LogSet, Bits, NewCount, Before, Room, ZeroedFrom, Resized, FilesDense;
      news := {};
      if inodes[i].kind != File { return Value(-1), {}; }
      ghost var v, h := V(), Header();
      SoundSizes(v, owner, start);
      var ok;
      ok, news := ZeroTo(i, n);
      if !ok { return Panic, {}; }
      ResizedDense(v, V(), i, n, news);
      ghost var off, end := ZeroedFrom(v.inodes[i].size, n), Max(v.inodes[i].size, n);
      LogWhole(bmapstart, v, i, off, end, h, Limit());
      Joined(base, old(logged), LogSet(bmapstart, v, i, off, end));
      RoomIs(h, LogSet(bmapstart, v, i, off, end), Limit());
      ok := Iupdate(i);
      r := if ok then Value(n) else Panic;
    }

    // --- reading --------------------------------------------------------------------------

    /** One turn of readi's loop: m bytes of the block at off, which is mapped if need be. */
    method ReadBlock(i: nat, off: nat, m: nat) returns (ok: bool, bytes: seq<Byte>, ghost news: set<nat>)
      requires Good() && i < |inodes| && inodes[i].kind != Free && 0 < m <= BSIZE - off % BSIZE
      requires off + m <= inodes[i].size <= MAXFILE * BSIZE
      modifies this`bitmap, this`blocks, this`inodes, this`owner, this`logged
      ensures Good() && Changed(old(V()), V(), i, off / BSIZE, news) && Avail() + |news| == old(Avail())
      ensures ok <==>
        && Need(old(V()), i, off / BSIZE) <= old(Avail())
        && MapRoom(old(Header()), bmapstart, old(V()), i, off / BSIZE, Limit())
      ensures ok || Stuck()
      ensures ok ==> |news| == Need(old(V()), i, off / BSIZE) && Data(V(), i, off / BSIZE) != 0
      ensures ok ==> logged == old(logged) + MapSet(bmapstart, old(V()), i, off / BSIZE)
      ensures ok ==> bytes == old(Content(V(), i))[off..off + m]
      ensures Data(old(V()), i, off / BSIZE) != 0 ==> ok && unchanged(this)
    {
      hide Frees, Fits, AllUsed, Sound, SlotAt, Bits, Kept, Content, Cell, Changed, Need, Marked, MapSet, MapRoom;
      ghost var v := V();
      bytes := [];
      if Data(v, i, off / BSIZE) != 0 { MapFree(Header(), bmapstart, v, i, off / BSIZE, Limit()); }
      var a;
      ok, a, news := Bmap(i, off / BSIZE);
      if ok {
        AddressInside(V(), owner, start, i, off / BSIZE);
        ChangedBytes(v, V(), i, off, m, news);
        bytes := blocks[a][off % BSIZE..off % BSIZE + m];
      }
    }

    /**
      The same after the blocks from `at` to off have been read with what was there at the start: volume v,
      owners o, header h and log l, of which `got` has been taken since.
    */
    method ReadNext(i: nat, at: nat, off: nat, m: nat, ghost v: Volume, ghost o: map<nat, Place>, ghost h: set<nat>,
                    ghost l: set<nat>, ghost got: set<nat>)
      returns (ok: bool, bytes: seq<Byte>, ghost more: set<nat>)
      requires Good() && i < |inodes| == |v.inodes| && inodes[i].kind != Free && Sound(v, o, start)
      requires at <= off && 0 < m <= BSIZE - off % BSIZE && off + m <= v.inodes[i].size <= MAXFILE * BSIZE
      requires off == at || off % BSIZE == 0
      requires Taken(v, V(), i, at, off, got) && SameFile(v.inodes[i], inodes[i])
      requires h == base + l && logged == l + AllocSet(bmapstart, v, i, at, off)
      requires ReadRoom(h, bmapstart, v, i, at, off, Limit())
      modifies this`bitmap, this`blocks, this`inodes, this`owner, this`logged
      ensures Good() && Kept(v, V()) && OthersSame(v.inodes, inodes, i) && OtherSlots(v, V(), i)
      ensures |inodes| == |v.inodes| && SameFile(v.inodes[i], inodes[i])
      ensures ok <==>
        && NewCount(v, i, at, off + m) <= old(Avail()) + |got|
        && ReadRoom(h, bmapstart, v, i, at, off + m, Limit())
      ensures ok || Stuck()
      ensures ok ==> Taken(v, V(), i, at, off + m, more) && Avail() + |more| == old(Avail()) + |got|
      ensures ok ==> logged == l + AllocSet(bmapstart, v, i, at, off + m) && bytes == Content(v, i)[off..off + m]
      ensures Data(v, i, off / BSIZE) != 0 && old(V()) == v ==> ok && unchanged(this)
    {
      hide Frees, Fits, AllUsed, Sound, SlotAt, Bits, Kept, Content, Cell, Changed, NewCount, Stuck, Avail;
      hide AllocSet, MapSet, MapRoom, ReadRoom, Need, Taken, OthersSame, OtherSlots;
      ghost var u, news := V(), {};
      ReadTurn(bmapstart, v, u, o, owner, start, i, at, off, off + m, got, h, Limit());
      ReadCount(v, u, i, at, off, off + m, got);
      Joined(base, l, AllocSet(bmapstart, v, i, at, off));
      TakenContent(v, u, i, at, off, got);
      ok, bytes, news := ReadBlock(i, off, m);
      TakenChanged(v, u, V(), i, at, off, got, news);
      more := got + news;
      if ok {
        TakenMore(v, u, V(), i, at, off, off + m, got, news);
        Joined(l, AllocSet(bmapstart, v, i, at, off), MapSet(bmapstart, u, i, off / BSIZE));
      }
    }

    /** readi's loop. */
    method ReadRange(i: nat, at: nat, n: nat) returns (ok: bool, dst: seq<Byte>, ghost got: set<nat>)
      requires Good() && i < |inodes| && inodes[i].kind != Free && at + n <= inodes[i].size <= MAXFILE * BSIZE
      modifies this`bitmap, this`blocks, this`inodes, this`owner, this`logged
      ensures Good() && Kept(old(V()), V()) && OthersSame(old(inodes), inodes, i) && OtherSlots(old(V()), V(), i)
      ensures ok <==>
        && NewCount(old(V()), i, at, at + n) <= old(Avail())
        && ReadRoom(old(Header()), bmapstart, old(V()), i, at, at + n, Limit())
      ensures ok || Stuck()
      ensures ok ==> dst == old(Content(V(), i))[at..at + n] && Avail() + |got| == old(Avail())
      ensures ok ==> Taken(old(V()), V(), i, at, at + n, got)
      ensures ok ==> logged == old(logged) + AllocSet(bmapstart, old(V()), i, at, at + n)
      ensures Filled(old(V()), i, at, at + n) ==> ok && unchanged(this)
    {
      hide Frees, Fits, AllUsed, Sound, SlotAt, Bits, Kept, Content, NewCount, Filled, Stuck, Avail;
      hide AllocSet, ReadRoom, Taken, OthersSame, OtherSlots;
      dst := [];
      ghost var v, h, o := V(), Header(), owner;
      var tot, off := 0, at;
      got := {};
      ReadNone(bmapstart, v, i, at, h, Limit());
      while tot < n
        invariant tot <= n && off == at + tot && off <= v.inodes[i].size
        invariant tot == 0 || off % BSIZE == 0 || tot == n
        invariant Good() && Taken(v, V(), i, at, off, got) && Avail() + |got| == old(Avail())
        invariant |inodes| == |v.inodes| && SameFile(v.inodes[i], inodes[i])
        invariant logged == old(logged) + AllocSet(bmapstart, v, i, at, off)
        invariant ReadRoom(h, bmapstart, v, i, at, off, Limit())
        invariant dst == Content(v, i)[at..off]
        invariant Filled(v, i, at, at + n) ==> unchanged(this)
      {
        var bytes;
        var m := if n - tot < BSIZE - off % BSIZE then n - tot else BSIZE - off % BSIZE;
        BlockEnd(off, m, n - tot);
        ghost var more;
        FilledHas(v, i, at, off, at + n);
        ok, bytes, more := ReadNext(i, at, off, m, v, o, h, old(logged), got);
        if !ok {
          ReadFails(v, i, at, off + m, at + n, old(Avail()), h, bmapstart, Limit());
          return false, [], {};
        }
        Pieces(Content(v, i), at, off, off + m);
        dst := dst + bytes;
        tot, off, got := tot + m, off + m, more;
      }
      TakenAll(v, V(), i, at, off, got);
      ok := true;
    }

    /**
      readi.  The bytes are those of the contents, clipped at the end of the file.  A hole is
      given a zeroed block on the way, which no reader can see; a file without holes is read
      without any change.  It panics exactly if the holes in the range need more blocks than there
      are, any at all when no operation is under way, or the log's list is full at one of their
      log_writes.
    */
    method Readi(i: nat, at: nat, count: nat) returns (r: Outcome, dst: seq<Byte>, ghost got: set<nat>)
      requires Good() && i < |inodes| && inodes[i].kind != Free && at < WORDS && count < WORDS
      modifies this`bitmap, this`blocks, this`inodes, this`owner, this`logged
      ensures Good() && Kept(old(V()), V()) && OthersKept(old(V()), V(), i)
      ensures old(inodes)[i].kind == Dev ==> r == Device && unchanged(this)
      ensures
        old(inodes)[i].kind != Dev ==>
          if at > old(inodes)[i].size || at + count >= WORDS then r == Value(-1) && unchanged(this)
          else
            var c := old(Content(V(), i));
            var end := if at + count < |c| then at + count else |c|;
            if NewCount(old(V()), i, at, end) <= old(Avail())
               && ReadRoom(old(Header()), bmapstart, old(V()), i, at, end, Limit())
            then
              && r == Value(|dst|) && dst == c[at..end] && Avail() + |got| == old(Avail())
              && Taken(old(V()), V(), i, at, end, got)
              && logged == old(logged) + AllocSet(bmapstart, old(V()), i, at, end)
            else r == Panic && Stuck()
      ensures
        var size := old(inodes)[i].size;
        Filled(old(V()), i, at, if at + count < size then at + count else size) ==> r != Panic && unchanged(this)
      ensures Dense(old(V()), i) ==> r != Panic && unchanged(this)
      ensures r != Panic && FilesDense(old(V())) ==> FilesDense(V())
    {
      hide Frees, Fits, AllUsed, Sound, SlotAt, Bits, Kept, Content, NewCount, Dense, ReadRoom, FilesDense, SlotsKept;
      hide Filled, OtherSlots, OthersKept, Taken, AllocSet;
      ghost var v := V();
      got := {};
      KeptSelf(v);
      OthersSelf(v, i);
      SoundSizes(v, owner, start);
      if inodes[i].kind == Dev { return Device, [], {}; }
      if at > inodes[i].size || (at + count) % WORDS < at { return Value(-1), [], {}; }
      var n := if at + count > inodes[i].size then inodes[i].size - at else count;
      ContentLength(v, i);
      DenseFilled(v, i, at, at + n);
      var ok;
      ok, dst, got := ReadRange(i, at, n);
      KeptOthers(v, V(), i);
      if ok {
        TakenAll(v, V(), i, at, at + n, got);
        if FilesDense(v) { SlotsDense(v, V()); }
      }
      r := if ok then Value(n) else Panic;
    }

    // --- freeing --------------------------------------------------------------------------

    /** bfree; ok is false where the kernel panics: on a block that is already free, or in log_write. */
    method Bfree(b: nat) returns (ok: bool)
      requires Shape() && b < size
      modifies this`bitmap, this`logged
      ensures Shape() && (ok <==> old(V()).used[b] && |old(Header())| < Limit() && outstanding > 0)
      ensures !ok ==> unchanged(this)
      ensures ok ==> V() == old(V()).(used := old(V()).used[b := false])
      ensures ok ==> logged == old(logged) + {bmapstart + b / BPB}
    {
      ok := Bit(bitmap, b);
      if ok {
        BitsClear(bitmap, size, b);
        SetLength(bitmap, b);
        ok := LogWrite(bmapstart + b / BPB);
        if ok {
          bitmap := ClearBit(bitmap, b);
        }
      }
    }

    /** One turn of itrunc's first loop: never a free block. */
    method FreeSlot(i: nat, j: nat) returns (ok: bool)
      requires Good() && i < |inodes| && inodes[i].kind != Free && j < TABLE && outstanding > 0
      modifies this`bitmap, this`inodes, this`owner, this`logged
      ensures Good() && OthersKept(old(V()), V(), i) && OwnersKept(old(owner), owner, i)
      ensures inodes == if ok then old(inodes)[i := old(inodes)[i].(addrs := old(inodes)[i].addrs[j := 0])]
                        else old(inodes)
      ensures logged == old(logged) + Maps(bmapstart, old(owner).Keys - owner.Keys)
      ensures !ok ==> |Header()| >= Limit()
    {
      hide Frees, Fits, AllUsed, Sound, SlotAt, Bits, FreeDirect, SlotsChanged, Maps;
      ghost var v, o := V(), owner;
      var b := inodes[i].addrs[j];
      SlotIsAddr(v, i, j);
      OthersSelf(v, i);
      NoneGone(bmapstart, owner);
      ok := true;
      if b != 0 {
        FreeDirectSlots(v, owner, start, i, j);
        SlotInside(v, owner, start, Place(i, j));
        FreeDirectIs(v, i, j);
        FreeOthers(v, FreeDirect(v, i, j), owner, start, Place(i, j), 0);
        OneGone(bmapstart, owner, b);
        ok := Bfree(b);
        if ok {
          inodes := inodes[i := inodes[i].(addrs := inodes[i].addrs[j := 0])];
          owner := owner - {b};
          assert V() == FreeDirect(v, i, j);
        }
      } else {
        assert inodes[i].addrs[j := 0] == inodes[i].addrs;
        assert inodes[i := inodes[i]] == inodes;
      }
    }

    /** The first half of itrunc: the direct blocks. */
    method FreeSlots(i: nat) returns (ok: bool)
      requires Good() && i < |inodes| && inodes[i].kind != Free && outstanding > 0
      modifies this`bitmap, this`inodes, this`owner, this`logged
      ensures Good() && OthersKept(old(V()), V(), i) && OwnersKept(old(owner), owner, i)
      ensures |inodes| == |old(inodes)| && inodes[i] == old(inodes)[i].(addrs := inodes[i].addrs)
      ensures ok ==> forall k | 0 <= k < NDIRECT :: inodes[i].addrs[k] == 0
      ensures logged == old(logged) + Maps(bmapstart, old(owner).Keys - owner.Keys)
      ensures !ok ==> |Header()| >= Limit()
    {
      hide Frees, Fits, AllUsed, Sound, SlotAt, Bits, OthersKept, OwnersKept, Maps;
      ghost var v := V();
      OthersSelf(v, i);
      OwnersSelf(owner, i);
      NoneGone(bmapstart, owner);
      for j := 0 to NDIRECT
        invariant Good() && OthersKept(v, V(), i) && OwnersKept(old(owner), owner, i)
        invariant |inodes| == |v.inodes| && inodes[i] == v.inodes[i].(addrs := inodes[i].addrs)
        invariant forall k | 0 <= k < j :: inodes[i].addrs[k] == 0
        invariant logged == old(logged) + Maps(bmapstart, old(owner).Keys - owner.Keys)
      {
        ghost var u, o, l := V(), owner, logged;
        ok := FreeSlot(i, j);
        OthersMore(v, u, V(), i);
        OwnersMore(old(owner), o, owner, i);
        GoneMore(bmapstart, old(owner), o, owner, i, old(logged), l, logged);
        if !ok { return; }
      }
      ok := true;
    }

    /**
      One turn of itrunc's loop over the table.  The freed entry stays in the table until the
      table goes; z is the volume with the entries freed so far cleared.
    */
    method FreeTableEntry(i: nat, e: nat, a: Block, ghost z: Volume) returns (ok: bool, ghost z1: Volume)
      requires Shape() && i < |inodes| && inodes[i].kind != Free && e < NINDIRECT && inodes[i].addrs[TABLE] != 0
      requires Shadow(V(), z, inodes[i].addrs[TABLE]) && Sound(z, owner, start) && Cleared(z, i, e, a)
      requires outstanding > 0
      modifies this`bitmap, this`owner, this`logged
      ensures Shape() && OwnersKept(old(owner), owner, i)
      ensures
        ok ==>
          && Shadow(V(), z1, inodes[i].addrs[TABLE]) && Sound(z1, owner, start) && Cleared(z1, i, e + 1, a)
          && OthersKept(z, z1, i)
      ensures logged == old(logged) + Maps(bmapstart, old(owner).Keys - owner.Keys)
      ensures !ok ==> |Header()| >= Limit()
    {
      hide Frees, Fits, AllUsed, Sound, SlotAt, Bits, FreeEntry, SlotsChanged, Word, OthersKept, Cleared, Maps;
      z1 := z;
      OthersSelf(z, i);
      NoneGone(bmapstart, owner);
      var b := Word(a, e);
      EntryFree(z, owner, start, i, e, a);
      ok := true;
      if b != 0 {
        OneGone(bmapstart, owner, b);
        ok := Bfree(b);
        if ok {
          z1 := FreeEntry(z, i, e);
          owner := owner - {b};
        }
      }
    }

    /** The second half of itrunc: the blocks in the table, then the table. */
    method FreeTable(i: nat) returns (ok: bool)
      requires Good() && i < |inodes| && inodes[i].kind != Free && inodes[i].addrs[TABLE] != 0 && outstanding > 0
      modifies this`bitmap, this`inodes, this`owner, this`logged
      ensures Shape() && OwnersKept(old(owner), owner, i)
      ensures
        ok ==>
          && Good() && OthersKept(old(V()), V(), i)
          && inodes == old(inodes)[i := old(inodes)[i].(addrs := old(inodes)[i].addrs[TABLE := 0])]
      ensures logged == old(logged) + Maps(bmapstart, old(owner).Keys - owner.Keys)
      ensures !ok ==> |Header()| >= Limit()
    {
      hide Frees, Fits, AllUsed, Sound, SlotAt, Bits, FreeDirect, SlotsChanged, Word, OthersKept, Cleared, Maps;
      hide OwnersKept;
      ghost var v := V();
      var t := inodes[i].addrs[TABLE];
      TableEntry(v, owner, start, i, 0);
      var a := blocks[t];
      ghost var z := v;
      OthersSelf(v, i);
      OwnersSelf(owner, i);
      NoneGone(bmapstart, owner);
      ClearedNone(v, owner, start, i);
      for e := 0 to NINDIRECT
        invariant Shape() && inodes == v.inodes
        invariant Shadow(V(), z, t) && Sound(z, owner, start) && Cleared(z, i, e, a)
        invariant OthersKept(v, z, i) && OwnersKept(old(owner), owner, i)
        invariant logged == old(logged) + Maps(bmapstart, old(owner).Keys - owner.Keys)
      {
        ghost var z1, o, l := z, owner, logged;
        ok, z1 := FreeTableEntry(i, e, a, z);
        OwnersMore(old(owner), o, owner, i);
        GoneMore(bmapstart, old(owner), o, owner, i, old(logged), l, logged);
        if !ok { return; }
        OthersMore(v, z, z1, i);
        z := z1;
      }
      TableFree(z, owner, start, i, a);
      ghost var o, l := owner, logged;
      OneGone(bmapstart, owner, t);
      OwnersLess(owner, t, i);
      ok := Bfree(t);
      if !ok { return; }
      inodes := inodes[i := inodes[i].(addrs := inodes[i].addrs[TABLE := 0])];
      owner := owner - {t};
      OwnersMore(old(owner), o, owner, i);
      GoneMore(bmapstart, old(owner), o, owner, i, old(logged), l, logged);
      ghost var y := FreeDirect(z, i, TABLE);
      TableGone(y, owner, start, i, t, a);
      OthersMore(v, z, y, i);
      OthersMore(v, y, SetBlock(y, t, a), i);
      assert V() == SetBlock(y, t, a);
    }

    /**
      itrunc: the file ends up empty, and its blocks, no others, are free.  It logs their blocks of the
      free map and the inode's, and panics exactly if the log's list is full at one of these.
    */
    method Itrunc(i: nat) returns (ok: bool)
      requires Good() && i < |inodes| && inodes[i].kind != Free && outstanding > 0
      modifies this`bitmap, this`inodes, this`dinodes, this`owner, this`logged
      ensures Shape() && (ok <==> Room(old(Header()), Maps(bmapstart, Owned(old(owner), i)), Limit()))
      ensures
        ok ==>
          && Good() && OthersKept(old(V()), V(), i) && owner == OthersOf(old(owner), i)
          && Emptied(old(inodes)[i], inodes[i]) && dinodes == old(dinodes)[i := inodes[i]]
          && logged == old(logged) + Maps(bmapstart, Owned(old(owner), i)) + {inodestart + i / IPB}
    {
      hide Frees, Fits, AllUsed, Sound, SlotAt, Bits, OthersKept, OwnersKept, OthersOf, Maps, Owned, Room;
      ghost var v, h := V(), Header();
      ok := FreeSlots(i);
      if ok && inodes[i].addrs[TABLE] != 0 {
        ghost var u, o, l := V(), owner, logged;
        ok := FreeTable(i);
        OwnersMore(old(owner), o, owner, i);
        GoneMore(bmapstart, old(owner), o, owner, i, old(logged), l, logged);
        if ok { OthersMore(v, u, V(), i); }
      }
      if !ok {
        GoneStuck(bmapstart, old(owner), owner, i, base, old(logged), Limit());
        return;
      }
      ghost var w := V();
      SetSizeKeeps(w, owner, start, i, 0);
      inodes := inodes[i := inodes[i].(size := 0)];
      assert V() == SetSize(w, i, 0);
      OthersSized(w, owner, start, i);
      OthersMore(v, w, V(), i);
      AllGone(V(), old(owner), owner, start, i);
      OwnedGone(old(owner), i);
      Joined(base, old(logged), Maps(bmapstart, Owned(old(owner), i)));
      RoomIs(h, Maps(bmapstart, Owned(old(owner), i)), Limit());
      ok := Iupdate(i);
    }

    /** iput's part for a file that goes: itrunc, and the inode marked free. */
    method FreeInode(i: nat) returns (ok: bool)
      requires Good() && i < |inodes| && inodes[i].kind != Free && outstanding > 0
      modifies this`bitmap, this`inodes, this`dinodes, this`owner, this`logged
      ensures Shape() && |inodes| == |old(inodes)|
      ensures ok <==> Room(old(Header()), Maps(bmapstart, Owned(old(owner), i)) + {inodestart + i / IPB}, Limit())
      ensures
        ok ==>
          && Good() && OthersKept(old(V()), V(), i) && owner == OthersOf(old(owner), i)
          && inodes[i] == Inode(Free, old(inodes)[i].nlink, 0, seq(NDIRECT + 1, _ => 0))
          && dinodes == old(dinodes)[i := inodes[i]]
          && logged == old(logged) + (Maps(bmapstart, Owned(old(owner), i)) + {inodestart + i / IPB})
    {
      hide Frees, Fits, AllUsed, Sound, SlotAt, Bits, OthersKept, OthersOf, Maps, Owned, Room;
      ghost var v, h := V(), Header();
      ghost var m, b := Maps(bmapstart, Owned(owner, i)), {inodestart + i / IPB};
      RoomParts(h, m, b, Limit());
      RoomIs(h, m + b, Limit());
      ok := Itrunc(i);
      if !ok { return; }
      Joined(old(logged), m, b);
      Joined(base, old(logged), m + b);
      ghost var w := V();
      FreeKind(w, owner, start, i);
      inodes := inodes[i := inodes[i].(kind := Free)];
      assert V() == w.(inodes := inodes);
      OthersMore(v, w, V(), i);
      Again(old(logged), m, b, b);
      ok := Iupdate(i);
    }

    /** The last reference to a file without links. */
    predicate LastUse(i: nat)
      requires i < |inodes| && i < |valid| && i < |refs|
      reads this
    {
      valid[i] && inodes[i].nlink == 0 && refs[i] == 1
    }

    /**
      iput: the last reference to a file without links frees the file, and only then.  ok is false where
      the kernel panics: the log's list is full by the time the freed inode is written.
    */
    method Iput(i: nat) returns (ok: bool)
      requires Good() && i < |inodes| && refs[i] >= 1 && (valid[i] ==> inodes[i].kind != Free) && outstanding > 0
      modifies this
      ensures Shape() && outstanding == old(outstanding) && base == old(base)
      ensures ok <==>
        || !old(LastUse(i))
        || Room(old(Header()), Maps(bmapstart, Owned(old(owner), i)) + {inodestart + i / IPB}, Limit())
      ensures ok ==> Good() && refs == old(refs)[i := old(refs)[i] - 1]
      ensures
        ok ==>
          if old(LastUse(i)) then
            && OthersKept(old(V()), V(), i) && owner == OthersOf(old(owner), i)
            && inodes[i] == Inode(Free, 0, 0, seq(NDIRECT + 1, _ => 0))
            && dinodes == old(dinodes)[i := inodes[i]] && valid == old(valid)[i := false]
            && logged == old(logged) + (Maps(bmapstart, Owned(old(owner), i)) + {inodestart + i / IPB})
          else
            && V() == old(V()) && owner == old(owner) && dinodes == old(dinodes) && valid == old(valid)
            && logged == old(logged)
      ensures ok && FilesDense(old(V())) ==> FilesDense(V())
    {
      hide Frees, Fits, AllUsed, Sound, SlotAt, Bits, OthersKept, OthersOf, Maps, Owned, Room, FilesDense;
      ghost var v := V();
      ok := true;
      if valid[i] && inodes[i].nlink == 0 && refs[i] == 1 {
        ok := FreeInode(i);
        if !ok { return; }
        FreedDense(v, V(), i);
        valid := valid[i := false];
      }
      refs := refs[i := refs[i] - 1];
    }
  }
}
