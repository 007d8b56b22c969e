/** Open files on inodes (file.c): reads, writes in chunks, and the new size call. */
module FileOps {
  import opened Params
  import opened FsVolume
  import opened FsSteps
  import opened FsBitmap
  import opened FsRanges
  import opened FsContent
  import opened FsLogging
  import opened FsChunks
  import opened Fs

  function One(n: nat): (s: seq<nat>)
    ensures s == [n]
  {
    [n]
  }

  class OpenFile {
    const fs: FileSystem
    const ip: nat
    const readable: bool
    const writable: bool
    var off: nat

    constructor (fs: FileSystem, ip: nat, readable: bool, writable: bool)
      ensures this.fs == fs && this.ip == ip && this.readable == readable && this.writable == writable && off == 0
    {
      this.fs, this.ip, this.readable, this.writable := fs, ip, readable, writable;
      off := 0;
    }

    ghost predicate Ready()
      reads this, fs
    {
      fs.Good() && ip < |fs.inodes| && fs.inodes[ip].kind != Free && off < WORDS
    }

    /**
      fileread: the bytes from the offset on, which moves past them.  It begins no operation, so a hole
      makes the kernel panic unless another process has one under way.
    */
    method Read(n: nat) returns (r: Outcome, dst: seq<Byte>)
      requires Ready() && n < WORDS
      modifies this`off, fs
      ensures fs.Good()
      ensures !readable ==> r == Value(-1) && unchanged(this) && unchanged(fs)
      ensures
        readable && old(fs.inodes)[ip].kind != Dev ==>
          if old(off) > old(fs.inodes)[ip].size || old(off) + n >= WORDS then r == Value(-1) && off == old(off)
          else
            var c, at := old(Content(fs.V(), ip)), old(off);
            var end := if at + n < |c| then at + n else |c|;
            if NewCount(old(fs.V()), ip, at, end) <= old(fs.Avail())
               && ReadRoom(old(fs.Header()), fs.bmapstart, old(fs.V()), ip, at, end, fs.Limit())
            then
              r == Value(|dst|) && off == at + |dst| && dst == c[at..end]
            else r == Panic
      ensures readable && old(fs.inodes)[ip].kind != Dev && Dense(old(fs.V()), ip) ==> r != Panic && unchanged(fs)
      ensures r == Panic ==> off == old(off)
      ensures r != Panic && FilesDense(old(fs.V())) ==> FilesDense(fs.V())
    {
      hide FilesDense, Dense, NewCount, ReadRoom, Content, Sound, Taken, AllocSet;
      if !readable { return Value(-1), []; }
      ghost var got;
      r, dst, got := fs.Readi(ip, off, n);
      if r.Value? && r.n > 0 {
        off := off + r.n;
      }
    }

    /** begin_op, writei, end_op: one operation of filewrite, but for the offset. */
    method WriteOp(src: seq<Byte>) returns (r: Outcome)
      requires Ready() && fs.inodes[ip].kind != Dev && 0 < |src| <= CHUNK
      modifies fs
      ensures fs.Good()
      ensures
        if off > old(fs.inodes)[ip].size || off + |src| > MAXFILE * BSIZE then
          r == Value(-1) && fs.V() == old(fs.V()) && fs.dinodes == old(fs.dinodes)
        else
          var grows := off + |src| > old(fs.inodes)[ip].size;
          var end := off + |src|;
          r == if RangeFits(old(fs.Listed()), fs.bmapstart, old(fs.V()), ip, off, end, grows, fs.Limit()) then
                 Value(|src|) else Panic
      ensures r != Panic ==> fs.outstanding == old(fs.outstanding)
      ensures r == Value(|src|) ==> Ready() && off + |src| <= MAXFILE * BSIZE
      ensures r == Value(|src|) ==>
        |fs.logged| == LogCount(old(fs.V()), fs.bmapstart, ip, off, off + |src|)
          + if off + |src| > old(fs.inodes)[ip].size then 1 else 0
      ensures r == Value(|src|) ==>
        fs.Listed() == ListAfter(fs.outstanding == 0, old(fs.Listed()), fs.inodestart + ip / IPB, fs.bmapstart,
                                 old(fs.V()), ip, off, off + |src|)
      ensures r == Value(|src|) ==>
        Advanced(old(fs.V()), old(fs.dinodes)[ip], fs.V(), fs.dinodes[ip], ip, off, src, One(|fs.logged|))
      ensures r != Panic && FilesDense(old(fs.V())) ==> FilesDense(fs.V())
    {
      hide Frees, Fits, Sound, SlotAt, LogSet, Updated, HasHeads, Content, Overwrite, Dense, OthersKept, NewCount;
      hide LogCount, Advanced, Took, FilesDense, RangeFits, Bits, Written, ListAfter;
      ghost var v, o, disk := fs.V(), fs.owner, fs.dinodes[ip];
      SoundSizes(v, fs.owner, fs.start);
      fs.BeginOp();
      assert fs.Header() == old(fs.Listed());
      ghost var news;
      r, news := fs.Writei(ip, off, src);
      if r.Value? && r.n > 0 {
        ghost var w := fs.V();
        SoundSizes(w, fs.owner, fs.start);
        UpdatedShape(v, w, ip, off, src, news);
        assert fs.logged == LogSet(fs.bmapstart, v, ip, off, off + |src|) +
          (if off + |src| > v.inodes[ip].size then {fs.inodestart + ip / IPB} else {});
        ChunkDone(v, w, o, fs.inodestart, fs.bmapstart, fs.start, ip, off, src, news, fs.logged, disk, fs.dinodes[ip],
                  old(fs.Listed()), off + |src| > v.inodes[ip].size, fs.Limit());
        AdvancedParts(v, disk, w, fs.dinodes[ip], ip, off, src, One(|fs.logged|));
        ListAfterIs(fs.outstanding == 1, fs.base, fs.inodestart + ip / IPB, fs.bmapstart, v, ip, off, off + |src|,
                    fs.logged);
      }
      if r != Panic { fs.EndOp(); }
    }

    /**
      One operation of filewrite: begin_op, writei, end_op.  The number of blocks it logs is exact for
      every file, and at most MAXOPBLOCKS for a file without holes.  It panics exactly if it needs more
      blocks than are free or log_write finds the list full, which it does not if no other operation is
      under way and the list takes MAXOPBLOCKS blocks.
    */
    method WriteChunk(src: seq<Byte>) returns (r: Outcome)
      requires Ready() && fs.inodes[ip].kind != Dev && 0 < |src| <= CHUNK
      modifies this`off, fs
      ensures fs.Good()
      ensures
        if old(off) > old(fs.inodes)[ip].size || old(off) + |src| > MAXFILE * BSIZE then
          r == Value(-1) && off == old(off) && fs.V() == old(fs.V()) && fs.dinodes == old(fs.dinodes)
        else
          var grows := old(off) + |src| > old(fs.inodes)[ip].size;
          var end := old(off) + |src|;
          r == if RangeFits(old(fs.Listed()), fs.bmapstart, old(fs.V()), ip, old(off), end, grows, fs.Limit()) then
                 Value(|src|) else Panic
      ensures r == Panic && old(fs.outstanding) == 0 && fs.Limit() > MAXOPBLOCKS ==>
        NewCount(old(fs.V()), ip, old(off), old(off) + |src|) > |Frees(old(fs.V()).used)|
      ensures r != Panic ==> fs.outstanding == old(fs.outstanding)
      ensures r == Value(|src|) ==> Ready() && off == old(off) + |src|
      ensures r == Value(|src|) ==>
        |fs.logged| == LogCount(old(fs.V()), fs.bmapstart, ip, old(off), off)
          + if off > old(fs.inodes)[ip].size then 1 else 0
      ensures r == Value(|src|) ==>
        fs.Listed() == ListAfter(fs.outstanding == 0, old(fs.Listed()), fs.inodestart + ip / IPB, fs.bmapstart,
                                 old(fs.V()), ip, old(off), old(off) + |src|)
      ensures r == Value(|src|) ==>
        Advanced(old(fs.V()), old(fs.dinodes)[ip], fs.V(), fs.dinodes[ip], ip, old(off), src, One(|fs.logged|))
      ensures r != Panic && FilesDense(old(fs.V())) ==> FilesDense(fs.V())
    {
      hide Frees, Fits, Sound, RangeFits, LogCount, Advanced, FilesDense, NewCount, ListAfter, LogSet;
      if off + |src| <= MAXFILE * BSIZE && fs.Limit() > MAXOPBLOCKS {
        ChunkFits(fs.V(), fs.owner, fs.inodestart, fs.bmapstart, fs.start, ip, off, off + |src|,
                  off + |src| > fs.inodes[ip].size, fs.Limit());
      }
      r := WriteOp(src);
      if r.Value? && r.n > 0 {
        off := off + r.n;
      }
    }

    /** One of the chunks of a write of n bytes finds too few free blocks, or the log's list full. */
    ghost predicate Stops(n: nat)
      requires Ready()
      reads this, fs
    {
      && off <= fs.inodes[ip].size
      && !ChunksFit(fs.outstanding == 0, fs.Listed(), fs.inodestart + ip / IPB, fs.bmapstart, fs.V(), ip, off, 0, n,
                    fs.Limit())
    }

    /**
      There are free blocks for n bytes from the offset and, unless no other operation is under way,
      room in the log's list for every block they touch and the inode's.
    */
    ghost predicate Ample(n: nat)
      requires Ready()
      reads this, fs
    {
      && NewCount(fs.V(), ip, off, off + n) <= |Frees(fs.V().used)|
      && (|| (fs.outstanding == 0 && fs.Limit() > MAXOPBLOCKS)
          || Room(fs.Listed(), LogSet(fs.bmapstart, fs.V(), ip, off, off + n) + {fs.inodestart + ip / IPB}, fs.Limit()))
    }

    /**
      filewrite.  `done` bytes are written, in order: all of them exactly if the range starts
      inside the file and ends below the largest size, else the chunks before the one that
      does not fit.  It panics exactly if one of these does not go through, and so never if there are blocks
      for the range and, with other operations under way, room in the log for what it logs and the inode.
      `ops` says how many blocks each operation logged.
    */
    method Write(src: seq<Byte>) returns (r: Outcome, ghost done: nat, ghost ops: seq<nat>)
      requires Ready() && |src| < WORDS / 2
      modifies this`off, fs
      ensures fs.Good() && (r != Panic ==> ip < |fs.inodes|)
      ensures !writable ==> r == Value(-1) && unchanged(this) && unchanged(fs)
      ensures writable && old(fs.inodes)[ip].kind == Dev && src != [] ==>
        r == Device && unchanged(this) && unchanged(fs)
      ensures
        writable && old(fs.inodes)[ip].kind != Dev && (old(fs.outstanding) > 0 || fs.Limit() > MAXOPBLOCKS) ==>
          (r == Panic <==> old(Stops(|src|)))
      ensures old(Ample(|src|)) ==> r != Panic
      ensures
        writable && old(fs.inodes)[ip].kind != Dev && r != Panic ==>
          var c, at := old(Content(fs.V(), ip)), old(off);
          && r == (if done == |src| then Value(|src|) else Value(-1))
          && done <= |src| && off == at + done && OthersKept(old(fs.V()), fs.V(), ip)
          && (done == |src| <==> src == [] || (at <= |c| && at + |src| <= MAXFILE * BSIZE))
          && (at > |c| ==> done == 0 && fs.V() == old(fs.V()))
          && (at <= |c| ==> Content(fs.V(), ip) == Overwrite(c, at, src[..done]))
          && (done < |src| && at <= |c| ==> done % CHUNK == 0 && at + done + Least(|src| - done) > MAXFILE * BSIZE)
          && NewCount(old(fs.V()), ip, at, at + done) <= |Frees(old(fs.V()).used)|
      ensures
        writable && old(fs.inodes)[ip].kind != Dev && r != Panic && Dense(old(fs.V()), ip) ==>
          && Dense(fs.V(), ip) && (forall k | 0 <= k < |ops| :: ops[k] <= MAXOPBLOCKS)
          && (old(fs.dinodes)[ip] == old(fs.inodes)[ip] ==> fs.dinodes[ip] == fs.inodes[ip])
      ensures r != Panic && FilesDense(old(fs.V())) ==> FilesDense(fs.V())
    {
      hide Frees, Fits, Sound, SlotAt, Advanced, Content, Overwrite, Dense, OthersKept, NewCount, Took, FilesDense;
      hide ChunksFit, Room, LogSet, AloneRoom;
      done, ops := 0, [];
      if !writable { return Value(-1), 0, []; }
      if fs.inodes[ip].kind == Dev && src != [] { return Device, 0, []; }
      ghost var v, d, at := fs.V(), fs.dinodes[ip], off;
      SoundSizes(v, fs.owner, fs.start);
      ghost var inode := fs.inodestart + ip / IPB;
      if && NewCount(v, ip, at, at + |src|) <= |Frees(v.used)|
         && (fs.outstanding == 0
             || Room(fs.Listed(), LogSet(fs.bmapstart, v, ip, at, at + |src|) + {inode}, fs.Limit())) {
        WholeFits(fs.outstanding == 0, fs.Listed(), inode, fs.bmapstart, v, ip, at, 0, |src|, fs.Limit());
        WholeAlone(fs.Listed(), inode, fs.bmapstart, v, ip, at, at + |src|, fs.Limit());
      }
      r, done, ops := WriteChunks(src);
      if r != Panic {
        AdvancedParts(v, d, fs.V(), fs.dinodes[ip], ip, at, src[..done], ops);
        TookCount(v, fs.V(), ip, at, at + done);
      }
    }

    /** The loop of filewrite. */
    method WriteChunks(src: seq<Byte>) returns (r: Outcome, ghost done: nat, ghost ops: seq<nat>)
      requires Ready() && (fs.inodes[ip].kind != Dev || src == []) && |src| < WORDS / 2
      modifies this`off, fs
      ensures fs.Good()
      ensures
        old(fs.outstanding) > 0 || fs.Limit() > MAXOPBLOCKS ==> (r == Panic <==> old(Stops(|src|)))
      ensures old(fs.outstanding) == 0 ==>
        (AloneRoom(fs.bmapstart, old(fs.V()), ip, old(off), old(off) + |src|, fs.Limit()) ==> r != Panic)
      ensures
        r != Panic ==>
          var size, at := old(fs.inodes)[ip].size, old(off);
          && r == (if done == |src| then Value(|src|) else Value(-1)) && done <= |src| && off == at + done
          && ip < |fs.inodes|
          && Advanced(old(fs.V()), old(fs.dinodes)[ip], fs.V(), fs.dinodes[ip], ip, at, src[..done], ops)
          && (done == |src| <==> src == [] || (at <= size && at + |src| <= MAXFILE * BSIZE))
          && (at > size ==> done == 0 && fs.V() == old(fs.V()))
          && (done < |src| && at <= size ==> done % CHUNK == 0 && at + done + Least(|src| - done) > MAXFILE * BSIZE)
      ensures r != Panic && FilesDense(old(fs.V())) ==> FilesDense(fs.V())
    {
      hide Frees, Fits, Sound, SlotAt, Advanced, NewCount, Took, FilesDense, ChunksFit, LogSet, ChunkGoes, Grown;
      hide AloneRoom, Content, Overwrite, Dense, OthersKept, MapsUnder;
      ghost var v, d, at, o := fs.V(), fs.dinodes[ip], off, fs.owner;
      ghost var h, inode, alone := fs.Listed(), fs.inodestart + ip / IPB, fs.outstanding == 0;
      done, ops := 0, [];
      SoundSizes(v, fs.owner, fs.start);
      AdvancedNone(v, d, ip, at);
      FitsMaps(|fs.inodes|, fs.size, fs.inodestart, fs.bmapstart, fs.start);
      NoneLogged(fs.bmapstart, v, ip, at, h, inode);
      assert Lists(v, h, at, alone);
      hide Lists;
      var i := 0;
      while i < |src|
        invariant i <= |src| && i == done && off == at + i
        invariant i % CHUNK == 0 || i == |src|
        invariant i > 0 ==> at <= v.inodes[ip].size && at + i <= MAXFILE * BSIZE
        invariant Ready() && (i == 0 ==> fs.V() == v) && fs.outstanding == old(fs.outstanding)
        invariant Advanced(v, d, fs.V(), fs.dinodes[ip], ip, at, src[..i], ops) && Lists(v, h, at, alone)
        invariant FilesDense(v) ==> FilesDense(fs.V())
        invariant at <= v.inodes[ip].size && (!alone || fs.Limit() > MAXOPBLOCKS) ==>
          (ChunksFit(alone, h, inode, fs.bmapstart, v, ip, at, 0, |src|, fs.Limit()) <==>
           ChunksFit(alone, h, inode, fs.bmapstart, v, ip, at, i, |src| - i, fs.Limit()))
      {
        var n1 := Least(|src| - i);
        AdvancedParts(v, d, fs.V(), fs.dinodes[ip], ip, at, src[..i], ops);
        FitsFrom(alone, h, inode, fs.bmapstart, v, ip, at, i, |src| - i, fs.Limit());
        NextChunk(src, i, n1);
        AloneLess(fs.bmapstart, v, ip, at, at + i + n1, at + |src|, fs.Limit());
        r, ops := WriteNext(src[i..i + n1], v, d, o, h, alone, at, src[..i], ops);
        if r == Panic { return; }
        if r.n < 0 {
          r := Value(-1);
          return;
        }
        i, done := i + n1, i + n1;
      }
      FitsFrom(alone, h, inode, fs.bmapstart, v, ip, at, i, |src| - i, fs.Limit());
      assert src[..i] == src;
      r := Value(|src|);
    }

    /** The log's list after the chunks up to the offset of a write from `at`; list h and volume v were at the start. */
    ghost predicate Lists(v: Volume, h: set<nat>, at: nat, alone: bool)
      requires ip < |v.inodes|
      reads this, fs
    {
      && alone == (fs.outstanding == 0)
      && (!alone && at <= v.inodes[ip].size ==>
          fs.Listed() == h + LogSet(fs.bmapstart, v, ip, at, off) + Grown(v, ip, off, fs.inodestart + ip / IPB))
    }

    /** One turn of it, in the terms of the start: volume v, inode on disk d, owners o and list h; s is written. */
    method WriteNext(src: seq<Byte>, ghost v: Volume, ghost d: Inode, ghost o: map<nat, Place>, ghost h: set<nat>,
                     ghost alone: bool, ghost at: nat, ghost s: seq<Byte>, ghost ops: seq<nat>)
      returns (r: Outcome, ghost more: seq<nat>)
      requires Ready() && fs.inodes[ip].kind != Dev && 0 < |src| <= CHUNK && off == at + |s|
      requires ip < |v.inodes| && Sound(v, o, fs.start) && MapsUnder(|v.used|, fs.bmapstart, fs.start)
      requires (s == [] ==> fs.V() == v) && (s != [] ==> at <= v.inodes[ip].size)
      requires Advanced(v, d, fs.V(), fs.dinodes[ip], ip, at, s, ops) && Lists(v, h, at, alone)
      modifies this`off, fs
      ensures fs.Good() && (r != Panic ==> fs.outstanding == old(fs.outstanding))
      ensures r != Panic && FilesDense(old(fs.V())) ==> FilesDense(fs.V())
      ensures if at > v.inodes[ip].size || old(off) + |src| > MAXFILE * BSIZE then r == Value(-1)
              else r == Value(|src|) || r == Panic
      ensures at <= v.inodes[ip].size && old(off) + |src| <= MAXFILE * BSIZE && (!alone || fs.Limit() > MAXOPBLOCKS) ==>
        var inode := fs.inodestart + ip / IPB;
        (r == Value(|src|) <==>
         ChunkGoes(alone, h, inode, fs.bmapstart, v, ip, at, old(off), old(off) + |src|, fs.Limit()))
      ensures alone && at <= v.inodes[ip].size && AloneRoom(fs.bmapstart, v, ip, at, old(off) + |src|, fs.Limit()) ==>
        r != Panic
      ensures r == Value(-1) ==>
        && off == old(off) && fs.V() == old(fs.V()) && ip < |fs.inodes|
        && Advanced(v, d, fs.V(), fs.dinodes[ip], ip, at, s, more)
      ensures r == Value(|src|) ==>
        && off == old(off) + |src| <= MAXFILE * BSIZE && Ready() && Lists(v, h, at, alone)
        && Advanced(v, d, fs.V(), fs.dinodes[ip], ip, at, s + src, more)
    {
      hide Frees, Fits, Sound, SlotAt, Advanced, NewCount, Took, FilesDense, RangeFits, LogCount, LogSet;
      hide ChunkGoes, Grown, ListAfter, MapsUnder, AloneRoom;
      ghost var u, x, inode := fs.V(), fs.dinodes[ip], fs.inodestart + ip / IPB;
      more := ops;
      AdvancedParts(v, d, u, x, ip, at, s, ops);
      if at <= v.inodes[ip].size && off + |src| <= MAXFILE * BSIZE {
        NextFits(alone, h, inode, fs.bmapstart, v, u, o, fs.owner, fs.inodestart, fs.start, ip, at, off, off + |src|,
                 fs.Limit());
        NextListed(fs.bmapstart, v, u, o, fs.owner, fs.start, ip, at, off, off + |src|, h, inode);
        NextAlone(fs.bmapstart, v, u, o, fs.owner, fs.start, ip, at, off, off + |src|, fs.Limit());
      }
      r := WriteChunk(src);
      if r == Value(|src|) {
        AdvancedMore(v, d, u, x, fs.V(), fs.dinodes[ip], ip, at, s, src, ops, One(|fs.logged|));
        more := ops + One(|fs.logged|);
      }
    }

    /** begin_op, changesize, end_op. */
    method SizeOp(n: nat) returns (r: Outcome, ghost news: set<nat>)
      requires Ready() && n < WORDS
      modifies fs
      ensures fs.Good()
      ensures old(fs.inodes)[ip].kind != File ==> r == Value(-1) && fs.V() == old(fs.V())
      ensures old(fs.inodes)[ip].kind == File ==>
        var size := old(fs.inodes)[ip].size;
        var at, end := ZeroedFrom(size, n), Max(size, n);
        r == if n <= MAXFILE * BSIZE
                && RangeFits(old(fs.Listed()), fs.bmapstart, old(fs.V()), ip, at, end, true, fs.Limit())
             then Value(n) else Panic
      ensures
        r == Value(n) ==>
          var size := old(fs.inodes)[ip].size;
          && size <= MAXFILE * BSIZE && Resized(old(fs.V()), fs.V(), ip, n, news)
          && ip < |fs.inodes| && fs.dinodes[ip] == fs.inodes[ip]
          && fs.logged == LogSet(fs.bmapstart, old(fs.V()), ip, ZeroedFrom(size, n), Max(size, n)) +
                          {fs.inodestart + ip / IPB}
      ensures r != Panic && FilesDense(old(fs.V())) ==> FilesDense(fs.V())
    {
      hide Frees, Fits, Sound, SlotAt, LogSet, FilesDense, RangeFits, ZeroedFrom, Max, Bits;
      ghost var v := fs.V();
      SoundSizes(v, fs.owner, fs.start);
      fs.BeginOp();
      assert fs.Header() == old(fs.Listed());
      r, news := fs.ChangeSize(ip, n);
      if r == Value(n) {
        ResizedShape(v, fs.V(), ip, n, news);
        ghost var x := LogSet(fs.bmapstart, v, ip, ZeroedFrom(v.inodes[ip].size, n), Max(v.inodes[ip].size, n));
        assert {} + x == x;
      }
      if r != Panic { fs.EndOp(); }
    }

    /**
      filechangesize: a single operation, however many blocks lie between the two sizes.  The number of
      blocks it logs is exact, and so it keeps to MAXOPBLOCKS exactly if fewer blocks than that are
      counted besides the inode, and panics in log_write, alone, exactly if they reach the limit of the list.
    */
    method NewSize(n: nat) returns (r: Outcome)
      requires Ready() && n < WORDS
      modifies this`off, fs
      ensures fs.Good()
      ensures !writable ==> r == Value(-1) && unchanged(this) && unchanged(fs)
      ensures writable && old(fs.inodes)[ip].kind != File ==> r == Value(-1) && off == old(off) && fs.V() == old(fs.V())
      ensures writable && old(fs.inodes)[ip].kind == File ==>
        var size := old(fs.inodes)[ip].size;
        var at, end := ZeroedFrom(size, n), Max(size, n);
        r == if n <= MAXFILE * BSIZE
                && RangeFits(old(fs.Listed()), fs.bmapstart, old(fs.V()), ip, at, end, true, fs.Limit())
             then Value(n) else Panic
      ensures writable && old(fs.inodes)[ip].kind == File && old(fs.outstanding) == 0 ==>
        var size := old(fs.inodes)[ip].size;
        var at, end := ZeroedFrom(size, n), Max(size, n);
        r == Value(n) <==>
          && n <= MAXFILE * BSIZE && NewCount(old(fs.V()), ip, at, end) <= |Frees(old(fs.V()).used)|
          && LogCount(old(fs.V()), fs.bmapstart, ip, at, end) < fs.Limit()
      ensures
        r == Value(n) ==>
          && OthersKept(old(fs.V()), fs.V(), ip) && Content(fs.V(), ip) == Resize(old(Content(fs.V(), ip)), n)
          && off == (if n > 0 then n else old(off)) && fs.dinodes[ip] == fs.inodes[ip]
          && (Dense(old(fs.V()), ip) ==> Dense(fs.V(), ip))
      ensures
        r == Value(n) ==>
          var size := old(fs.inodes)[ip].size;
          var count := LogCount(old(fs.V()), fs.bmapstart, ip, ZeroedFrom(size, n), Max(size, n));
          && |fs.logged| == count + 1 && (|fs.logged| <= MAXOPBLOCKS <==> count < MAXOPBLOCKS)
      ensures r != Panic && FilesDense(old(fs.V())) ==> FilesDense(fs.V())
    {
      hide Frees, Fits, Sound, SlotAt, LogSet, Resized, Content, Resize, Dense, OthersKept, NewCount, LogCount;
      hide FilesDense, RangeFits, ZeroedFrom, Zeroes, Bits, Written;
      if !writable { return Value(-1); }
      ghost var v, o := fs.V(), fs.owner;
      SoundSizes(v, fs.owner, fs.start);
      if n <= MAXFILE * BSIZE {
        var size := v.inodes[ip].size;
        AloneFits(v, o, fs.inodestart, fs.bmapstart, fs.start, ip, ZeroedFrom(size, n), Max(size, n), fs.Limit());
      }
      ghost var news;
      r, news := SizeOp(n);
      if r == Value(n) {
        ResizeCounts(v, fs.V(), o, fs.inodestart, fs.bmapstart, fs.start, ip, n, news, fs.logged,
                     old(fs.Listed()), fs.Limit());
      }
      if r.Value? && r.n > 0 {
        off := r.n;
      }
    }
  }

  lemma ResizedShape(v: Volume, w: Volume, i: nat, n: nat, news: set<nat>)
    requires i < |v.inodes| && v.inodes[i].size <= MAXFILE * BSIZE && Resized(v, w, i, n, news)
    ensures |w.inodes| == |v.inodes| && n <= MAXFILE * BSIZE
  {
  }

  lemma ResizeCounts(v: Volume, w: Volume, owner: map<nat, Place>, inodestart: nat, bmapstart: nat, start: nat,
                     i: nat, n: nat, news: set<nat>, log: set<nat>, h: set<nat>, limit: int)
    requires i < |v.inodes| && Sound(v, owner, start) && Layout(v, inodestart, bmapstart, start)
    requires n <= MAXFILE * BSIZE && v.inodes[i].size <= MAXFILE * BSIZE && Resized(v, w, i, n, news)
    requires RangeFits(h, bmapstart, v, i, ZeroedFrom(v.inodes[i].size, n), Max(v.inodes[i].size, n), true, limit)
    requires log == LogSet(bmapstart, v, i, ZeroedFrom(v.inodes[i].size, n), Max(v.inodes[i].size, n)) +
                    {inodestart + i / IPB}
    ensures OthersKept(v, w, i) && (Dense(v, i) ==> Dense(w, i)) && Content(w, i) == Resize(Content(v, i), n)
    ensures |log| == LogCount(v, bmapstart, i, ZeroedFrom(v.inodes[i].size, n), Max(v.inodes[i].size, n)) + 1
  {
    hide Sound, SlotAt, LogSet, Dense, Layout, Mapped, Marked, LogCount, NewCount, Frees, Content, Resize, Written;
    hide Before, Room;
    var size := v.inodes[i].size;
    InodeLogCard(v, owner, inodestart, bmapstart, start, i, ZeroedFrom(size, n), Max(size, n), true);
  }

  /** Cutting a file without holes logs the blocks it zeroes, and the inode. */
  lemma ShrinkCount(v: Volume, bmapstart: nat, i: nat, n: nat)
    requires i < |v.inodes| && Dense(v, i) && n <= v.inodes[i].size
    ensures LogCount(v, bmapstart, i, ZeroedFrom(v.inodes[i].size, n), Max(v.inodes[i].size, n)) ==
            Spans(n, v.inodes[i].size)
  {
    hide SlotAt, NewEntry, NewBlocks;
    DenseNeedsNone(v, i, n, v.inodes[i].size);
    assert FirstFree(v.used, 0) == {};
    assert Maps(bmapstart, {}) == {};
  }

  lemma DenseNeedsNone(v: Volume, i: nat, off: nat, end: nat)
    requires i < |v.inodes| && Dense(v, i) && end <= v.inodes[i].size
    ensures NewBlocks(v, i, off, end) == {} && !NewEntry(v, i, off, end)
  {
    hide SlotAt;
    forall bn: nat | bn < MAXFILE && Covers(off, end, bn)
      ensures Data(v, i, bn) != 0
    {
    }
  }

  /**
    File i has had s written at `at`; x and y are its inode on disk before and after, `ops` the
    number of blocks each operation logged.
  */
  ghost predicate Advanced(v: Volume, x: Inode, w: Volume, y: Inode, i: nat, at: nat, s: seq<Byte>, ops: seq<nat>) {
    && i < |v.inodes| && v.inodes[i].size <= MAXFILE * BSIZE
    && OthersKept(v, w, i) && w.inodes[i].kind == v.inodes[i].kind && w.inodes[i].size <= MAXFILE * BSIZE
    && (s == [] || at <= v.inodes[i].size)
    && (at <= v.inodes[i].size ==> Content(w, i) == Overwrite(Content(v, i), at, s))
    && (Dense(v, i) ==> Dense(w, i) && forall k | 0 <= k < |ops| :: ops[k] <= MAXOPBLOCKS)
    && (Dense(v, i) && x == v.inodes[i] ==> y == w.inodes[i])
    && Took(v, w, i, at, at + |s|)
  }

  /** The blocks of a range have been mapped, which took that many of the free ones, the lowest. */
  ghost predicate Took(v: Volume, w: Volume, i: nat, off: nat, end: nat)
    requires i < |v.inodes|
  {
    var news := FirstFree(v.used, NewCount(v, i, off, end));
    && Mapped(v, w, i, off, end, |news|) && Marked(v.used, w.used, news)
    && |Frees(w.used)| + NewCount(v, i, off, end) == |Frees(v.used)|
  }

  lemma TookNone(v: Volume, i: nat, off: nat)
    requires i < |v.inodes|
    ensures Took(v, v, i, off, off)
  {
    MappedNone(v, i, off);
    MappedCount(v, v, i, off, off, 0);
    FirstFreeMono(v.used, 0, 0);
  }

  lemma TookMore(u: Volume, v: Volume, w: Volume, i: nat, off: nat, mid: nat, end: nat)
    requires off <= mid <= end && i < |u.inodes| && i < |v.inodes| && Took(u, v, i, off, mid) && Took(v, w, i, mid, end)
    ensures end <= MAXFILE * BSIZE ==> Took(u, w, i, off, end)
  {
    hide Mapped, Frees, NewCount, Marked, FirstFree;
    if end <= MAXFILE * BSIZE {
      var x, y := FirstFree(u.used, NewCount(u, i, off, mid)), FirstFree(v.used, NewCount(v, i, mid, end));
      MappedCount(u, v, i, off, mid, |x|);
      MappedCount(v, w, i, mid, end, |y|);
      MappedMore(u, v, w, i, off, mid, end, |x|, |y|);
      MappedCount(u, w, i, off, end, |x| + |y|);
      MarkedMore(u.used, v.used, w.used, x, y);
      FirstFreeMore(u.used, v.used, x, |y|);
    }
  }

  lemma TookOne(v: Volume, w: Volume, i: nat, off: nat, end: nat, news: set<nat>)
    requires Mapped(v, w, i, off, end, |news|) && Marked(v.used, w.used, news)
    ensures i < |v.inodes| && Took(v, w, i, off, end)
  {
    hide Frees, NewCount, Marked, FirstFree;
    MarkedFirst(v.used, w.used, news);
  }

  lemma TookCount(v: Volume, w: Volume, i: nat, off: nat, end: nat)
    requires i < |v.inodes| && Took(v, w, i, off, end)
    ensures NewCount(v, i, off, end) <= |Frees(v.used)|
  {
  }

  lemma NoneLogged(bmapstart: nat, v: Volume, i: nat, at: nat, h: set<nat>, inode: nat)
    requires i < |v.inodes|
    ensures at <= v.inodes[i].size ==> h == h + LogSet(bmapstart, v, i, at, at) + Grown(v, i, at, inode)
  {
    hide LogSet;
    RangeNone(bmapstart, v, i, at);
  }

  /** The first chunk of those that are left, and the others. */
  lemma FitsFrom(alone: bool, h: set<nat>, inode: nat, bmapstart: nat, v: Volume, i: nat, at: nat, done: nat, n: nat,
                 limit: int)
    requires i < |v.inodes|
    ensures n == 0 ==> ChunksFit(alone, h, inode, bmapstart, v, i, at, done, n, limit)
    ensures var end := at + done + Least(n);
            n > 0 ==>
            (ChunksFit(alone, h, inode, bmapstart, v, i, at, done, n, limit) <==>
             || end > MAXFILE * BSIZE
             || (&& ChunkGoes(alone, h, inode, bmapstart, v, i, at, at + done, end, limit)
                 && ChunksFit(alone, h, inode, bmapstart, v, i, at, done + Least(n), n - Least(n), limit)))
  {
    hide ChunkGoes;
  }

  /** The next chunk fits what it finds exactly if it fits in the terms of the start. */
  lemma NextFits(alone: bool, h: set<nat>, inode: nat, bmapstart: nat, v: Volume, u: Volume, ov: map<nat, Place>,
                 ou: map<nat, Place>, inodestart: nat, start: nat, i: nat, at: nat, mid: nat, end: nat, limit: int)
    requires i < |v.inodes| == |u.inodes| && at <= mid < end <= MAXFILE * BSIZE && end <= mid + CHUNK
    requires Took(v, u, i, at, mid) && Sound(v, ov, start) && Sound(u, ou, start)
    requires Layout(u, inodestart, bmapstart, start) && MapsUnder(|v.used|, bmapstart, start)
    ensures !alone ==>
      (RangeFits(h + LogSet(bmapstart, v, i, at, mid) + Grown(v, i, mid, inode), bmapstart, u, i, mid, end,
                 end > v.inodes[i].size, limit) <==>
       ChunkGoes(alone, h, inode, bmapstart, v, i, at, mid, end, limit))
    ensures alone && limit > MAXOPBLOCKS ==>
      (RangeFits({}, bmapstart, u, i, mid, end, end > v.inodes[i].size, limit) <==>
       ChunkGoes(alone, h, inode, bmapstart, v, i, at, mid, end, limit))
  {
    hide Sound, LogSet, RangeFits, Mapped, Marked, NewCount, Frees, FirstFree, Layout, MapsUnder, ChunkRoom, Grown;
    var news := FirstFree(v.used, NewCount(v, i, at, mid));
    if !alone {
      ChunkTurn(h, inode, bmapstart, v, u, ov, ou, start, i, at, mid, end, news, limit);
    } else if limit > MAXOPBLOCKS {
      TakenAtAll(v, u, i, at, mid, end, news);
      ChunkFits(u, ou, inodestart, bmapstart, start, i, mid, end, end > v.inodes[i].size, limit);
    }
  }

  /** Blocks and log suffice for the range on an empty list. */
  ghost predicate AloneRoom(bmapstart: nat, v: Volume, i: nat, at: nat, end: nat, limit: int)
    requires i < |v.inodes|
  {
    NewCount(v, i, at, end) <= |Frees(v.used)| && Room({}, LogSet(bmapstart, v, i, at, end), limit)
  }

  lemma AloneLess(bmapstart: nat, v: Volume, i: nat, at: nat, mid: nat, end: nat, limit: int)
    requires i < |v.inodes| && at <= mid <= end
    ensures AloneRoom(bmapstart, v, i, at, end, limit) ==> AloneRoom(bmapstart, v, i, at, mid, limit)
  {
    hide LogSet, NewCount, Frees, Room;
    if AloneRoom(bmapstart, v, i, at, end, limit) {
      CountMono(v, i, at, mid, end);
      LogMono(bmapstart, v, i, at, mid, end);
      RoomLess({}, LogSet(bmapstart, v, i, at, mid), LogSet(bmapstart, v, i, at, end), limit);
    }
  }

  lemma WholeAlone(h: set<nat>, inode: nat, bmapstart: nat, v: Volume, i: nat, at: nat, end: nat, limit: int)
    requires i < |v.inodes| && NewCount(v, i, at, end) <= |Frees(v.used)|
    ensures Room(h, LogSet(bmapstart, v, i, at, end) + {inode}, limit) ==> AloneRoom(bmapstart, v, i, at, end, limit)
  {
    hide LogSet, NewCount, Frees;
    SubsetSize({} + LogSet(bmapstart, v, i, at, end), h + (LogSet(bmapstart, v, i, at, end) + {inode}));
  }

  lemma NextAlone(bmapstart: nat, v: Volume, u: Volume, ov: map<nat, Place>, ou: map<nat, Place>, start: nat, i: nat,
                  at: nat, mid: nat, end: nat, limit: int)
    requires i < |v.inodes| == |u.inodes| && at <= mid < end <= MAXFILE * BSIZE
    requires Took(v, u, i, at, mid) && Sound(v, ov, start) && Sound(u, ou, start)
    ensures AloneRoom(bmapstart, v, i, at, end, limit) ==>
            RangeFits({}, bmapstart, u, i, mid, end, end > v.inodes[i].size, limit)
  {
    hide Sound, LogSet, Mapped, Marked, NewCount, Frees, FirstFree, Room, Before;
    var news := FirstFree(v.used, NewCount(v, i, at, mid));
    if AloneRoom(bmapstart, v, i, at, end, limit) {
      LogJoined(bmapstart, v, u, ov, ou, start, i, at, mid, end, news);
      TakenAtAll(v, u, i, at, mid, end, news);
      RoomLess({}, LogSet(bmapstart, u, i, mid, end), LogSet(bmapstart, v, i, at, end), limit);
      LogWhole(bmapstart, u, i, mid, end, {}, limit);
    }
  }

  /** The list after the next chunk. */
  lemma NextListed(bmapstart: nat, v: Volume, u: Volume, ov: map<nat, Place>, ou: map<nat, Place>, start: nat, i: nat,
                   at: nat, mid: nat, end: nat, h: set<nat>, inode: nat)
    requires i < |v.inodes| == |u.inodes| && at <= mid < end <= MAXFILE * BSIZE
    requires Took(v, u, i, at, mid) && Sound(v, ov, start) && Sound(u, ou, start)
    requires u.inodes[i].size == Max(v.inodes[i].size, mid)
    ensures var g := h + LogSet(bmapstart, v, i, at, mid) + Grown(v, i, mid, inode);
            ListAfter(false, g, inode, bmapstart, u, i, mid, end) ==
            h + LogSet(bmapstart, v, i, at, end) + Grown(v, i, end, inode)
  {
    hide Sound, LogSet, Mapped, Marked, NewCount, Frees, FirstFree;
    LogJoined(bmapstart, v, u, ov, ou, start, i, at, mid, end, FirstFree(v.used, NewCount(v, i, at, mid)));
    Regroup(h, LogSet(bmapstart, v, i, at, mid), Grown(v, i, mid, inode), LogSet(bmapstart, u, i, mid, end),
            Grown(v, i, end, inode));
  }

  lemma Regroup(h: set<nat>, l: set<nat>, m: set<nat>, x: set<nat>, n: set<nat>)
    requires m <= n
    ensures h + l + m + x + n == h + (l + x) + n
  {
  }

  lemma AdvancedNone(v: Volume, x: Inode, i: nat, at: nat)
    requires i < |v.inodes| && v.inodes[i].size <= MAXFILE * BSIZE
    ensures Advanced(v, x, v, x, i, at, [], [])
  {
    OthersSelf(v, i);
    OverwriteNone(Content(v, i), at);
    TookNone(v, i, at);
  }

  lemma AdvancedMore(u: Volume, x: Inode, v: Volume, y: Inode, w: Volume, z: Inode, i: nat, at: nat,
                     s: seq<Byte>, t: seq<Byte>, m: seq<nat>, n: seq<nat>)
    requires Advanced(u, x, v, y, i, at, s, m) && Advanced(v, y, w, z, i, at + |s|, t, n)
    requires at <= u.inodes[i].size && at + |s| + |t| <= MAXFILE * BSIZE
    ensures Advanced(u, x, w, z, i, at, s + t, m + n)
  {
    hide Content, Overwrite, Dense, Took;
    TookMore(u, v, w, i, at, at + |s|, at + |s| + |t|);
    OthersMore(u, v, w, i);
    OverwriteTwice(Content(u, i), at, s, t);
  }

  lemma AdvancedParts(v: Volume, x: Inode, w: Volume, y: Inode, i: nat, at: nat, s: seq<Byte>, ops: seq<nat>)
    requires Advanced(v, x, w, y, i, at, s, ops)
    ensures i < |v.inodes| == |w.inodes| && OthersKept(v, w, i) && w.inodes[i].kind == v.inodes[i].kind
    ensures v.inodes[i].size <= MAXFILE * BSIZE && w.inodes[i].size <= MAXFILE * BSIZE
    ensures at <= v.inodes[i].size ==>
      Content(w, i) == Overwrite(Content(v, i), at, s) && w.inodes[i].size == Max(v.inodes[i].size, at + |s|)
    ensures Dense(v, i) ==> Dense(w, i) && forall k | 0 <= k < |ops| :: ops[k] <= MAXOPBLOCKS
    ensures Dense(v, i) && x == v.inodes[i] ==> y == w.inodes[i]
    ensures Took(v, w, i, at, at + |s|)
  {
    hide Dense, Took;
    if at <= v.inodes[i].size {
      OverwriteLength(Content(v, i), at, s);
    }
  }

  lemma NextChunk(src: seq<Byte>, i: nat, n1: nat)
    requires i < |src| && i % CHUNK == 0 && n1 == Least(|src| - i)
    ensures (i + n1) % CHUNK == 0 || i + n1 == |src|
    ensures src[..i] + src[i..i + n1] == src[..i + n1]
  {
  }

  lemma OverwriteNone(c: seq<Byte>, at: nat)
    ensures at <= |c| ==> Overwrite(c, at, []) == c
  {
  }

  lemma UpdatedShape(v: Volume, w: Volume, i: nat, off: nat, src: seq<Byte>, news: set<nat>)
    ensures i < |v.inodes| && Updated(v, w, i, off, src, news) ==> |w.inodes| == |v.inodes|
  {
  }

  /** What one operation of filewrite comes to; x and y are the inode on disk before and after. */
  lemma ChunkDone(v: Volume, w: Volume, owner: map<nat, Place>, inodestart: nat, bmapstart: nat, start: nat,
                  i: nat, off: nat, src: seq<Byte>, news: set<nat>, log: set<nat>, x: Inode, y: Inode,
                  h: set<nat>, also: bool, limit: int)
    requires i < |v.inodes| == |w.inodes| && Sound(v, owner, start) && Layout(v, inodestart, bmapstart, start)
    requires RangeFits(h, bmapstart, v, i, off, off + |src|, also, limit)
    requires Updated(v, w, i, off, src, news) && off <= v.inodes[i].size <= MAXFILE * BSIZE
             && w.inodes[i].size <= MAXFILE * BSIZE
    requires 0 < |src| <= CHUNK && off + |src| <= MAXFILE * BSIZE
    requires Content(w, i) == Overwrite(Content(v, i), off, src)
    requires log == LogSet(bmapstart, v, i, off, off + |src|) +
                    if off + |src| > v.inodes[i].size then {inodestart + i / IPB} else {}
    requires if off + |src| > v.inodes[i].size then y == w.inodes[i]
             else y == x && (w.inodes[i] == v.inodes[i] <==> HasHeads(v, i, off, off + |src|))
    ensures |log| == LogCount(v, bmapstart, i, off, off + |src|) + if off + |src| > v.inodes[i].size then 1 else 0
    ensures Advanced(v, x, w, y, i, off, src, One(|log|))
  {
    hide Sound, SlotAt, LogSet, NewCount, Frees, HasHeads, Content, Overwrite, Dense, Layout, Marked, Mapped, LogCount;
    hide Took, Before, Room;
    InodeLogCard(v, owner, inodestart, bmapstart, start, i, off, off + |src|, off + |src| > v.inodes[i].size);
    TookOne(v, w, i, off, off + |src|, news);
    if Dense(v, i) {
      ChunkBound(v, bmapstart, i, off, off + |src|);
      DenseHeads(v, i, off, off + |src|);
    }
  }

  lemma DenseHeads(v: Volume, i: nat, off: nat, end: nat)
    requires i < |v.inodes| && Dense(v, i)
    ensures end <= v.inodes[i].size ==> HasHeads(v, i, off, end)
  {
    if end <= v.inodes[i].size {
      forall bn | 0 <= bn < MAXFILE && Covers(off, end, bn)
        ensures v.inodes[i].addrs[Head(bn)] != 0
      {
        assert Data(v, i, bn) != 0;
        SlotIsAddr(v, i, Head(bn));
        if bn >= NDIRECT {
          NoTable(v, i, bn - NDIRECT);
        }
      }
    }
  }
}
