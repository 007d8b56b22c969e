/**
  When the chunks of a long write go through, read off the volume and the log's list before the first
  of them.  While other operations are under way the list only grows from chunk to chunk; alone, each
  chunk begins with an empty one.
*/
module FsChunks {
  import opened Params
  import opened FsVolume
  import opened FsSteps
  import opened FsRanges
  import opened FsContent
  import opened FsLogging

  /** The length of the next chunk. */
  function Least(n: nat): nat { if n > CHUNK then CHUNK else n }

  /** The block of the range's last byte, if it was there at the start and no chunk before this one has logged it. */
  ghost function LastNew(v: Volume, i: nat, at: nat, mid: nat, end: nat): set<nat>
    requires i < |v.inodes|
  {
    var bn := if end > 0 then (end - 1) / BSIZE else 0;
    if bn < MAXFILE && Data(v, i, bn) != 0 && !Covers(at, mid, bn) then {Data(v, i, bn)} else {}
  }

  /** The inode's block, once a chunk that ends at mid has made the file longer. */
  ghost function Grown(v: Volume, i: nat, mid: nat, inode: nat): set<nat>
    requires i < |v.inodes|
  {
    if mid > v.inodes[i].size then {inode} else {}
  }

  /** The log takes the chunk from mid to end of a write that began at `at` with header h. */
  ghost predicate ChunkRoom(h: set<nat>, inode: nat, bmapstart: nat, v: Volume, i: nat, at: nat, mid: nat, end: nat,
                            limit: int)
    requires i < |v.inodes|
  {
    var e := LogSet(bmapstart, v, i, at, end);
    if end > v.inodes[i].size then Room(h, e + Grown(v, i, mid, inode), limit)
    else Room(h, e - LastNew(v, i, at, mid, end), limit)
  }

  ghost predicate ChunkGoes(alone: bool, h: set<nat>, inode: nat, bmapstart: nat, v: Volume, i: nat, at: nat, mid: nat,
                            end: nat, limit: int)
    requires i < |v.inodes|
  {
    NewCount(v, i, at, end) <= |Frees(v.used)| && (alone || ChunkRoom(h, inode, bmapstart, v, i, at, mid, end, limit))
  }

  /** All chunks of the n bytes after the first `done` go through, up to one that passes the largest size. */
  ghost predicate ChunksFit(alone: bool, h: set<nat>, inode: nat, bmapstart: nat, v: Volume, i: nat, at: nat, done: nat,
                            n: nat, limit: int)
    requires i < |v.inodes|
    decreases n
  {
    var end := at + done + Least(n);
    || n == 0 || end > MAXFILE * BSIZE
    || (&& ChunkGoes(alone, h, inode, bmapstart, v, i, at, at + done, end, limit)
        && ChunksFit(alone, h, inode, bmapstart, v, i, at, done + Least(n), n - Least(n), limit))
  }

  /** The list that the next operation finds after a chunk from off to end that found h. */
  ghost function ListAfter(alone: bool, h: set<nat>, inode: nat, bmapstart: nat, v: Volume, i: nat, off: nat, end: nat)
    : set<nat>
    requires i < |v.inodes|
  {
    if alone then {} else h + LogSet(bmapstart, v, i, off, end) + Grown(v, i, end, inode)
  }

  lemma ListAfterIs(alone: bool, h: set<nat>, inode: nat, bmapstart: nat, v: Volume, i: nat, off: nat, end: nat,
                    log: set<nat>)
    requires i < |v.inodes|
    requires log == LogSet(bmapstart, v, i, off, end) + if end > v.inodes[i].size then {inode} else {}
    ensures ListAfter(alone, h, inode, bmapstart, v, i, off, end) == if alone then {} else h + log
  {
    hide LogSet;
    Joined(h, LogSet(bmapstart, v, i, off, end), Grown(v, i, end, inode));
  }

  // --- one chunk after others -------------------------------------------------------------

  /** A block of the second part that is there by then was there at the start, or is among the new ones. */
  lemma LaterData(bmapstart: nat, v: Volume, u: Volume, ov: map<nat, Place>, ou: map<nat, Place>, start: nat, i: nat,
                  at: nat, mid: nat, news: set<nat>, bn: nat)
    requires i < |v.inodes| == |u.inodes| && at <= mid && mid <= MAXFILE * BSIZE && bn < MAXFILE
    requires Mapped(v, u, i, at, mid, |news|) && Marked(v.used, u.used, news)
    requires Sound(v, ov, start) && Sound(u, ou, start)
    ensures Data(v, i, bn) != 0 ==> Data(u, i, bn) == Data(v, i, bn)
    ensures Data(v, i, bn) == 0 && Data(u, i, bn) != 0 ==>
            Data(u, i, bn) in LogSet(bmapstart, v, i, at, mid)
    ensures !Covers(at, mid, bn) ==> Data(u, i, bn) == Data(v, i, bn)
  {
    hide SlotAt, Sound, FirstFree, Frees, Maps, NewCount, Covers;
    var p := Place(i, DataSlot(bn));
    assert IsPlace(v, p);
    if Data(v, i, bn) == 0 && Data(u, i, bn) != 0 {
      NewSlot(v, u, ov, ou, start, news, p);
      MarkedFirst(v.used, u.used, news);
    }
    if !Covers(at, mid, bn) {
      assert !SlotInRange(at, mid, DataSlot(bn));
    }
  }

  /** What two parts log, wherever the first ends. */
  lemma LogJoined(bmapstart: nat, v: Volume, u: Volume, ov: map<nat, Place>, ou: map<nat, Place>, start: nat, i: nat,
                  at: nat, mid: nat, end: nat, news: set<nat>)
    requires i < |v.inodes| == |u.inodes| && at <= mid <= end <= MAXFILE * BSIZE
    requires Mapped(v, u, i, at, mid, |news|) && Marked(v.used, u.used, news)
    requires Sound(v, ov, start) && Sound(u, ou, start)
    ensures LogSet(bmapstart, v, i, at, mid) + LogSet(bmapstart, u, i, mid, end) == LogSet(bmapstart, v, i, at, end)
  {
    hide SlotAt, Sound, Mapped, Marked, AllocSet, Covers;
    AllocMore(bmapstart, v, u, ov, ou, start, i, at, mid, end, news);
    LogMono(bmapstart, v, i, at, mid, end);
    var l, x, e := LogSet(bmapstart, v, i, at, mid), OldData(u, i, mid, end), LogSet(bmapstart, v, i, at, end);
    forall bn: nat | bn < MAXFILE
      ensures Covers(at, end, bn) <==> Covers(at, mid, bn) || Covers(mid, end, bn)
      ensures Data(v, i, bn) != 0 ==> Data(u, i, bn) == Data(v, i, bn)
      ensures Data(v, i, bn) == 0 && Data(u, i, bn) != 0 ==> Data(u, i, bn) in l
    {
      CoversSplit(at, mid, end, bn);
      LaterData(bmapstart, v, u, ov, ou, start, i, at, mid, news, bn);
    }
    assert x <= l + OldData(v, i, at, end);
    assert OldData(v, i, at, end) <= l + x;
  }

  /** And what of it comes before the last log_write. */
  lemma BeforeJoined(bmapstart: nat, v: Volume, u: Volume, ov: map<nat, Place>, ou: map<nat, Place>, start: nat, i: nat,
                     at: nat, mid: nat, end: nat, news: set<nat>)
    requires i < |v.inodes| == |u.inodes| && at <= mid < end <= MAXFILE * BSIZE
    requires Mapped(v, u, i, at, mid, |news|) && Marked(v.used, u.used, news)
    requires Sound(v, ov, start) && Sound(u, ou, start) && MapsUnder(|v.used|, bmapstart, start)
    ensures LogSet(bmapstart, v, i, at, mid) + Before(bmapstart, u, i, mid, end) ==
            LogSet(bmapstart, v, i, at, end) - LastNew(v, i, at, mid, end)
  {
    hide SlotAt, Sound, Mapped, Marked, LogSet, Covers;
    var bn := (end - 1) / BSIZE;
    LogJoined(bmapstart, v, u, ov, ou, start, i, at, mid, end, news);
    LaterData(bmapstart, v, u, ov, ou, start, i, at, mid, news, bn);
    var l, x := LogSet(bmapstart, v, i, at, mid), LogSet(bmapstart, u, i, mid, end);
    if Data(v, i, bn) != 0 {
      if Covers(at, mid, bn) {
        CoveredLogged(bmapstart, v, i, at, mid, bn);
      } else {
        OutsideRange(bmapstart, v, ov, start, i, at, mid, bn);
      }
    }
  }

  lemma CoveredLogged(bmapstart: nat, v: Volume, i: nat, at: nat, mid: nat, bn: nat)
    requires i < |v.inodes| && bn < MAXFILE && Covers(at, mid, bn) && Data(v, i, bn) != 0
    ensures Data(v, i, bn) in LogSet(bmapstart, v, i, at, mid)
  {
    hide SlotAt, AllocSet, Covers;
  }

  /** With other operations under way: the chunk fits what it finds exactly if it fits in the terms of the start. */
  lemma ChunkTurn(h: set<nat>, inode: nat, bmapstart: nat, v: Volume, u: Volume, ov: map<nat, Place>,
                  ou: map<nat, Place>, start: nat, i: nat, at: nat, mid: nat, end: nat, news: set<nat>, limit: int)
    requires i < |v.inodes| == |u.inodes| && at <= mid < end <= MAXFILE * BSIZE
    requires Mapped(v, u, i, at, mid, |news|) && Marked(v.used, u.used, news)
    requires Sound(v, ov, start) && Sound(u, ou, start) && MapsUnder(|v.used|, bmapstart, start)
    ensures var g := h + LogSet(bmapstart, v, i, at, mid) + Grown(v, i, mid, inode);
            RangeFits(g, bmapstart, u, i, mid, end, end > v.inodes[i].size, limit) <==>
            ChunkGoes(false, h, inode, bmapstart, v, i, at, mid, end, limit)
  {
    hide SlotAt, Sound, LogSet, Before, NewCount, Frees, Room, LastNew, Mapped, Marked, FirstFree;
    var l, x := LogSet(bmapstart, v, i, at, mid), LogSet(bmapstart, u, i, mid, end);
    var b := Before(bmapstart, u, i, mid, end);
    var more := Grown(v, i, mid, inode);
    var g := h + l + more;
    TakenAtAll(v, u, i, at, mid, end, news);
    LogJoined(bmapstart, v, u, ov, ou, start, i, at, mid, end, news);
    BeforeJoined(bmapstart, v, u, ov, ou, start, i, at, mid, end, news);
    LogWhole(bmapstart, u, i, mid, end, g, limit);
    if end > v.inodes[i].size {
      Rejoin(h, l, more, x);
      RoomSame(g, x, h, (l + x) + more, limit);
    } else {
      Rejoin(h, l, {}, b);
      assert more == {};
      RoomSame(g, b, h, l + b, limit);
    }
  }

  lemma Rejoin(h: set<nat>, l: set<nat>, m: set<nat>, x: set<nat>)
    ensures h + l + m + x == h + (l + x + m) && (m == {} ==> h + l + m + x == h + (l + x))
  {
  }

  lemma TakenAtAll(v: Volume, u: Volume, i: nat, at: nat, mid: nat, end: nat, news: set<nat>)
    requires i < |v.inodes| == |u.inodes| && at <= mid <= end <= MAXFILE * BSIZE
    requires Mapped(v, u, i, at, mid, |news|) && Marked(v.used, u.used, news)
    ensures NewCount(v, i, at, end) == |news| + NewCount(u, i, mid, end)
    ensures |Frees(u.used)| + |news| == |Frees(v.used)|
  {
    hide SlotAt, Frees, NewCount, Marked, FirstFree, SlotsKept, Filled, OnlyRange;
    CountMore(v, u, i, at, mid, end);
    MarkedFirst(v.used, u.used, news);
  }

  // --- when the whole fits ----------------------------------------------------------------

  /** If the blocks and the log suffice for the whole range and the inode, every chunk goes through. */
  lemma {:induction false} WholeFits(alone: bool, h: set<nat>, inode: nat, bmapstart: nat, v: Volume, i: nat, at: nat,
                                     done: nat, n: nat, limit: int)
    requires i < |v.inodes| && NewCount(v, i, at, at + done + n) <= |Frees(v.used)|
    requires alone || Room(h, LogSet(bmapstart, v, i, at, at + done + n) + {inode}, limit)
    ensures ChunksFit(alone, h, inode, bmapstart, v, i, at, done, n, limit)
    decreases n
  {
    hide SlotAt, LogSet, NewCount, Frees, Room, LastNew;
    if n > 0 {
      var end := at + done + Least(n);
      CountMono(v, i, at, end, at + done + n);
      LogMono(bmapstart, v, i, at, end, at + done + n);
      if !alone {
        var e, all := LogSet(bmapstart, v, i, at, end), LogSet(bmapstart, v, i, at, at + done + n);
        RoomLess(h, e + Grown(v, i, at + done, inode), all + {inode}, limit);
        RoomLess(h, e - LastNew(v, i, at, at + done, end), all + {inode}, limit);
      }
      WholeFits(alone, h, inode, bmapstart, v, i, at, done + Least(n), n - Least(n), limit);
    }
  }
}
