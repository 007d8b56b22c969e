/** How many blocks an operation on a file logs. */
module FsLogging {
  import opened Params
  import opened FsVolume
  import opened FsSteps
  import opened FsRanges
  import opened FsContent

  /** The most bytes that filewrite writes in one operation: (MAXOPBLOCKS - 1 - 1 - 2) / 2 blocks. */
  const CHUNK := 1536

  /** The number of blocks that hold bytes from off up to end. */
  function Spans(off: nat, end: nat): nat {
    if off < end then (end - 1) / BSIZE - off / BSIZE + 1 else 0
  }

  // --- counting ---------------------------------------------------------------------------

  lemma {:induction false} SubsetCard(a: set<nat>, lo: nat, hi: nat)
    requires lo <= hi && forall x | x in a :: lo <= x < hi
    ensures |a| <= hi - lo
    decreases hi - lo
  {
    if lo == hi {
      assert a == {};
    } else {
      SubsetCard(a - {hi - 1}, lo, hi - 1);
      assert a <= (a - {hi - 1}) + {hi - 1};
    }
  }

  ghost function Interval(n: nat, k: nat): (s: set<nat>)
    ensures |s| == k && forall b :: b in s <==> n <= b < n + k
  {
    if k == 0 then {} else Interval(n, k - 1) + {n + k - 1}
  }

  lemma {:induction false} MapsCard(bmapstart: nat, news: set<nat>)
    ensures |Maps(bmapstart, news)| <= |news|
    decreases |news|
  {
    if news == {} {
      assert Maps(bmapstart, news) == {};
    } else {
      var c :| c in news;
      var rest := news - {c};
      MapsCard(bmapstart, rest);
      assert news == rest + {c};
      MapsMore(bmapstart, rest, {c});
      MapsOne(bmapstart, c);
    }
  }

  ghost function OldBetween(v: Volume, i: nat, lo: nat, hi: nat): set<nat>
    requires i < |v.inodes| && hi <= MAXFILE
  {
    set bn: nat | lo <= bn < hi && Data(v, i, bn) != 0 :: Data(v, i, bn)
  }

  ghost function NewBetween(v: Volume, i: nat, lo: nat, hi: nat): set<nat>
    requires i < |v.inodes| && hi <= MAXFILE
  {
    set bn: nat | lo <= bn < hi && Data(v, i, bn) == 0
  }

  lemma BetweenSnoc(v: Volume, owner: map<nat, Place>, start: nat, i: nat, lo: nat, hi: nat)
    requires Sound(v, owner, start) && i < |v.inodes| && lo <= hi < MAXFILE
    ensures var last := Data(v, i, hi);
            if last == 0 then
              && OldBetween(v, i, lo, hi + 1) == OldBetween(v, i, lo, hi)
              && NewBetween(v, i, lo, hi + 1) == NewBetween(v, i, lo, hi) + {hi}
            else
              && OldBetween(v, i, lo, hi + 1) == OldBetween(v, i, lo, hi) + {last} && last !in OldBetween(v, i, lo, hi)
              && NewBetween(v, i, lo, hi + 1) == NewBetween(v, i, lo, hi)
  {
    hide Sound, SlotAt;
    if Data(v, i, hi) != 0 {
      forall bn: nat | lo <= bn < hi && Data(v, i, bn) != 0
        ensures Data(v, i, bn) != Data(v, i, hi)
      {
        SlotInside(v, owner, start, Place(i, DataSlot(bn)));
        SlotInside(v, owner, start, Place(i, DataSlot(hi)));
      }
    }
  }

  /** The blocks from lo up to hi are there, all different, or missing. */
  lemma {:induction false} BetweenCard(v: Volume, owner: map<nat, Place>, start: nat, i: nat, lo: nat, hi: nat)
    requires Sound(v, owner, start) && i < |v.inodes| && lo <= hi <= MAXFILE
    ensures |OldBetween(v, i, lo, hi)| + |NewBetween(v, i, lo, hi)| == hi - lo
    decreases hi - lo
  {
    hide Sound, SlotAt;
    if lo == hi {
      assert OldBetween(v, i, lo, hi) == {} && NewBetween(v, i, lo, hi) == {};
    } else {
      BetweenCard(v, owner, start, i, lo, hi - 1);
      BetweenSnoc(v, owner, start, i, lo, hi - 1);
    }
  }

  lemma OldDataCard(v: Volume, owner: map<nat, Place>, start: nat, i: nat, off: nat, end: nat)
    requires Sound(v, owner, start) && i < |v.inodes| && end <= MAXFILE * BSIZE
    ensures |OldData(v, i, off, end)| + |NewBlocks(v, i, off, end)| == Spans(off, end)
  {
    hide Sound, SlotAt;
    if off < end {
      var lo, hi := off / BSIZE, (end - 1) / BSIZE + 1;
      forall bn: nat
        ensures bn < MAXFILE && Covers(off, end, bn) <==> lo <= bn < hi
      {
      }
      BetweenCard(v, owner, start, i, lo, hi);
      assert OldData(v, i, off, end) == OldBetween(v, i, lo, hi);
      assert NewBlocks(v, i, off, end) == NewBetween(v, i, lo, hi);
    } else {
      assert OldData(v, i, off, end) == {} && NewBlocks(v, i, off, end) == {};
    }
  }

  /** A file without holes needs new blocks only from the first whole block on. */
  lemma NewBlocksCard(v: Volume, i: nat, off: nat, end: nat)
    requires i < |v.inodes| && Dense(v, i) && off <= v.inodes[i].size && off < end
    ensures |NewBlocks(v, i, off, end)| <= Spans(off, end) - if off % BSIZE != 0 then 1 else 0
  {
    hide SlotAt;
    var lo := if off % BSIZE != 0 then off / BSIZE + 1 else off / BSIZE;
    var hi := (end - 1) / BSIZE + 1;
    forall bn | bn in NewBlocks(v, i, off, end)
      ensures lo <= bn < hi
    {
    }
    SubsetCard(NewBlocks(v, i, off, end), lo, hi);
  }

  // --- the blocks of a range are different from each other --------------------------------

  ghost predicate Layout(v: Volume, inodestart: nat, bmapstart: nat, start: nat) {
    Fits(|v.inodes|, |v.used|, inodestart, bmapstart, start)
  }

  /** Old blocks are data, and not the table. */
  lemma OldAbove(v: Volume, owner: map<nat, Place>, start: nat, i: nat, off: nat, end: nat, a: nat)
    requires Sound(v, owner, start) && i < |v.inodes| && a in OldData(v, i, off, end)
    ensures start <= a < |v.used| && v.used[a] && a != v.inodes[i].addrs[TABLE]
  {
    var bn: nat :| bn < MAXFILE && Covers(off, end, bn) && Data(v, i, bn) != 0 && a == Data(v, i, bn);
    SlotInside(v, owner, start, Place(i, DataSlot(bn)));
    if v.inodes[i].addrs[TABLE] != 0 {
      SlotInside(v, owner, start, Place(i, TABLE));
    }
  }

  lemma FreeAbove(v: Volume, owner: map<nat, Place>, start: nat, k: nat, a: nat)
    requires Sound(v, owner, start) && a in FirstFree(v.used, k)
    ensures start <= a < |v.used| && !v.used[a]
  {
    assert BlockFine(v, owner, start, a);
  }

  lemma MapsBelow(v: Volume, inodestart: nat, bmapstart: nat, start: nat, news: set<nat>, m: nat)
    requires Layout(v, inodestart, bmapstart, start) && m in Maps(bmapstart, news)
             && forall c | c in news :: c < |v.used|
    ensures bmapstart <= m < start
  {
  }

  lemma UnionCard(a: set<nat>, b: set<nat>)
    requires a !! b
    ensures |a + b| == |a| + |b|
  {
  }

  /**
    How many blocks writing a range logs, read off the volume before the write: the data blocks, the
    blocks of the free map for the lowest free blocks it takes, and the table if an entry is new.
  */
  ghost function LogCount(v: Volume, bmapstart: nat, i: nat, off: nat, end: nat): nat
    requires i < |v.inodes|
  {
    Spans(off, end) + |Maps(bmapstart, FirstFree(v.used, NewCount(v, i, off, end)))|
    + if NewEntry(v, i, off, end) then 1 else 0
  }

  /** Writing a range logs exactly that many blocks, and not the inode, if there are enough free ones. */
  lemma LogSetCard(v: Volume, owner: map<nat, Place>, inodestart: nat, bmapstart: nat, start: nat, i: nat, off: nat,
                   end: nat)
    requires i < |v.inodes| && Sound(v, owner, start) && Layout(v, inodestart, bmapstart, start)
    requires end <= MAXFILE * BSIZE && NewCount(v, i, off, end) <= |Frees(v.used)|
    ensures |LogSet(bmapstart, v, i, off, end)| == LogCount(v, bmapstart, i, off, end)
    ensures inodestart + i / IPB !in LogSet(bmapstart, v, i, off, end)
  {
    hide Sound, SlotAt, Maps, NewEntry, FirstFree, Frees, NewBlocks, OldData;
    var f := FirstFree(v.used, NewCount(v, i, off, end));
    var d, m, t := OldData(v, i, off, end), Maps(bmapstart, f), OldTable(v, i, off, end);
    OldDataCard(v, owner, start, i, off, end);
    FirstFreeCard(v.used, NewCount(v, i, off, end));
    forall a | a in d
      ensures start <= a < |v.used| && v.used[a] && a !in t
    {
      OldAbove(v, owner, start, i, off, end, a);
    }
    forall a | a in f
      ensures start <= a < |v.used| && !v.used[a]
    {
      FreeAbove(v, owner, start, NewCount(v, i, off, end), a);
    }
    forall a | a in m
      ensures bmapstart <= a < start
    {
      MapsBelow(v, inodestart, bmapstart, start, f, a);
    }
    forall a | a in t
      ensures start <= a < |v.used| && v.used[a]
    {
      SlotIsAddr(v, i, TABLE);
      SlotInside(v, owner, start, Place(i, TABLE));
    }
    FourCard(d, f, m, t);
    assert inodestart + i / IPB < bmapstart;
    SoundSizes(v, owner, start);
    assert bmapstart + 0 / BPB < start;
  }

  lemma FourCard(d: set<nat>, f: set<nat>, m: set<nat>, t: set<nat>)
    requires d !! f && (d + f) !! m && (d + f + m) !! t
    ensures |d + (f + m + t)| == |d| + |f| + |m| + |t|
  {
    UnionCard(d, f);
    UnionCard(d + f, m);
    UnionCard(d + f + m, t);
    assert d + (f + m + t) == d + f + m + t;
  }

  /** With the inode as well, when the file grew or its size was set. */
  lemma InodeLogCard(v: Volume, owner: map<nat, Place>, inodestart: nat, bmapstart: nat, start: nat,
                     i: nat, off: nat, end: nat, also: bool)
    requires i < |v.inodes| && Sound(v, owner, start) && Layout(v, inodestart, bmapstart, start)
    requires end <= MAXFILE * BSIZE && NewCount(v, i, off, end) <= |Frees(v.used)|
    ensures |LogSet(bmapstart, v, i, off, end) + if also then {inodestart + i / IPB} else {}| ==
            LogCount(v, bmapstart, i, off, end) + if also then 1 else 0
  {
    hide Sound, LogSet, LogCount, Layout, NewCount, Frees;
    LogSetCard(v, owner, inodestart, bmapstart, start, i, off, end);
    var log := LogSet(bmapstart, v, i, off, end);
    if also {
      UnionCard(log, {inodestart + i / IPB});
    } else {
      assert log + {} == log;
    }
  }

  /** Alone, an operation that logs the inode after the range fits exactly if the count is below the limit. */
  lemma AloneFits(v: Volume, owner: map<nat, Place>, inodestart: nat, bmapstart: nat, start: nat, i: nat, off: nat,
                  end: nat, limit: int)
    requires i < |v.inodes| && Sound(v, owner, start) && Layout(v, inodestart, bmapstart, start)
    requires end <= MAXFILE * BSIZE
    ensures RangeFits({}, bmapstart, v, i, off, end, true, limit) <==>
            NewCount(v, i, off, end) <= |Frees(v.used)| && LogCount(v, bmapstart, i, off, end) < limit
    ensures RangeFits({}, bmapstart, v, i, off, end, true, limit) ==>
            RangeFits({}, bmapstart, v, i, off, end, false, limit)
  {
    hide Sound, LogSet, LogCount, Layout, NewCount, Frees, Before;
    if NewCount(v, i, off, end) <= |Frees(v.used)| {
      LogSetCard(v, owner, inodestart, bmapstart, start, i, off, end);
      assert {} + LogSet(bmapstart, v, i, off, end) == LogSet(bmapstart, v, i, off, end);
      LogWhole(bmapstart, v, i, off, end, {}, limit);
    }
  }

  // --- the bound of filewrite -------------------------------------------------------------

  lemma ChunkSpans(off: nat, n: nat)
    requires 0 < n <= CHUNK
    ensures Spans(off, off + n) <= if off % BSIZE != 0 then 4 else 3
  {
  }

  lemma FirstFreeCard(u: seq<bool>, k: nat)
    ensures |FirstFree(u, k)| == if k < |Frees(u)| then k else |Frees(u)|
  {
    hide Frees;
    FirstFreeBelow(u, k, |u|);
    assert u[..|u|] == u;
    assert FirstFree(u, k) == FirstFreeUpTo(u, k, |u|);
  }

  ghost function FirstFreeUpTo(u: seq<bool>, k: nat, n: nat): set<nat>
    requires n <= |u|
  {
    set b: nat | b < n && !u[b] && |Frees(u[..b])| < k
  }

  lemma FreesSnoc(u: seq<bool>, n: nat)
    requires n < |u|
    ensures |Frees(u[..n + 1])| == |Frees(u[..n])| + if u[n] then 0 else 1
  {
    var a, b := u[..n], u[..n + 1];
    assert forall c | 0 <= c < n :: a[c] == b[c];
    if u[n] {
      assert Frees(b) == Frees(a);
    } else {
      assert Frees(b) == Frees(a) + {n};
    }
  }

  lemma UpToSnoc(u: seq<bool>, k: nat, n: nat)
    requires n < |u|
    ensures n !in FirstFreeUpTo(u, k, n)
    ensures FirstFreeUpTo(u, k, n + 1) ==
            FirstFreeUpTo(u, k, n) + if !u[n] && |Frees(u[..n])| < k then {n} else {}
  {
    hide Frees;
  }

  lemma {:induction false} FirstFreeBelow(u: seq<bool>, k: nat, n: nat)
    requires n <= |u|
    ensures |FirstFreeUpTo(u, k, n)| == if k < |Frees(u[..n])| then k else |Frees(u[..n])|
  {
    hide Frees, FirstFreeUpTo;
    if n == 0 {
      FreesNone(u[..0]);
      NoneUpTo(u, k);
    } else {
      FirstFreeBelow(u, k, n - 1);
      FreesSnoc(u, n - 1);
      UpToSnoc(u, k, n - 1);
    }
  }

  lemma NoneUpTo(u: seq<bool>, k: nat)
    ensures FirstFreeUpTo(u, k, 0) == {}
  {
  }

  /**
    A chunk of a file without holes logs at most MAXOPBLOCKS blocks: up to four data blocks,
    four blocks of the free map, the table and the inode.  The bound is met exactly if all of
    these are needed, which takes an offset inside a block; with one block of free map, as in
    the volumes that mkfs makes, it is 7.
  */
  lemma ChunkBound(v: Volume, bmapstart: nat, i: nat, off: nat, end: nat)
    requires i < |v.inodes| && off < end <= off + CHUNK && Dense(v, i) && off <= v.inodes[i].size
    ensures LogCount(v, bmapstart, i, off, end) + 1 <= MAXOPBLOCKS
    ensures LogCount(v, bmapstart, i, off, end) + 1 == MAXOPBLOCKS <==>
            && Spans(off, end) == 4 && NewEntry(v, i, off, end)
            && |Maps(bmapstart, FirstFree(v.used, NewCount(v, i, off, end)))| == 4
    ensures LogCount(v, bmapstart, i, off, end) + 1 == MAXOPBLOCKS ==> off % BSIZE != 0
    ensures |v.used| <= BPB ==> LogCount(v, bmapstart, i, off, end) + 1 <= 7
  {
    hide SlotAt, Maps, NewEntry, NewBlocks, FirstFree;
    var news := FirstFree(v.used, NewCount(v, i, off, end));
    NewBlocksCard(v, i, off, end);
    FirstFreeCard(v.used, NewCount(v, i, off, end));
    MapsCard(bmapstart, news);
    ChunkSpans(off, end - off);
    if |v.used| <= BPB {
      OneMapBlock(v.used, bmapstart, NewCount(v, i, off, end));
    }
  }

  lemma NewBlocksSpan(v: Volume, i: nat, off: nat, end: nat)
    requires i < |v.inodes| && off < end
    ensures |NewBlocks(v, i, off, end)| <= Spans(off, end)
  {
    hide SlotAt;
    var lo, hi := off / BSIZE, (end - 1) / BSIZE + 1;
    forall bn | bn in NewBlocks(v, i, off, end)
      ensures lo <= bn < hi
    {
    }
    SubsetCard(NewBlocks(v, i, off, end), lo, hi);
  }

  /**
    A chunk of any file, with holes or without, logs at most one block more than MAXOPBLOCKS, and
    does so exactly if it spans four blocks and the lowest free blocks it takes, four of data and the
    table, lie in five blocks of the free map.
  */
  lemma HolesBound(v: Volume, bmapstart: nat, i: nat, off: nat, end: nat)
    requires i < |v.inodes| && off < end <= off + CHUNK
    ensures LogCount(v, bmapstart, i, off, end) + 1 <= MAXOPBLOCKS + 1
    ensures LogCount(v, bmapstart, i, off, end) + 1 > MAXOPBLOCKS <==>
            Spans(off, end) == 4 && |Maps(bmapstart, FirstFree(v.used, NewCount(v, i, off, end)))| == 5
  {
    hide SlotAt, Maps, NewEntry, NewBlocks, FirstFree;
    var news := FirstFree(v.used, NewCount(v, i, off, end));
    NewBlocksSpan(v, i, off, end);
    FirstFreeCard(v.used, NewCount(v, i, off, end));
    MapsCard(bmapstart, news);
    ChunkSpans(off, end - off);
  }

  /** A chunk logs too little to fill the list when it is alone. */
  lemma ChunkFits(v: Volume, owner: map<nat, Place>, inodestart: nat, bmapstart: nat, start: nat, i: nat, off: nat,
                  end: nat, also: bool, limit: int)
    requires i < |v.inodes| && Sound(v, owner, start) && Layout(v, inodestart, bmapstart, start)
    requires off < end <= off + CHUNK && end <= MAXFILE * BSIZE && limit > MAXOPBLOCKS
    ensures RangeFits({}, bmapstart, v, i, off, end, also, limit) <==> NewCount(v, i, off, end) <= |Frees(v.used)|
  {
    hide Sound, LogSet, Layout, LogCount, NewCount, Frees, Before, Room;
    AloneFits(v, owner, inodestart, bmapstart, start, i, off, end, limit);
    HolesBound(v, bmapstart, i, off, end);
  }

  /**
    Freeing a file logs its blocks of the free map and the block of its inode: at most two blocks where
    the free map is one, as in the volumes that mkfs makes.
  */
  lemma FreeBound(v: Volume, owner: map<nat, Place>, inodestart: nat, bmapstart: nat, start: nat, i: nat)
    requires i < |v.inodes| && Sound(v, owner, start) && Layout(v, inodestart, bmapstart, start)
    ensures var maps := Maps(bmapstart, Owned(owner, i));
            && |maps + {inodestart + i / IPB}| == |maps| + 1 <= (|v.used| - 1) / BPB + 2
            && |maps| <= |Owned(owner, i)| && (|v.used| <= BPB ==> |maps| + 1 <= 2)
  {
    var own := Owned(owner, i);
    var maps := Maps(bmapstart, own);
    SoundSizes(v, owner, start);
    forall b | b in own
      ensures b < |v.used|
    {
    }
    forall m | m in maps
      ensures bmapstart <= m < bmapstart + (|v.used| - 1) / BPB + 1
    {
      var b :| b in own && m == bmapstart + b / BPB;
      assert b / BPB <= (|v.used| - 1) / BPB;
    }
    SubsetCard(maps, bmapstart, bmapstart + (|v.used| - 1) / BPB + 1);
    MapsCard(bmapstart, own);
    assert inodestart + i / IPB < bmapstart;
    UnionCard(maps, {inodestart + i / IPB});
  }

  lemma OneMapBlock(u: seq<bool>, bmapstart: nat, k: nat)
    requires |u| <= BPB
    ensures |Maps(bmapstart, FirstFree(u, k))| <= 1
  {
    SubsetCard(Maps(bmapstart, FirstFree(u, k)), bmapstart, bmapstart + 1);
  }
}
