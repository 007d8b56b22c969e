/** Files as byte sequences: what a written range and a new size mean for the contents. */
module FsContent {
  import opened FsVolume
  import opened FsSteps
  import opened FsRanges

  /** src laid over c at off, making it longer if need be. */
  function Overwrite(c: seq<Byte>, off: nat, src: seq<Byte>): seq<Byte>
    requires off <= |c|
  {
    c[..off] + src + if off + |src| < |c| then c[off + |src|..] else []
  }

  lemma OverwriteLength(c: seq<Byte>, off: nat, src: seq<Byte>)
    requires off <= |c|
    ensures |Overwrite(c, off, src)| == Max(|c|, off + |src|)
  {
  }

  lemma OverwriteTwice(c: seq<Byte>, off: nat, x: seq<Byte>, y: seq<Byte>)
    requires off <= |c|
    ensures off + |x| <= |Overwrite(c, off, x)|
    ensures Overwrite(Overwrite(c, off, x), off + |x|, y) == Overwrite(c, off, x + y)
  {
  }

  /** c cut to n bytes, or extended to n bytes with zeros. */
  function Resize(c: seq<Byte>, n: nat): seq<Byte> {
    if n <= |c| then c[..n] else c + seq(n - |c|, _ => 0)
  }

  /** changesize zeroes the bytes between the old size and the new one. */
  function ZeroedFrom(size: nat, n: nat): nat { if n > size then size else n }

  function Zeroes(size: nat, n: nat): seq<Byte> { seq(if n > size then n - size else size - n, _ => 0) }

  lemma ZeroedEnd(size: nat, n: nat)
    ensures ZeroedFrom(size, n) + |Zeroes(size, n)| == Max(size, n) && ZeroedFrom(size, n) <= size
  {
  }

  function Max(a: nat, b: nat): nat { if a < b then b else a }

  function SetSize(v: Volume, i: nat, n: nat): Volume
    requires i < |v.inodes|
  {
    v.(inodes := v.inodes[i := v.inodes[i].(size := n)])
  }

  lemma SetSizeIs(v: Volume, i: nat, n: nat)
    requires i < |v.inodes|
    ensures SetSize(v, i, n) == Volume(v.used, v.blocks, v.inodes[i := v.inodes[i].(size := n)])
  {
  }

  lemma SetSizeKeeps(v: Volume, owner: map<nat, Place>, start: nat, i: nat, n: nat)
    requires Sound(v, owner, start) && i < |v.inodes| && n <= MAXFILE * BSIZE
    ensures Sound(SetSize(v, i, n), owner, start)
    ensures forall p | IsPlace(v, p) :: SlotAt(SetSize(v, i, n), p) == SlotAt(v, p)
    ensures forall k | 0 <= k < |v.inodes| :: SameBytes(v, SetSize(v, i, n), k)
  {
    hide Sound, Word;
    var w := SetSize(v, i, n);
    SoundSizes(v, owner, start);
    forall p | IsPlace(v, p)
      ensures SlotAt(w, p) == SlotAt(v, p)
    {
    }
    forall k | 0 <= k < |w.inodes|
      ensures InodeFine(w.inodes[k])
    {
      assert InodeFine(v.inodes[k]);
    }
    SoundSame(v, w, owner, start);
    forall k, bn, o | 0 <= k < |v.inodes| && 0 <= bn < MAXFILE && 0 <= o < BSIZE
      ensures Cell(w, k, bn, o) == Cell(v, k, bn, o)
    {
      assert IsPlace(v, Place(k, DataSlot(bn)));
    }
    forall k | 0 <= k < |v.inodes|
      ensures SameBytes(v, w, k)
    {
    }
  }

  lemma SameContent(v: Volume, w: Volume, i: nat)
    requires i < |v.inodes| == |w.inodes| && SameBytes(v, w, i)
             && w.inodes[i].size == v.inodes[i].size <= MAXFILE * BSIZE
    ensures Content(w, i) == Content(v, i)
  {
    hide Cell;
    forall k | 0 <= k < v.inodes[i].size
      ensures ByteAt(w, i, k) == ByteAt(v, i, k)
    {
    }
  }

  /** The bytes below n of a file that src has been written into. */
  lemma WrittenContent(v: Volume, w: Volume, x: Volume, i: nat, off: nat, src: seq<Byte>)
    requires i < |v.inodes| == |w.inodes| == |x.inodes| && Written(v, w, i, off, src) && SameBytes(w, x, i)
    requires v.inodes[i].size <= MAXFILE * BSIZE && x.inodes[i].size <= MAXFILE * BSIZE
             && off + |src| <= MAXFILE * BSIZE
    ensures var c := Content(v, i);
            && (x.inodes[i].size == Max(|c|, off + |src|) && off <= |c| ==> Content(x, i) == Overwrite(c, off, src))
            && (x.inodes[i].size == |c| && src == [] ==> Content(x, i) == c)
  {
    hide Cell;
    forall k | 0 <= k < MAXFILE * BSIZE
      ensures ByteAt(x, i, k) == ByteAt(w, i, k)
    {
    }
  }

  lemma ResizedContent(v: Volume, w: Volume, x: Volume, i: nat, n: nat)
    requires i < |v.inodes| == |w.inodes| == |x.inodes| && SameBytes(w, x, i)
    requires v.inodes[i].size <= MAXFILE * BSIZE && x.inodes[i].size == n <= MAXFILE * BSIZE
    requires Written(v, w, i, ZeroedFrom(v.inodes[i].size, n), Zeroes(v.inodes[i].size, n))
    ensures Content(x, i) == Resize(Content(v, i), n)
  {
    hide Cell;
    forall k | 0 <= k < MAXFILE * BSIZE
      ensures ByteAt(x, i, k) == ByteAt(w, i, k)
    {
    }
  }

  /** A file without holes stays one. */
  lemma StaysDense(v: Volume, w: Volume, x: Volume, i: nat, off: nat, src: seq<Byte>, news: set<nat>)
    requires i < |v.inodes| && Dense(v, i) && RangeDone(v, w, i, off, src, news) && off <= v.inodes[i].size
    requires |x.inodes| == |w.inodes| && forall p | IsPlace(w, p) :: SlotAt(x, p) == SlotAt(w, p)
    requires i < |x.inodes| && x.inodes[i].size <= Max(v.inodes[i].size, off + |src|)
    ensures Dense(x, i)
  {
    hide SlotAt, Written, NewCount, Marked;
    forall bn | 0 <= bn < MAXFILE && bn * BSIZE < x.inodes[i].size
      ensures Data(x, i, bn) != 0
    {
      var p := Place(i, DataSlot(bn));
      assert IsPlace(v, p) && IsPlace(w, p);
      if bn * BSIZE < v.inodes[i].size {
        assert Data(v, i, bn) != 0;
      } else {
        assert Covers(off, off + |src|, bn);
      }
    }
  }

  /** The direct blocks of the range, or the table they need, are there. */
  ghost predicate HasHeads(v: Volume, i: nat, off: nat, end: nat)
    requires i < |v.inodes|
  {
    forall bn | 0 <= bn < MAXFILE && Covers(off, end, bn) :: v.inodes[i].addrs[Head(bn)] != 0
  }

  /** The inode itself changes exactly if a direct block or the table had to be allocated. */
  lemma InodeSame(v: Volume, w: Volume, i: nat, off: nat, src: seq<Byte>, news: set<nat>)
    requires i < |v.inodes| && RangeDone(v, w, i, off, src, news) && off + |src| <= MAXFILE * BSIZE
    ensures |w.inodes| == |v.inodes|
    ensures w.inodes[i] == v.inodes[i] <==> HasHeads(v, i, off, off + |src|)
  {
    hide Written, NewCount, Marked, SlotAt;
    var end := off + |src|;
    assert SameFile(v.inodes[i], w.inodes[i]);
    if HasHeads(v, i, off, end) {
      forall j | 0 <= j <= TABLE
        ensures w.inodes[i].addrs[j] == v.inodes[i].addrs[j]
      {
        SlotIsAddr(v, i, j);
        SlotIsAddr(w, i, j);
        assert IsPlace(v, Place(i, j));
        if SlotInRange(off, end, j) {
          HeadCovered(off, end, j);
        }
      }
      assert w.inodes[i].addrs == v.inodes[i].addrs;
    } else {
      var bn :| 0 <= bn < MAXFILE && Covers(off, end, bn) && v.inodes[i].addrs[Head(bn)] == 0;
      assert Data(w, i, bn) != 0;
      SlotIsAddr(w, i, Head(bn));
      if bn >= NDIRECT {
        NoTable(w, i, bn - NDIRECT);
      }
    }
  }

  lemma HeadCovered(off: nat, end: nat, j: nat)
    requires j <= TABLE && SlotInRange(off, end, j) && end <= MAXFILE * BSIZE
    ensures exists bn :: 0 <= bn < MAXFILE && Covers(off, end, bn) && Head(bn) == j
  {
    var bn := if j < TABLE then j else (end - 1) / BSIZE;
    assert Covers(off, end, bn) && Head(bn) == j && bn < MAXFILE;
  }

  // --- what writei and changesize do ------------------------------------------------------

  /** The other files keep inode, blocks and bytes. */
  ghost predicate OthersKept(v: Volume, w: Volume, i: nat) {
    && OthersSame(v.inodes, w.inodes, i) && OtherSlots(v, w, i)
    && forall k | 0 <= k < |v.inodes| && k != i :: SameBytes(v, w, k)
  }

  /** No file has a hole. */
  ghost predicate FilesDense(v: Volume) {
    forall k | 0 <= k < |v.inodes| && v.inodes[k].kind == File :: Dense(v, k)
  }

  lemma KeptOthers(v: Volume, w: Volume, i: nat)
    requires Kept(v, w) && OthersSame(v.inodes, w.inodes, i) && OtherSlots(v, w, i)
    ensures OthersKept(v, w, i)
  {
  }

  lemma OthersDense(v: Volume, w: Volume, i: nat)
    requires FilesDense(v) && OthersKept(v, w, i)
    requires i < |w.inodes| && w.inodes[i].kind == File ==> Dense(w, i)
    ensures FilesDense(w)
  {
    hide SlotAt;
    forall k | 0 <= k < |w.inodes| && w.inodes[k].kind == File
      ensures Dense(w, k)
    {
      if k != i {
        forall bn | 0 <= bn < MAXFILE && bn * BSIZE < w.inodes[k].size
          ensures Data(w, k, bn) != 0
        {
          assert IsPlace(v, Place(k, DataSlot(bn)));
          assert Data(v, k, bn) != 0;
        }
      }
    }
  }

  lemma SlotsDense(v: Volume, w: Volume)
    requires FilesDense(v) && Kept(v, w) && SlotsKept(v, w)
    ensures FilesDense(w)
  {
    hide SlotAt;
    forall k | 0 <= k < |w.inodes| && w.inodes[k].kind == File
      ensures Dense(w, k)
    {
      assert SameFile(v.inodes[k], w.inodes[k]);
      forall bn | 0 <= bn < MAXFILE && bn * BSIZE < w.inodes[k].size
        ensures Data(w, k, bn) != 0
      {
        assert IsPlace(v, Place(k, DataSlot(bn)));
        assert Data(v, k, bn) != 0;
      }
    }
  }

  /** File i changed through a range of bytes and a new size; blocks `news` were allocated. */
  ghost predicate Updated(v: Volume, w: Volume, i: nat, off: nat, src: seq<Byte>, news: set<nat>)
    requires i < |v.inodes|
  {
    && OthersKept(v, w, i) && w.inodes[i].kind == v.inodes[i].kind && w.inodes[i].nlink == v.inodes[i].nlink
    && (Dense(v, i) && off <= v.inodes[i].size ==> Dense(w, i))
    && Marked(v.used, w.used, news) && Mapped(v, w, i, off, off + |src|, |news|)
  }

  lemma WrittenSame(v: Volume, w: Volume, x: Volume, i: nat, off: nat, src: seq<Byte>, news: set<nat>)
    requires i < |v.inodes| && Updated(v, x, i, off, src, news) && |w.inodes| == |v.inodes|
    requires Written(v, w, i, off, src) && SameBytes(w, x, i)
    ensures Written(v, x, i, off, src)
  {
    hide Cell, Dense, Marked, Mapped;
    forall k | 0 <= k < MAXFILE * BSIZE
      ensures ByteAt(x, i, k) == ByteAt(w, i, k)
    {
    }
  }

  lemma UpdatedDense(v: Volume, w: Volume, i: nat, off: nat, src: seq<Byte>, news: set<nat>)
    requires i < |v.inodes| && Updated(v, w, i, off, src, news) && off <= v.inodes[i].size
    ensures FilesDense(v) ==> FilesDense(w)
  {
    hide Dense, Mapped, Marked;
    if FilesDense(v) {
      OthersDense(v, w, i);
    }
  }

  lemma UpdatedOthers(v: Volume, w: Volume, i: nat, off: nat, src: seq<Byte>, news: set<nat>)
    requires i < |v.inodes| && Updated(v, w, i, off, src, news)
    ensures OthersKept(v, w, i) && w.inodes[i].kind == v.inodes[i].kind
    ensures Dense(v, i) && off <= v.inodes[i].size ==> Dense(w, i)
  {
  }

  lemma UpdatedRange(v: Volume, w: Volume, owner: map<nat, Place>, start: nat, i: nat, off: nat, src: seq<Byte>,
                     news: set<nat>, n: nat)
    requires i < |v.inodes| && RangeDone(v, w, i, off, src, news) && i < |w.inodes| && Sound(w, owner, start)
    requires n <= MAXFILE * BSIZE && n <= Max(v.inodes[i].size, off + |src|)
    ensures Sound(SetSize(w, i, n), owner, start) && Updated(v, SetSize(w, i, n), i, off, src, news)
    ensures SameBytes(w, SetSize(w, i, n), i)
  {
    hide Sound, NewCount, Marked, SlotAt, Cell, Mapped;
    var x := SetSize(w, i, n);
    assert forall p | IsPlace(v, p) :: IsPlace(w, p);
    RangeMapped(v, w, i, off, src, news);
    MappedSetSize(v, w, i, off, off + |src|, |news|, n);
    SetSizeKeeps(w, owner, start, i, n);
    assert SameFile(v.inodes[i], w.inodes[i]);
    forall k | 0 <= k < |v.inodes| && k != i
      ensures SameBytes(v, x, k)
    {
      assert SameBytes(v, w, k) && SameBytes(w, x, k);
    }
    if Dense(v, i) && off <= v.inodes[i].size {
      StaysDense(v, w, x, i, off, src, news);
    }
  }

  /** The size of a file says nothing about its slots. */
  lemma MappedSetSize(v: Volume, w: Volume, i: nat, off: nat, end: nat, k: nat, n: nat)
    requires Mapped(v, w, i, off, end, k)
    ensures Mapped(v, SetSize(w, i, n), i, off, end, k)
  {
    hide NewCount, Covers;
    var x := SetSize(w, i, n);
    forall p | IsPlace(w, p)
      ensures SlotAt(x, p) == SlotAt(w, p)
    {
    }
    forall bn | 0 <= bn < MAXFILE && Covers(off, end, bn)
      ensures Data(x, i, bn) != 0
    {
      assert IsPlace(w, Place(i, DataSlot(bn)));
    }
  }

  /** File i has n bytes now: cut, or extended with zeros; blocks `news` were allocated. */
  ghost predicate Resized(v: Volume, w: Volume, i: nat, n: nat, news: set<nat>)
    requires i < |v.inodes| && v.inodes[i].size <= MAXFILE * BSIZE
  {
    var off, src := ZeroedFrom(v.inodes[i].size, n), Zeroes(v.inodes[i].size, n);
    && Updated(v, w, i, off, src, news) && Written(v, w, i, off, src)
    && w.inodes[i].size == n <= MAXFILE * BSIZE && Content(w, i) == Resize(Content(v, i), n)
  }

  lemma ResizedDense(v: Volume, w: Volume, i: nat, n: nat, news: set<nat>)
    requires i < |v.inodes| && v.inodes[i].size <= MAXFILE * BSIZE && Resized(v, w, i, n, news)
    ensures FilesDense(v) ==> FilesDense(w)
  {
    hide FilesDense, Updated, Written, Content, Resize;
    UpdatedDense(v, w, i, ZeroedFrom(v.inodes[i].size, n), Zeroes(v.inodes[i].size, n), news);
  }

  lemma ResizeDone(v: Volume, w: Volume, owner: map<nat, Place>, start: nat, i: nat, n: nat, news: set<nat>)
    requires i < |v.inodes| && n <= MAXFILE * BSIZE && v.inodes[i].size <= MAXFILE * BSIZE && Sound(w, owner, start)
    requires RangeDone(v, w, i, ZeroedFrom(v.inodes[i].size, n), Zeroes(v.inodes[i].size, n), news)
    ensures |w.inodes| == |v.inodes|
    ensures Sound(SetSize(w, i, n), owner, start) && Resized(v, SetSize(w, i, n), i, n, news)
  {
    hide RangeDone, Sound, Updated, Written, Content, Resize;
    var off, src := ZeroedFrom(v.inodes[i].size, n), Zeroes(v.inodes[i].size, n);
    RangeShape(v, w, i, off, src, news);
    RangeWritten(v, w, i, off, src, news);
    UpdatedRange(v, w, owner, start, i, off, src, news, n);
    ResizedContent(v, w, SetSize(w, i, n), i, n);
    WrittenSame(v, w, SetSize(w, i, n), i, off, src, news);
  }

  // --- reading ----------------------------------------------------------------------------

  lemma FilledHas(v: Volume, i: nat, at: nat, off: nat, end: nat)
    requires i < |v.inodes| && at <= off < end <= MAXFILE * BSIZE
    ensures off / BSIZE < MAXFILE && (Filled(v, i, at, end) ==> Data(v, i, off / BSIZE) != 0)
  {
    assert Covers(at, end, off / BSIZE);
  }

  lemma DenseFilled(v: Volume, i: nat, at: nat, end: nat)
    requires i < |v.inodes| && end <= v.inodes[i].size
    ensures Dense(v, i) ==> Filled(v, i, at, end)
  {
    hide SlotAt;
  }

  /** The bytes that lie in the block at off are the contents from off on. */
  lemma BytesRead(v: Volume, w: Volume, i: nat, off: nat, m: nat)
    requires Kept(v, w) && i < |v.inodes| == |w.inodes| && off + m <= v.inodes[i].size <= MAXFILE * BSIZE
    requires 0 < m <= BSIZE - off % BSIZE && 0 < Data(w, i, off / BSIZE) < |w.blocks|
    ensures w.blocks[Data(w, i, off / BSIZE)][off % BSIZE..off % BSIZE + m] == Content(v, i)[off..off + m]
  {
    hide SlotAt, Data;
    assert SameBytes(v, w, i);
    var bn, o, c := off / BSIZE, off % BSIZE, Content(v, i);
    forall k | off <= k < off + m
      ensures c[k] == w.blocks[Data(w, i, bn)][o + (k - off)]
    {
      Chunk(off, m, k);
      assert Cell(w, i, bn, o + (k - off)) == Cell(v, i, bn, o + (k - off));
      assert c[k] == ByteAt(v, i, k) == Cell(v, i, bn, o + (k - off));
    }
    var b := w.blocks[Data(w, i, bn)][o..o + m];
    forall k | 0 <= k < m
      ensures b[k] == c[off..off + m][k]
    {
      assert c[off + k] == w.blocks[Data(w, i, bn)][o + (off + k - off)];
    }
  }

  lemma ChangedBytes(v: Volume, w: Volume, i: nat, off: nat, m: nat, news: set<nat>)
    requires i < |v.inodes| && Changed(v, w, i, off / BSIZE, news) && i < |w.inodes|
    requires off + m <= v.inodes[i].size <= MAXFILE * BSIZE
    requires 0 < m <= BSIZE - off % BSIZE && 0 < Data(w, i, off / BSIZE) < |w.blocks|
    ensures w.blocks[Data(w, i, off / BSIZE)][off % BSIZE..off % BSIZE + m] == Content(v, i)[off..off + m]
  {
    hide Content, SlotAt, Marked;
    BytesRead(v, w, i, off, m);
  }

  lemma TakenContent(v: Volume, w: Volume, i: nat, off: nat, end: nat, got: set<nat>)
    requires Taken(v, w, i, off, end, got) && i < |v.inodes| == |w.inodes| && SameFile(v.inodes[i], w.inodes[i])
    requires v.inodes[i].size <= MAXFILE * BSIZE
    ensures Content(w, i) == Content(v, i)
  {
    hide Mapped, Marked, Cell;
    assert SameBytes(v, w, i);
    forall k | 0 <= k < v.inodes[i].size
      ensures ByteAt(w, i, k) == ByteAt(v, i, k)
    {
    }
  }

  lemma ContentLength(v: Volume, i: nat)
    requires i < |v.inodes| && v.inodes[i].size <= MAXFILE * BSIZE
    ensures |Content(v, i)| == v.inodes[i].size
  {
  }

  lemma Pieces(c: seq<Byte>, at: nat, off: nat, end: nat)
    requires at <= off <= end <= |c|
    ensures c[at..off] + c[off..end] == c[at..end]
  {
  }

  // --- freeing ----------------------------------------------------------------------------

  /** Only file i loses blocks. */
  ghost predicate OwnersKept(x: map<nat, Place>, y: map<nat, Place>, i: nat) {
    && (forall b | b in y :: b in x && y[b] == x[b])
    && (forall b | b in x && x[b].inum != i :: b in y)
  }

  lemma OthersSelf(v: Volume, i: nat)
    ensures OthersKept(v, v, i)
  {
    KeptSelf(v);
  }

  lemma OthersMore(u: Volume, v: Volume, w: Volume, i: nat)
    requires OthersKept(u, v, i) && OthersKept(v, w, i)
    ensures OthersKept(u, w, i)
  {
    hide Cell, SlotAt;
    OtherSlotsMore(u, v, w, i);
    forall k | 0 <= k < |u.inodes| && k != i
      ensures SameBytes(u, w, k)
    {
      assert SameBytes(u, v, k) && SameBytes(v, w, k);
    }
  }

  lemma FreeDirectIs(v: Volume, i: nat, j: nat)
    requires i < |v.inodes| && j <= TABLE && v.inodes[i].addrs[j] < |v.used|
    ensures var ip := v.inodes[i];
            FreeDirect(v, i, j) ==
            Volume(v.used[ip.addrs[j] := false], v.blocks, v.inodes[i := ip.(addrs := ip.addrs[j := 0])])
  {
  }

  lemma FreeOthers(v: Volume, w: Volume, owner: map<nat, Place>, start: nat, q: Place, t: nat)
    requires Sound(v, owner, start) && IsPlace(v, q) && SlotsChanged(v, w, q, 0)
    requires OthersSame(v.inodes, w.inodes, q.inum)
    requires forall c | 0 <= c < |v.blocks| && c != t :: w.blocks[c] == v.blocks[c]
    requires t == 0 || SlotAt(v, Place(q.inum, TABLE)) == t
    ensures OthersKept(v, w, q.inum)
  {
    hide Sound, SlotAt;
    forall k | 0 <= k < |v.inodes| && k != q.inum
      ensures SameBytes(v, w, k)
    {
      FreeKeepsOthers(v, w, owner, start, q, t, k);
    }
  }

  /** z is v except for what block t holds. */
  ghost predicate Shadow(v: Volume, z: Volume, t: nat) {
    && z.used == v.used && z.inodes == v.inodes && |z.blocks| == |v.blocks|
    && forall c | 0 <= c < |v.blocks| && c != t :: z.blocks[c] == v.blocks[c]
  }

  /** The first e entries of the table are cleared, the others are as in block a. */
  ghost predicate Cleared(z: Volume, i: nat, e: nat, a: Block)
    requires i < |z.inodes| && e <= NINDIRECT
  {
    forall k | TABLE < k < SLOTS :: SlotAt(z, Place(i, k)) == if k < 13 + e then 0 else Word(a, k - 13)
  }

  lemma ClearedNone(v: Volume, owner: map<nat, Place>, start: nat, i: nat)
    requires Sound(v, owner, start) && i < |v.inodes| && v.inodes[i].addrs[TABLE] != 0
    ensures v.inodes[i].addrs[TABLE] < |v.blocks| && Cleared(v, i, 0, v.blocks[v.inodes[i].addrs[TABLE]])
  {
    SlotInside(v, owner, start, Place(i, TABLE));
  }

  lemma EntryFree(z: Volume, owner: map<nat, Place>, start: nat, i: nat, e: nat, a: Block)
    requires Sound(z, owner, start) && i < |z.inodes| && z.inodes[i].kind != Free && e < NINDIRECT
    requires z.inodes[i].addrs[TABLE] != 0 && Cleared(z, i, e, a)
    ensures Word(a, e) == 0 ==> Cleared(z, i, e + 1, a)
    ensures
      Word(a, e) != 0 ==>
        && start <= Word(a, e) < |z.used| && z.used[Word(a, e)] && Word(a, e) in owner && owner[Word(a, e)].inum == i
        && z.inodes[i].addrs[TABLE] < |z.blocks| && Word(z.blocks[z.inodes[i].addrs[TABLE]], e) == Word(a, e)
        && Cleared(FreeEntry(z, i, e), i, e + 1, a) && Sound(FreeEntry(z, i, e), owner - {Word(a, e)}, start)
        && OthersKept(z, FreeEntry(z, i, e), i)
        && Shadow(z.(used := z.used[Word(a, e) := false]), FreeEntry(z, i, e), z.inodes[i].addrs[TABLE])
  {
    hide Sound, Word, SlotAt;
    assert SlotAt(z, Place(i, 13 + e)) == Word(a, e);
    if Word(a, e) != 0 {
      FreeEntrySlots(z, owner, start, i, e);
      SlotInside(z, owner, start, Place(i, 13 + e));
      var t := z.inodes[i].addrs[TABLE];
      SlotIsAddr(z, i, TABLE);
      var w := FreeEntry(z, i, e);
      forall k | TABLE < k < SLOTS
        ensures SlotAt(w, Place(i, k)) == if k < 13 + (e + 1) then 0 else Word(a, k - 13)
      {
        assert IsPlace(z, Place(i, k));
      }
      FreeOthers(z, w, owner, start, Place(i, 13 + e), t);
    }
  }

  lemma TableFree(z: Volume, owner: map<nat, Place>, start: nat, i: nat, a: Block)
    requires Sound(z, owner, start) && i < |z.inodes| && z.inodes[i].kind != Free
    requires z.inodes[i].addrs[TABLE] != 0 && Cleared(z, i, NINDIRECT, a)
    ensures var t := z.inodes[i].addrs[TABLE];
            && start <= t < |z.used| == |z.blocks| && z.used[t] && t in owner && owner[t].inum == i
            && FreeDirect(z, i, TABLE) ==
               Volume(z.used[t := false], z.blocks, z.inodes[i := z.inodes[i].(addrs := z.inodes[i].addrs[TABLE := 0])])
            && Sound(FreeDirect(z, i, TABLE), owner - {t}, start)
            && OthersKept(z, FreeDirect(z, i, TABLE), i)
  {
    hide Sound, Word, SlotAt;
    SlotIsAddr(z, i, TABLE);
    SoundSizes(z, owner, start);
    SlotInside(z, owner, start, Place(i, TABLE));
    assert forall k | TABLE < k < SLOTS :: SlotAt(z, Place(i, k)) == 0;
    FreeDirectSlots(z, owner, start, i, TABLE);
    FreeOthers(z, FreeDirect(z, i, TABLE), owner, start, Place(i, TABLE), 0);
  }

  lemma TableGone(y: Volume, owner: map<nat, Place>, start: nat, i: nat, t: nat, a: Block)
    requires Sound(y, owner, start) && t < |y.blocks| && t !in owner
    ensures Sound(SetBlock(y, t, a), owner, start) && OthersKept(y, SetBlock(y, t, a), i)
  {
    hide Sound;
    Unowned(y, owner, start, t, a);
  }

  ghost function OthersOf(owner: map<nat, Place>, i: nat): map<nat, Place> {
    map b | b in owner && owner[b].inum != i :: owner[b]
  }

  /** The blocks of file i. */
  ghost function Owned(owner: map<nat, Place>, i: nat): set<nat> {
    set b | b in owner && owner[b].inum == i
  }

  ghost predicate Emptied(x: Inode, y: Inode) { y == Inode(x.kind, x.nlink, 0, seq(NDIRECT + 1, _ => 0)) }

  lemma OwnersSelf(x: map<nat, Place>, i: nat)
    ensures OwnersKept(x, x, i)
  {
  }

  lemma OwnersMore(x: map<nat, Place>, y: map<nat, Place>, z: map<nat, Place>, i: nat)
    requires OwnersKept(x, y, i) && OwnersKept(y, z, i)
    ensures OwnersKept(x, z, i)
  {
  }

  lemma OwnersLess(x: map<nat, Place>, b: nat, i: nat)
    requires b in x && x[b].inum == i
    ensures OwnersKept(x, x - {b}, i)
  {
  }

  // The free map's blocks that freeing logs.

  lemma NoneGone(bmapstart: nat, x: map<nat, Place>)
    ensures Maps(bmapstart, x.Keys - x.Keys) == {}
  {
    assert x.Keys - x.Keys == {};
  }

  lemma OneGone(bmapstart: nat, x: map<nat, Place>, b: nat)
    requires b in x
    ensures Maps(bmapstart, x.Keys - (x - {b}).Keys) == {bmapstart + b / BPB}
  {
    assert x.Keys - (x - {b}).Keys == {b};
    MapsOne(bmapstart, b);
  }

  lemma GoneMore(bmapstart: nat, x: map<nat, Place>, y: map<nat, Place>, z: map<nat, Place>, i: nat,
                 a: set<nat>, b: set<nat>, c: set<nat>)
    requires OwnersKept(x, y, i) && OwnersKept(y, z, i)
    requires b == a + Maps(bmapstart, x.Keys - y.Keys) && c == b + Maps(bmapstart, y.Keys - z.Keys)
    ensures c == a + Maps(bmapstart, x.Keys - z.Keys)
  {
    hide Maps;
    assert x.Keys - z.Keys == (x.Keys - y.Keys) + (y.Keys - z.Keys);
    MapsMore(bmapstart, x.Keys - y.Keys, y.Keys - z.Keys);
    Joined(a, Maps(bmapstart, x.Keys - y.Keys), Maps(bmapstart, y.Keys - z.Keys));
  }

  /** The list is full with some of the blocks freed: it would be with all of them. */
  lemma GoneStuck(bmapstart: nat, x: map<nat, Place>, y: map<nat, Place>, i: nat, base: set<nat>, a: set<nat>,
                  limit: int)
    requires OwnersKept(x, y, i) && |base + (a + Maps(bmapstart, x.Keys - y.Keys))| >= limit
    ensures !Room(base + a, Maps(bmapstart, Owned(x, i)), limit)
  {
    hide Maps;
    var some, all := Maps(bmapstart, x.Keys - y.Keys), Maps(bmapstart, Owned(x, i));
    Joined(base, a, some);
    assert x.Keys - y.Keys <= Owned(x, i);
    MapsMono(bmapstart, x.Keys - y.Keys, Owned(x, i));
    if Room(base + a, all, limit) {
      RoomLess(base + a, some, all, limit);
    }
  }

  lemma OwnedGone(x: map<nat, Place>, i: nat)
    ensures x.Keys - OthersOf(x, i).Keys == Owned(x, i)
  {
  }

  lemma OthersSized(w: Volume, owner: map<nat, Place>, start: nat, i: nat)
    requires Sound(w, owner, start) && i < |w.inodes|
    ensures OthersKept(w, SetSize(w, i, 0), i)
  {
    SetSizeKeeps(w, owner, start, i, 0);
  }

  /** A file without addresses owns nothing. */
  lemma AllGone(v: Volume, before: map<nat, Place>, owner: map<nat, Place>, start: nat, i: nat)
    requires Sound(v, owner, start) && i < |v.inodes| && OwnersKept(before, owner, i)
    requires forall k | 0 <= k <= TABLE :: v.inodes[i].addrs[k] == 0
    ensures owner == OthersOf(before, i)
  {
    forall b | b in owner
      ensures owner[b].inum != i
    {
      assert b < |v.used| && BlockFine(v, owner, start, b);
      assert SlotAt(v, owner[b]) == b;
      assert BlockFine(v, owner, start, 0);
    }
  }

  lemma FreedDense(v: Volume, w: Volume, i: nat)
    requires OthersKept(v, w, i) && (i < |w.inodes| ==> w.inodes[i].kind == Free)
    ensures FilesDense(v) ==> FilesDense(w)
  {
    if FilesDense(v) {
      OthersDense(v, w, i);
    }
  }

  lemma FreeKind(w: Volume, owner: map<nat, Place>, start: nat, i: nat)
    requires Sound(w, owner, start) && i < |w.inodes| && forall k | 0 <= k <= TABLE :: w.inodes[i].addrs[k] == 0
    ensures var x := w.(inodes := w.inodes[i := w.inodes[i].(kind := Free)]);
            Sound(x, owner, start) && OthersKept(w, x, i)
  {
    hide Sound, Word;
    var x := w.(inodes := w.inodes[i := w.inodes[i].(kind := Free)]);
    SoundSizes(w, owner, start);
    forall p | IsPlace(w, p)
      ensures SlotAt(x, p) == SlotAt(w, p)
    {
    }
    forall k | 0 <= k < |x.inodes|
      ensures InodeFine(x.inodes[k])
    {
      assert InodeFine(w.inodes[k]);
    }
    SoundSame(w, x, owner, start);
    forall k | 0 <= k < |w.inodes| && k != i
      ensures SameBytes(w, x, k)
    {
      forall bn, o | 0 <= bn < MAXFILE && 0 <= o < BSIZE
        ensures Cell(x, k, bn, o) == Cell(w, k, bn, o)
      {
        assert IsPlace(w, Place(k, DataSlot(bn)));
      }
    }
  }
}
