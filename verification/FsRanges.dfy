/**
  Ranges of bytes within a file: what reading or writing one block after another adds up to,
  and which blocks it logs.
*/
module FsRanges {
  import opened FsVolume
  import opened FsSteps

  const BPB := 4096            // bits in a block of the free map
  const IPB := 8               // inodes in an inode block

  /** The inode slot that bmap looks at first: the direct block or the table. */
  function Head(bn: nat): nat { if bn < NDIRECT then bn else TABLE }

  /** Block bn holds a byte of the range from off up to end. */
  predicate Covers(off: nat, end: nat, bn: nat) { off < end && off / BSIZE <= bn && bn * BSIZE < end }

  /** Every block below the size of file i is allocated. */
  ghost predicate Dense(v: Volume, i: nat)
    requires i < |v.inodes|
  {
    forall bn | 0 <= bn < MAXFILE && bn * BSIZE < v.inodes[i].size :: Data(v, i, bn) != 0
  }

  ghost function Maps(bmapstart: nat, news: set<nat>): set<nat> { set c | c in news :: bmapstart + c / BPB }

  /** Where the metadata lies: inode blocks, then the free map, then data. */
  predicate Fits(ninodes: nat, size: nat, inodestart: nat, bmapstart: nat, start: nat) {
    && (forall i | 0 <= i < ninodes :: inodestart + i / IPB < bmapstart)
    && MapsUnder(size, bmapstart, start)
  }

  predicate MapsUnder(size: nat, bmapstart: nat, start: nat) {
    forall b | 0 <= b < size :: bmapstart + b / BPB < start
  }

  lemma FitsMaps(ninodes: nat, size: nat, inodestart: nat, bmapstart: nat, start: nat)
    requires Fits(ninodes, size, inodestart, bmapstart, start)
    ensures MapsUnder(size, bmapstart, start)
  {
  }

  /** The free blocks. */
  ghost function Frees(u: seq<bool>): set<nat> { set b: nat | b < |u| && !u[b] }

  lemma FreesTake(u: seq<bool>, b: nat)
    requires b < |u| && !u[b]
    ensures |Frees(u[b := true])| + 1 == |Frees(u)|
  {
    assert Frees(u[b := true]) == Frees(u) - {b};
  }

  lemma FreesNone(u: seq<bool>)
    requires forall b | 0 <= b < |u| :: u[b]
    ensures |Frees(u)| == 0
  {
    assert Frees(u) == {};
  }

  ghost predicate AllUsed(u: seq<bool>, b: nat) {
    b <= |u| && forall c | 0 <= c < b :: u[c]
  }

  ghost predicate AllBelow(news: set<nat>, b: nat) { forall c | c in news :: c < b }

  /** The blocks in `news`, and no others, became used, the lowest free ones first. */
  ghost predicate Marked(u: seq<bool>, w: seq<bool>, news: set<nat>) {
    && |w| == |u|
    && (forall c | c in news :: c < |u| && !u[c])
    && (forall c | 0 <= c < |u| :: w[c] == (u[c] || c in news))
    && (forall b | 0 <= b < |w| && !w[b] :: AllBelow(news, b))
  }

  /** The k lowest free blocks. */
  ghost function FirstFree(u: seq<bool>, k: nat): set<nat> {
    set b: nat | b < |u| && !u[b] && |Frees(u[..b])| < k
  }

  lemma SubsetSize(a: set<nat>, b: set<nat>)
    requires a <= b
    ensures |a| <= |b| && (a != b ==> |a| < |b|)
  {
    assert b == a + (b - a) && (a != b ==> b - a != {});
  }

  /** Which blocks are taken depends on their number alone. */
  lemma MarkedFirst(u: seq<bool>, w: seq<bool>, news: set<nat>)
    requires Marked(u, w, news)
    ensures news == FirstFree(u, |news|) && |Frees(w)| + |news| == |Frees(u)|
  {
    forall b: nat | b < |u| && !u[b]
      ensures b in news <==> |Frees(u[..b])| < |news|
    {
      var before := Frees(u[..b]);
      if b in news {
        forall c | c in before
          ensures c in news
        {
          assert u[..b][c] == u[c];
          assert c in news || AllBelow(news, c);
        }
        assert b !in before;
        SubsetSize(before, news);
      } else {
        assert AllBelow(news, b);
        forall c | c in news
          ensures c in before
        {
          assert u[..b][c] == u[c];
        }
        SubsetSize(news, before);
      }
    }
    assert Frees(u) == Frees(w) + news && Frees(w) !! news;
  }

  lemma FirstFreeAll(u: seq<bool>)
    ensures FirstFree(u, |Frees(u)|) == Frees(u)
  {
    forall b: nat | b < |u| && !u[b]
      ensures |Frees(u[..b])| < |Frees(u)|
    {
      assert b in Frees(u) && b !in Frees(u[..b]);
      forall c | c in Frees(u[..b])
        ensures c in Frees(u)
      {
        assert u[..b][c] == u[c];
      }
      SubsetSize(Frees(u[..b]), Frees(u));
    }
  }

  /** Taking k1 blocks and then k2 takes the k1 + k2 lowest. */
  lemma FirstFreeMore(u: seq<bool>, w: seq<bool>, news: set<nat>, k: nat)
    requires Marked(u, w, news)
    ensures FirstFree(u, |news| + k) == news + FirstFree(w, k)
  {
    MarkedFirst(u, w, news);
    forall b: nat | b < |u| && !u[b] && b !in news
      ensures |Frees(u[..b])| == |Frees(w[..b])| + |news|
    {
      assert AllBelow(news, b);
      forall c: nat | c < b
        ensures u[..b][c] == u[c] && w[..b][c] == w[c]
      {
      }
      assert Frees(u[..b]) == Frees(w[..b]) + news && Frees(w[..b]) !! news;
    }
  }

  lemma FirstFreeMono(u: seq<bool>, k: nat, n: nat)
    requires k <= n
    ensures FirstFree(u, k) <= FirstFree(u, n) && FirstFree(u, 0) == {}
  {
  }

  /** The lowest free block. */
  lemma FirstIs(u: seq<bool>, b: nat)
    requires b < |u| && !u[b] && AllUsed(u, b)
    ensures FirstFree(u, 1) == {b}
  {
    MarkedOne(u, b);
    MarkedFirst(u, u[b := true], {b});
  }

  lemma MapsMono(bmapstart: nat, x: set<nat>, y: set<nat>)
    requires x <= y
    ensures Maps(bmapstart, x) <= Maps(bmapstart, y) && Maps(bmapstart, {}) == {}
  {
  }

  lemma MarkedMore(u: seq<bool>, v: seq<bool>, w: seq<bool>, x: set<nat>, y: set<nat>)
    requires Marked(u, v, x) && Marked(v, w, y)
    ensures Marked(u, w, x + y) && |x + y| == |x| + |y|
  {
    forall c | c in y
      ensures c !in x
    {
    }
    assert x !! y;
    forall b | 0 <= b < |w| && !w[b]
      ensures AllBelow(x + y, b)
    {
      assert AllBelow(x, b) && AllBelow(y, b);
    }
  }

  lemma MapsMore(bmapstart: nat, x: set<nat>, y: set<nat>)
    ensures Maps(bmapstart, x + y) == Maps(bmapstart, x) + Maps(bmapstart, y)
  {
    forall m: nat
      ensures m in Maps(bmapstart, x + y) <==> m in Maps(bmapstart, x) + Maps(bmapstart, y)
    {
      if m in Maps(bmapstart, x) {
        var c :| c in x && m == bmapstart + c / BPB;
        assert c in x + y;
      }
      if m in Maps(bmapstart, y) {
        var c :| c in y && m == bmapstart + c / BPB;
        assert c in x + y;
      }
    }
  }

  lemma MapsOne(bmapstart: nat, b: nat)
    ensures Maps(bmapstart, {b}) == {bmapstart + b / BPB}
  {
    assert b in {b};
  }

  ghost predicate OthersSame(x: seq<Inode>, y: seq<Inode>, i: nat) {
    |x| == |y| && forall k | 0 <= k < |x| && k != i :: y[k] == x[k]
  }

  /** The slots that bmap may fill for block bn of file i: its own and the table's. */
  ghost predicate OnlySlots(v: Volume, w: Volume, i: nat, bn: nat) {
    && SameShape(v, w)
    && forall p | IsPlace(v, p) && p != Place(i, DataSlot(bn)) && p != Place(i, Head(bn)) ::
         SlotAt(w, p) == SlotAt(v, p)
  }

  /** What bmap may do to a volume: give empty slots zeroed blocks, which changes no byte. */
  ghost predicate Changed(v: Volume, w: Volume, i: nat, bn: nat, news: set<nat>)
    requires i < |v.inodes|
  {
    Kept(v, w) && OthersSame(v.inodes, w.inodes, i) && OnlySlots(v, w, i, bn) && Marked(v.used, w.used, news)
  }

  lemma MarkedOne(u: seq<bool>, b: nat)
    requires b < |u| && !u[b] && AllUsed(u, b)
    ensures Marked(u, u[b := true], {b})
  {
  }

  lemma ChangedTwice(u: Volume, v: Volume, w: Volume, i: nat, bn: nat, x: set<nat>, y: set<nat>)
    requires i < |u.inodes| && Changed(u, v, i, bn, x) && i < |v.inodes| && Changed(v, w, i, bn, y)
    ensures Changed(u, w, i, bn, x + y) && |x + y| == |x| + |y|
  {
    hide Kept, SlotAt, Marked;
    assert forall p | IsPlace(u, p) :: IsPlace(v, p);
    ShapeMore(u, v, w);
    KeptTwice(u, v, w);
    MarkedMore(u.used, v.used, w.used, x, y);
  }

  lemma ChangedEntry(v: Volume, w: Volume, i: nat, bn: nat, b: nat)
    requires i < |v.inodes| && Kept(v, w) && w.inodes == v.inodes && OnlySlots(v, w, i, bn)
    requires Marked(v.used, w.used, {b})
    ensures Changed(v, w, i, bn, {b})
  {
  }

  lemma SlotIsAddr(v: Volume, i: nat, j: nat)
    requires i < |v.inodes| && j <= TABLE
    ensures SlotAt(v, Place(i, j)) == v.inodes[i].addrs[j]
  {
  }

  lemma NoTable(v: Volume, i: nat, e: nat)
    requires i < |v.inodes| && e < NINDIRECT
    ensures v.inodes[i].addrs[TABLE] == 0 ==> SlotAt(v, Place(i, 13 + e)) == 0
  {
  }

  lemma NewTable(v: Volume, i: nat, e: nat, t: nat)
    requires i < |v.inodes| && e < NINDIRECT && 0 < t < |v.used| == |v.blocks|
    ensures var w := AllocDirect(v, i, TABLE, t); 0 < t < |w.blocks| && Word(w.blocks[t], e) == 0
  {
    ZeroWord(e);
  }

  lemma TableEntry(v: Volume, owner: map<nat, Place>, start: nat, i: nat, e: nat)
    requires Sound(v, owner, start) && i < |v.inodes| && e < NINDIRECT && v.inodes[i].addrs[TABLE] != 0
    ensures var t := v.inodes[i].addrs[TABLE];
            t < |v.blocks| && Word(v.blocks[t], e) == SlotAt(v, Place(i, 13 + e)) && t == SlotAt(v, Place(i, TABLE))
  {
    SlotInside(v, owner, start, Place(i, TABLE));
  }

  lemma AllocDirectIs(v: Volume, i: nat, j: nat, b: nat)
    requires i < |v.inodes| && j <= TABLE && b < |v.used| == |v.blocks|
    ensures var ip := v.inodes[i];
            AllocDirect(v, i, j, b) ==
            Volume(v.used[b := true], v.blocks[b := Zeros()], v.inodes[i := ip.(addrs := ip.addrs[j := b])])
  {
  }

  lemma AllocEntryIs(v: Volume, i: nat, e: nat, b: nat)
    requires i < |v.inodes| && e < NINDIRECT && b < |v.used| == |v.blocks| < WORDS
    requires v.inodes[i].addrs[TABLE] < |v.blocks|
    ensures var t := v.inodes[i].addrs[TABLE];
            AllocEntry(v, i, e, b) ==
            Volume(v.used[b := true], v.blocks[b := Zeros()][t := PutWord(v.blocks[t], e, b)], v.inodes)
  {
  }

  lemma AllocDirectSound(v: Volume, owner: map<nat, Place>, start: nat, i: nat, j: nat, b: nat)
    requires Sound(v, owner, start) && i < |v.inodes| && v.inodes[i].kind != Free && j <= TABLE && IsFree(v, start, b)
    requires v.inodes[i].addrs[j] == 0
    ensures var w := AllocDirect(v, i, j, b);
            Sound(w, owner[b := Place(i, j)], start) && Kept(v, w) && SlotsChanged(v, w, Place(i, j), b)
  {
    hide Sound, Kept;
    var w := AllocDirect(v, i, j, b);
    AllocDirectSlots(v, owner, start, i, j, b);
    SoundAdd(v, w, owner, start, Place(i, j), b);
    AllocKeeps(v, w, owner, start, Place(i, j), b, 0);
  }

  lemma AllocEntrySound(v: Volume, owner: map<nat, Place>, start: nat, i: nat, e: nat, b: nat)
    requires Sound(v, owner, start) && i < |v.inodes| && v.inodes[i].kind != Free && e < NINDIRECT
             && IsFree(v, start, b)
    requires v.inodes[i].addrs[TABLE] != 0 && SlotAt(v, Place(i, 13 + e)) == 0
    ensures |v.blocks| < WORDS && v.inodes[i].addrs[TABLE] < |v.blocks| && v.inodes[i].addrs[TABLE] != b
    ensures var w := AllocEntry(v, i, e, b);
            Sound(w, owner[b := Place(i, 13 + e)], start) && Kept(v, w) && SlotsChanged(v, w, Place(i, 13 + e), b)
  {
    hide Sound, Kept;
    SoundSizes(v, owner, start);
    AllocEntrySlots(v, owner, start, i, e, b);
    var w := AllocEntry(v, i, e, b);
    SoundAdd(v, w, owner, start, Place(i, 13 + e), b);
    AllocKeeps(v, w, owner, start, Place(i, 13 + e), b, v.inodes[i].addrs[TABLE]);
  }

  // --- a range of blocks ------------------------------------------------------------------

  ghost predicate SlotsKept(v: Volume, w: Volume) {
    |w.inodes| == |v.inodes| && forall p | IsPlace(v, p) && SlotAt(v, p) != 0 :: SlotAt(w, p) == SlotAt(v, p)
  }

  /** Slot j belongs to a block of the range, or is the table of one. */
  predicate SlotInRange(off: nat, end: nat, j: nat) {
    if j == TABLE then off < end && end > NDIRECT * BSIZE else Covers(off, end, if j < TABLE then j else j - 1)
  }

  ghost predicate OnlyRange(v: Volume, w: Volume, i: nat, off: nat, end: nat)
    requires i < |v.inodes| == |w.inodes|
  {
    forall j | 0 <= j < SLOTS && !SlotInRange(off, end, j) :: SlotAt(w, Place(i, j)) == SlotAt(v, Place(i, j))
  }

  ghost predicate Filled(w: Volume, i: nat, off: nat, end: nat)
    requires i < |w.inodes|
  {
    forall bn | 0 <= bn < MAXFILE && Covers(off, end, bn) :: Data(w, i, bn) != 0
  }

  /** The blocks of the range that are not allocated. */
  ghost function NewBlocks(v: Volume, i: nat, off: nat, end: nat): set<nat>
    requires i < |v.inodes|
  {
    set bn: nat | bn < MAXFILE && Covers(off, end, bn) && Data(v, i, bn) == 0
  }

  /** One of them is in the table. */
  ghost predicate NewEntry(v: Volume, i: nat, off: nat, end: nat)
    requires i < |v.inodes|
  {
    exists bn | NDIRECT <= bn < MAXFILE :: Covers(off, end, bn) && Data(v, i, bn) == 0
  }

  /** How many blocks it takes to fill the range. */
  ghost function NewCount(v: Volume, i: nat, off: nat, end: nat): nat
    requires i < |v.inodes|
  {
    |NewBlocks(v, i, off, end)| + if v.inodes[i].addrs[TABLE] == 0 && NewEntry(v, i, off, end) then 1 else 0
  }

  ghost predicate OtherSlots(v: Volume, w: Volume, i: nat) {
    |w.inodes| == |v.inodes| && forall p | IsPlace(v, p) && p.inum != i :: SlotAt(w, p) == SlotAt(v, p)
  }

  lemma OtherSlotsMore(u: Volume, v: Volume, w: Volume, i: nat)
    requires OtherSlots(u, v, i) && OtherSlots(v, w, i)
    ensures OtherSlots(u, w, i)
  {
    hide SlotAt;
    assert forall p | IsPlace(u, p) :: IsPlace(v, p);
  }

  /** Writing src at off: the bytes, the slots, and the blocks it takes. */
  ghost predicate RangeDone(v: Volume, w: Volume, i: nat, off: nat, src: seq<Byte>, news: set<nat>)
    requires i < |v.inodes|
  {
    var end := off + |src|;
    && SameShape(v, w) && OthersSame(v.inodes, w.inodes, i)
    && Written(v, w, i, off, src)
    && SlotsKept(v, w) && Filled(w, i, off, end) && OnlyRange(v, w, i, off, end) && OtherSlots(v, w, i)
    && Marked(v.used, w.used, news) && |news| == NewCount(v, i, off, end)
  }

  lemma CoversSplit(off: nat, mid: nat, end: nat, bn: nat)
    requires off <= mid <= end
    ensures Covers(off, end, bn) <==> Covers(off, mid, bn) || Covers(mid, end, bn)
  {
  }

  lemma ShapeMore(u: Volume, v: Volume, w: Volume)
    requires SameShape(u, v) && SameShape(v, w)
    ensures SameShape(u, w)
  {
    forall k | 0 <= k < |u.inodes|
      ensures SameFile(u.inodes[k], w.inodes[k])
    {
      assert SameFile(u.inodes[k], v.inodes[k]) && SameFile(v.inodes[k], w.inodes[k]);
    }
  }

  lemma SlotsMore(u: Volume, v: Volume, w: Volume, i: nat, off: nat, mid: nat, end: nat)
    requires off <= mid <= end && i < |u.inodes| && SlotsKept(u, v) && SlotsKept(v, w)
    requires Filled(v, i, off, mid) && Filled(w, i, mid, end) && OnlyRange(u, v, i, off, mid)
             && OnlyRange(v, w, i, mid, end)
    ensures SlotsKept(u, w) && Filled(w, i, off, end) && OnlyRange(u, w, i, off, end)
  {
    hide SlotAt, Covers;
    forall p | IsPlace(u, p) && SlotAt(u, p) != 0
      ensures SlotAt(w, p) == SlotAt(u, p)
    {
      assert IsPlace(v, p);
    }
    forall bn | 0 <= bn < MAXFILE && Covers(off, end, bn)
      ensures Data(w, i, bn) != 0
    {
      CoversSplit(off, mid, end, bn);
      assert IsPlace(v, Place(i, DataSlot(bn)));
    }
    forall j | 0 <= j < SLOTS && !SlotInRange(off, end, j)
      ensures SlotAt(w, Place(i, j)) == SlotAt(u, Place(i, j))
    {
      if j != TABLE {
        CoversSplit(off, mid, end, if j < TABLE then j else j - 1);
      }
      assert !SlotInRange(off, mid, j) && !SlotInRange(mid, end, j);
    }
  }

  /** What is missing in the second part is missing from the start. */
  lemma NewMore(u: Volume, v: Volume, i: nat, off: nat, mid: nat, end: nat)
    requires off <= mid <= end && i < |u.inodes| && SlotsKept(u, v) && Filled(v, i, off, mid)
             && OnlyRange(u, v, i, off, mid)
    ensures NewBlocks(u, i, off, end) == NewBlocks(u, i, off, mid) + NewBlocks(v, i, mid, end)
    ensures NewBlocks(u, i, off, mid) !! NewBlocks(v, i, mid, end)
    ensures NewEntry(u, i, off, end) <==> NewEntry(u, i, off, mid) || NewEntry(v, i, mid, end)
  {
    hide SlotAt, Covers;
    forall bn: nat | bn < MAXFILE
      ensures Covers(off, end, bn) && Data(u, i, bn) == 0 <==>
              (Covers(off, mid, bn) && Data(u, i, bn) == 0) || (Covers(mid, end, bn) && Data(v, i, bn) == 0)
      ensures Covers(off, mid, bn) ==> Data(v, i, bn) != 0
    {
      CoversSplit(off, mid, end, bn);
      var j := DataSlot(bn);
      assert IsPlace(u, Place(i, j));
      if !Covers(off, mid, bn) {
        assert !SlotInRange(off, mid, j);
      }
    }
    forall bn | bn in NewBlocks(v, i, mid, end)
      ensures bn !in NewBlocks(u, i, off, mid)
    {
    }
  }

  lemma TableMore(u: Volume, v: Volume, i: nat, off: nat, mid: nat)
    requires off <= mid && mid <= MAXFILE * BSIZE && i < |u.inodes| && SlotsKept(u, v) && OnlyRange(u, v, i, off, mid)
    requires Filled(v, i, off, mid) && u.inodes[i].addrs[TABLE] == 0
    ensures NewEntry(u, i, off, mid) <==> v.inodes[i].addrs[TABLE] != 0
  {
    SlotIsAddr(u, i, TABLE);
    SlotIsAddr(v, i, TABLE);
    if SlotInRange(off, mid, TABLE) {
      var bn := (mid - 1) / BSIZE;
      assert Covers(off, mid, bn) && NDIRECT <= bn < MAXFILE;
      NoTable(u, i, bn - NDIRECT);
      assert Data(u, i, bn) == 0;
      assert Data(v, i, bn) != 0;
      NoTable(v, i, bn - NDIRECT);
    } else {
      forall bn | NDIRECT <= bn < MAXFILE
        ensures !Covers(off, mid, bn)
      {
      }
    }
  }

  lemma CountMore(u: Volume, v: Volume, i: nat, off: nat, mid: nat, end: nat)
    requires off <= mid <= end <= MAXFILE * BSIZE && i < |u.inodes| && SlotsKept(u, v)
    requires Filled(v, i, off, mid) && OnlyRange(u, v, i, off, mid)
    ensures NewCount(u, i, off, end) == NewCount(u, i, off, mid) + NewCount(v, i, mid, end)
  {
    hide SlotAt, NewBlocks, NewEntry;
    NewMore(u, v, i, off, mid, end);
    SlotIsAddr(u, i, TABLE);
    SlotIsAddr(v, i, TABLE);
    assert IsPlace(u, Place(i, TABLE));
    if u.inodes[i].addrs[TABLE] == 0 {
      TableMore(u, v, i, off, mid);
    }
  }

  lemma RangeMore(u: Volume, v: Volume, w: Volume, i: nat, off: nat, x: seq<Byte>, y: seq<Byte>, m: set<nat>,
                  n: set<nat>)
    requires i < |u.inodes| && RangeDone(u, v, i, off, x, m) && i < |v.inodes| && RangeDone(v, w, i, off + |x|, y, n)
    requires off + |x| + |y| <= MAXFILE * BSIZE
    ensures RangeDone(u, w, i, off, x + y, m + n)
    ensures NewCount(u, i, off, off + |x| + |y|) == NewCount(u, i, off, off + |x|)
            + NewCount(v, i, off + |x|, off + |x| + |y|)
  {
    hide SlotAt, SameShape, Written, SlotsKept, Filled, OnlyRange, OtherSlots, Marked, NewCount;
    OtherSlotsMore(u, v, w, i);
    ShapeMore(u, v, w);
    WrittenMore(u, v, w, i, off, x, y);
    SlotsMore(u, v, w, i, off, off + |x|, off + |x| + |y|);
    CountMore(u, v, i, off, off + |x|, off + |x| + |y|);
    MarkedMore(u.used, v.used, w.used, m, n);
  }

  // --- one block of a range ---------------------------------------------------------------

  lemma OneCovered(off: nat, end: nat, bn: nat)
    requires off < end <= off - off % BSIZE + BSIZE
    ensures Covers(off, end, bn) <==> bn == off / BSIZE
  {
  }

  lemma OneNew(v: Volume, i: nat, off: nat, end: nat)
    requires i < |v.inodes| && off < end <= off - off % BSIZE + BSIZE && off < MAXFILE * BSIZE
    ensures var bn := off / BSIZE;
            && NewBlocks(v, i, off, end) == (if Data(v, i, bn) == 0 then {bn} else {})
            && (NewEntry(v, i, off, end) <==> bn >= NDIRECT && Data(v, i, bn) == 0)
  {
    hide Covers, SlotAt;
    forall bn: nat
      ensures Covers(off, end, bn) <==> bn == off / BSIZE
    {
      OneCovered(off, end, bn);
    }
    var bn := off / BSIZE;
    if bn >= NDIRECT && Data(v, i, bn) == 0 {
      assert Covers(off, end, bn);
    }
  }

  lemma BmapRange(v: Volume, w: Volume, i: nat, off: nat, end: nat)
    requires i < |v.inodes| && off < end <= off - off % BSIZE + BSIZE && off < MAXFILE * BSIZE
    requires OnlySlots(v, w, i, off / BSIZE) && Data(w, i, off / BSIZE) != 0
    ensures OnlyRange(v, w, i, off, end) && Filled(w, i, off, end)
  {
    hide SlotAt, Covers;
    var bn := off / BSIZE;
    forall b: nat
      ensures Covers(off, end, b) <==> b == bn
    {
      OneCovered(off, end, b);
    }
    forall j | 0 <= j < SLOTS && !SlotInRange(off, end, j)
      ensures SlotAt(w, Place(i, j)) == SlotAt(v, Place(i, j))
    {
      assert IsPlace(v, Place(i, j));
      assert j != DataSlot(bn);
      assert j != Head(bn);
    }
  }

  /** Mapping a block and writing within it. */
  lemma BlockDone(v: Volume, u: Volume, owner: map<nat, Place>, start: nat, i: nat, off: nat, src: seq<Byte>,
                  news: set<nat>)
    requires i < |v.inodes| && off < MAXFILE * BSIZE && 0 < |src| <= BSIZE - off % BSIZE
    requires Changed(v, u, i, off / BSIZE, news) && i < |u.inodes| && Sound(u, owner, start)
    requires 0 < Data(u, i, off / BSIZE) < |u.blocks|
    requires |news| == NewCount(v, i, off, off + |src|)
    ensures var w := WriteData(u, Data(u, i, off / BSIZE), off % BSIZE, src);
            Sound(w, owner, start) && RangeDone(v, w, i, off, src, news)
              && Data(w, i, off / BSIZE) == Data(u, i, off / BSIZE)
  {
    hide Sound, SlotAt, Written, NewCount, Marked, WriteData;
    var bn, end := off / BSIZE, off + |src|;
    var a := Data(u, i, bn);
    var w := WriteData(u, a, off % BSIZE, src);
    WriteDataShape(u, a, off % BSIZE, src);
    WriteDataSlots(u, owner, start, i, bn, off % BSIZE, src);
    KeptIsWritten(v, u, i, off);
    WriteDataBytes(u, owner, start, i, off, src);
    WrittenMore(v, u, w, i, off, [], src);
    assert [] + src == src;
    forall p | IsPlace(v, p)
      ensures SlotAt(w, p) == SlotAt(u, p)
    {
      assert IsPlace(u, p);
    }
    assert IsPlace(v, Place(i, DataSlot(bn)));
    BmapRange(v, w, i, off, end);
  }

  /** How many blocks it takes to map block bn. */
  ghost function Need(v: Volume, i: nat, bn: nat): nat
    requires i < |v.inodes| && bn < MAXFILE
  {
    if Data(v, i, bn) != 0 then 0 else if bn >= NDIRECT && v.inodes[i].addrs[TABLE] == 0 then 2 else 1
  }

  lemma CountOne(v: Volume, i: nat, off: nat, end: nat)
    requires i < |v.inodes| && off < end <= off - off % BSIZE + BSIZE && off < MAXFILE * BSIZE
    ensures NewCount(v, i, off, end) == Need(v, i, off / BSIZE)
  {
    OneNew(v, i, off, end);
  }

  lemma CountMono(v: Volume, i: nat, off: nat, mid: nat, end: nat)
    requires i < |v.inodes| && off <= mid <= end
    ensures NewCount(v, i, off, mid) <= NewCount(v, i, off, end)
  {
    hide SlotAt, Covers;
    forall bn: nat
      ensures Covers(off, mid, bn) ==> Covers(off, end, bn)
    {
      CoversSplit(off, mid, end, bn);
    }
    var a, b := NewBlocks(v, i, off, mid), NewBlocks(v, i, off, end);
    assert a <= b;
    assert |b| == |a| + |b - a| by { assert b == a + (b - a); }
  }

  /** A block of the range takes more than is left of `avail` after the blocks before it. */
  lemma CountFails(u: Volume, v: Volume, i: nat, off: nat, mid: nat, m: nat, end: nat, avail: nat)
    requires off <= mid && mid + m <= end && mid < MAXFILE * BSIZE && 0 < m <= BSIZE - mid % BSIZE
    requires i < |u.inodes| == |v.inodes| && SlotsKept(u, v) && Filled(v, i, off, mid) && OnlyRange(u, v, i, off, mid)
    requires NewCount(u, i, off, mid) <= avail < NewCount(u, i, off, mid) + Need(v, i, mid / BSIZE)
    ensures end <= MAXFILE * BSIZE ==> avail < NewCount(u, i, off, end)
  {
    hide SlotAt, SlotsKept, Filled, OnlyRange, NewCount, Need;
    if end <= MAXFILE * BSIZE {
      CountOne(v, i, mid, mid + m);
      CountMono(v, i, mid, mid + m, end);
      CountMore(u, v, i, off, mid, end);
    }
  }

  /** The blocks of a range have been mapped: the slots, and how many blocks it took. */
  ghost predicate Mapped(v: Volume, w: Volume, i: nat, off: nat, end: nat, k: nat) {
    && i < |v.inodes| == |w.inodes| && SlotsKept(v, w) && Filled(w, i, off, end) && OnlyRange(v, w, i, off, end)
    && k == NewCount(v, i, off, end)
  }

  lemma MappedNone(v: Volume, i: nat, off: nat)
    requires i < |v.inodes|
    ensures Mapped(v, v, i, off, off, 0)
  {
    assert NewBlocks(v, i, off, off) == {} && !NewEntry(v, i, off, off);
  }

  lemma MappedMore(u: Volume, v: Volume, w: Volume, i: nat, off: nat, mid: nat, end: nat, k: nat, n: nat)
    requires off <= mid <= end <= MAXFILE * BSIZE && Mapped(u, v, i, off, mid, k) && Mapped(v, w, i, mid, end, n)
    ensures Mapped(u, w, i, off, end, k + n)
  {
    hide SlotAt, SlotsKept, Filled, OnlyRange, NewCount;
    SlotsMore(u, v, w, i, off, mid, end);
    CountMore(u, v, i, off, mid, end);
  }

  lemma MappedOne(v: Volume, w: Volume, i: nat, off: nat, end: nat, news: set<nat>)
    requires i < |v.inodes| && off < end <= off - off % BSIZE + BSIZE && off < MAXFILE * BSIZE
    requires Changed(v, w, i, off / BSIZE, news) && i < |w.inodes| && Data(w, i, off / BSIZE) != 0
    ensures Mapped(v, w, i, off, end, Need(v, i, off / BSIZE))
  {
    hide SlotAt, NewCount, Need;
    BmapRange(v, w, i, off, end);
    CountOne(v, i, off, end);
  }

  lemma MappedFails(u: Volume, v: Volume, i: nat, off: nat, mid: nat, m: nat, end: nat, avail: nat, k: nat)
    requires off <= mid && mid + m <= end <= MAXFILE * BSIZE && 0 < m <= BSIZE - mid % BSIZE
    requires Mapped(u, v, i, off, mid, k) && k <= avail < k + Need(v, i, mid / BSIZE)
    ensures avail < NewCount(u, i, off, end)
  {
    CountFails(u, v, i, off, mid, m, end, avail);
  }

  lemma MappedCount(v: Volume, w: Volume, i: nat, off: nat, end: nat, k: nat)
    requires Mapped(v, w, i, off, end, k)
    ensures i < |v.inodes| && k == NewCount(v, i, off, end)
  {
  }

  lemma RangeMapped(v: Volume, w: Volume, i: nat, off: nat, src: seq<Byte>, news: set<nat>)
    requires i < |v.inodes| && RangeDone(v, w, i, off, src, news)
    ensures Mapped(v, w, i, off, off + |src|, |news|) && Marked(v.used, w.used, news)
  {
  }

  // --- the blocks a range logs ------------------------------------------------------------

  /** The blocks of the range that are there already. */
  ghost function OldData(v: Volume, i: nat, off: nat, end: nat): set<nat>
    requires i < |v.inodes|
  {
    set bn: nat | bn < MAXFILE && Covers(off, end, bn) && Data(v, i, bn) != 0 :: Data(v, i, bn)
  }

  /** The table, if it is there and gets new entries. */
  ghost function OldTable(v: Volume, i: nat, off: nat, end: nat): set<nat>
    requires i < |v.inodes|
  {
    if NewEntry(v, i, off, end) && v.inodes[i].addrs[TABLE] != 0 then {v.inodes[i].addrs[TABLE]} else {}
  }

  /**
    What allocating the missing blocks of a range logs, read off the volume before it: the lowest free
    blocks, as many as it takes, their blocks of the free map, and the table.
  */
  ghost function AllocSet(bmapstart: nat, v: Volume, i: nat, off: nat, end: nat): set<nat>
    requires i < |v.inodes|
  {
    var f := FirstFree(v.used, NewCount(v, i, off, end));
    f + Maps(bmapstart, f) + OldTable(v, i, off, end)
  }

  /** What writing a range logs. */
  ghost function LogSet(bmapstart: nat, v: Volume, i: nat, off: nat, end: nat): set<nat>
    requires i < |v.inodes|
  {
    OldData(v, i, off, end) + AllocSet(bmapstart, v, i, off, end)
  }

  /** The last block of the range, if it was there already: only then is it not logged before its data is. */
  ghost function LastOld(v: Volume, i: nat, off: nat, end: nat): set<nat>
    requires i < |v.inodes|
  {
    if off < end <= MAXFILE * BSIZE && Data(v, i, (end - 1) / BSIZE) != 0 then {Data(v, i, (end - 1) / BSIZE)} else {}
  }

  /** What writing a range has logged when it comes to its last log_write. */
  ghost function Before(bmapstart: nat, v: Volume, i: nat, off: nat, end: nat): set<nat>
    requires i < |v.inodes|
  {
    LogSet(bmapstart, v, i, off, end) - LastOld(v, i, off, end)
  }

  /** log_write goes through: header h with the blocks x added is shorter than the limit. */
  ghost predicate Room(h: set<nat>, x: set<nat>, limit: int) { |h + x| < limit }

  /**
    There are enough blocks for what a range needs, and a log with header h takes what writing it logs,
    up to its last block and, for `also`, up to the inode after it.
  */
  ghost predicate RangeFits(h: set<nat>, bmapstart: nat, v: Volume, i: nat, off: nat, end: nat, also: bool, limit: int)
    requires i < |v.inodes|
  {
    && NewCount(v, i, off, end) <= |Frees(v.used)|
    && (also ==> Room(h, LogSet(bmapstart, v, i, off, end), limit))
    && (off < end ==> Room(h, Before(bmapstart, v, i, off, end), limit))
  }

  lemma RoomLess(h: set<nat>, x: set<nat>, y: set<nat>, limit: int)
    requires x <= y && Room(h, y, limit)
    ensures Room(h, x, limit)
  {
    SubsetSize(h + x, h + y);
  }

  lemma RoomIs(h: set<nat>, x: set<nat>, limit: int)
    ensures Room(h, x, limit) <==> |h + x| < limit
  {
  }

  lemma RoomParts(h: set<nat>, x: set<nat>, y: set<nat>, limit: int)
    ensures Room(h, x + y, limit) ==> Room(h, x, limit) && Room(h, y, limit)
  {
    if Room(h, x + y, limit) {
      RoomLess(h, x, x + y, limit);
      RoomLess(h, y, x + y, limit);
    }
  }

  lemma RoomTwo(h: set<nat>, g: set<nat>, x: set<nat>, y: set<nat>, limit: int)
    requires g == h + x
    ensures Room(g, y, limit) <==> Room(h, x + y, limit)
  {
    Joined(h, x, y);
  }

  lemma RoomSame(h: set<nat>, x: set<nat>, g: set<nat>, y: set<nat>, limit: int)
    requires h + x == g + y
    ensures Room(h, x, limit) <==> Room(g, y, limit)
  {
  }

  // one block

  /** What bmap logs for block bn, and what of it comes before its last log_write. */
  ghost function MapSet(bmapstart: nat, v: Volume, i: nat, bn: nat): set<nat>
    requires i < |v.inodes| && bn < MAXFILE
  {
    var f := FirstFree(v.used, Need(v, i, bn));
    f + Maps(bmapstart, f) +
    if Data(v, i, bn) == 0 && bn >= NDIRECT && v.inodes[i].addrs[TABLE] != 0 then {v.inodes[i].addrs[TABLE]} else {}
  }

  ghost function MapBefore(bmapstart: nat, v: Volume, i: nat, bn: nat): set<nat>
    requires i < |v.inodes| && bn < MAXFILE
  {
    var f := FirstFree(v.used, Need(v, i, bn));
    Maps(bmapstart, f) + if bn < NDIRECT then {} else f
  }

  /** bmap's own log_writes go through. */
  ghost predicate MapRoom(h: set<nat>, bmapstart: nat, v: Volume, i: nat, bn: nat, limit: int)
    requires i < |v.inodes| && bn < MAXFILE
  {
    Need(v, i, bn) == 0 || Room(h, MapBefore(bmapstart, v, i, bn), limit)
  }

  /** An entry for a table that is there. */
  lemma EntryLogs(bmapstart: nat, v: Volume, i: nat, bn: nat)
    requires i < |v.inodes| && NDIRECT <= bn < MAXFILE && Data(v, i, bn) == 0 && v.inodes[i].addrs[TABLE] != 0
    ensures var f := FirstFree(v.used, 1);
            && Need(v, i, bn) == 1 && MapBefore(bmapstart, v, i, bn) == f + Maps(bmapstart, f)
            && MapSet(bmapstart, v, i, bn) == f + Maps(bmapstart, f) + {v.inodes[i].addrs[TABLE]}
  {
    hide FirstFree, Maps, SlotAt;
  }

  /** A table `news`, and then an entry in it. */
  lemma TableLogs(bmapstart: nat, v: Volume, w: Volume, i: nat, bn: nat, news: set<nat>)
    requires i < |v.inodes| && NDIRECT <= bn < MAXFILE && Data(v, i, bn) == 0 && v.inodes[i].addrs[TABLE] == 0
    requires Marked(v.used, w.used, news) && |news| == 1
    ensures var f := FirstFree(w.used, 1);
            && Need(v, i, bn) == 2 && news == FirstFree(v.used, 1)
            && MapBefore(bmapstart, v, i, bn) == (news + Maps(bmapstart, news)) + (f + Maps(bmapstart, f))
            && MapSet(bmapstart, v, i, bn) == MapBefore(bmapstart, v, i, bn)
  {
    hide FirstFree, Maps, SlotAt, Marked, Frees;
    MarkedFirst(v.used, w.used, news);
    FirstFreeMore(v.used, w.used, news, 1);
    MapsMore(bmapstart, news, FirstFree(w.used, 1));
  }

  /** The table, and then what bmap does once it is there. */
  lemma TableThen(bmapstart: nat, v: Volume, w: Volume, i: nat, bn: nat, news: set<nat>, h: set<nat>, limit: int)
    requires i < |v.inodes| && NDIRECT <= bn < MAXFILE && Data(v, i, bn) == 0 && v.inodes[i].addrs[TABLE] == 0
    requires Changed(v, w, i, bn, news) && |news| == 1 && i < |w.inodes| && Data(w, i, bn) == 0
    requires w.inodes[i].addrs[TABLE] in news && w.inodes[i].addrs[TABLE] != 0
    ensures var x := news + Maps(bmapstart, news);
            && Need(v, i, bn) == 2 && Need(w, i, bn) == 1
            && MapSet(bmapstart, v, i, bn) == x + MapSet(bmapstart, w, i, bn)
            && (MapRoom(h, bmapstart, v, i, bn, limit) <==> MapRoom(h + x, bmapstart, w, i, bn, limit))
  {
    hide FirstFree, Maps, SlotAt, Marked, Frees, MapSet, MapBefore, Room, Kept, OnlySlots;
    var f := FirstFree(w.used, 1);
    var x, y := news + Maps(bmapstart, news), f + Maps(bmapstart, f);
    TableLogs(bmapstart, v, w, i, bn, news);
    EntryLogs(bmapstart, w, i, bn);
    RoomTwo(h, h + x, x, y, limit);
    Again(x, y, x, {w.inodes[i].addrs[TABLE]});
  }

  /** If even the first block of a table and an entry does not go through, the two do not. */
  lemma TableStuck(bmapstart: nat, v: Volume, i: nat, bn: nat, h: set<nat>, limit: int)
    requires i < |v.inodes| && NDIRECT <= bn < MAXFILE && Data(v, i, bn) == 0 && v.inodes[i].addrs[TABLE] == 0
    ensures Need(v, i, bn) == 2
    ensures !Room(h, Maps(bmapstart, FirstFree(v.used, 1)), limit) ==> !MapRoom(h, bmapstart, v, i, bn, limit)
  {
    hide FirstFree, Maps, SlotAt, Room;
    var f, g := FirstFree(v.used, 1), FirstFree(v.used, 2);
    FirstFreeMono(v.used, 1, 2);
    MapsMono(bmapstart, f, g);
    if Room(h, MapBefore(bmapstart, v, i, bn), limit) {
      RoomLess(h, Maps(bmapstart, f), MapBefore(bmapstart, v, i, bn), limit);
    }
  }

  /** A direct block. */
  lemma DirectLogs(bmapstart: nat, v: Volume, i: nat, bn: nat)
    requires i < |v.inodes| && bn < NDIRECT && Data(v, i, bn) == 0
    ensures var f := FirstFree(v.used, 1);
            && Need(v, i, bn) == 1 && MapBefore(bmapstart, v, i, bn) == Maps(bmapstart, f)
            && MapSet(bmapstart, v, i, bn) == f + Maps(bmapstart, f)
  {
    hide FirstFree, Maps, SlotAt;
  }

  /** The log_writes of one block of writei, bmap's and its own. */
  lemma BlockRoom(bmapstart: nat, v: Volume, i: nat, off: nat, end: nat, h: set<nat>, limit: int)
    requires i < |v.inodes| && off < end <= off - off % BSIZE + BSIZE && off < MAXFILE * BSIZE
    ensures var bn := off / BSIZE;
            Room(h, Before(bmapstart, v, i, off, end), limit) <==>
            MapRoom(h, bmapstart, v, i, bn, limit) && |h + MapSet(bmapstart, v, i, bn)| < limit
  {
    hide FirstFree, Maps, SlotAt, LogSet, LastOld, Before, Need;
    var bn := off / BSIZE;
    LogOne(bmapstart, v, i, off, end);
    if Data(v, i, bn) != 0 {
      NoNeed(bmapstart, v, i, bn);
      assert h + {} == h;
    } else if Room(h, MapSet(bmapstart, v, i, bn), limit) {
      RoomLess(h, MapBefore(bmapstart, v, i, bn), MapSet(bmapstart, v, i, bn), limit);
    }
  }

  lemma AllocOne(bmapstart: nat, v: Volume, i: nat, off: nat, end: nat)
    requires i < |v.inodes| && off < end <= off - off % BSIZE + BSIZE && off < MAXFILE * BSIZE
    ensures AllocSet(bmapstart, v, i, off, end) == MapSet(bmapstart, v, i, off / BSIZE)
  {
    hide SlotAt, Maps, FirstFree, NewBlocks, Covers;
    CountOne(v, i, off, end);
    OneNew(v, i, off, end);
  }

  lemma NoNeed(bmapstart: nat, v: Volume, i: nat, bn: nat)
    requires i < |v.inodes| && bn < MAXFILE && Data(v, i, bn) != 0
    ensures MapSet(bmapstart, v, i, bn) == {} && Need(v, i, bn) == 0
  {
    FirstFreeMono(v.used, 0, 0);
    MapsMono(bmapstart, {}, {});
  }

  lemma LogOne(bmapstart: nat, v: Volume, i: nat, off: nat, end: nat)
    requires i < |v.inodes| && off < end <= off - off % BSIZE + BSIZE && off < MAXFILE * BSIZE
    ensures end <= MAXFILE * BSIZE && (end - 1) / BSIZE == off / BSIZE
    ensures var a := Data(v, i, off / BSIZE);
            && LogSet(bmapstart, v, i, off, end) == (if a != 0 then {a} else {}) + MapSet(bmapstart, v, i, off / BSIZE)
            && Before(bmapstart, v, i, off, end) == if a != 0 then {} else MapSet(bmapstart, v, i, off / BSIZE)
  {
    hide SlotAt, Maps, FirstFree, NewBlocks, Covers, AllocSet, MapSet;
    var bn := off / BSIZE;
    AllocOne(bmapstart, v, i, off, end);
    forall b: nat
      ensures Covers(off, end, b) <==> b == bn
    {
      OneCovered(off, end, b);
    }
    var a := Data(v, i, bn);
    assert OldData(v, i, off, end) == (if a != 0 then {a} else {}) by {
      assert Covers(off, end, bn);
    }
    if a != 0 {
      NoNeed(bmapstart, v, i, bn);
    }
  }

  // two ranges

  /** A slot that was filled on the way holds one of the new blocks. */
  lemma NewSlot(u: Volume, v: Volume, ou: map<nat, Place>, ov: map<nat, Place>, start: nat, news: set<nat>, p: Place)
    requires Sound(u, ou, start) && Sound(v, ov, start) && SlotsKept(u, v) && Marked(u.used, v.used, news)
    requires IsPlace(u, p) && SlotAt(u, p) == 0
    ensures IsPlace(v, p) && (SlotAt(v, p) != 0 ==> SlotAt(v, p) in news)
  {
    hide SlotAt;
    var b := SlotAt(v, p);
    if b != 0 {
      SlotInside(v, ov, start, p);
      assert BlockFine(u, ou, start, b);
      if b !in news {
        assert u.used[b] && b in ou && IsPlace(u, ou[b]) && SlotAt(u, ou[b]) == b;
        assert SlotAt(v, ou[b]) == b;
        SlotInside(v, ov, start, ou[b]);
      }
    }
  }

  lemma TableMoreLog(u: Volume, v: Volume, ou: map<nat, Place>, ov: map<nat, Place>, start: nat, i: nat,
                     off: nat, mid: nat, end: nat, news: set<nat>)
    requires off <= mid <= end && Mapped(u, v, i, off, mid, |news|) && Marked(u.used, v.used, news)
    requires Sound(u, ou, start) && Sound(v, ov, start)
    ensures OldTable(u, i, off, end) + news == OldTable(u, i, off, mid) + OldTable(v, i, mid, end) + news
  {
    hide SlotAt, Sound, NewEntry, NewBlocks, NewCount, Marked, Filled, OnlyRange;
    NewMore(u, v, i, off, mid, end);
    SlotIsAddr(u, i, TABLE);
    SlotIsAddr(v, i, TABLE);
    assert IsPlace(u, Place(i, TABLE));
    if u.inodes[i].addrs[TABLE] == 0 {
      NewSlot(u, v, ou, ov, start, news, Place(i, TABLE));
    }
  }

  lemma AllocMore(bmapstart: nat, u: Volume, v: Volume, ou: map<nat, Place>, ov: map<nat, Place>, start: nat, i: nat,
                  off: nat, mid: nat, end: nat, news: set<nat>)
    requires off <= mid <= end <= MAXFILE * BSIZE && Mapped(u, v, i, off, mid, |news|) && Marked(u.used, v.used, news)
    requires Sound(u, ou, start) && Sound(v, ov, start)
    ensures news == FirstFree(u.used, NewCount(u, i, off, mid))
    ensures FirstFree(u.used, NewCount(u, i, off, end)) == news + FirstFree(v.used, NewCount(v, i, mid, end))
    ensures AllocSet(bmapstart, u, i, off, end) ==
            AllocSet(bmapstart, u, i, off, mid) + AllocSet(bmapstart, v, i, mid, end)
  {
    hide SlotAt, Sound, NewCount, Marked, Filled, OnlyRange, SlotsKept, FirstFree, Frees, Maps, OldTable;
    var f := FirstFree(v.used, NewCount(v, i, mid, end));
    CountMore(u, v, i, off, mid, end);
    MarkedFirst(u.used, v.used, news);
    FirstFreeMore(u.used, v.used, news, NewCount(v, i, mid, end));
    TableMoreLog(u, v, ou, ov, start, i, off, mid, end, news);
    MapsMore(bmapstart, news, f);
    UnionShuffle(news, f, Maps(bmapstart, news), Maps(bmapstart, f), OldTable(u, i, off, end),
                 OldTable(u, i, off, mid), OldTable(v, i, mid, end));
  }

  lemma UnionShuffle(n: set<nat>, f: set<nat>, a: set<nat>, b: set<nat>, t: set<nat>, x: set<nat>, y: set<nat>)
    requires t + n == x + y + n
    ensures (n + f) + (a + b) + t == (n + a + x) + (f + b + y)
  {
    assert forall e | e in t :: e in x + y + n;
    assert forall e | e in x + y :: e in t + n;
  }

  lemma OldDataMore(u: Volume, v: Volume, i: nat, off: nat, mid: nat, end: nat, k: nat)
    requires off <= mid <= end && Mapped(u, v, i, off, mid, k) && (mid % BSIZE == 0 || mid == off)
    ensures OldData(u, i, off, end) == OldData(u, i, off, mid) + OldData(v, i, mid, end)
  {
    hide SlotAt, SlotsKept, Filled, NewCount;
    forall bn: nat | bn < MAXFILE
      ensures Covers(off, end, bn) <==> Covers(off, mid, bn) || Covers(mid, end, bn)
      ensures Covers(mid, end, bn) ==> Data(v, i, bn) == Data(u, i, bn)
    {
      CoversSplit(off, mid, end, bn);
      assert Covers(mid, end, bn) ==> !Covers(off, mid, bn);
      if !Covers(off, mid, bn) {
        assert !SlotInRange(off, mid, DataSlot(bn));
      }
    }
  }

  /** Two adjacent ranges log what the whole range does. */
  lemma LogMore(bmapstart: nat, u: Volume, v: Volume, ou: map<nat, Place>, ov: map<nat, Place>, start: nat, i: nat,
                off: nat, mid: nat, end: nat, news: set<nat>)
    requires off <= mid <= end <= MAXFILE * BSIZE && Mapped(u, v, i, off, mid, |news|) && Marked(u.used, v.used, news)
    requires Sound(u, ou, start) && Sound(v, ov, start) && (mid % BSIZE == 0 || mid == off)
    ensures LogSet(bmapstart, u, i, off, end) == LogSet(bmapstart, u, i, off, mid) + LogSet(bmapstart, v, i, mid, end)
  {
    hide SlotAt, Sound, Mapped, Marked, AllocSet, OldData;
    AllocMore(bmapstart, u, v, ou, ov, start, i, off, mid, end, news);
    OldDataMore(u, v, i, off, mid, end, |news|);
  }

  // the order of the log_writes

  /** An old block of the file outside the range is not among those that the range logs. */
  lemma OutsideRange(bmapstart: nat, v: Volume, owner: map<nat, Place>, start: nat, i: nat, off: nat, end: nat, bn: nat)
    requires Sound(v, owner, start) && i < |v.inodes| && bn < MAXFILE && !Covers(off, end, bn) && Data(v, i, bn) != 0
    requires MapsUnder(|v.used|, bmapstart, start)
    ensures Data(v, i, bn) !in LogSet(bmapstart, v, i, off, end)
  {
    hide SlotAt, Sound, NewCount, NewEntry, Covers, Frees;
    var a := Data(v, i, bn);
    SlotInside(v, owner, start, Place(i, DataSlot(bn)));
    forall c: nat | c < MAXFILE && Covers(off, end, c) && Data(v, i, c) != 0
      ensures Data(v, i, c) != a
    {
      SlotInside(v, owner, start, Place(i, DataSlot(c)));
    }
    SlotIsAddr(v, i, TABLE);
    if v.inodes[i].addrs[TABLE] != 0 {
      SlotInside(v, owner, start, Place(i, TABLE));
    }
  }

  lemma LogMono(bmapstart: nat, v: Volume, i: nat, off: nat, mid: nat, end: nat)
    requires i < |v.inodes| && off <= mid <= end
    ensures LogSet(bmapstart, v, i, off, mid) <= LogSet(bmapstart, v, i, off, end)
    ensures AllocSet(bmapstart, v, i, off, mid) <= AllocSet(bmapstart, v, i, off, end)
  {
    hide SlotAt, Covers, NewCount, FirstFree, Frees, Maps;
    forall bn: nat
      ensures Covers(off, mid, bn) ==> Covers(off, end, bn)
    {
      CoversSplit(off, mid, end, bn);
    }
    CountMono(v, i, off, mid, end);
    var f, g := FirstFree(v.used, NewCount(v, i, off, mid)), FirstFree(v.used, NewCount(v, i, off, end));
    FirstFreeMono(v.used, NewCount(v, i, off, mid), NewCount(v, i, off, end));
    MapsMono(bmapstart, f, g);
    assert OldData(v, i, off, mid) <= OldData(v, i, off, end);
    assert OldTable(v, i, off, mid) <= OldTable(v, i, off, end);
  }

  /** What is logged before the last log_write of the first blocks comes before the last one of them all. */
  lemma BeforeMono(bmapstart: nat, v: Volume, owner: map<nat, Place>, start: nat, i: nat, off: nat, mid: nat, end: nat)
    requires Sound(v, owner, start) && i < |v.inodes| && off < mid <= end <= MAXFILE * BSIZE
    requires mid % BSIZE == 0 || mid == end
    requires MapsUnder(|v.used|, bmapstart, start)
    ensures Before(bmapstart, v, i, off, mid) <= Before(bmapstart, v, i, off, end)
  {
    hide SlotAt, Sound, LogSet, AllocSet;
    LogMono(bmapstart, v, i, off, mid, end);
    if mid < end && LastOld(v, i, off, end) != {} {
      OutsideRange(bmapstart, v, owner, start, i, off, mid, (end - 1) / BSIZE);
    }
  }

  /** After the first part, the second part's log_writes find what they would in the whole. */
  lemma BeforeTurn(bmapstart: nat, u: Volume, v: Volume, ou: map<nat, Place>, ov: map<nat, Place>, start: nat, i: nat,
                   off: nat, mid: nat, end: nat, news: set<nat>)
    requires off <= mid < end <= MAXFILE * BSIZE && Mapped(u, v, i, off, mid, |news|) && Marked(u.used, v.used, news)
    requires Sound(u, ou, start) && Sound(v, ov, start) && (mid % BSIZE == 0 || mid == off)
    requires MapsUnder(|u.used|, bmapstart, start)
    ensures LogSet(bmapstart, u, i, off, mid) + Before(bmapstart, v, i, mid, end) == Before(bmapstart, u, i, off, end)
  {
    hide SlotAt, Sound, LogSet, Marked, SlotsKept, Filled, NewCount;
    var bn := (end - 1) / BSIZE;
    LogMore(bmapstart, u, v, ou, ov, start, i, off, mid, end, news);
    assert !Covers(off, mid, bn);
    assert !SlotInRange(off, mid, DataSlot(bn));
    assert Data(v, i, bn) == Data(u, i, bn);
    if Data(u, i, bn) != 0 {
      OutsideRange(bmapstart, u, ou, start, i, off, mid, bn);
    }
  }

  // reading

  /** The blocks from off to end have been mapped with blocks `got`, and no byte has changed. */
  ghost predicate Taken(v: Volume, w: Volume, i: nat, off: nat, end: nat, got: set<nat>) {
    && i < |v.inodes| && Kept(v, w) && OthersSame(v.inodes, w.inodes, i) && OtherSlots(v, w, i)
    && Mapped(v, w, i, off, end, |got|) && Marked(v.used, w.used, got)
  }

  /** What reading from off on has logged before bmap's last log_write for block bn. */
  ghost function ReadBefore(bmapstart: nat, v: Volume, i: nat, off: nat, bn: nat): set<nat>
    requires i < |v.inodes| && bn < MAXFILE
  {
    var f := FirstFree(v.used, NewCount(v, i, off, (bn + 1) * BSIZE));
    AllocSet(bmapstart, v, i, off, bn * BSIZE) + Maps(bmapstart, f) + if bn < NDIRECT then {} else f
  }

  ghost predicate ReadRoom(h: set<nat>, bmapstart: nat, v: Volume, i: nat, off: nat, end: nat, limit: int)
    requires i < |v.inodes|
  {
    forall bn | bn in NewBlocks(v, i, off, end) :: Room(h, ReadBefore(bmapstart, v, i, off, bn), limit)
  }

  lemma NewBlocksTurn(v: Volume, i: nat, off: nat, mid: nat, end: nat)
    requires i < |v.inodes| && off <= mid < end <= mid - mid % BSIZE + BSIZE && mid < MAXFILE * BSIZE
    requires mid % BSIZE == 0 || mid == off
    ensures var bn := mid / BSIZE;
            && NewBlocks(v, i, off, end) == NewBlocks(v, i, off, mid) + (if Data(v, i, bn) == 0 then {bn} else {})
            && !Covers(off, mid, bn)
  {
    hide SlotAt, Covers;
    var bn := mid / BSIZE;
    forall b: nat
      ensures Covers(off, end, b) <==> Covers(off, mid, b) || b == bn
    {
      CoversSplit(off, mid, end, b);
      OneCovered(mid, end, b);
    }
    assert !Covers(off, mid, bn) by {
      NotYet(off, mid);
    }
  }

  lemma NotYet(off: nat, mid: nat)
    requires off <= mid && (mid % BSIZE == 0 || mid == off)
    ensures !Covers(off, mid, mid / BSIZE)
  {
  }

  lemma SameBlock(u: Volume, v: Volume, i: nat, off: nat, mid: nat, k: nat)
    requires off <= mid < MAXFILE * BSIZE && Mapped(u, v, i, off, mid, k) && (mid % BSIZE == 0 || mid == off)
    ensures Data(v, i, mid / BSIZE) == Data(u, i, mid / BSIZE)
  {
    hide SlotAt, SlotsKept, Filled, NewCount;
    NotYet(off, mid);
    assert !SlotInRange(off, mid, DataSlot(mid / BSIZE));
  }

  /** The blocks that bmap finds logged when it comes to the block at mid. */
  lemma ReadBeforeIs(bmapstart: nat, u: Volume, v: Volume, ou: map<nat, Place>, ov: map<nat, Place>, start: nat, i: nat,
                     off: nat, mid: nat, news: set<nat>)
    requires off <= mid < MAXFILE * BSIZE && Mapped(u, v, i, off, mid, |news|) && Marked(u.used, v.used, news)
    requires Sound(u, ou, start) && Sound(v, ov, start) && (mid % BSIZE == 0 || mid == off)
    requires i < |u.inodes| == |v.inodes|
    ensures AllocSet(bmapstart, u, i, off, mid) + MapBefore(bmapstart, v, i, mid / BSIZE) ==
            ReadBefore(bmapstart, u, i, off, mid / BSIZE)
  {
    hide SlotAt, Sound, NewCount, Marked, Mapped, FirstFree, Frees, Maps, OldTable, Need;
    var bn := mid / BSIZE;
    var end := (bn + 1) * BSIZE;
    AllocMore(bmapstart, u, v, ou, ov, start, i, off, mid, end, news);
    CountOne(v, i, mid, end);
    var f := FirstFree(v.used, Need(v, i, bn));
    MapsMore(bmapstart, news, f);
    assert AllocSet(bmapstart, u, i, off, bn * BSIZE) == AllocSet(bmapstart, u, i, off, mid) by {
      if mid % BSIZE != 0 {
        AllocNone(bmapstart, u, i, off, bn * BSIZE);
        AllocNone(bmapstart, u, i, off, mid);
      }
    }
  }

  lemma AllocNone(bmapstart: nat, v: Volume, i: nat, off: nat, end: nat)
    requires i < |v.inodes| && end <= off
    ensures AllocSet(bmapstart, v, i, off, end) == {}
  {
    assert NewBlocks(v, i, off, end) == {} && !NewEntry(v, i, off, end);
    FirstFreeMono(v.used, 0, 0);
    MapsMono(bmapstart, {}, {});
  }

  /** One turn of readi's loop: what it logs, and when its log_writes go through. */
  lemma ReadTurn(bmapstart: nat, u: Volume, v: Volume, ou: map<nat, Place>, ov: map<nat, Place>, start: nat, i: nat,
                 off: nat, mid: nat, end: nat, news: set<nat>, h: set<nat>, limit: int)
    requires off <= mid < end <= mid - mid % BSIZE + BSIZE && mid < MAXFILE * BSIZE
    requires i < |u.inodes| == |v.inodes| && Taken(u, v, i, off, mid, news)
    requires Sound(u, ou, start) && Sound(v, ov, start) && (mid % BSIZE == 0 || mid == off)
    ensures AllocSet(bmapstart, u, i, off, end) ==
            AllocSet(bmapstart, u, i, off, mid) + MapSet(bmapstart, v, i, mid / BSIZE)
    ensures ReadRoom(h, bmapstart, u, i, off, end, limit) <==>
            && ReadRoom(h, bmapstart, u, i, off, mid, limit)
            && MapRoom(h + AllocSet(bmapstart, u, i, off, mid), bmapstart, v, i, mid / BSIZE, limit)
  {
    hide SlotAt, Sound, NewCount, Marked, Mapped, AllocSet, MapSet, MapBefore, ReadBefore, Room, NewBlocks, Covers;
    hide Kept;
    var bn := mid / BSIZE;
    AllocMore(bmapstart, u, v, ou, ov, start, i, off, mid, end, news);
    AllocOne(bmapstart, v, i, mid, end);
    ReadBeforeIs(bmapstart, u, v, ou, ov, start, i, off, mid, news);
    NewBlocksTurn(u, i, off, mid, end);
    SameBlock(u, v, i, off, mid, |news|);
    Joined(h, AllocSet(bmapstart, u, i, off, mid), MapBefore(bmapstart, v, i, bn));
    RoomSame(h + AllocSet(bmapstart, u, i, off, mid), MapBefore(bmapstart, v, i, bn),
             h, ReadBefore(bmapstart, u, i, off, bn), limit);
  }

  /** A range that ends inside a block that the range before it covers needs nothing more. */
  lemma SameCover(off: nat, mid: nat, end: nat, bn: nat)
    requires off < mid < end <= mid - mid % BSIZE + BSIZE && mid % BSIZE != 0
    ensures Covers(off, end, bn) <==> Covers(off, mid, bn)
    ensures Covers(off, mid, mid / BSIZE)
  {
  }

  lemma CoveredTurn(bmapstart: nat, v: Volume, i: nat, off: nat, mid: nat, end: nat, h: set<nat>, limit: int)
    requires i < |v.inodes| && off < mid < end <= mid - mid % BSIZE + BSIZE && mid % BSIZE != 0
    ensures NewCount(v, i, off, end) == NewCount(v, i, off, mid)
    ensures AllocSet(bmapstart, v, i, off, end) == AllocSet(bmapstart, v, i, off, mid)
    ensures ReadRoom(h, bmapstart, v, i, off, end, limit) <==> ReadRoom(h, bmapstart, v, i, off, mid, limit)
  {
    hide SlotAt, Covers, FirstFree, Maps, ReadBefore, Room;
    forall bn: nat
      ensures Covers(off, end, bn) <==> Covers(off, mid, bn)
    {
      SameCover(off, mid, end, bn);
    }
    assert NewBlocks(v, i, off, end) == NewBlocks(v, i, off, mid);
    assert NewEntry(v, i, off, end) <==> NewEntry(v, i, off, mid);
  }

  /** The same for a part of a block, wherever the range before it ends. */
  lemma ReadPart(bmapstart: nat, u: Volume, v: Volume, ou: map<nat, Place>, ov: map<nat, Place>, start: nat, i: nat,
                 off: nat, mid: nat, end: nat, news: set<nat>, h: set<nat>, limit: int)
    requires off <= mid < end <= mid - mid % BSIZE + BSIZE && mid < MAXFILE * BSIZE
    requires i < |u.inodes| == |v.inodes| && Taken(u, v, i, off, mid, news)
    requires Sound(u, ou, start) && Sound(v, ov, start)
    ensures NewCount(u, i, off, end) == |news| + Need(v, i, mid / BSIZE)
    ensures AllocSet(bmapstart, u, i, off, end) ==
            AllocSet(bmapstart, u, i, off, mid) + MapSet(bmapstart, v, i, mid / BSIZE)
    ensures ReadRoom(h, bmapstart, u, i, off, end, limit) <==>
            && ReadRoom(h, bmapstart, u, i, off, mid, limit)
            && MapRoom(h + AllocSet(bmapstart, u, i, off, mid), bmapstart, v, i, mid / BSIZE, limit)
  {
    hide SlotAt, Sound, NewCount, Marked, AllocSet, MapSet, MapRoom, ReadRoom, Covers, Kept, Need;
    InsideFile(mid, end - mid);
    ReadCount(u, v, i, off, mid, end, news);
    if mid % BSIZE == 0 || mid == off {
      ReadTurn(bmapstart, u, v, ou, ov, start, i, off, mid, end, news, h, limit);
    } else {
      CoveredTurn(bmapstart, u, i, off, mid, end, h, limit);
      SameCover(off, mid, end, mid / BSIZE);
      NoNeed(bmapstart, v, i, mid / BSIZE);
      MapFree(h + AllocSet(bmapstart, u, i, off, mid), bmapstart, v, i, mid / BSIZE, limit);
      assert AllocSet(bmapstart, u, i, off, mid) + {} == AllocSet(bmapstart, u, i, off, mid);
    }
  }

  /** Reading within one block, from nothing read before. */
  lemma ReadOne(bmapstart: nat, v: Volume, owner: map<nat, Place>, start: nat, i: nat, off: nat, end: nat, h: set<nat>,
                limit: int)
    requires off < end <= off - off % BSIZE + BSIZE && off < MAXFILE * BSIZE && i < |v.inodes| && Sound(v, owner, start)
    ensures NewCount(v, i, off, end) == Need(v, i, off / BSIZE)
    ensures AllocSet(bmapstart, v, i, off, end) == MapSet(bmapstart, v, i, off / BSIZE)
    ensures ReadRoom(h, bmapstart, v, i, off, end, limit) <==> MapRoom(h, bmapstart, v, i, off / BSIZE, limit)
  {
    hide SlotAt, Sound, NewCount, Marked, AllocSet, MapSet, MapRoom, ReadRoom, Covers, Kept, Need, Taken;
    ReadNone(bmapstart, v, i, off, h, limit);
    ReadTurn(bmapstart, v, v, owner, owner, start, i, off, off, end, {}, h, limit);
    CountOne(v, i, off, end);
    assert {} + MapSet(bmapstart, v, i, off / BSIZE) == MapSet(bmapstart, v, i, off / BSIZE);
    assert h + {} == h;
  }

  lemma TakenTwice(u: Volume, v: Volume, w: Volume, i: nat, off: nat, mid: nat, end: nat, x: set<nat>, y: set<nat>)
    requires off <= mid <= end <= MAXFILE * BSIZE && Taken(u, v, i, off, mid, x) && Taken(v, w, i, mid, end, y)
    ensures Taken(u, w, i, off, end, x + y) && |x + y| == |x| + |y|
  {
    hide Mapped, Kept, Marked, SlotAt, OtherSlots;
    KeptTwice(u, v, w);
    OtherSlotsMore(u, v, w, i);
    MappedMore(u, v, w, i, off, mid, end, |x|, |y|);
    MarkedMore(u.used, v.used, w.used, x, y);
  }

  lemma ReadRoomLess(h: set<nat>, bmapstart: nat, v: Volume, i: nat, off: nat, mid: nat, end: nat, limit: int)
    requires i < |v.inodes| && off <= mid <= end && ReadRoom(h, bmapstart, v, i, off, end, limit)
    ensures ReadRoom(h, bmapstart, v, i, off, mid, limit)
  {
    hide SlotAt, Covers, ReadBefore, Room;
    forall bn: nat
      ensures Covers(off, mid, bn) ==> Covers(off, end, bn)
    {
      CoversSplit(off, mid, end, bn);
    }
  }

  /** Set unions associate. */
  lemma Joined(a: set<nat>, b: set<nat>, c: set<nat>)
    ensures (a + b) + c == a + (b + c)
  {
  }

  lemma Again(a: set<nat>, y: set<nat>, x: set<nat>, b: set<nat>)
    requires b <= x
    ensures a + (y + x) + b == a + (y + x) && x + (y + b) == x + y
  {
  }

  lemma RangeNone(bmapstart: nat, v: Volume, i: nat, off: nat)
    requires i < |v.inodes|
    ensures RangeDone(v, v, i, off, [], {}) && LogSet(bmapstart, v, i, off, off) == {}
  {
    KeptSelf(v);
    KeptIsWritten(v, v, i, off);
    assert NewBlocks(v, i, off, off) == {} && !NewEntry(v, i, off, off);
    assert OldData(v, i, off, off) == {};
    FirstFreeMono(v.used, 0, 0);
    MapsMono(bmapstart, {}, {});
  }

  lemma AddressInside(v: Volume, owner: map<nat, Place>, start: nat, i: nat, bn: nat)
    requires Sound(v, owner, start) && i < |v.inodes| && bn < MAXFILE && Data(v, i, bn) != 0
    ensures 0 < start <= Data(v, i, bn) < |v.blocks|
  {
    SlotInside(v, owner, start, Place(i, DataSlot(bn)));
  }

  lemma ChangedShape(v: Volume, w: Volume, i: nat, bn: nat, news: set<nat>)
    requires i < |v.inodes| && Changed(v, w, i, bn, news)
    ensures |w.inodes| == |v.inodes| && |w.blocks| == |v.blocks| && SameFile(v.inodes[i], w.inodes[i])
  {
  }

  lemma WriteDataIs(v: Volume, a: nat, o: nat, src: seq<Byte>)
    requires a < |v.blocks| && o + |src| <= BSIZE
    ensures WriteData(v, a, o, src) == v.(blocks := v.blocks[a := Splice(v.blocks[a], o, src)])
  {
  }

  /** A turn ends at a block boundary, or is the last. */
  lemma BlockEnd(off: nat, m: nat, left: nat)
    requires m == if left < BSIZE - off % BSIZE then left else BSIZE - off % BSIZE
    ensures (off + m) % BSIZE == 0 || m == left
  {
  }

  /** The block that a write went to is logged, by bmap or because it was there. */
  lemma NewIsLogged(bmapstart: nat, v: Volume, u: Volume, i: nat, off: nat, end: nat, news: set<nat>)
    requires i < |v.inodes| == |u.inodes| && off < end <= off - off % BSIZE + BSIZE && off < MAXFILE * BSIZE
    requires Changed(v, u, i, off / BSIZE, news) && |news| == Need(v, i, off / BSIZE) && Data(u, i, off / BSIZE) != 0
    requires Data(v, i, off / BSIZE) == 0 ==> Data(u, i, off / BSIZE) in news
    ensures MapSet(bmapstart, v, i, off / BSIZE) + {Data(u, i, off / BSIZE)} == LogSet(bmapstart, v, i, off, end)
  {
    hide SlotAt, FirstFree, Maps, LogSet, Frees;
    LogOne(bmapstart, v, i, off, end);
    MarkedFirst(v.used, u.used, news);
    assert IsPlace(v, Place(i, DataSlot(off / BSIZE)));
  }

  lemma LogWhole(bmapstart: nat, v: Volume, i: nat, off: nat, end: nat, h: set<nat>, limit: int)
    requires i < |v.inodes|
    ensures Room(h, LogSet(bmapstart, v, i, off, end), limit) ==> Room(h, Before(bmapstart, v, i, off, end), limit)
    ensures end <= off ==> LogSet(bmapstart, v, i, off, end) == {} && NewCount(v, i, off, end) == 0
  {
    hide Room, AllocSet;
    var x, y := Before(bmapstart, v, i, off, end), LogSet(bmapstart, v, i, off, end);
    if Room(h, y, limit) { RoomLess(h, x, y, limit); }
    if end <= off {
      AllocNone(bmapstart, v, i, off, end);
      assert OldData(v, i, off, end) == {};
      assert NewBlocks(v, i, off, end) == {} && !NewEntry(v, i, off, end);
    }
  }

  lemma ReadNone(bmapstart: nat, v: Volume, i: nat, off: nat, h: set<nat>, limit: int)
    requires i < |v.inodes|
    ensures Taken(v, v, i, off, off, {}) && AllocSet(bmapstart, v, i, off, off) == {}
    ensures ReadRoom(h, bmapstart, v, i, off, off, limit)
  {
    KeptSelf(v);
    MappedNone(v, i, off);
    AllocNone(bmapstart, v, i, off, off);
  }

  lemma TakenChanged(u: Volume, v: Volume, w: Volume, i: nat, off: nat, mid: nat, got: set<nat>, news: set<nat>)
    requires Taken(u, v, i, off, mid, got) && i < |v.inodes| && Changed(v, w, i, mid / BSIZE, news)
    ensures Kept(u, w) && OthersSame(u.inodes, w.inodes, i) && SameFile(u.inodes[i], w.inodes[i]) && OtherSlots(u, w, i)
  {
    hide SlotAt, Mapped, Marked;
    KeptTwice(u, v, w);
    assert forall p | IsPlace(u, p) :: IsPlace(v, p);
  }

  lemma TakenMore(u: Volume, v: Volume, w: Volume, i: nat, off: nat, mid: nat, end: nat, got: set<nat>, news: set<nat>)
    requires off <= mid < end <= mid - mid % BSIZE + BSIZE && end <= MAXFILE * BSIZE
    requires Taken(u, v, i, off, mid, got) && i < |v.inodes|
    requires Changed(v, w, i, mid / BSIZE, news) && |news| == Need(v, i, mid / BSIZE)
    requires i < |w.inodes| && Data(w, i, mid / BSIZE) != 0
    ensures Taken(u, w, i, off, end, got + news) && |got + news| == |got| + |news|
    ensures |w.inodes| == |u.inodes| && SameFile(u.inodes[i], w.inodes[i])
  {
    hide Mapped, Need, Kept, Marked, SlotAt, OnlySlots, OtherSlots;
    TakenChanged(u, v, w, i, off, mid, got, news);
    MappedOne(v, w, i, mid, end, news);
    MappedMore(u, v, w, i, off, mid, end, |got|, |news|);
    MarkedMore(u.used, v.used, w.used, got, news);
  }

  lemma TakenAll(u: Volume, v: Volume, i: nat, off: nat, end: nat, got: set<nat>)
    requires Taken(u, v, i, off, end, got)
    ensures Kept(u, v) && i < |u.inodes| && OthersSame(u.inodes, v.inodes, i) && |got| == NewCount(u, i, off, end)
    ensures SlotsKept(u, v) && OtherSlots(u, v, i)
  {
  }

  lemma ReadCount(u: Volume, v: Volume, i: nat, off: nat, mid: nat, end: nat, got: set<nat>)
    requires off <= mid < end <= mid - mid % BSIZE + BSIZE && end <= MAXFILE * BSIZE
    requires i < |u.inodes| == |v.inodes| && Taken(u, v, i, off, mid, got)
    ensures NewCount(u, i, off, end) == |got| + Need(v, i, mid / BSIZE)
  {
    hide SlotAt, NewCount, Marked, Kept, Need;
    CountOne(v, i, mid, end);
    CountMore(u, v, i, off, mid, end);
  }

  /** What does not go through for the first blocks does not go through for all. */
  lemma ReadFails(v: Volume, i: nat, off: nat, mid: nat, end: nat, avail: nat, h: set<nat>, bmapstart: nat, limit: int)
    requires i < |v.inodes| && off <= mid <= end
    requires avail < NewCount(v, i, off, mid) || !ReadRoom(h, bmapstart, v, i, off, mid, limit)
    ensures avail < NewCount(v, i, off, end) || !ReadRoom(h, bmapstart, v, i, off, end, limit)
  {
    hide NewCount, ReadRoom;
    CountMono(v, i, off, mid, end);
    if ReadRoom(h, bmapstart, v, i, off, end, limit) {
      ReadRoomLess(h, bmapstart, v, i, off, mid, end, limit);
    }
  }

  /** A block that is there takes nothing. */
  lemma MapFree(h: set<nat>, bmapstart: nat, v: Volume, i: nat, bn: nat, limit: int)
    requires i < |v.inodes| && bn < MAXFILE && Data(v, i, bn) != 0
    ensures Need(v, i, bn) == 0 && MapRoom(h, bmapstart, v, i, bn, limit)
  {
  }

  lemma InsideFile(off: nat, m: nat)
    requires off < MAXFILE * BSIZE && m <= BSIZE - off % BSIZE
    ensures off + m <= MAXFILE * BSIZE
  {
  }

  lemma RangeShape(v: Volume, w: Volume, i: nat, off: nat, src: seq<Byte>, news: set<nat>)
    requires i < |v.inodes| && RangeDone(v, w, i, off, src, news)
    ensures |w.inodes| == |v.inodes| && SameFile(v.inodes[i], w.inodes[i])
  {
  }

  lemma RangeWritten(v: Volume, w: Volume, i: nat, off: nat, src: seq<Byte>, news: set<nat>)
    requires i < |v.inodes| && RangeDone(v, w, i, off, src, news)
    ensures |w.inodes| == |v.inodes| && Written(v, w, i, off, src)
  {
  }

  /** One more turn of the loop, m bytes after the first tot. */
  lemma TurnDone(u: Volume, v: Volume, w: Volume, i: nat, at: nat, src: seq<Byte>, tot: nat, m: nat,
                 news: set<nat>, more: set<nat>)
    requires tot + m <= |src| && i < |u.inodes| && RangeDone(u, v, i, at, src[..tot], news)
    requires i < |v.inodes| && RangeDone(v, w, i, at + tot, src[tot..tot + m], more)
    requires at + tot + m <= MAXFILE * BSIZE
    ensures |u.inodes| == |v.inodes| == |w.inodes| && SameFile(v.inodes[i], w.inodes[i])
    ensures RangeDone(u, w, i, at, src[..tot + m], news + more)
    ensures NewCount(u, i, at, at + tot + m) == NewCount(u, i, at, at + tot) + NewCount(v, i, at + tot, at + tot + m)
  {
    hide RangeDone;
    RangeMore(u, v, w, i, at, src[..tot], src[tot..tot + m], news, more);
    RangeShape(u, v, i, at, src[..tot], news);
    RangeShape(v, w, i, at + tot, src[tot..tot + m], more);
    assert src[..tot] + src[tot..tot + m] == src[..tot + m];
  }

  /** What that turn logs, and when its log_writes go through, header h having been there at the start. */
  lemma TurnLogs(bmapstart: nat, u: Volume, v: Volume, ou: map<nat, Place>, ov: map<nat, Place>, start: nat, i: nat,
                 at: nat, src: seq<Byte>, tot: nat, m: nat, news: set<nat>, h: set<nat>, limit: int)
    requires tot + m <= |src| && 0 < m && i < |u.inodes| == |v.inodes| && RangeDone(u, v, i, at, src[..tot], news)
    requires Sound(u, ou, start) && Sound(v, ov, start) && at + |src| <= MAXFILE * BSIZE
    requires MapsUnder(|u.used|, bmapstart, start)
    requires ((at + tot) % BSIZE == 0 || tot == 0) && ((at + tot + m) % BSIZE == 0 || tot + m == |src|)
    ensures var mid, end := at + tot, at + tot + m;
            && LogSet(bmapstart, u, i, at, end) == LogSet(bmapstart, u, i, at, mid) + LogSet(bmapstart, v, i, mid, end)
            && (Room(h + LogSet(bmapstart, u, i, at, mid), Before(bmapstart, v, i, mid, end), limit) <==>
                Room(h, Before(bmapstart, u, i, at, end), limit))
            && (Room(h, Before(bmapstart, u, i, at, at + |src|), limit) ==>
                Room(h, Before(bmapstart, u, i, at, end), limit))
  {
    hide RangeDone, LogSet, Before, Sound, Room, Mapped, Marked;
    var mid, end := at + tot, at + tot + m;
    RangeMapped(u, v, i, at, src[..tot], news);
    LogMore(bmapstart, u, v, ou, ov, start, i, at, mid, end, news);
    BeforeTurn(bmapstart, u, v, ou, ov, start, i, at, mid, end, news);
    Joined(h, LogSet(bmapstart, u, i, at, mid), Before(bmapstart, v, i, mid, end));
    RoomSame(h + LogSet(bmapstart, u, i, at, mid), Before(bmapstart, v, i, mid, end),
             h, Before(bmapstart, u, i, at, end), limit);
    BeforeMono(bmapstart, u, ou, start, i, at, end, at + |src|);
    if Room(h, Before(bmapstart, u, i, at, at + |src|), limit) {
      RoomLess(h, Before(bmapstart, u, i, at, end), Before(bmapstart, u, i, at, at + |src|), limit);
    }
  }

  /** The turn that fails for want of blocks. */
  lemma TurnFails(u: Volume, v: Volume, i: nat, at: nat, src: seq<Byte>, tot: nat, m: nat, news: set<nat>, left: nat)
    requires i < |u.inodes| == |v.inodes| && tot + m <= |src| && 0 < m <= BSIZE - (at + tot) % BSIZE
    requires RangeDone(u, v, i, at, src[..tot], news)
    requires at + tot < MAXFILE * BSIZE ==> left < Need(v, i, (at + tot) / BSIZE)
    ensures at + |src| <= MAXFILE * BSIZE ==> left + NewCount(u, i, at, at + tot) < NewCount(u, i, at, at + |src|)
  {
    hide RangeDone, Mapped, NewCount, Need;
    if at + |src| <= MAXFILE * BSIZE {
      RangeMapped(u, v, i, at, src[..tot], news);
      MappedCount(u, v, i, at, at + tot, |news|);
      MappedFails(u, v, i, at, at + tot, m, at + |src|, left + |news|, |news|);
    }
  }

  lemma SlotGot(v: Volume, w: Volume, q: Place, b: nat)
    requires IsPlace(v, q) && SlotsChanged(v, w, q, b)
    ensures IsPlace(w, q) && SlotAt(w, q) == b
  {
  }

  lemma EntryGot(v: Volume, w: Volume, i: nat, e: nat, b: nat)
    requires i < |v.inodes| && e < NINDIRECT && SlotsChanged(v, w, Place(i, 13 + e), b) && Kept(v, w)
    ensures |w.inodes| == |v.inodes| && SlotAt(w, Place(i, 13 + e)) == b && OnlySlots(v, w, i, NDIRECT + e)
  {
    hide SlotAt;
    assert IsPlace(v, Place(i, 13 + e));
  }

  lemma ChangedSelf(v: Volume, i: nat, bn: nat)
    requires i < |v.inodes|
    ensures Changed(v, v, i, bn, {})
  {
    KeptSelf(v);
  }

  lemma ChangedOne(v: Volume, w: Volume, i: nat, bn: nat, q: Place, b: nat)
    requires i < |v.inodes| && Kept(v, w) && OthersSame(v.inodes, w.inodes, i) && SlotsChanged(v, w, q, b)
    requires q == Place(i, DataSlot(bn)) || q == Place(i, Head(bn))
    requires b < |v.used| && !v.used[b] && AllUsed(v.used, b) && w.used == v.used[b := true]
    ensures Changed(v, w, i, bn, {b})
  {
    hide Kept, SlotAt;
    MarkedOne(v.used, b);
  }
}
