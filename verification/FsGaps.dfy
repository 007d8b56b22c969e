/**
  Volumes whose free blocks lie in different blocks of the free map.

  From block 4096 on the data area is groups of 29 files of the largest size, 141 blocks each,
  with one free block behind each group; another free block lies before the first group.  So the
  free blocks are 4095, 8185, 12275 and so on, one in each block of the free map.  File 0 has its
  direct blocks right below 4095.
*/
module FsGaps {
  import opened Params
  import opened FsVolume
  import opened FsSteps
  import opened FsBitmap
  import opened FsRanges
  import opened FsContent
  import opened FsLogging
  import opened Fs
  import opened FileOps
  import opened FsWitness

  const GROUP := 29            // files in a group
  const STRIDE := 4090         // GROUP * SLOTS blocks and a free one

  predicate Spare(b: nat) { b >= 4095 && (b - 4095) % STRIDE == 0 }

  /** The address in slot j of file k. */
  function Addr(k: nat, j: nat): nat
    requires k >= 1
  {
    4096 + STRIDE * ((k - 1) / GROUP) + SLOTS * ((k - 1) % GROUP) + j
  }

  /** The slot that holds address b. */
  function Home(b: nat): Place
    requires b >= 4096
  {
    var x := b - 4096;
    Place(1 + GROUP * (x / STRIDE) + x % STRIDE / SLOTS, x % STRIDE % SLOTS)
  }

  lemma HomeOfAddr(k: nat, j: nat)
    requires k >= 1 && j < SLOTS
    ensures Addr(k, j) >= 4096 && !Spare(Addr(k, j)) && Home(Addr(k, j)) == Place(k, j)
  {
    var g, r := (k - 1) / GROUP, (k - 1) % GROUP;
    var y := SLOTS * r + j;
    InStride(g, y);
    InStride(g, y + 1);
    InSlots(r, j);
  }

  lemma InStride(g: nat, y: nat)
    requires y < STRIDE
    ensures (STRIDE * g + y) / STRIDE == g && (STRIDE * g + y) % STRIDE == y
  {
  }

  lemma InSlots(r: nat, j: nat)
    requires j < SLOTS
    ensures (SLOTS * r + j) / SLOTS == r && (SLOTS * r + j) % SLOTS == j
  {
  }

  lemma AddrOfHome(b: nat)
    requires b >= 4096 && !Spare(b)
    ensures var p := Home(b); p.inum >= 1 && p.slot < SLOTS && Addr(p.inum, p.slot) == b
  {
    var x := b - 4096;
    var g, y := x / STRIDE, x % STRIDE;
    assert y == STRIDE - 1 ==> b - 4095 == STRIDE * (g + 1);
    var r := y / SLOTS;
    assert r < GROUP;
    assert (GROUP * g + r) / GROUP == g && (GROUP * g + r) % GROUP == r;
  }

  // --- the volume with n free blocks ------------------------------------------------------

  function Blocks(n: nat): nat { if n == 0 then 0 else 4096 + STRIDE * (n - 1) }

  function Files(n: nat): nat { if n == 0 then 1 else 1 + GROUP * (n - 1) }

  lemma AddrInside(k: nat, j: nat, n: nat)
    requires 1 <= k < Files(n) && j < SLOTS
    ensures Addr(k, j) < Blocks(n)
  {
    var g := (k - 1) / GROUP;
    assert g <= n - 2;
    assert STRIDE * g <= STRIDE * (n - 2);
  }

  lemma HomeInside(b: nat, n: nat)
    requires 4096 <= b < Blocks(n) && !Spare(b)
    ensures Home(b).inum < Files(n)
  {
    AddrOfHome(b);
    var g := (b - 4096) / STRIDE;
    assert g <= n - 2;
    assert GROUP * g <= GROUP * (n - 2);
  }

  /** Byte o of the table of file k. */
  function TableByte(k: nat, o: nat): Byte
    requires k >= 1
  {
    var w, d := Addr(k, 13 + o / 4), o % 4;
    if d == 0 then w % 256 else if d == 1 then w / 256 % 256 else if d == 2 then w / 65536 % 256 else w / 16777216 % 256
  }

  function TableBlock(k: nat): (b: Block)
    requires k >= 1
    ensures forall o | 0 <= o < BSIZE :: b[o] == TableByte(k, o)
  {
    seq(BSIZE, o requires 0 <= o => TableByte(k, o))
  }

  lemma TableDigit(k: nat, e: nat, d: nat)
    requires k >= 1 && e < NINDIRECT && d < 4
    ensures var w := Addr(k, 13 + e);
            Digit(TableBlock(k), 4 * e + d) ==
            if d == 0 then w % 256 else if d == 1 then w / 256 % 256
            else if d == 2 then w / 65536 % 256 else w / 16777216 % 256
  {
    hide Addr;
    assert (4 * e + d) / 4 == e && (4 * e + d) % 4 == d;
    assert TableBlock(k)[4 * e + d] == TableByte(k, 4 * e + d);
  }

  lemma TableWord(k: nat, e: nat)
    requires k >= 1 && e < NINDIRECT && Addr(k, 13 + e) < WORDS
    ensures Word(TableBlock(k), e) == Addr(k, 13 + e)
  {
    hide Addr, Digit, TableBlock;
    TableDigit(k, e, 0);
    TableDigit(k, e, 1);
    TableDigit(k, e, 2);
    TableDigit(k, e, 3);
    Digits(Addr(k, 13 + e));
  }

  function BlockOf(b: nat): Block {
    if b >= 4096 && !Spare(b) && Home(b).slot == TABLE then TableBlock(Home(b).inum) else Zeros()
  }

  function InodeOf(k: nat, size: nat, nd: nat): Inode
    requires nd <= NDIRECT
  {
    if k == 0 then DirectInode(File, size, 4095 - nd, nd)
    else Inode(File, 1, MAXFILE * BSIZE, seq(NDIRECT + 1, j requires 0 <= j => Addr(k, j)))
  }

  /** File 0 has the given size and number of direct blocks. */
  ghost function Gaps(n: nat, size: nat, nd: nat): (v: Volume)
    requires nd <= NDIRECT
    ensures |v.used| == |v.blocks| == Blocks(n) && |v.inodes| == Files(n)
    ensures forall b | 0 <= b < |v.used| :: v.used[b] == !Spare(b)
    ensures forall b | 0 <= b < |v.blocks| :: v.blocks[b] == BlockOf(b)
    ensures forall k | 0 <= k < |v.inodes| :: v.inodes[k] == InodeOf(k, size, nd)
  {
    Volume(seq(Blocks(n), b requires 0 <= b => !Spare(b)), seq(Blocks(n), b requires 0 <= b => BlockOf(b)),
           seq(Files(n), k requires 0 <= k => InodeOf(k, size, nd)))
  }

  ghost function GapOwner(n: nat, nd: nat): (m: map<nat, Place>)
    requires nd <= NDIRECT
    ensures forall b: nat :: b in m <==> 4095 - nd <= b < Blocks(n) && !Spare(b)
    ensures forall b | b in m :: m[b] == if b < 4096 then Place(0, b - (4095 - nd)) else Home(b)
  {
    map b | b in Interval(0, Blocks(n)) && 4095 - nd <= b && !Spare(b) ::
      if b < 4096 then Place(0, b - (4095 - nd)) else Home(b)
  }

  lemma GapSlots(n: nat, size: nat, nd: nat, p: Place)
    requires n <= 5 && nd <= NDIRECT && IsPlace(Gaps(n, size, nd), p)
    ensures SlotAt(Gaps(n, size, nd), p) ==
            if p.inum >= 1 then Addr(p.inum, p.slot) else if p.slot < nd then 4095 - nd + p.slot else 0
  {
    hide Word, Addr, Home, TableBlock;
    var v := Gaps(n, size, nd);
    if p.inum == 0 {
      DirectSlots(v, File, size, 4095 - nd, nd, p.slot);
    } else {
      AddrInside(p.inum, p.slot, n);
      AddrInside(p.inum, TABLE, n);
      HomeOfAddr(p.inum, TABLE);
      assert v.inodes[p.inum].addrs[TABLE] == Addr(p.inum, TABLE);
      if p.slot > TABLE {
        TableWord(p.inum, p.slot - 13);
      }
    }
  }

  lemma GapSlotFine(n: nat, size: nat, nd: nat, p: Place)
    requires 1 <= n <= 5 && nd <= NDIRECT && IsPlace(Gaps(n, size, nd), p)
    ensures SlotFine(Gaps(n, size, nd), GapOwner(n, nd), p)
  {
    hide SlotAt, Addr, Home, Gaps, GapOwner;
    GapSlots(n, size, nd, p);
    if p.inum >= 1 {
      HomeOfAddr(p.inum, p.slot);
      AddrInside(p.inum, p.slot, n);
    }
  }

  lemma GapBlockFine(n: nat, size: nat, nd: nat, b: nat)
    requires 1 <= n <= 5 && nd <= NDIRECT && b < Blocks(n)
    ensures BlockFine(Gaps(n, size, nd), GapOwner(n, nd), 4095 - nd, b)
  {
    hide SlotAt, Addr, Home, Gaps, GapOwner;
    var owner := GapOwner(n, nd);
    if b in owner {
      if b >= 4096 {
        AddrOfHome(b);
        HomeInside(b, n);
      }
      GapSlots(n, size, nd, owner[b]);
    }
  }

  lemma GapSound(n: nat, size: nat, nd: nat)
    requires 1 <= n <= 5 && nd <= NDIRECT && size <= MAXFILE * BSIZE
    ensures Sound(Gaps(n, size, nd), GapOwner(n, nd), 4095 - nd)
  {
    hide SlotAt, Addr, Home, Gaps, GapOwner, Spare, SlotFine, BlockFine;
    var v, owner, start := Gaps(n, size, nd), GapOwner(n, nd), 4095 - nd;
    forall p | IsPlace(v, p)
      ensures SlotFine(v, owner, p)
    {
      GapSlotFine(n, size, nd, p);
    }
    forall b | 0 <= b < |v.used|
      ensures BlockFine(v, owner, start, b)
    {
      GapBlockFine(n, size, nd, b);
    }
  }

  // --- the free blocks --------------------------------------------------------------------

  ghost function Spares(n: nat): (s: set<nat>)
    ensures forall b: nat :: b in s <==> Spare(b) && b < 4095 + STRIDE * n
    ensures |s| == n
  {
    if n == 0 then {} else
      var s := Spares(n - 1);
      SpareNext(n - 1);
      s + {4095 + STRIDE * (n - 1)}
  }

  lemma SpareNext(n: nat)
    ensures forall b: nat :: Spare(b) && b < 4095 + STRIDE * (n + 1) <==>
                        (Spare(b) && b < 4095 + STRIDE * n) || b == 4095 + STRIDE * n
  {
    forall b: nat | Spare(b) && 4095 + STRIDE * n <= b < 4095 + STRIDE * (n + 1)
      ensures b == 4095 + STRIDE * n
    {
      var q := (b - 4095) / STRIDE;
      assert b - 4095 == STRIDE * q;
    }
  }

  lemma SpareLow()
    ensures forall b: nat :: Spare(b) ==> b >= 4095
  {
  }

  lemma GapFrees(n: nat, size: nat, nd: nat)
    requires n >= 1 && nd <= NDIRECT
    ensures Frees(Gaps(n, size, nd).used) == Spares(n)
    ensures FirstFree(Gaps(n, size, nd).used, n) == Spares(n)
  {
    hide Spares, Spare, FirstFree;
    var u := Gaps(n, size, nd).used;
    SpareNext(n - 1);
    assert Frees(u) == Spares(n);
    FirstFreeAll(u);
  }

  lemma SparesMore(n: nat)
    requires n < 5
    ensures Spares(n + 1) == Spares(n) + {4095 + STRIDE * n} && (4095 + STRIDE * n) / BPB == n
  {
    hide Spares, Spare;
    SpareNext(n);
  }

  lemma IntervalMore(n: nat, k: nat)
    ensures Interval(n, k + 1) == Interval(n, k) + {n + k}
  {
    hide Interval;
  }

  /** Each lies in a block of the free map of its own. */
  lemma {:induction false} SpareMaps(bmapstart: nat, n: nat)
    requires n <= 5
    ensures Maps(bmapstart, Spares(n)) == Interval(bmapstart, n)
  {
    hide Spares, Interval, Spare, Maps;
    if n == 0 {
      SpareLow();
      assert Spares(n) == {};
      MapsCard(bmapstart, {});
    } else {
      SpareMaps(bmapstart, n - 1);
      var b := 4095 + STRIDE * (n - 1);
      SparesMore(n - 1);
      IntervalMore(bmapstart, n - 1);
      MapsMore(bmapstart, Spares(n - 1), {b});
      MapsOne(bmapstart, b);
    }
  }

  // --- a kernel on such a volume ----------------------------------------------------------

  lemma AllOnes(b: nat, n: nat)
    requires b < 8 * n
    ensures Bit(seq(n, _ => 255), b)
  {
    MasksApart(b % 8, b % 8);
    OnesAnd(Mask(b % 8));
  }

  lemma OnesAnd(m: bv8)
    ensures 255 & m == m
  {
  }

  method GapMap(n: nat) returns (bytes: seq<bv8>)
    requires 1 <= n <= 5
    ensures |bytes| == 2560 && forall b | 0 <= b < Blocks(n) :: Bit(bytes, b) == !Spare(b)
  {
    hide Bit, ClearBit, Spare;
    bytes := seq(2560, _ => 255);
    forall b | 0 <= b < 20480
      ensures Bit(bytes, b)
    {
      AllOnes(b, 2560);
    }
    SpareLow();
    for j := 0 to n
      invariant |bytes| == 2560
      invariant forall b | 0 <= b < 20480 :: Bit(bytes, b) == !(Spare(b) && b < 4095 + STRIDE * j)
    {
      var f := 4095 + STRIDE * j;
      SpareNext(j);
      SetLength(bytes, f);
      forall b | 0 <= b < 20480
        ensures Bit(ClearBit(bytes, f), b) == !(Spare(b) && b < 4095 + STRIDE * (j + 1))
      {
        ClearBitAt(bytes, f, b);
      }
      bytes := ClearBit(bytes, f);
    }
  }

  lemma GapFits(n: nat, nd: nat)
    requires 1 <= n <= 5 && nd <= NDIRECT
    ensures Fits(Files(n), Blocks(n), 0, 15, 4095 - nd) && Blocks(n) <= 8 * 2560
  {
  }

  method GapFs(n: nat, size: nat, nd: nat) returns (fs: FileSystem)
    requires 1 <= n <= 5 && nd <= NDIRECT && size <= MAXFILE * BSIZE
    ensures fresh(fs) && fs.Good() && fs.V() == Gaps(n, size, nd) && fs.bmapstart == 15
    ensures fs.dinodes == fs.inodes && fs.outstanding == 0 && fs.Limit() == LOGSIZE - 1
  {
    hide Sound, Bit, Spare, BlockOf, InodeOf, GapOwner, Interval, Fits, Gaps;
    var bytes := GapMap(n);
    GapFits(n, nd);
    fs := new FileSystem(Blocks(n), 0, 15, 4095 - nd, LOGSIZE, bytes, seq(Blocks(n), b requires 0 <= b => BlockOf(b)),
                         seq(Files(n), k requires 0 <= k => InodeOf(k, size, nd)), GapOwner(n, nd));
    assert fs.V().used == Gaps(n, size, nd).used;
    assert fs.V().blocks == Gaps(n, size, nd).blocks;
    assert fs.V().inodes == Gaps(n, size, nd).inodes;
    GapSound(n, size, nd);
  }

  // --- the bound of filewrite is met ------------------------------------------------------

  lemma TenCount(n: nat)
    requires n == 4
    ensures var v := Gaps(n, SEVEN_OFF, NDIRECT);
            && Dense(v, 0) && NewCount(v, 0, SEVEN_OFF, SEVEN_OFF + CHUNK) == |Frees(v.used)|
            && LogCount(v, 15, 0, SEVEN_OFF, SEVEN_OFF + CHUNK) + 1 == MAXOPBLOCKS
  {
    hide SlotAt, NewEntry, NewBlocks, FirstFree, Frees, Spares, Interval, Gaps, Dense, Maps, NewCount;
    var v := Gaps(n, SEVEN_OFF, NDIRECT);
    TailIsNew(v, SEVEN_OFF, 4095 - NDIRECT);
    GapFrees(n, SEVEN_OFF, NDIRECT);
    SpareMaps(15, n);
  }

  /** A chunk of a file without holes that logs MAXOPBLOCKS blocks. */
  method ReachesTen(src: seq<Byte>) returns (f: OpenFile, r: Outcome)
    requires |src| == CHUNK
    ensures f.fs.Good() && f.ip < |f.fs.inodes| && Dense(f.fs.V(), f.ip)
    ensures r == Value(CHUNK) && |f.fs.logged| == MAXOPBLOCKS
  {
    hide Sound, SlotAt, Fits, Frees, NewCount, Content, LogCount, Advanced, Dense, Spare, BlockOf, FilesDense;
    hide RangeFits;
    var fs := GapFs(4, SEVEN_OFF, NDIRECT);
    ghost var v, d := fs.V(), fs.dinodes[0];
    TenCount(4);
    f := new OpenFile(fs, 0, true, true);
    f.off := SEVEN_OFF;
    r := f.WriteChunk(src);
    AdvancedParts(v, d, fs.V(), fs.dinodes[0], 0, SEVEN_OFF, src, [|fs.logged|]);
  }

  // --- with holes it is passed ------------------------------------------------------------

  const HOLES_SIZE := 12 * BSIZE + 1

  lemma ElevenCount(n: nat)
    requires n == 5
    ensures var v := Gaps(n, HOLES_SIZE, 0);
            && NewCount(v, 0, HOLES_SIZE, HOLES_SIZE + CHUNK) == |Frees(v.used)|
            && LogCount(v, 15, 0, HOLES_SIZE, HOLES_SIZE + CHUNK) == MAXOPBLOCKS
  {
    hide SlotAt, FirstFree, Frees, Spares, Interval, Gaps, Maps;
    var v := Gaps(n, HOLES_SIZE, 0);
    var off, end := HOLES_SIZE, HOLES_SIZE + CHUNK;
    forall bn: nat | bn < MAXFILE
      ensures Data(v, 0, bn) == 0
    {
      DirectSlots(v, File, HOLES_SIZE, 4095, 0, DataSlot(bn));
    }
    assert Covers(off, end, 12);
    assert NewBlocks(v, 0, off, end) == {12, 13, 14, 15};
    GapFrees(n, HOLES_SIZE, 0);
    SpareMaps(15, n);
  }

  /**
    The same chunk in a file of holes logs one block more than an operation may.  The kernel makes no
    such file for filewrite: mkfs makes none and the calls keep it so.
  */
  method HolesReachEleven(src: seq<Byte>) returns (f: OpenFile, r: Outcome)
    requires |src| == CHUNK
    ensures f.fs.Good() && r == Value(CHUNK) && |f.fs.logged| == MAXOPBLOCKS + 1
  {
    hide Sound, SlotAt, Fits, Frees, NewCount, Content, LogCount, Advanced, Dense, Spare, BlockOf, FilesDense;
    hide RangeFits;
    var fs := GapFs(5, HOLES_SIZE, 0);
    ElevenCount(5);
    f := new OpenFile(fs, 0, true, true);
    f.off := HOLES_SIZE;
    r := f.WriteChunk(src);
  }
}
