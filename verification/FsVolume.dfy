/**
  A file-system volume as a value: free map, blocks and inodes, and who owns which block.

  An inode has 141 slots that can hold a block address: slots 0 to 11 are its direct blocks,
  slot 12 its indirect table, and slots 13 to 140 the entries of that table.
*/
module FsVolume {

  const BSIZE := 512
  const NDIRECT := 12
  const NINDIRECT := 128
  const MAXFILE := 140
  const TABLE := 12            // the slot of the indirect table
  const SLOTS := 141

  type Byte = x: int | 0 <= x < 256

  type Block = b: seq<Byte> | |b| == BSIZE witness seq(BSIZE, _ => 0)

  function Zeros(): (b: Block)
    ensures forall k | 0 <= k < BSIZE :: b[k] == 0
  {
    seq(BSIZE, _ => 0)
  }

  type Addrs = a: seq<nat> | |a| == NDIRECT + 1 witness seq(NDIRECT + 1, _ => 0)

  datatype Kind = Free | Dir | File | Dev

  datatype Inode = Inode(kind: Kind, nlink: nat, size: nat, addrs: Addrs)

  datatype Volume = Volume(used: seq<bool>, blocks: seq<Block>, inodes: seq<Inode>)

  // --- words of the indirect table --------------------------------------------------------

  const WORDS := 0x1_0000_0000

  function Digit(b: Block, k: nat): nat
    requires k < BSIZE
  {
    b[k]
  }

  function Word(b: Block, e: nat): nat
    requires e < NINDIRECT
  {
    Digit(b, 4 * e) + 256 * Digit(b, 4 * e + 1) + 65536 * Digit(b, 4 * e + 2) + 16777216 * Digit(b, 4 * e + 3)
  }

  function PutWord(b: Block, e: nat, v: nat): Block
    requires e < NINDIRECT && v < WORDS
  {
    b[4 * e := v % 256][4 * e + 1 := v / 256 % 256][4 * e + 2 := v / 65536 % 256][4 * e + 3 := v / 16777216]
  }

  lemma PutWordAt(b: Block, e: nat, v: nat, f: nat)
    requires e < NINDIRECT && v < WORDS && f < NINDIRECT
    ensures Word(PutWord(b, e, v), f) == if f == e then v else Word(b, f)
  {
    if f == e {
      Digits(v);
    }
  }

  lemma Digits(v: nat)
    ensures v == v % 256 + 256 * (v / 256 % 256) + 65536 * (v / 65536 % 256) + 16777216 * (v / 16777216)
  {
    var a := v / 256;
    var b := a / 256;
    assert b == v / 65536;
    assert b / 256 == v / 16777216;
  }

  // --- slots ------------------------------------------------------------------------------

  datatype Place = Place(inum: nat, slot: nat)

  predicate IsPlace(v: Volume, p: Place) { p.inum < |v.inodes| && p.slot < SLOTS }

  function Slot(blocks: seq<Block>, ip: Inode, j: nat): nat
    requires j < SLOTS
  {
    if j <= TABLE then ip.addrs[j]
    else if 0 < ip.addrs[TABLE] < |blocks| then Word(blocks[ip.addrs[TABLE]], j - 13)
    else 0
  }

  function SlotAt(v: Volume, p: Place): nat
    requires IsPlace(v, p)
  {
    Slot(v.blocks, v.inodes[p.inum], p.slot)
  }

  /** The slot of the bn'th data block of a file. */
  function DataSlot(bn: nat): nat { if bn < NDIRECT then bn else bn + 1 }

  function Data(v: Volume, i: nat, bn: nat): nat
    requires i < |v.inodes| && bn < MAXFILE
  {
    SlotAt(v, Place(i, DataSlot(bn)))
  }

  /** Byte o of data block bn of file i; a block that is not allocated reads as zeros. */
  function Cell(v: Volume, i: nat, bn: nat, o: nat): Byte
    requires i < |v.inodes| && bn < MAXFILE && o < BSIZE
  {
    var a := Data(v, i, bn);
    if 0 < a < |v.blocks| then v.blocks[a][o] else 0
  }

  function ByteAt(v: Volume, i: nat, k: nat): Byte
    requires i < |v.inodes| && k < MAXFILE * BSIZE
  {
    Cell(v, i, k / BSIZE, k % BSIZE)
  }

  /** The contents of file i. */
  function Content(v: Volume, i: nat): (c: seq<Byte>)
    requires i < |v.inodes| && v.inodes[i].size <= MAXFILE * BSIZE
    ensures |c| == v.inodes[i].size && forall k | 0 <= k < |c| :: c[k] == ByteAt(v, i, k)
  {
    seq(v.inodes[i].size, k requires 0 <= k < MAXFILE * BSIZE => ByteAt(v, i, k))
  }

  // --- ownership --------------------------------------------------------------------------

  ghost predicate InodeFine(ip: Inode) {
    ip.size <= MAXFILE * BSIZE && (ip.kind == Free ==> forall j | 0 <= j <= TABLE :: ip.addrs[j] == 0)
  }

  ghost predicate SlotFine(v: Volume, owner: map<nat, Place>, p: Place)
    requires IsPlace(v, p)
  {
    var b := SlotAt(v, p);
    b != 0 ==> b in owner && owner[b] == p
  }

  ghost predicate BlockFine(v: Volume, owner: map<nat, Place>, start: nat, b: nat)
    requires b < |v.used|
  {
    if b < start then v.used[b] && b !in owner
    else if b in owner then v.used[b] && IsPlace(v, owner[b]) && SlotAt(v, owner[b]) == b
    else !v.used[b]
  }

  /**
    A data block is marked in the free map exactly if some slot holds its address, and then
    that slot is its `owner`, the only one.  Blocks below `start` are metadata, all marked.
  */
  ghost predicate Sound(v: Volume, owner: map<nat, Place>, start: nat) {
    && |v.used| == |v.blocks| < WORDS && 0 < start <= |v.used|
    && (forall b | 0 <= b < |v.used| :: BlockFine(v, owner, start, b))
    && (forall b | b in owner :: b < |v.used|)
    && (forall p | IsPlace(v, p) :: SlotFine(v, owner, p))
    && (forall i | 0 <= i < |v.inodes| :: InodeFine(v.inodes[i]))
  }

  /** What soundness means, without the owner map. */
  lemma OwnedExactlyOnce(v: Volume, owner: map<nat, Place>, start: nat)
    requires Sound(v, owner, start)
    ensures forall p, q | IsPlace(v, p) && IsPlace(v, q) && SlotAt(v, p) == SlotAt(v, q) != 0 :: p == q
    ensures forall p | IsPlace(v, p) && SlotAt(v, p) != 0 :: start <= SlotAt(v, p) < |v.used| && v.used[SlotAt(v, p)]
    ensures forall b | start <= b < |v.used| && v.used[b] :: exists p :: IsPlace(v, p) && SlotAt(v, p) == b
  {
    forall p, q | IsPlace(v, p) && IsPlace(v, q) && SlotAt(v, p) == SlotAt(v, q) != 0
      ensures p == q
    {
      assert SlotFine(v, owner, p) && SlotFine(v, owner, q);
    }
    forall p | IsPlace(v, p) && SlotAt(v, p) != 0
      ensures start <= SlotAt(v, p) < |v.used| && v.used[SlotAt(v, p)]
    {
      SlotInside(v, owner, start, p);
    }
    forall b | start <= b < |v.used| && v.used[b]
      ensures exists p :: IsPlace(v, p) && SlotAt(v, p) == b
    {
      assert BlockFine(v, owner, start, b);
      assert IsPlace(v, owner[b]) && SlotAt(v, owner[b]) == b;
    }
  }

  lemma SlotInside(v: Volume, owner: map<nat, Place>, start: nat, p: Place)
    requires Sound(v, owner, start) && IsPlace(v, p) && SlotAt(v, p) != 0
    ensures var b := SlotAt(v, p); start <= b < |v.used| && v.used[b] && b in owner && owner[b] == p
  {
    hide SlotAt;
    assert SlotFine(v, owner, p);
    assert BlockFine(v, owner, start, SlotAt(v, p));
  }

  // --- how a change of slots changes ownership --------------------------------------------

  /** The two volumes have the same size and the same inodes up to addresses. */
  ghost predicate SameShape(v: Volume, w: Volume) {
    && |w.blocks| == |v.blocks| && |w.inodes| == |v.inodes|
    && forall i | 0 <= i < |v.inodes| :: SameFile(v.inodes[i], w.inodes[i])
  }

  ghost predicate SameFile(x: Inode, y: Inode) { y.(addrs := x.addrs) == x }

  ghost predicate SlotsChanged(v: Volume, w: Volume, q: Place, b: nat) {
    && SameShape(v, w)
    && forall p | IsPlace(v, p) :: SlotAt(w, p) == if p == q then b else SlotAt(v, p)
  }

  /** A free block becomes the block of an empty slot. */
  lemma SoundAdd(v: Volume, w: Volume, owner: map<nat, Place>, start: nat, q: Place, b: nat)
    requires Sound(v, owner, start) && IsPlace(v, q) && SlotAt(v, q) == 0
    requires start <= b < |v.used| && !v.used[b] && v.inodes[q.inum].kind != Free
    requires SlotsChanged(v, w, q, b) && w.used == v.used[b := true]
    ensures Sound(w, owner[b := q], start)
  {
    hide SlotAt;
    var after := owner[b := q];
    forall c | 0 <= c < |w.used|
      ensures BlockFine(w, after, start, c)
    {
      assert BlockFine(v, owner, start, c);
    }
    forall p | IsPlace(w, p)
      ensures SlotFine(w, after, p)
    {
      assert IsPlace(v, p) && SlotFine(v, owner, p);
      assert BlockFine(v, owner, start, b);
    }
    forall i | 0 <= i < |w.inodes|
      ensures InodeFine(w.inodes[i])
    {
      assert SameFile(v.inodes[i], w.inodes[i]) && InodeFine(v.inodes[i]);
      FreeStaysEmpty(v, w, i, q, b);
    }
  }

  lemma FreeStaysEmpty(v: Volume, w: Volume, i: nat, q: Place, b: nat)
    requires SlotsChanged(v, w, q, b) && i < |v.inodes| && InodeFine(v.inodes[i])
             && (i == q.inum ==> v.inodes[i].kind != Free)
    ensures InodeFine(w.inodes[i])
  {
    assert SameFile(v.inodes[i], w.inodes[i]);
    if w.inodes[i].kind == Free {
      forall j | 0 <= j <= TABLE
        ensures w.inodes[i].addrs[j] == 0
      {
        assert IsPlace(v, Place(i, j)) && SlotAt(w, Place(i, j)) == SlotAt(v, Place(i, j));
      }
    }
  }

  /** A slot is emptied and its block freed. */
  lemma SoundDrop(v: Volume, w: Volume, owner: map<nat, Place>, start: nat, q: Place)
    requires Sound(v, owner, start) && IsPlace(v, q) && SlotAt(v, q) != 0
    requires SlotAt(v, q) < |v.used| && w.used == v.used[SlotAt(v, q) := false] && SlotsChanged(v, w, q, 0)
    requires v.inodes[q.inum].kind != Free
    ensures Sound(w, owner - {SlotAt(v, q)}, start)
  {
    hide SlotAt;
    var b := SlotAt(v, q);
    var after := owner - {b};
    SlotInside(v, owner, start, q);
    forall c | 0 <= c < |w.used|
      ensures BlockFine(w, after, start, c)
    {
      assert BlockFine(v, owner, start, c);
    }
    forall p | IsPlace(w, p)
      ensures SlotFine(w, after, p)
    {
      assert IsPlace(v, p) && SlotFine(v, owner, p);
    }
    forall i | 0 <= i < |w.inodes|
      ensures InodeFine(w.inodes[i])
    {
      assert InodeFine(v.inodes[i]);
      FreeStaysEmpty(v, w, i, q, 0);
    }
  }

  /** No slot changes. */
  lemma SoundSame(v: Volume, w: Volume, owner: map<nat, Place>, start: nat)
    requires Sound(v, owner, start) && w.used == v.used
    requires |w.blocks| == |v.blocks| && |w.inodes| == |v.inodes|
    requires forall i | 0 <= i < |w.inodes| :: InodeFine(w.inodes[i])
    requires forall p | IsPlace(v, p) :: SlotAt(w, p) == SlotAt(v, p)
    ensures Sound(w, owner, start)
  {
    hide SlotAt, InodeFine;
    forall c | 0 <= c < |w.used|
      ensures BlockFine(w, owner, start, c)
    {
      assert BlockFine(v, owner, start, c);
    }
    forall p | IsPlace(w, p)
      ensures SlotFine(w, owner, p)
    {
      assert IsPlace(v, p) && SlotFine(v, owner, p);
    }
  }
}
