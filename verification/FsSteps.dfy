/**
  The single changes that fs.c makes to a volume, and what each does to slots and to bytes.
*/
module FsSteps {
  import opened FsVolume

  // --- bytes ------------------------------------------------------------------------------

  ghost predicate SameBytes(v: Volume, w: Volume, i: nat)
    requires i < |v.inodes| && i < |w.inodes|
  {
    forall bn, o | 0 <= bn < MAXFILE && 0 <= o < BSIZE :: Cell(w, i, bn, o) == Cell(v, i, bn, o)
  }

  /** Nothing a reader can see changes, and no slot loses its block. */
  ghost predicate Kept(v: Volume, w: Volume) {
    && SameShape(v, w)
    && (forall i | 0 <= i < |v.inodes| :: SameBytes(v, w, i))
    && (forall p | IsPlace(v, p) && SlotAt(v, p) != 0 :: SlotAt(w, p) == SlotAt(v, p))
  }

  lemma KeptSelf(v: Volume)
    ensures Kept(v, v)
  {
    forall i | 0 <= i < |v.inodes|
      ensures SameFile(v.inodes[i], v.inodes[i]) && SameBytes(v, v, i)
    {
    }
  }

  lemma KeptTwice(u: Volume, v: Volume, w: Volume)
    requires Kept(u, v) && Kept(v, w)
    ensures Kept(u, w)
  {
    hide SlotAt, Cell;
    forall i | 0 <= i < |u.inodes|
      ensures SameFile(u.inodes[i], w.inodes[i]) && SameBytes(u, w, i)
    {
      assert SameFile(u.inodes[i], v.inodes[i]) && SameFile(v.inodes[i], w.inodes[i]);
      assert SameBytes(u, v, i) && SameBytes(v, w, i);
    }
    forall p | IsPlace(u, p) && SlotAt(u, p) != 0
      ensures SlotAt(w, p) == SlotAt(u, p)
    {
      assert IsPlace(v, p);
    }
  }

  // --- giving a slot a block --------------------------------------------------------------

  ghost predicate IsFree(v: Volume, start: nat, b: nat) { start <= b < |v.used| == |v.blocks| && !v.used[b] }

  /** A zeroed block for a direct slot or for the table. */
  function AllocDirect(v: Volume, i: nat, j: nat, b: nat): Volume
    requires i < |v.inodes| && j <= TABLE && b < |v.used| == |v.blocks|
  {
    var ip := v.inodes[i];
    Volume(v.used[b := true], v.blocks[b := Zeros()], v.inodes[i := ip.(addrs := ip.addrs[j := b])])
  }

  /** A zeroed block for an entry of the table. */
  function AllocEntry(v: Volume, i: nat, e: nat, b: nat): Volume
    requires i < |v.inodes| && e < NINDIRECT && b < |v.used| == |v.blocks| < WORDS
    requires v.inodes[i].addrs[TABLE] < |v.blocks|
  {
    var t := v.inodes[i].addrs[TABLE];
    Volume(v.used[b := true], v.blocks[b := Zeros()][t := PutWord(v.blocks[t], e, b)], v.inodes)
  }

  lemma ZeroWord(e: nat)
    requires e < NINDIRECT
    ensures Word(Zeros(), e) == 0
  {
  }

  lemma AllocDirectSlots(v: Volume, owner: map<nat, Place>, start: nat, i: nat, j: nat, b: nat)
    requires Sound(v, owner, start) && i < |v.inodes| && j <= TABLE && IsFree(v, start, b)
    requires SlotAt(v, Place(i, j)) == 0
    ensures SlotsChanged(v, AllocDirect(v, i, j, b), Place(i, j), b)
  {
    hide Sound, Word;
    var w := AllocDirect(v, i, j, b);
    forall p | IsPlace(v, p)
      ensures SlotAt(w, p) == if p == Place(i, j) then b else SlotAt(v, p)
    {
      if p.slot > TABLE {
        var t := v.inodes[p.inum].addrs[TABLE];
        ZeroWord(p.slot - 13);
        if t != 0 {
          SlotInside(v, owner, start, Place(p.inum, TABLE));
        }
      }
    }
    assert forall k | 0 <= k < |v.inodes| :: SameFile(v.inodes[k], w.inodes[k]);
  }

  lemma AllocEntrySlots(v: Volume, owner: map<nat, Place>, start: nat, i: nat, e: nat, b: nat)
    requires Sound(v, owner, start) && i < |v.inodes| && e < NINDIRECT && IsFree(v, start, b) && |v.blocks| < WORDS
    requires v.inodes[i].addrs[TABLE] != 0 && SlotAt(v, Place(i, 13 + e)) == 0
    ensures v.inodes[i].addrs[TABLE] < |v.blocks| && v.inodes[i].addrs[TABLE] != b
    ensures SlotsChanged(v, AllocEntry(v, i, e, b), Place(i, 13 + e), b)
  {
    hide Sound, Word, PutWord;
    var t := v.inodes[i].addrs[TABLE];
    SlotInside(v, owner, start, Place(i, TABLE));
    var w := AllocEntry(v, i, e, b);
    forall p | IsPlace(v, p)
      ensures SlotAt(w, p) == if p == Place(i, 13 + e) then b else SlotAt(v, p)
    {
      if p.slot > TABLE {
        var u := v.inodes[p.inum].addrs[TABLE];
        PutWordAt(v.blocks[t], e, b, p.slot - 13);
        if u != 0 {
          SlotInside(v, owner, start, Place(p.inum, TABLE));
        }
      }
    }
    assert forall k | 0 <= k < |v.inodes| :: SameFile(v.inodes[k], w.inodes[k]);
  }

  /** Bytes stay when a slot gets a zeroed block, if no other block changes but the table t. */
  lemma AllocKeeps(v: Volume, w: Volume, owner: map<nat, Place>, start: nat, q: Place, b: nat, t: nat)
    requires Sound(v, owner, start) && IsPlace(v, q) && SlotAt(v, q) == 0 && IsFree(v, start, b)
    requires SlotsChanged(v, w, q, b) && w.blocks[b] == Zeros()
    requires forall c | 0 <= c < |v.blocks| && c != b && c != t :: w.blocks[c] == v.blocks[c]
    requires t == 0 || SlotAt(v, Place(q.inum, TABLE)) == t
    ensures Kept(v, w)
  {
    hide Sound, SlotAt;
    forall i, bn, o | 0 <= i < |v.inodes| && 0 <= bn < MAXFILE && 0 <= o < BSIZE
      ensures Cell(w, i, bn, o) == Cell(v, i, bn, o)
    {
      var p := Place(i, DataSlot(bn));
      if SlotAt(v, p) != 0 {
        SlotInside(v, owner, start, p);
        if t != 0 {
          SlotInside(v, owner, start, Place(q.inum, TABLE));
        }
      }
    }
    forall i | 0 <= i < |v.inodes|
      ensures SameBytes(v, w, i)
    {
    }
  }

  // --- writing a data block ---------------------------------------------------------------

  function Splice(b: Block, o: nat, src: seq<Byte>): Block
    requires o + |src| <= BSIZE
  {
    b[..o] + src + b[o + |src|..]
  }

  function WriteData(v: Volume, a: nat, o: nat, src: seq<Byte>): Volume
    requires a < |v.blocks| && o + |src| <= BSIZE
  {
    v.(blocks := v.blocks[a := Splice(v.blocks[a], o, src)])
  }

  lemma WriteDataSlots(v: Volume, owner: map<nat, Place>, start: nat, i: nat, bn: nat, o: nat, src: seq<Byte>)
    requires Sound(v, owner, start) && i < |v.inodes| && bn < MAXFILE && o + |src| <= BSIZE && Data(v, i, bn) != 0
    ensures var a := Data(v, i, bn); start <= a < |v.blocks| && v.used[a]
    ensures Sound(WriteData(v, Data(v, i, bn), o, src), owner, start)
    ensures forall p | IsPlace(v, p) :: SlotAt(WriteData(v, Data(v, i, bn), o, src), p) == SlotAt(v, p)
  {
    hide Sound, Word, Splice;
    var q := Place(i, DataSlot(bn));
    SoundSizes(v, owner, start);
    SlotInside(v, owner, start, q);
    var a := Data(v, i, bn);
    var w := WriteData(v, a, o, src);
    forall p | IsPlace(v, p)
      ensures SlotAt(w, p) == SlotAt(v, p)
    {
      if p.slot > TABLE && v.inodes[p.inum].addrs[TABLE] != 0 {
        SlotInside(v, owner, start, Place(p.inum, TABLE));
      }
    }
    SoundSame(v, w, owner, start);
  }

  lemma SoundSizes(v: Volume, owner: map<nat, Place>, start: nat)
    requires Sound(v, owner, start)
    ensures |v.used| == |v.blocks| < WORDS && 0 < start <= |v.used|
    ensures forall i | 0 <= i < |v.inodes| :: InodeFine(v.inodes[i])
  {
  }

  /** The bytes written are those at o and after in block bn of file i, and no others. */
  lemma WriteDataCells(v: Volume, owner: map<nat, Place>, start: nat, i: nat, bn: nat, o: nat, src: seq<Byte>,
                       i1: nat, bn1: nat, o1: nat)
    requires Sound(v, owner, start) && i < |v.inodes| && bn < MAXFILE && o + |src| <= BSIZE
             && 0 < Data(v, i, bn) < |v.blocks|
    requires i1 < |v.inodes| && bn1 < MAXFILE && o1 < BSIZE
    ensures var w := WriteData(v, Data(v, i, bn), o, src);
            Cell(w, i1, bn1, o1) ==
            if i1 == i && bn1 == bn && o <= o1 < o + |src| then src[o1 - o] else Cell(v, i1, bn1, o1)
  {
    hide Sound, SlotAt;
    WriteDataSlots(v, owner, start, i, bn, o, src);
    var p := Place(i1, DataSlot(bn1));
    var q := Place(i, DataSlot(bn));
    assert IsPlace(v, p);
    SlotInside(v, owner, start, q);
    if SlotAt(v, p) != 0 {
      SlotInside(v, owner, start, p);
    }
  }

  // --- offsets ----------------------------------------------------------------------------

  lemma Chunk(off: nat, m: nat, k: nat)
    requires m <= BSIZE - off % BSIZE
    ensures off <= k < off + m <==> k / BSIZE == off / BSIZE && off % BSIZE <= k % BSIZE < off % BSIZE + m
    ensures off <= k < off + m ==> k % BSIZE - off % BSIZE == k - off
  {
  }

  ghost predicate Written(v: Volume, w: Volume, i: nat, off: nat, src: seq<Byte>)
    requires |v.inodes| == |w.inodes| && i < |v.inodes|
  {
    && (forall k | 0 <= k < MAXFILE * BSIZE ::
          ByteAt(w, i, k) == if off <= k < off + |src| then src[k - off] else ByteAt(v, i, k))
    && (forall j | 0 <= j < |v.inodes| && j != i :: SameBytes(v, w, j))
  }

  lemma WriteDataBytes(v: Volume, owner: map<nat, Place>, start: nat, i: nat, off: nat, src: seq<Byte>)
    requires Sound(v, owner, start) && i < |v.inodes| && off < MAXFILE * BSIZE && |src| <= BSIZE - off % BSIZE
    requires 0 < Data(v, i, off / BSIZE) < |v.blocks|
    ensures Written(v, WriteData(v, Data(v, i, off / BSIZE), off % BSIZE, src), i, off, src)
  {
    hide Sound, Data, Cell, WriteData;
    var w := WriteData(v, Data(v, i, off / BSIZE), off % BSIZE, src);
    WriteDataShape(v, Data(v, i, off / BSIZE), off % BSIZE, src);
    forall k | 0 <= k < MAXFILE * BSIZE
      ensures ByteAt(w, i, k) == if off <= k < off + |src| then src[k - off] else ByteAt(v, i, k)
    {
      Chunk(off, |src|, k);
      WriteDataCells(v, owner, start, i, off / BSIZE, off % BSIZE, src, i, k / BSIZE, k % BSIZE);
    }
    forall j | 0 <= j < |v.inodes| && j != i
      ensures SameBytes(v, w, j)
    {
      forall bn, o | 0 <= bn < MAXFILE && 0 <= o < BSIZE
        ensures Cell(w, j, bn, o) == Cell(v, j, bn, o)
      {
        WriteDataCells(v, owner, start, i, off / BSIZE, off % BSIZE, src, j, bn, o);
      }
    }
  }

  lemma WriteDataShape(v: Volume, a: nat, o: nat, src: seq<Byte>)
    requires a < |v.blocks| && o + |src| <= BSIZE
    ensures var w := WriteData(v, a, o, src); w.inodes == v.inodes && w.used == v.used && |w.blocks| == |v.blocks|
  {
  }

  lemma WrittenMore(u: Volume, v: Volume, w: Volume, i: nat, off: nat, x: seq<Byte>, y: seq<Byte>)
    requires |u.inodes| == |v.inodes| == |w.inodes| && i < |u.inodes|
    requires Written(u, v, i, off, x) && Written(v, w, i, off + |x|, y)
    ensures Written(u, w, i, off, x + y)
  {
    hide ByteAt, Cell;
    forall j | 0 <= j < |u.inodes| && j != i
      ensures SameBytes(u, w, j)
    {
      assert SameBytes(u, v, j) && SameBytes(v, w, j);
    }
  }

  lemma KeptIsWritten(v: Volume, w: Volume, i: nat, off: nat)
    requires Kept(v, w) && i < |v.inodes|
    ensures Written(v, w, i, off, [])
  {
    hide Cell;
    assert SameBytes(v, w, i);
  }

  // --- taking a block from a slot ---------------------------------------------------------

  function FreeDirect(v: Volume, i: nat, j: nat): Volume
    requires i < |v.inodes| && j <= TABLE && v.inodes[i].addrs[j] < |v.used|
  {
    var ip := v.inodes[i];
    Volume(v.used[ip.addrs[j] := false], v.blocks, v.inodes[i := ip.(addrs := ip.addrs[j := 0])])
  }

  function FreeEntry(v: Volume, i: nat, e: nat): Volume
    requires i < |v.inodes| && e < NINDIRECT && v.inodes[i].addrs[TABLE] < |v.blocks|
    requires Word(v.blocks[v.inodes[i].addrs[TABLE]], e) < |v.used|
  {
    var t := v.inodes[i].addrs[TABLE];
    Volume(v.used[Word(v.blocks[t], e) := false], v.blocks[t := PutWord(v.blocks[t], e, 0)], v.inodes)
  }

  /** The table can go once its entries are gone. */
  lemma FreeDirectSlots(v: Volume, owner: map<nat, Place>, start: nat, i: nat, j: nat)
    requires Sound(v, owner, start) && i < |v.inodes| && v.inodes[i].kind != Free && j <= TABLE
    requires SlotAt(v, Place(i, j)) != 0
    requires j == TABLE ==> forall k | TABLE < k < SLOTS :: SlotAt(v, Place(i, k)) == 0
    ensures var b := SlotAt(v, Place(i, j)); start <= b < |v.used| && v.used[b] && b in owner
    ensures SlotsChanged(v, FreeDirect(v, i, j), Place(i, j), 0)
    ensures Sound(FreeDirect(v, i, j), owner - {SlotAt(v, Place(i, j))}, start)
  {
    hide Sound, Word;
    SlotInside(v, owner, start, Place(i, j));
    var w := FreeDirect(v, i, j);
    forall p | IsPlace(v, p)
      ensures SlotAt(w, p) == if p == Place(i, j) then 0 else SlotAt(v, p)
    {
      if p.inum == i && p.slot > TABLE {
        assert p == Place(i, p.slot);
      }
    }
    assert forall k | 0 <= k < |v.inodes| :: SameFile(v.inodes[k], w.inodes[k]);
    SoundDrop(v, w, owner, start, Place(i, j));
  }

  lemma FreeEntrySlots(v: Volume, owner: map<nat, Place>, start: nat, i: nat, e: nat)
    requires Sound(v, owner, start) && i < |v.inodes| && v.inodes[i].kind != Free && e < NINDIRECT
    requires SlotAt(v, Place(i, 13 + e)) != 0
    ensures var b := SlotAt(v, Place(i, 13 + e)); start <= b < |v.used| && v.used[b] && b in owner
    ensures v.inodes[i].addrs[TABLE] < |v.blocks|
            && Word(v.blocks[v.inodes[i].addrs[TABLE]], e) == SlotAt(v, Place(i, 13 + e))
    ensures SlotsChanged(v, FreeEntry(v, i, e), Place(i, 13 + e), 0)
    ensures Sound(FreeEntry(v, i, e), owner - {SlotAt(v, Place(i, 13 + e))}, start)
  {
    hide Sound, Word, PutWord;
    SlotInside(v, owner, start, Place(i, 13 + e));
    var t := v.inodes[i].addrs[TABLE];
    SlotInside(v, owner, start, Place(i, TABLE));
    SoundSizes(v, owner, start);
    var w := FreeEntry(v, i, e);
    forall p | IsPlace(v, p)
      ensures SlotAt(w, p) == if p == Place(i, 13 + e) then 0 else SlotAt(v, p)
    {
      if p.slot > TABLE {
        PutWordAt(v.blocks[t], e, 0, p.slot - 13);
        if v.inodes[p.inum].addrs[TABLE] != 0 {
          SlotInside(v, owner, start, Place(p.inum, TABLE));
        }
      }
    }
    assert forall k | 0 <= k < |v.inodes| :: SameFile(v.inodes[k], w.inodes[k]);
    SoundDrop(v, w, owner, start, Place(i, 13 + e));
  }

  /** The other files keep their bytes when file q.inum loses a block. */
  lemma FreeKeepsOthers(v: Volume, w: Volume, owner: map<nat, Place>, start: nat, q: Place, t: nat, i: nat)
    requires Sound(v, owner, start) && IsPlace(v, q) && SlotsChanged(v, w, q, 0)
    requires forall c | 0 <= c < |v.blocks| && c != t :: w.blocks[c] == v.blocks[c]
    requires t == 0 || SlotAt(v, Place(q.inum, TABLE)) == t
    requires i < |v.inodes| && i != q.inum
    ensures SameBytes(v, w, i)
  {
    hide Sound, SlotAt;
    forall bn, o | 0 <= bn < MAXFILE && 0 <= o < BSIZE
      ensures Cell(w, i, bn, o) == Cell(v, i, bn, o)
    {
      var p := Place(i, DataSlot(bn));
      if SlotAt(v, p) != 0 {
        SlotInside(v, owner, start, p);
        if t != 0 {
          SlotInside(v, owner, start, Place(q.inum, TABLE));
        }
      }
    }
  }

  function SetBlock(v: Volume, t: nat, x: Block): Volume
    requires t < |v.blocks|
  {
    v.(blocks := v.blocks[t := x])
  }

  /** What a block holds does not matter while no slot has its address. */
  lemma Unowned(v: Volume, owner: map<nat, Place>, start: nat, t: nat, x: Block)
    requires Sound(v, owner, start) && t < |v.blocks| && t !in owner
    ensures Sound(SetBlock(v, t, x), owner, start)
    ensures forall i | 0 <= i < |v.inodes| :: SameBytes(v, SetBlock(v, t, x), i)
    ensures forall p | IsPlace(v, p) :: SlotAt(SetBlock(v, t, x), p) == SlotAt(v, p)
  {
    hide Sound, Word;
    var w := SetBlock(v, t, x);
    SoundSizes(v, owner, start);
    forall p | IsPlace(v, p)
      ensures SlotAt(w, p) == SlotAt(v, p)
    {
      if v.inodes[p.inum].addrs[TABLE] != 0 {
        SlotInside(v, owner, start, Place(p.inum, TABLE));
      }
    }
    SoundSame(v, w, owner, start);
    forall i, bn, o | 0 <= i < |v.inodes| && 0 <= bn < MAXFILE && 0 <= o < BSIZE
      ensures Cell(w, i, bn, o) == Cell(v, i, bn, o)
    {
      var p := Place(i, DataSlot(bn));
      if SlotAt(v, p) != 0 {
        SlotInside(v, owner, start, p);
      }
    }
    forall i | 0 <= i < |v.inodes|
      ensures SameBytes(v, w, i)
    {
    }
  }
}
