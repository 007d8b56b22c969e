/**
  Directories (fs.c): a file of 16-byte entries, each a two-byte inode number and a name of at
  most DIRSIZ bytes.  Entries with inode number 0 are free.
*/
module Directory {
  import opened Options
  import opened FsVolume
  import opened FsSteps
  import opened FsRanges
  import opened FsContent
  import opened Fs

  const DIRSIZ := 14
  const DESIZE := 16

  // --- entries ----------------------------------------------------------------------------

  /** A byte of a string, with the NUL behind it. */
  function CharAt(s: seq<Byte>, k: nat): Byte { if k < |s| then s[k] else 0 }

  /** strncmp(a, b, n) == 0: the first n bytes agree, or those up to a common NUL. */
  predicate Alike(a: seq<Byte>, b: seq<Byte>, n: nat)
    decreases n
  {
    n == 0 || (CharAt(a, 0) == CharAt(b, 0) && (CharAt(a, 0) == 0 || Alike(a[1..], b[1..], n - 1)))
  }

  /** For names without NUL: byte by byte. */
  lemma {:induction false} AlikeIff(a: seq<Byte>, b: seq<Byte>, n: nat)
    requires 0 !in a && 0 !in b
    ensures Alike(a, b, n) <==> forall k | 0 <= k < n :: CharAt(a, k) == CharAt(b, k)
    decreases n
  {
    if n > 0 && CharAt(a, 0) == CharAt(b, 0) {
      if CharAt(a, 0) == 0 {
        assert a == [] && b == [];
      } else {
        AlikeIff(a[1..], b[1..], n - 1);
        assert forall k: nat :: CharAt(a[1..], k) == CharAt(a, k + 1) && CharAt(b[1..], k) == CharAt(b, k + 1);
        assert forall k | 0 < k < n :: CharAt(a, k) == CharAt(a[1..], k - 1) && CharAt(b, k) == CharAt(b[1..], k - 1);
      }
    }
  }

  function UpToZero(s: seq<Byte>): seq<Byte> {
    if s == [] || s[0] == 0 then [] else [s[0]] + UpToZero(s[1..])
  }

  function First(s: seq<Byte>, n: nat): seq<Byte> { if |s| > n then s[..n] else s }

  /** What strncpy copies of a name. */
  function Cut(name: seq<Byte>): seq<Byte> { First(UpToZero(name), DIRSIZ) }

  /** Names mean the same to strncpy exactly if strncmp finds them equal. */
  lemma {:induction false} FirstAlike(a: seq<Byte>, b: seq<Byte>, n: nat)
    ensures First(UpToZero(a), n) == First(UpToZero(b), n) <==> Alike(a, b, n)
    decreases n
  {
    var x, y := UpToZero(a), UpToZero(b);
    if n > 0 && x != [] && y != [] {
      FirstAlike(a[1..], b[1..], n - 1);
      assert First(x, n) == [a[0]] + First(UpToZero(a[1..]), n - 1);
      assert First(y, n) == [b[0]] + First(UpToZero(b[1..]), n - 1);
      assert First(x, n)[1..] == First(UpToZero(a[1..]), n - 1) && First(y, n)[1..] == First(UpToZero(b[1..]), n - 1);
    }
  }

  lemma CutAlike(a: seq<Byte>, b: seq<Byte>)
    ensures Cut(a) == Cut(b) <==> Alike(a, b, DIRSIZ)
  {
    FirstAlike(a, b, DIRSIZ);
  }

  /** The bytes of an entry: inode number, then the name padded with zeros. */
  function Dirent(inum: nat, name: seq<Byte>): (d: seq<Byte>)
    requires inum < 65536
    ensures |d| == DESIZE
  {
    [inum % 256, inum / 256] + Cut(name) + seq(DIRSIZ - |Cut(name)|, _ => 0)
  }

  function Number(d: seq<Byte>): nat
    requires |d| == DESIZE
  {
    var lo: nat, hi: nat := d[0], d[1];
    lo + 256 * hi
  }

  function NameOf(d: seq<Byte>): seq<Byte>
    requires |d| == DESIZE
  {
    UpToZero(d[2..])
  }

  /** The entry is in use and has the given name. */
  predicate Matches(d: seq<Byte>, name: seq<Byte>) {
    |d| == DESIZE && Number(d) != 0 && NameOf(d) == Cut(name)
  }

  lemma {:induction false} UpToZeroPadded(s: seq<Byte>, n: nat)
    requires 0 !in s
    ensures UpToZero(s + seq(n, _ => 0)) == s
  {
    var t: seq<Byte> := s + seq(n, _ => 0);
    if s != [] {
      assert t[1..] == s[1..] + seq(n, _ => 0);
      UpToZeroPadded(s[1..], n);
    }
  }

  lemma {:induction false} NoZero(s: seq<Byte>)
    ensures 0 !in UpToZero(s)
  {
    if s != [] && s[0] != 0 {
      NoZero(s[1..]);
    }
  }

  /** An entry reads back as what it was made of. */
  lemma DirentReads(inum: nat, name: seq<Byte>)
    requires inum < 65536
    ensures Number(Dirent(inum, name)) == inum && NameOf(Dirent(inum, name)) == Cut(name)
  {
    var d := Dirent(inum, name);
    NoZero(name);
    UpToZeroPadded(Cut(name), DIRSIZ - |Cut(name)|);
    assert d[2..] == Cut(name) + seq(DIRSIZ - |Cut(name)|, _ => 0);
  }

  /** An entry matches exactly the names that strncmp finds equal to its own, which is byte by byte up to 14. */
  lemma DirentMatches(inum: nat, a: seq<Byte>, b: seq<Byte>)
    requires 0 < inum < 65536
    ensures Matches(Dirent(inum, a), b) <==> Alike(a, b, 14)
    ensures 0 !in a && 0 !in b ==>
      (Matches(Dirent(inum, a), b) <==> forall k | 0 <= k < 14 :: CharAt(a, k) == CharAt(b, k))
  {
    hide Dirent, Cut;
    DirentReads(inum, a);
    CutAlike(a, b);
    if 0 !in a && 0 !in b {
      AlikeIff(a, b, 14);
    }
  }

  // --- a directory ------------------------------------------------------------------------

  function Count(c: seq<Byte>): nat { |c| / DESIZE }

  function Entry(c: seq<Byte>, e: nat): (d: seq<Byte>)
    requires e < Count(c)
    ensures |d| == DESIZE
  {
    c[DESIZE * e..DESIZE * e + DESIZE]
  }

  /** The first entry from e on that matches the name. */
  function Find(c: seq<Byte>, name: seq<Byte>, e: nat): (r: Option<nat>)
    requires e <= Count(c)
    decreases Count(c) - e
  {
    if e == Count(c) then None else if Matches(Entry(c, e), name) then Some(e) else Find(c, name, e + 1)
  }

  /** The inode a directory names. */
  function Lookup(c: seq<Byte>, name: seq<Byte>): (r: Option<nat>) {
    match Find(c, name, 0)
    case None => None
    case Some(e) => FindInside(c, name, 0); Some(Number(Entry(c, e)))
  }

  lemma {:induction false} FindInside(c: seq<Byte>, name: seq<Byte>, e: nat)
    requires e <= Count(c)
    ensures match Find(c, name, e)
            case None => forall k | e <= k < Count(c) :: !Matches(Entry(c, k), name)
            case Some(f) =>
              e <= f < Count(c) && Matches(Entry(c, f), name) && forall k | e <= k < f :: !Matches(Entry(c, k), name)
    decreases Count(c) - e
  {
    hide Entry, Matches, Count;
    if e < Count(c) && !Matches(Entry(c, e), name) {
      FindInside(c, name, e + 1);
    }
  }

  /** The first free entry from e on, or one past the last. */
  function Vacant(c: seq<Byte>, e: nat): (f: nat)
    requires e <= Count(c)
    ensures e <= f <= Count(c) && (f < Count(c) ==> Number(Entry(c, f)) == 0)
    decreases Count(c) - e
  {
    if e == Count(c) || Number(Entry(c, e)) == 0 then e else Vacant(c, e + 1)
  }

  /** Entry e of the directory, byte by byte: it is in use and its name is equal to strncmp. */
  ghost predicate Names(c: seq<Byte>, e: nat, name: seq<Byte>) {
    16 * e + 16 <= |c| && (c[16 * e] != 0 || c[16 * e + 1] != 0) && Alike(c[16 * e + 2..16 * e + 16], name, 14)
  }

  lemma {:induction false} NameLength(s: seq<Byte>, n: nat)
    requires |s| <= n
    ensures First(UpToZero(s), n) == UpToZero(s)
  {
    if s != [] && s[0] != 0 {
      NameLength(s[1..], n - 1);
    }
  }

  lemma EntryNames(c: seq<Byte>, e: nat, name: seq<Byte>)
    requires e < Count(c)
    ensures Matches(Entry(c, e), name) <==> Names(c, e, name)
    ensures var lo: nat, hi: nat := c[16 * e], c[16 * e + 1]; Number(Entry(c, e)) == lo + 256 * hi
  {
    var d := Entry(c, e);
    assert d[2..] == c[16 * e + 2..16 * e + 16] && d[0] == c[16 * e] && d[1] == c[16 * e + 1];
    NameLength(d[2..], DIRSIZ);
    CutAlike(d[2..], name);
  }

  /** A directory gives a name the number of the first entry that has it. */
  lemma LookupIff(c: seq<Byte>, name: seq<Byte>)
    ensures Lookup(c, name) == None <==> forall e: nat :: !Names(c, e, name)
    ensures forall e: nat | Names(c, e, name) && (forall f: nat | f < e :: !Names(c, f, name)) ::
      var lo: nat, hi: nat := c[16 * e], c[16 * e + 1]; Lookup(c, name) == Some(lo + 256 * hi)
  {
    hide Entry, Matches, Names, Number;
    FindInside(c, name, 0);
    forall e: nat
      ensures Names(c, e, name) ==> e < Count(c)
      ensures e < Count(c) ==> (Matches(Entry(c, e), name) <==> Names(c, e, name))
    {
      NamesInside(c, e, name);
      if e < Count(c) { EntryNames(c, e, name); }
    }
    forall e: nat | Names(c, e, name) && (forall f: nat | f < e :: !Names(c, f, name))
      ensures 16 * e + 1 < |c|
      ensures var lo: nat, hi: nat := c[16 * e], c[16 * e + 1]; Lookup(c, name) == Some(lo + 256 * hi)
    {
      EntryNames(c, e, name);
    }
  }

  lemma NamesInside(c: seq<Byte>, e: nat, name: seq<Byte>)
    ensures Names(c, e, name) ==> e < Count(c) && 16 * e + 1 < |c|
  {
  }

  /** No two entries in use have the same name. */
  ghost predicate Distinct(c: seq<Byte>) {
    forall e, f | 0 <= e < f < Count(c) :: Apart(Entry(c, e), Entry(c, f))
  }

  predicate Apart(d: seq<Byte>, x: seq<Byte>) {
    |d| != DESIZE || |x| != DESIZE || Number(d) == 0 || Number(x) == 0 || NameOf(d) != NameOf(x)
  }

  // --- adding an entry --------------------------------------------------------------------

  /** Entry f is free, or one past the last. */
  predicate CanTake(c: seq<Byte>, f: nat) {
    |c| % DESIZE == 0 && f <= Count(c) && (f < Count(c) ==> Number(Entry(c, f)) == 0)
  }

  lemma LinkEntries(c: seq<Byte>, f: nat, d: seq<Byte>)
    requires CanTake(c, f) && |d| == DESIZE
    ensures DESIZE * f <= |c|
    ensures var w := Overwrite(c, DESIZE * f, d);
            && |w| % DESIZE == 0 && Count(w) == (if f < Count(c) then Count(c) else Count(c) + 1)
            && Entry(w, f) == d
    ensures forall e | 0 <= e < Count(c) && e != f ::
      e < Count(Overwrite(c, DESIZE * f, d)) && Entry(Overwrite(c, DESIZE * f, d), e) == Entry(c, e)
  {
    var w := Overwrite(c, DESIZE * f, d);
    if f == Count(c) {
      assert w == c + d;
    } else {
      assert |w| == |c|;
    }
    assert Entry(w, f) == d;
    forall e | 0 <= e < Count(c) && e != f
      ensures e < Count(w) && Entry(w, e) == Entry(c, e)
    {
      EntrySame(c, w, e);
    }
  }

  lemma EntrySame(c: seq<Byte>, w: seq<Byte>, e: nat)
    requires e < Count(c) && e < Count(w) && forall k | DESIZE * e <= k < DESIZE * e + DESIZE :: w[k] == c[k]
    ensures Entry(w, e) == Entry(c, e)
  {
  }

  /** The new name is found, and every other name means what it did. */
  lemma LinkLookup(c: seq<Byte>, f: nat, name: seq<Byte>, inum: nat, other: seq<Byte>)
    requires CanTake(c, f) && 0 < inum < 65536 && Lookup(c, name) == None
    ensures DESIZE * f <= |c|
    ensures var w := Overwrite(c, DESIZE * f, Dirent(inum, name));
            Lookup(w, other) == if Alike(other, name, DIRSIZ) then Some(inum) else Lookup(c, other)
  {
    hide Entry, Overwrite, Dirent, Number, NameOf, Count, Cut;
    var d := Dirent(inum, name);
    DirentReads(inum, name);
    LinkEntries(c, f, d);
    var w := Overwrite(c, DESIZE * f, d);
    CutAlike(other, name);
    FindInside(c, name, 0);
    FindInside(c, other, 0);
    FindInside(w, other, 0);
    if Cut(other) != Cut(name) {
      assert !Matches(Entry(w, f), other);
      SameFirst(c, w, f, other);
    } else {
      assert Matches(Entry(w, f), other);
    }
  }

  lemma SameFirst(c: seq<Byte>, w: seq<Byte>, f: nat, name: seq<Byte>)
    requires f <= Count(c) && f < Count(w) == (if f < Count(c) then Count(c) else f + 1) && !Matches(Entry(w, f), name)
    requires f < Count(c) ==> !Matches(Entry(c, f), name)
    requires forall e | 0 <= e < Count(c) && e != f :: Entry(w, e) == Entry(c, e)
    ensures Lookup(w, name) == Lookup(c, name)
  {
    hide Entry, Number, NameOf, Count, Matches;
    FindInside(c, name, 0);
    FindInside(w, name, 0);
    var x, y := Find(c, name, 0), Find(w, name, 0);
    if x.Some? {
      assert Matches(Entry(w, x.value), name);
    }
    if y.Some? {
      assert Matches(Entry(c, y.value), name);
    }
  }

  lemma SameName(c: seq<Byte>, name: seq<Byte>, other: seq<Byte>)
    requires Alike(other, name, DIRSIZ)
    ensures Lookup(c, other) == Lookup(c, name)
  {
    hide Entry, Cut, Alike;
    CutAlike(other, name);
    FindSame(c, name, other, 0);
  }

  lemma {:induction false} FindSame(c: seq<Byte>, name: seq<Byte>, other: seq<Byte>, e: nat)
    requires e <= Count(c) && Cut(other) == Cut(name)
    ensures Find(c, other, e) == Find(c, name, e)
    decreases Count(c) - e
  {
    hide Count, Entry, Cut;
    if e < Count(c) {
      FindSame(c, name, other, e + 1);
    }
  }

  lemma LinkDistinct(c: seq<Byte>, f: nat, name: seq<Byte>, inum: nat)
    requires CanTake(c, f) && 0 < inum < 65536 && Lookup(c, name) == None && Distinct(c)
    ensures DESIZE * f <= |c| && Distinct(Overwrite(c, DESIZE * f, Dirent(inum, name)))
  {
    hide Entry, Overwrite, Dirent, Number, NameOf, Count;
    var d := Dirent(inum, name);
    DirentReads(inum, name);
    LinkEntries(c, f, d);
    var w := Overwrite(c, DESIZE * f, d);
    FindInside(c, name, 0);
    forall e, g | 0 <= e < g < Count(w)
      ensures Apart(Entry(w, e), Entry(w, g))
    {
      if e != f {
        assert !Matches(Entry(c, e), name);
      }
      if g != f {
        assert !Matches(Entry(c, g), name);
      }
      if e != f && g != f {
        assert Apart(Entry(c, e), Entry(c, g));
      }
    }
  }

  // --- dirlookup and dirlink --------------------------------------------------------------

  datatype Hit = Hit(off: nat, inum: nat) | Miss | Stop

  lemma KeptContent(v: Volume, w: Volume, i: nat)
    requires Kept(v, w) && i < |v.inodes| && v.inodes[i].size <= MAXFILE * BSIZE
    ensures |w.inodes| == |v.inodes| && w.inodes[i].kind == v.inodes[i].kind && w.inodes[i].size == v.inodes[i].size
    ensures Content(w, i) == Content(v, i)
  {
    assert SameFile(v.inodes[i], w.inodes[i]);
    SameContent(v, w, i);
  }

  /** How far the search for a name reads: up to the entry it finds, or to the end. */
  function Reach(c: seq<Byte>, name: seq<Byte>): nat {
    match Find(c, name, 0)
    case None => |c|
    case Some(e) => DESIZE * e + DESIZE
  }

  /** Reading up to `end` goes through: the blocks and the room in the log for the holes on the way. */
  ghost predicate ReadFits(h: set<nat>, bmapstart: nat, v: Volume, i: nat, end: nat, avail: nat, limit: int)
    requires i < |v.inodes|
  {
    NewCount(v, i, 0, end) <= avail && ReadRoom(h, bmapstart, v, i, 0, end, limit)
  }

  lemma ReadFitsIs(h: set<nat>, bmapstart: nat, v: Volume, i: nat, end: nat, avail: nat, limit: int)
    requires i < |v.inodes|
    ensures ReadFits(h, bmapstart, v, i, end, avail, limit) <==>
            NewCount(v, i, 0, end) <= avail && ReadRoom(h, bmapstart, v, i, 0, end, limit)
  {
  }

  /** What has no hole can always be read. */
  lemma FilledFits(h: set<nat>, bmapstart: nat, v: Volume, i: nat, end: nat, avail: nat, limit: int)
    requires i < |v.inodes| && Filled(v, i, 0, end)
    ensures ReadFits(h, bmapstart, v, i, end, avail, limit)
  {
    hide SlotAt, ReadBefore, Room;
    assert NewBlocks(v, i, 0, end) == {} && !NewEntry(v, i, 0, end);
  }

  /** Where the search is at entry e, having found nothing before it. */
  lemma ReachFrom(c: seq<Byte>, name: seq<Byte>, e: nat)
    requires e <= Count(c) && Find(c, name, 0) == Find(c, name, e)
    ensures e < Count(c) ==> Reach(c, name) >= DESIZE * e + DESIZE
    ensures DESIZE * e < |c| ==> DESIZE * e < Reach(c, name) <= |c|
    ensures e < Count(c) && Matches(Entry(c, e), name) ==>
            Reach(c, name) == DESIZE * e + DESIZE && Lookup(c, name) == Some(Number(Entry(c, e)))
    ensures e == Count(c) ==> Reach(c, name) == |c| && Lookup(c, name) == None
  {
    hide Entry, Matches, Number;
    FindInside(c, name, e);
  }

  /** One turn of the two loops: the entry at off, or none where the directory ends inside it. */
  method ReadEntry(fs: FileSystem, i: nat, e: nat) returns (ok: bool, d: seq<Byte>, ghost got: set<nat>)
    requires fs.Good() && i < |fs.inodes| && fs.inodes[i].kind == Dir && DESIZE * e < fs.inodes[i].size
    modifies fs`bitmap, fs`blocks, fs`inodes, fs`owner, fs`logged
    ensures fs.Good() && Kept(old(fs.V()), fs.V()) && OthersKept(old(fs.V()), fs.V(), i)
    ensures DESIZE * e / BSIZE < MAXFILE
    ensures ok <==>
      && DESIZE * e + DESIZE <= old(fs.inodes)[i].size
      && Need(old(fs.V()), i, DESIZE * e / BSIZE) <= old(fs.Avail())
      && MapRoom(old(fs.Header()), fs.bmapstart, old(fs.V()), i, DESIZE * e / BSIZE, fs.Limit())
    ensures ok ==> e < Count(old(Content(fs.V(), i))) && d == Entry(old(Content(fs.V(), i)), e)
    ensures ok ==> Taken(old(fs.V()), fs.V(), i, DESIZE * e, DESIZE * e + DESIZE, got)
    ensures ok ==> fs.Avail() + |got| == old(fs.Avail())
    ensures ok ==> fs.logged == old(fs.logged) + MapSet(fs.bmapstart, old(fs.V()), i, DESIZE * e / BSIZE)
    ensures Data(old(fs.V()), i, DESIZE * e / BSIZE) != 0 ==>
      unchanged(fs) && (ok <==> DESIZE * e + DESIZE <= fs.inodes[i].size)
    ensures !ok ==> DESIZE * e + DESIZE > old(fs.inodes)[i].size || fs.Stuck()
  {
    hide Sound, Frees, Fits, Kept, Content, Dense, ReadRoom, NewCount, OthersKept, FilesDense, FileSystem.Stuck, Taken;
    hide AllocSet, MapSet, MapRoom, Need, Filled;
    SoundSizes(fs.V(), fs.owner, fs.start);
    ghost var c := Content(fs.V(), i);
    ContentLength(fs.V(), i);
    EntryInBlock(e);
    OneFilled(fs.V(), i, DESIZE * e, if DESIZE * e + DESIZE < |c| then DESIZE * e + DESIZE else |c|);
    if DESIZE * e + DESIZE <= |c| {
      ReadOne(fs.bmapstart, fs.V(), fs.owner, fs.start, i, DESIZE * e, DESIZE * e + DESIZE, fs.Header(), fs.Limit());
    }
    var r;
    r, d, got := fs.Readi(i, DESIZE * e, DESIZE);
    ok := r == Value(DESIZE);
  }

  lemma OneFilled(v: Volume, i: nat, off: nat, end: nat)
    requires i < |v.inodes| && off < end <= off - off % BSIZE + BSIZE && off < MAXFILE * BSIZE
    ensures Data(v, i, off / BSIZE) != 0 ==> Filled(v, i, off, end) && Need(v, i, off / BSIZE) == 0
    ensures Data(v, i, off / BSIZE) != 0 ==>
      forall h, bmapstart, limit :: MapRoom(h, bmapstart, v, i, off / BSIZE, limit)
  {
    hide SlotAt, Covers;
    forall bn: nat
      ensures Covers(off, end, bn) <==> bn == off / BSIZE
    {
      OneCovered(off, end, bn);
    }
  }

  lemma EntryInBlock(e: nat)
    ensures DESIZE * e + DESIZE <= DESIZE * e - DESIZE * e % BSIZE + BSIZE
  {
  }

  /**
    dirlookup: the first entry in use with the name, if there is one.  It panics exactly if this is no
    directory, if filling its holes up to there takes too many blocks or too much of the log, or if the
    search runs into an entry that is cut off.
  */
  method Dirlookup(fs: FileSystem, i: nat, name: seq<Byte>) returns (r: Hit, ghost got: set<nat>)
    requires fs.Good() && i < |fs.inodes| && fs.inodes[i].kind != Free
    modifies fs`bitmap, fs`blocks, fs`inodes, fs`owner, fs`logged
    ensures fs.Good() && Kept(old(fs.V()), fs.V()) && OthersKept(old(fs.V()), fs.V(), i)
    ensures
      var c := old(Content(fs.V(), i));
      r == Stop <==>
        || old(fs.inodes)[i].kind != Dir
        || !ReadFits(old(fs.Header()), fs.bmapstart, old(fs.V()), i, Reach(c, name), old(fs.Avail()), fs.Limit())
        || (Lookup(c, name) == None && |c| % DESIZE != 0)
    ensures
      r != Stop ==>
        var end := Reach(old(Content(fs.V(), i)), name);
        && Taken(old(fs.V()), fs.V(), i, 0, end, got) && fs.Avail() + |got| == old(fs.Avail())
        && fs.logged == old(fs.logged) + AllocSet(fs.bmapstart, old(fs.V()), i, 0, end)
    ensures Filled(old(fs.V()), i, 0, Reach(old(Content(fs.V(), i)), name)) ==> unchanged(fs)
    ensures
      var c := old(Content(fs.V(), i));
      match r
      case Hit(off, inum) => Lookup(c, name) == Some(inum) && off % DESIZE == 0
        && Find(c, name, 0) == Some(off / DESIZE)
      case Miss => Lookup(c, name) == None && |c| % DESIZE == 0
      case Stop =>
        old(fs.inodes)[i].kind != Dir || (Lookup(c, name) == None && |c| % DESIZE != 0) || fs.Stuck()
  {
    hide Sound, Frees, Fits, Kept, Content, Entry, Number, NameOf, OthersKept, FileSystem.Stuck, Taken;
    hide AllocSet, MapSet, MapRoom, Need, NewCount, ReadRoom, FileSystem.Avail, Reach, ReadFits, Matches, Lookup;
    hide Filled;
    ghost var v, h, o := fs.V(), fs.Header(), fs.owner;
    got := {};
    KeptSelf(v);
    OthersSelf(v, i);
    SoundSizes(v, fs.owner, fs.start);
    ghost var c := Content(v, i);
    ContentLength(v, i);
    if fs.inodes[i].kind != Dir { return Stop, {}; }
    var e := 0;
    ReadFitsIs(h, fs.bmapstart, v, i, Reach(c, name), fs.Avail(), fs.Limit());
    ReadNone(fs.bmapstart, v, i, 0, h, fs.Limit());
    while DESIZE * e < fs.inodes[i].size
      invariant fs.Good() && Kept(v, fs.V()) && OthersKept(v, fs.V(), i)
      invariant Filled(v, i, 0, Reach(c, name)) ==> unchanged(fs)
      invariant i < |fs.inodes| && fs.inodes[i].kind == Dir && fs.inodes[i].size == |c|
      invariant e <= Count(c) && Find(c, name, 0) == Find(c, name, e)
      invariant Taken(v, fs.V(), i, 0, DESIZE * e, got) && fs.Avail() + |got| == old(fs.Avail())
      invariant ReadRoom(h, fs.bmapstart, v, i, 0, DESIZE * e, fs.Limit())
      invariant fs.logged == old(fs.logged) + AllocSet(fs.bmapstart, v, i, 0, DESIZE * e)
    {
      ghost var u, off := fs.V(), DESIZE * e;
      ReachFrom(c, name, e);
      FilledHas(v, i, 0, off, Reach(c, name));
      KeptContent(v, u, i);
      EntryInBlock(e);
      ReadPart(fs.bmapstart, v, u, o, fs.owner, fs.start, i, 0, off, off + DESIZE, got, h, fs.Limit());
      Joined(fs.base, old(fs.logged), AllocSet(fs.bmapstart, v, i, 0, off));
      ghost var more;
      var ok, d;
      ok, d, more := ReadEntry(fs, i, e);
      KeptTwice(v, u, fs.V());
      OthersMore(v, u, fs.V(), i);
      KeptContent(v, fs.V(), i);
      if !ok {
        if off + DESIZE <= |c| {
          ReadFails(v, i, 0, off + DESIZE, Reach(c, name), old(fs.Avail()), h, fs.bmapstart, fs.Limit());
        }
        return Stop, {};
      }
      Joined(old(fs.logged), AllocSet(fs.bmapstart, v, i, 0, off), MapSet(fs.bmapstart, u, i, off / BSIZE));
      TakenTwice(v, u, fs.V(), i, 0, off, off + DESIZE, got, more);
      TakenAll(v, fs.V(), i, 0, off + DESIZE, got + more);
      got := got + more;
      if Matches(d, name) {
        return Hit(DESIZE * e, Number(d)), got;
      }
      e := e + 1;
    }
    ReachFrom(c, name, e);
    TakenAll(v, fs.V(), i, 0, DESIZE * e, got);
    r := Miss;
  }

  /** The second loop of dirlink: the first free entry, or the end. */
  method FindFree(fs: FileSystem, i: nat) returns (ok: bool, f: nat)
    requires fs.Good() && i < |fs.inodes| && fs.inodes[i].kind == Dir && fs.inodes[i].size % DESIZE == 0
    modifies fs`bitmap, fs`blocks, fs`inodes, fs`owner, fs`logged
    ensures fs.Good() && Kept(old(fs.V()), fs.V()) && OthersKept(old(fs.V()), fs.V(), i)
    ensures ok ==> f == Vacant(old(Content(fs.V(), i)), 0)
    ensures Dense(old(fs.V()), i) ==> ok && unchanged(fs)
    ensures !ok ==> fs.Stuck()
  {
    hide Sound, Frees, Fits, Kept, Content, Entry, Number, Dense, OthersKept, FileSystem.Stuck, Filled;
    ghost var v := fs.V();
    KeptSelf(v);
    OthersSelf(v, i);
    SoundSizes(v, fs.owner, fs.start);
    ghost var c := Content(v, i);
    f := 0;
    while DESIZE * f < fs.inodes[i].size
      invariant fs.Good() && Kept(v, fs.V()) && OthersKept(v, fs.V(), i) && (Dense(v, i) ==> unchanged(fs))
      invariant i < |fs.inodes| && fs.inodes[i].kind == Dir && fs.inodes[i].size == |c| && f <= Count(c)
      invariant Vacant(c, 0) == Vacant(c, f)
    {
      ghost var u := fs.V();
      KeptContent(v, u, i);
      var d;
      ghost var got;
      DenseFilled(v, i, 0, |c|);
      FilledHas(v, i, 0, DESIZE * f, |c|);
      ok, d, got := ReadEntry(fs, i, f);
      KeptTwice(v, u, fs.V());
      OthersMore(v, u, fs.V(), i);
      KeptContent(v, fs.V(), i);
      if !ok { return; }
      if Number(d) == 0 { return true, f; }
      f := f + 1;
    }
    ok := true;
  }

  lemma VacantTaken(c: seq<Byte>)
    requires |c| % DESIZE == 0
    ensures CanTake(c, Vacant(c, 0)) && DESIZE * Vacant(c, 0) <= |c|
  {
  }

  lemma Linked(c: seq<Byte>, f: nat, name: seq<Byte>, inum: nat)
    requires CanTake(c, f) && 0 < inum < 65536 && Lookup(c, name) == None
    ensures DESIZE * f <= |c|
    ensures var w := Overwrite(c, DESIZE * f, Dirent(inum, name));
            |w| % DESIZE == 0 && (Distinct(c) ==> Distinct(w))
    ensures forall other ::
      Lookup(Overwrite(c, DESIZE * f, Dirent(inum, name)), other) ==
      if Alike(other, name, DIRSIZ) then Some(inum) else Lookup(c, other)
  {
    hide Lookup, Overwrite, Dirent, Distinct, CanTake, Alike;
    LinkEntries(c, f, Dirent(inum, name));
    if Distinct(c) {
      LinkDistinct(c, f, name, inum);
    }
    forall other
      ensures Lookup(Overwrite(c, DESIZE * f, Dirent(inum, name)), other) ==
              if Alike(other, name, DIRSIZ) then Some(inum) else Lookup(c, other)
    {
      LinkLookup(c, f, name, inum, other);
    }
  }

  /**
    dirlink can write its entry: there is a place for it, blocks for the holes of the directory and for
    the entry, and room in the log for what these take.
  */
  ghost predicate LinkFits(h: set<nat>, bmapstart: nat, v: Volume, i: nat, limit: int)
    requires i < |v.inodes| && v.inodes[i].size <= MAXFILE * BSIZE
  {
    var c := Content(v, i);
    var at := DESIZE * Vacant(c, 0);
    var end := Max(|c|, at + DESIZE);
    && |c| % DESIZE == 0 && end <= MAXFILE * BSIZE
    && ReadFits(h, bmapstart, v, i, |c|, |Frees(v.used)|, limit)
    && EntryFits(h, bmapstart, v, i, at, end, at + DESIZE > |c|, limit)
  }

  ghost predicate EntryFits(h: set<nat>, bmapstart: nat, v: Volume, i: nat, at: nat, end: nat, grows: bool, limit: int)
    requires i < |v.inodes|
  {
    var a := AllocSet(bmapstart, v, i, 0, end);
    && NewCount(v, i, 0, end) <= |Frees(v.used)| && Room(h, a, limit)
    && (grows ==> Room(h, a + OldData(v, i, at, at + DESIZE), limit))
  }

  lemma LinkFitsIs(h: set<nat>, bmapstart: nat, v: Volume, i: nat, limit: int)
    requires i < |v.inodes| && v.inodes[i].size <= MAXFILE * BSIZE
    ensures var c := Content(v, i);
            var at := DESIZE * Vacant(c, 0);
            var end := Max(|c|, at + DESIZE);
            LinkFits(h, bmapstart, v, i, limit) <==>
            && |c| % DESIZE == 0 && end <= MAXFILE * BSIZE
            && ReadFits(h, bmapstart, v, i, |c|, |Frees(v.used)|, limit)
            && EntryFits(h, bmapstart, v, i, at, end, at + DESIZE > |c|, limit)
  {
    hide ReadFits, EntryFits, Content, Vacant, Frees;
  }

  /**
    What writing the entry at `at` takes after the directory has been read to its end, which took `got`,
    and what the two take together.
  */
  ghost predicate EntryTakes(bmapstart: nat, v: Volume, u: Volume, i: nat, size: nat, at: nat, got: set<nat>)
    requires i < |v.inodes| == |u.inodes|
  {
    var end, a := Max(size, at + DESIZE), AllocSet(bmapstart, v, i, 0, size);
    && NewCount(v, i, 0, end) == |got| + NewCount(u, i, at, at + DESIZE)
    && a + Before(bmapstart, u, i, at, at + DESIZE) == AllocSet(bmapstart, v, i, 0, end)
    && a + LogSet(bmapstart, u, i, at, at + DESIZE) ==
       AllocSet(bmapstart, v, i, 0, end) + OldData(v, i, at, at + DESIZE)
  }

  /** Its block is there by then. */
  lemma EntryInside(bmapstart: nat, v: Volume, u: Volume, ov: map<nat, Place>, ou: map<nat, Place>, start: nat, i: nat,
                    size: nat, at: nat, got: set<nat>)
    requires i < |v.inodes| == |u.inodes| && Sound(v, ov, start) && Sound(u, ou, start) && Taken(v, u, i, 0, size, got)
    requires size % DESIZE == 0 && at % DESIZE == 0 && at <= size && at + DESIZE <= MAXFILE * BSIZE
    requires at < size || size % BSIZE != 0
    ensures EntryTakes(bmapstart, v, u, i, size, at, got)
  {
    hide SlotAt, Sound, AllocSet, MapSet, LogSet, Before, NewCount, Need, OldData, Covers, Taken;
    EntryInBlock(at / DESIZE);
    TakenAll(v, u, i, 0, size, got);
    LogOne(bmapstart, u, i, at, at + DESIZE);
    CountOne(u, i, at, at + DESIZE);
    OldOne(v, i, at, at + DESIZE);
    EntryCovered(v, u, ov, ou, start, i, size, at, got, bmapstart);
    NoNeed(bmapstart, u, i, at / BSIZE);
    if at == size {
      CoveredTurn(bmapstart, v, i, 0, size, at + DESIZE, {}, 0);
    }
    OneMore(AllocSet(bmapstart, v, i, 0, size), Data(u, i, at / BSIZE), OldData(v, i, at, at + DESIZE));
  }

  lemma OneMore(a: set<nat>, x: nat, y: set<nat>)
    requires y == {x} || (y == {} && x in a)
    ensures a + {x} == a + y && a + {} == a
  {
  }

  /** Its block is next to be taken, if it is not there. */
  lemma EntryBeyond(bmapstart: nat, v: Volume, u: Volume, ov: map<nat, Place>, ou: map<nat, Place>, start: nat, i: nat,
                    size: nat, got: set<nat>)
    requires i < |v.inodes| == |u.inodes| && Sound(v, ov, start) && Sound(u, ou, start) && Taken(v, u, i, 0, size, got)
    requires size % BSIZE == 0 && size + DESIZE <= MAXFILE * BSIZE
    ensures EntryTakes(bmapstart, v, u, i, size, size, got)
  {
    hide SlotAt, Sound, AllocSet, MapSet, LogSet, Before, NewCount, Need, OldData, Covers, Taken, MapRoom, ReadRoom;
    var bn := size / BSIZE;
    SlotsBeyond(v, u, i, size, got);
    EntryInBlock(size / DESIZE);
    LogOne(bmapstart, u, i, size, size + DESIZE);
    CountOne(u, i, size, size + DESIZE);
    OldOne(v, i, size, size + DESIZE);
    ReadPart(bmapstart, v, u, ov, ou, start, i, 0, size, size + DESIZE, got, {}, 0);
    if Data(u, i, bn) != 0 { NoNeed(bmapstart, u, i, bn); }
    Swap(AllocSet(bmapstart, v, i, 0, size), OldData(v, i, size, size + DESIZE), MapSet(bmapstart, u, i, bn));
    assert Before(bmapstart, u, i, size, size + DESIZE) == MapSet(bmapstart, u, i, bn);
    assert LogSet(bmapstart, u, i, size, size + DESIZE) ==
           OldData(v, i, size, size + DESIZE) + MapSet(bmapstart, u, i, bn);
  }

  lemma Swap(a: set<nat>, x: set<nat>, y: set<nat>)
    ensures a + (x + y) == a + y + x
  {
  }

  lemma OldOne(v: Volume, i: nat, off: nat, end: nat)
    requires i < |v.inodes| && off < end <= off - off % BSIZE + BSIZE && off < MAXFILE * BSIZE
    ensures OldData(v, i, off, end) == if Data(v, i, off / BSIZE) != 0 then {Data(v, i, off / BSIZE)} else {}
  {
    hide SlotAt, Covers;
    forall bn: nat
      ensures Covers(off, end, bn) <==> bn == off / BSIZE
    {
      OneCovered(off, end, bn);
    }
  }

  lemma SlotsBeyond(v: Volume, u: Volume, i: nat, size: nat, got: set<nat>)
    requires Taken(v, u, i, 0, size, got) && size % BSIZE == 0 && size < MAXFILE * BSIZE
    ensures i < |v.inodes| == |u.inodes| && Data(u, i, size / BSIZE) == Data(v, i, size / BSIZE)
  {
    SameBlock(v, u, i, 0, size, |got|);
  }

  lemma EntryCovered(v: Volume, u: Volume, ov: map<nat, Place>, ou: map<nat, Place>, start: nat, i: nat, size: nat,
                     at: nat, got: set<nat>, bmapstart: nat)
    requires i < |v.inodes| == |u.inodes| && Sound(v, ov, start) && Sound(u, ou, start) && Taken(v, u, i, 0, size, got)
    requires at <= size && at < MAXFILE * BSIZE && (at < size || size % BSIZE != 0)
    ensures var a := Data(u, i, at / BSIZE);
            && a != 0 && (Data(v, i, at / BSIZE) != 0 ==> a == Data(v, i, at / BSIZE))
            && (Data(v, i, at / BSIZE) == 0 ==> a in AllocSet(bmapstart, v, i, 0, size))
  {
    hide SlotAt, Sound, FirstFree, Frees, Maps, NewCount, Kept;
    var bn := at / BSIZE;
    assert Covers(0, size, bn);
    assert IsPlace(v, Place(i, DataSlot(bn)));
    if Data(v, i, bn) == 0 {
      NewSlot(v, u, ov, ou, start, got, Place(i, DataSlot(bn)));
      MarkedFirst(v.used, u.used, got);
    }
  }

  /** Writing the entry then goes through exactly if it fits the volume before. */
  lemma EntryTurn(h: set<nat>, bmapstart: nat, v: Volume, u: Volume, ov: map<nat, Place>, ou: map<nat, Place>,
                  start: nat, i: nat, size: nat, at: nat, got: set<nat>, limit: int)
    requires i < |v.inodes| == |u.inodes| && Sound(v, ov, start) && Sound(u, ou, start) && Taken(v, u, i, 0, size, got)
    requires size % DESIZE == 0 && at % DESIZE == 0 && at <= size && at + DESIZE <= MAXFILE * BSIZE
    ensures var g, grows := h + AllocSet(bmapstart, v, i, 0, size), at + DESIZE > size;
            RangeFits(g, bmapstart, u, i, at, at + DESIZE, grows, limit) <==>
            EntryFits(h, bmapstart, v, i, at, Max(size, at + DESIZE), grows, limit)
  {
    hide SlotAt, Sound, AllocSet, LogSet, Before, NewCount, OldData, Frees, Room, Taken;
    var a, end := AllocSet(bmapstart, v, i, 0, size), Max(size, at + DESIZE);
    if at < size || size % BSIZE != 0 {
      EntryInside(bmapstart, v, u, ov, ou, start, i, size, at, got);
    } else {
      EntryBeyond(bmapstart, v, u, ov, ou, start, i, size, got);
    }
    TakenFrees(v, u, i, 0, size, got);
    RoomTwo(h, h + a, a, Before(bmapstart, u, i, at, at + DESIZE), limit);
    RoomTwo(h, h + a, a, LogSet(bmapstart, u, i, at, at + DESIZE), limit);
  }

  lemma TakenFrees(v: Volume, u: Volume, i: nat, off: nat, end: nat, got: set<nat>)
    requires Taken(v, u, i, off, end, got)
    ensures |Frees(u.used)| + |got| == |Frees(v.used)|
  {
    hide Frees, FirstFree, Kept, Mapped;
    MarkedFirst(v.used, u.used, got);
  }

  lemma TakenDense(v: Volume, u: Volume, i: nat, size: nat, got: set<nat>)
    requires Taken(v, u, i, 0, size, got) && i < |u.inodes| && u.inodes[i].size <= size
    ensures Dense(u, i)
  {
    hide SlotAt, Kept, NewCount, Marked;
    forall bn | 0 <= bn < MAXFILE && bn * BSIZE < u.inodes[i].size
      ensures Data(u, i, bn) != 0
    {
      assert Covers(0, size, bn);
    }
  }

  /**
    dirlink: adds the name if the directory does not have it.  It is found afterwards, every
    other name means what it did, and no other file changes.  It panics exactly if this is no directory,
    if the search for the name does, or if the name is new and cannot be written.
  */
  method Dirlink(fs: FileSystem, i: nat, name: seq<Byte>, inum: nat) returns (r: Outcome)
    requires fs.Good() && i < |fs.inodes| && fs.inodes[i].kind != Free && 0 < inum < 65536
    requires fs.outstanding > 0
    modifies fs
    ensures fs.Good() && (r != Panic ==> OthersKept(old(fs.V()), fs.V(), i))
    ensures r == Panic || r == if Lookup(old(Content(fs.V(), i)), name) == None then Value(0) else Value(-1)
    ensures
      var v, h, c := old(fs.V()), old(fs.Header()), old(Content(fs.V(), i));
      r == Panic <==>
        || v.inodes[i].kind != Dir
        || if Lookup(c, name) == None then !LinkFits(h, fs.bmapstart, v, i, fs.Limit())
           else !ReadFits(h, fs.bmapstart, v, i, Reach(c, name), |Frees(v.used)|, fs.Limit())
    ensures
      r == Panic ==>
        || old(fs.inodes)[i].kind != Dir || old(fs.inodes)[i].size % DESIZE != 0 || fs.Stuck()
        || old(fs.inodes)[i].size + DESIZE > MAXFILE * BSIZE
    ensures r == Value(-1) ==> Content(fs.V(), i) == old(Content(fs.V(), i))
    ensures
      r == Value(0) ==>
        var c, w := old(Content(fs.V(), i)), Content(fs.V(), i);
        |w| % DESIZE == 0 && (Distinct(c) ==> Distinct(w))
    ensures r == Value(0) ==>
      forall other ::
        Lookup(Content(fs.V(), i), other) ==
        if Alike(other, name, DIRSIZ) then Some(inum) else Lookup(old(Content(fs.V(), i)), other)
    ensures r != Panic && FilesDense(old(fs.V())) ==> FilesDense(fs.V())
    ensures r == Value(0) ==> Dense(fs.V(), i)
  {
    hide Sound, Frees, Fits, Kept, Content, Lookup, Overwrite, CanTake, Distinct, OthersKept, Dirent, Alike;
    hide RangeFits, Dense, FilesDense, LinkFits, Vacant, Updated, FileSystem.Stuck, ReadFits, EntryFits, Taken;
    hide AllocSet, LogSet, Reach;
    ghost var v, h, o := fs.V(), fs.Header(), fs.owner;
    SoundSizes(v, fs.owner, fs.start);
    ghost var c := Content(v, i);
    ContentLength(v, i);
    LinkFitsIs(h, fs.bmapstart, v, i, fs.Limit());
    ReachAll(c, name);
    ghost var got;
    var hit;
    hit, got := Dirlookup(fs, i, name);
    ghost var u := fs.V();
    KeptContent(v, u, i);
    DirDense(v, u, i);
    if hit.Stop? { return Panic; }
    if hit.Hit? { return Value(-1); }
    TakenDense(v, u, i, |c|, got);
    var ok, f := FindFree(fs, i);
    ghost var news;
    VacantTaken(c);
    Aligned(f);
    if DESIZE * f + DESIZE <= MAXFILE * BSIZE {
      EntryTurn(h, fs.bmapstart, v, u, o, fs.owner, fs.start, i, |c|, DESIZE * f, got, fs.Limit());
    }
    Joined(fs.base, old(fs.logged), AllocSet(fs.bmapstart, v, i, 0, |c|));
    r, news := fs.Writei(i, DESIZE * f, Dirent(inum, name));
    if r != Value(DESIZE) { return Panic; }
    UpdatedOthers(u, fs.V(), i, DESIZE * f, Dirent(inum, name), news);
    OthersMore(v, u, fs.V(), i);
    DirDense(v, fs.V(), i);
    Linked(c, f, name, inum);
    SoundSizes(fs.V(), fs.owner, fs.start);
    return Value(0);
  }

  lemma Aligned(f: nat)
    ensures (DESIZE * f) % DESIZE == 0
  {
  }

  lemma ReachAll(c: seq<Byte>, name: seq<Byte>)
    ensures Lookup(c, name) == None ==> Reach(c, name) == |c|
  {
  }

  /** A change to a directory leaves the files without holes. */
  lemma DirDense(v: Volume, w: Volume, i: nat)
    requires OthersKept(v, w, i) && i < |w.inodes|
    ensures w.inodes[i].kind != File && FilesDense(v) ==> FilesDense(w)
  {
    if w.inodes[i].kind != File && FilesDense(v) {
      OthersDense(v, w, i);
    }
  }
}
