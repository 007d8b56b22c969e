/** Path names (fs.c): skipelem splits a path, namex walks it. */
module Paths {
  import opened Params
  import opened Options
  import opened FsVolume
  import opened FsSteps
  import opened FsRanges
  import opened FsContent
  import opened Fs
  import opened Directory

  const SLASH: Byte := 47

  // --- elements ---------------------------------------------------------------------------

  function AfterSlashes(path: seq<Byte>): (r: seq<Byte>)
    ensures |r| <= |path| && (r != [] ==> r[0] != SLASH)
  {
    if path != [] && path[0] == SLASH then AfterSlashes(path[1..]) else path
  }

  /** The length of the element that path begins with. */
  function ElemLength(path: seq<Byte>): (n: nat)
    ensures n <= |path| && (n < |path| ==> path[n] == SLASH) && forall k | 0 <= k < n :: path[k] != SLASH
  {
    if path == [] || path[0] == SLASH then 0 else 1 + ElemLength(path[1..])
  }

  /** The elements of a path. */
  function Elements(path: seq<Byte>): seq<seq<Byte>>
    decreases |path|
  {
    var p := AfterSlashes(path);
    if p == [] then []
    else var n := ElemLength(p); [p[..n]] + Elements(p[n..])
  }

  /** The element, or its first 14 bytes. */
  predicate IsCut(name: seq<Byte>, e: seq<Byte>) {
    name <= e && (|e| <= 14 ==> name == e) && (|e| > 14 ==> |name| == 14)
  }

  /** skipelem: the first element, cut to DIRSIZ bytes, and the path after it. */
  method SkipElem(path: seq<Byte>) returns (found: bool, name: seq<Byte>, rest: seq<Byte>)
    ensures found <==> Elements(path) != []
    ensures found ==> IsCut(name, Elements(path)[0])
    ensures found ==> Elements(rest) == Elements(path)[1..] && |rest| < |path|
    ensures found ==> (rest == [] <==> |Elements(path)| == 1)
  {
    var p := SkipSlashes(path);
    ElementsSkip(path);
    if p == [] { return false, [], []; }
    var n := 0;
    while n < |p| && p[n] != SLASH
      invariant n <= |p| && ElemLength(p) == n + ElemLength(p[n..])
    {
      assert p[n..][1..] == p[n + 1..];
      n := n + 1;
    }
    name := if n >= DIRSIZ then p[..DIRSIZ] else p[..n];
    rest := SkipSlashes(p[n..]);
    ElementsSkip(p[n..]);
    FirstElement(p);
    found := true;
  }

  method SkipSlashes(path: seq<Byte>) returns (rest: seq<Byte>)
    ensures rest == AfterSlashes(path)
  {
    var i := 0;
    while i < |path| && path[i] == SLASH
      invariant i <= |path| && AfterSlashes(path[i..]) == AfterSlashes(path)
    {
      assert path[i..][1..] == path[i + 1..];
      i := i + 1;
    }
    rest := path[i..];
  }

  lemma FirstElement(p: seq<Byte>)
    requires p != [] && p[0] != SLASH
    ensures var n := ElemLength(p);
            0 < n <= |p| && Elements(p) != [] && Elements(p)[0] == p[..n] && Elements(p)[1..] == Elements(p[n..])
  {
    assert AfterSlashes(p) == p;
  }

  lemma ElementsSkip(path: seq<Byte>)
    ensures Elements(AfterSlashes(path)) == Elements(path)
    ensures AfterSlashes(AfterSlashes(path)) == AfterSlashes(path)
    ensures Elements(path) == [] <==> AfterSlashes(path) == []
  {
    var p := AfterSlashes(path);
    assert AfterSlashes(p) == p;
  }

  predicate IsElement(e: seq<Byte>) { e != [] && SLASH !in e }

  /** Elements are not empty and hold no slash. */
  lemma {:induction false} ElementsAre(path: seq<Byte>)
    ensures forall e | e in Elements(path) :: IsElement(e)
    decreases |path|
  {
    var p := AfterSlashes(path);
    if p != [] {
      var n := ElemLength(p);
      ElementsAre(p[n..]);
      assert IsElement(p[..n]);
    }
  }

  function JoinPath(es: seq<seq<Byte>>): seq<Byte> { if es == [] then [] else [SLASH] + es[0] + JoinPath(es[1..]) }

  /** Splitting undoes joining. */
  lemma {:induction false} ElementsOfJoin(es: seq<seq<Byte>>)
    requires forall e | e in es :: IsElement(e)
    ensures Elements(JoinPath(es)) == es
  {
    if es != [] {
      var e, rest := es[0], JoinPath(es[1..]);
      var path := JoinPath(es);
      assert e in es && IsElement(e) && e[0] in e;
      assert path[1..] == e + rest;
      assert AfterSlashes(path) == e + rest;
      ElemLengthOf(e, rest);
      assert (e + rest)[..|e|] == e && (e + rest)[|e|..] == rest;
      ElementsOfJoin(es[1..]);
      assert es == [e] + es[1..];
    }
  }

  lemma {:induction false} ElemLengthOf(e: seq<Byte>, rest: seq<Byte>)
    requires SLASH !in e && (rest == [] || rest[0] == SLASH)
    ensures ElemLength(e + rest) == |e|
    decreases |e|
  {
    if e == [] {
      assert e + rest == rest;
    } else {
      assert (e + rest)[1..] == e[1..] + rest;
      ElemLengthOf(e[1..], rest);
    }
  }

  // --- walking ----------------------------------------------------------------------------

  datatype Walked = There(inum: nat) | Nowhere | Broken

  ghost predicate SizesFine(v: Volume) { forall k | 0 <= k < |v.inodes| :: v.inodes[k].size <= MAXFILE * BSIZE }

  /**
    Where the elements lead from inode i, or, for `parent`, where all but the last one lead.
    Broken: an entry names an inode that is not allocated, or the search for a name that is not there
    runs into an entry that is cut off.
  */
  ghost function Walk(v: Volume, i: nat, es: seq<seq<Byte>>, parent: bool): Walked
    requires SizesFine(v)
    decreases |es|
  {
    if es == [] then if parent then Nowhere else There(i)
    else if i >= |v.inodes| || v.inodes[i].kind == Free then Broken
    else if v.inodes[i].kind != Dir then Nowhere
    else if parent && |es| == 1 then There(i)
    else
      match Lookup(Content(v, i), es[0])
      case None => if v.inodes[i].size % DESIZE == 0 then Nowhere else Broken
      case Some(n) => Walk(v, n, es[1..], parent)
  }

  /** Directory d names n. */
  ghost predicate Has(v: Volume, d: nat, name: seq<Byte>, n: nat)
    requires SizesFine(v)
  {
    d < |v.inodes| && v.inodes[d].kind == Dir && Lookup(Content(v, d), name) == Some(n)
  }

  /** A chain of inodes from i on, each a directory that has the next under the next element. */
  ghost predicate Leads(v: Volume, i: nat, es: seq<seq<Byte>>, ns: seq<nat>)
    requires SizesFine(v)
  {
    |ns| == |es| + 1 && ns[0] == i && forall k | 0 <= k < |es| :: Has(v, ns[k], es[k], ns[k + 1])
  }

  /** A path ends at d, a file or a directory without the name.  The last directory of a parent is not searched. */
  ghost predicate Ends(v: Volume, d: nat, name: seq<Byte>, parent: bool)
    requires SizesFine(v)
  {
    && d < |v.inodes| && v.inodes[d].kind != Free
    && (v.inodes[d].kind != Dir || (!parent && v.inodes[d].size % DESIZE == 0 && Lookup(Content(v, d), name) == None))
  }

  /** How many elements have to be found. */
  function Steps(es: seq<seq<Byte>>, parent: bool): nat { if parent && es != [] then |es| - 1 else |es| }

  /** A walk goes on from where its first elements lead. */
  lemma {:induction false} WalkOn(v: Volume, i: nat, es: seq<seq<Byte>>, k: nat, ns: seq<nat>, parent: bool)
    requires SizesFine(v) && k <= Steps(es, parent) && Leads(v, i, es[..k], ns)
    ensures Walk(v, i, es, parent) == Walk(v, ns[k], es[k..], parent)
    decreases k
  {
    hide Lookup, Content;
    if k == 0 {
      assert es[0..] == es;
    } else {
      assert Has(v, ns[0], es[..k][0], ns[1]);
      forall j | 0 <= j < k - 1
        ensures Has(v, ns[1..][j], es[1..][..k - 1][j], ns[1..][j + 1])
      {
        assert Has(v, ns[j + 1], es[..k][j + 1], ns[j + 2]);
      }
      WalkOn(v, ns[1], es[1..], k - 1, ns[1..], parent);
      assert es[1..][k - 1..] == es[k..];
    }
  }

  /** The inodes that a walk comes through. */
  lemma {:induction false} Trace(v: Volume, i: nat, es: seq<seq<Byte>>, parent: bool) returns (ns: seq<nat>)
    requires SizesFine(v)
    ensures 0 < |ns| <= Steps(es, parent) + 1 && Leads(v, i, es[..|ns| - 1], ns)
    ensures Walk(v, i, es, parent).There? ==>
      && |ns| == Steps(es, parent) + 1 && Walk(v, i, es, parent).inum == ns[|ns| - 1]
      && (parent ==> es != [] && ns[|ns| - 1] < |v.inodes| && v.inodes[ns[|ns| - 1]].kind == Dir)
    ensures Walk(v, i, es, parent).Nowhere? ==>
      || (parent && es == [])
      || (|ns| <= |es| && Ends(v, ns[|ns| - 1], es[|ns| - 1], parent && |ns| == |es|))
    decreases |es|
  {
    hide Lookup, Content;
    ns := [i];
    if Steps(es, parent) > 0 && i < |v.inodes| && v.inodes[i].kind == Dir && Lookup(Content(v, i), es[0]).Some? {
      var n := Lookup(Content(v, i), es[0]).value;
      var rest := Trace(v, n, es[1..], parent);
      ns := [i] + rest;
      forall j | 0 <= j < |ns| - 1
        ensures Has(v, ns[j], es[..|ns| - 1][j], ns[j + 1])
      {
        if j > 0 {
          assert Has(v, rest[j - 1], es[1..][..|rest| - 1][j - 1], rest[j]);
        }
      }
    }
  }

  /**
    A path leads to n exactly if there is a chain of directories to n, each naming the next by the next
    element; for `parent`, by all elements but the last, to a directory.
  */
  lemma WalkFinds(v: Volume, i: nat, es: seq<seq<Byte>>, parent: bool, n: nat)
    requires SizesFine(v)
    ensures Walk(v, i, es, parent) == There(n) <==>
            && (parent ==> es != [] && n < |v.inodes| && v.inodes[n].kind == Dir)
            && exists ns :: Leads(v, i, es[..Steps(es, parent)], ns) && ns[|ns| - 1] == n
  {
    hide Lookup, Content;
    var m := Steps(es, parent);
    if Walk(v, i, es, parent) == There(n) {
      var ns := Trace(v, i, es, parent);
    }
    if ns :| Leads(v, i, es[..m], ns) && ns[|ns| - 1] == n {
      WalkOn(v, i, es, m, ns, parent);
    }
  }

  /** It leads nowhere exactly if such a chain of some elements ends at a file, or at a directory without the next. */
  lemma WalkEnds(v: Volume, i: nat, es: seq<seq<Byte>>, parent: bool)
    requires SizesFine(v)
    ensures Walk(v, i, es, parent) == Nowhere <==>
            || (parent && es == [])
            || exists k, ns :: 0 <= k < |es| && Leads(v, i, es[..k], ns) && |ns| == k + 1
                               && Ends(v, ns[k], es[k], parent && k == |es| - 1)
  {
    hide Lookup, Content, Leads;
    if Walk(v, i, es, parent) == Nowhere && !(parent && es == []) {
      var ns := Trace(v, i, es, parent);
      var k := |ns| - 1;
      assert 0 <= k < |es| && Leads(v, i, es[..k], ns) && Ends(v, ns[k], es[k], parent && k == |es| - 1);
    }
    if k, ns :| 0 <= k < |es| && Leads(v, i, es[..k], ns) && |ns| == k + 1
                && Ends(v, ns[k], es[k], parent && k == |es| - 1) {
      WalkOn(v, i, es, k, ns, parent);
    }
  }

  /** The last element is looked up in the directory that the parent walk finds. */
  lemma {:induction false} ParentHolds(v: Volume, i: nat, es: seq<seq<Byte>>)
    requires SizesFine(v) && es != []
    ensures match Walk(v, i, es, true)
            case There(p) =>
              && p < |v.inodes| && v.inodes[p].kind == Dir
              && Walk(v, i, es, false) == (match Lookup(Content(v, p), es[|es| - 1])
                                           case None =>
                                             if v.inodes[p].size % DESIZE == 0 then Nowhere else Broken
                                           case Some(n) => There(n))
            case Nowhere => Walk(v, i, es, false) == Nowhere
            case Broken => Walk(v, i, es, false) == Broken
    decreases |es|
  {
    hide Lookup, Content;
    if |es| > 1 && i < |v.inodes| && v.inodes[i].kind == Dir && Lookup(Content(v, i), es[0]).Some? {
      ParentHolds(v, Lookup(Content(v, i), es[0]).value, es[1..]);
    } else if |es| == 1 {
      assert es[1..] == [];
    }
  }

  lemma {:induction false} AlikePrefix(a: seq<Byte>, b: seq<Byte>, n: nat)
    requires a <= b && (a == b || |a| == n)
    ensures Alike(a, b, n)
    decreases n
  {
    if n > 0 && a != [] {
      AlikePrefix(a[1..], b[1..], n - 1);
    }
  }

  lemma LookupCut(c: seq<Byte>, name: seq<Byte>, e: seq<Byte>)
    requires IsCut(name, e)
    ensures Lookup(c, name) == Lookup(c, e)
  {
    AlikePrefix(name, e, DIRSIZ);
    SameName(c, e, name);
  }

  lemma ReachCut(c: seq<Byte>, name: seq<Byte>, e: seq<Byte>)
    requires IsCut(name, e)
    ensures Reach(c, name) == Reach(c, e)
  {
    hide Alike, Cut;
    AlikePrefix(name, e, DIRSIZ);
    CutAlike(name, e);
    FindSame(c, e, name, 0);
  }

  datatype Resolved = At(inum: nat, name: seq<Byte>) | NotFound | Halt

  /** No directory on the way has a hole in what is read of it. */
  ghost predicate Smooth(v: Volume, i: nat, es: seq<seq<Byte>>, parent: bool)
    requires SizesFine(v)
    decreases |es|
  {
    es == [] || i >= |v.inodes| || v.inodes[i].kind != Dir || (parent && |es| == 1) ||
    (&& Filled(v, i, 0, Reach(Content(v, i), es[0]))
     && match Lookup(Content(v, i), es[0])
        case None => true
        case Some(n) => Smooth(v, n, es[1..], parent))
  }

  /** namex: resolves as `Walk` says, and without holes on the way it panics exactly where that breaks off. */
  method Namex(fs: FileSystem, cwd: nat, path: seq<Byte>, parent: bool) returns (r: Resolved)
    requires fs.Good()
    modifies fs`bitmap, fs`blocks, fs`inodes, fs`owner, fs`logged
    ensures fs.Good() && Kept(old(fs.V()), fs.V()) && SizesFine(old(fs.V()))
    ensures
      var start := if path != [] && path[0] == SLASH then ROOTINO else cwd;
      var es, w := Elements(path), Walk(old(fs.V()), start, Elements(path), parent);
      match r
      case At(i, name) => w == There(i) && (parent ==> es != [] && IsCut(name, es[|es| - 1]))
      case NotFound => w == Nowhere
      case Halt => w == Broken || (!Smooth(old(fs.V()), start, es, parent) && fs.Stuck())
    ensures
      var start := if path != [] && path[0] == SLASH then ROOTINO else cwd;
      Smooth(old(fs.V()), start, Elements(path), parent) ==> unchanged(fs)
  {
    hide Sound, Frees, Fits, Kept, Content, Lookup, Elements, OthersKept, SizesFine;
    hide ReadFits, Taken, AllocSet, Filled, Reach;
    hide FileSystem.Stuck;
    ghost var v := fs.V();
    KeptSelf(v);
    Sizes(v, fs.owner, fs.start);
    var ip: nat := if path != [] && path[0] == SLASH then ROOTINO else cwd;
    ghost var start := ip;
    var p := path;
    ghost var es := Elements(path);
    while true
      invariant fs.Good() && Kept(v, fs.V()) && |fs.inodes| == |v.inodes|
      invariant Walk(v, ip, Elements(p), parent) == Walk(v, start, es, parent)
      invariant |Elements(p)| <= |es| && Elements(p) == es[|es| - |Elements(p)|..]
      invariant Smooth(v, start, es, parent) ==> unchanged(fs) && Smooth(v, ip, Elements(p), parent)
      decreases |p|
    {
      var found, name, rest := SkipElem(p);
      if !found {
        return if parent then NotFound else At(ip, []);
      }
      ghost var u := fs.V();
      if ip >= |fs.inodes| {
        return Halt;
      }
      KeptContent(v, u, ip);
      if fs.inodes[ip].kind == Free { return Halt; }
      if fs.inodes[ip].kind != Dir { return NotFound; }
      if parent && rest == [] { return At(ip, name); }
      LookupCut(Content(u, ip), name, Elements(p)[0]);
      ReachCut(Content(u, ip), name, Elements(p)[0]);
      if Filled(u, ip, 0, Reach(Content(u, ip), name)) {
        FilledFits(fs.Header(), fs.bmapstart, u, ip, Reach(Content(u, ip), name), fs.Avail(), fs.Limit());
      }
      ghost var got;
      var hit;
      hit, got := Dirlookup(fs, ip, name);
      KeptTwice(v, u, fs.V());
      KeptShape(u, fs.V());
      match hit
      case Stop => return Halt;
      case Miss => return NotFound;
      case Hit(_, inum) => ip := inum;
      p := rest;
    }
  }

  lemma KeptShape(v: Volume, w: Volume)
    ensures Kept(v, w) ==> |w.inodes| == |v.inodes|
  {
  }

  lemma Sizes(v: Volume, owner: map<nat, Place>, start: nat)
    requires Sound(v, owner, start)
    ensures SizesFine(v)
  {
    forall k | 0 <= k < |v.inodes|
      ensures v.inodes[k].size <= MAXFILE * BSIZE
    {
      assert InodeFine(v.inodes[k]);
    }
  }
}
