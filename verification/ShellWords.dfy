/**
  What the shell parser does with the words of its input.

  Every word of an accepted line ends up in the command exactly once, as an argument or as a
  file name, and nothing else does.  After `nulterminate` each of them reads as a C string.
*/
module ShellWords {
  import opened Shell
  import opened ShellGrammar

  // --- the words of a text ----------------------------------------------------------------

  /** A maximal run of word characters. */
  ghost predicate IsWordSpan(s: string, w: Span) {
    && w.q < w.eq <= |s|
    && (forall k | w.q <= k < w.eq :: IsWordChar(s[k]))
    && (w.eq < |s| ==> !IsWordChar(s[w.eq]))
    && (w.q > 0 ==> !IsWordChar(s[w.q - 1]))
  }

  /** No word straddles position j. */
  ghost predicate Boundary(s: string, j: nat) {
    j <= |s| && (0 < j < |s| ==> !IsWordChar(s[j - 1]) || !IsWordChar(s[j]))
  }

  ghost function WordsIn(s: string, i: nat, j: nat): set<Span> {
    set q: nat, eq: nat | i <= q < j && q < eq <= j && IsWordSpan(s, Span(q, eq)) :: Span(q, eq)
  }

  lemma InWords(s: string, i: nat, j: nat, w: Span)
    ensures w in WordsIn(s, i, j) <==> i <= w.q < w.eq <= j && IsWordSpan(s, w)
  {
    assert w == Span(w.q, w.eq);
  }

  /** Words of two adjacent stretches. */
  lemma WordsSplit(s: string, i: nat, j: nat, k: nat)
    requires i <= j <= k <= |s| && Boundary(s, j)
    ensures multiset(WordsIn(s, i, k)) == multiset(WordsIn(s, i, j)) + multiset(WordsIn(s, j, k))
  {
    var a, b, c := WordsIn(s, i, j), WordsIn(s, j, k), WordsIn(s, i, k);
    forall w: Span
      ensures w in c <==> w in a || w in b
      ensures !(w in a && w in b)
    {
      InWords(s, i, j, w);
      InWords(s, j, k, w);
      InWords(s, i, k, w);
      if IsWordSpan(s, w) && w.q <= j - 1 < w.eq {
        assert IsWordChar(s[j - 1]);
      }
      if IsWordSpan(s, w) && w.q <= j < w.eq {
        assert IsWordChar(s[j]);
      }
    }
    assert c == a + b;
  }

  lemma NoWords(s: string, i: nat, j: nat)
    requires j <= |s| && forall k | i <= k < j :: !IsWordChar(s[k])
    ensures WordsIn(s, i, j) == {}
  {
    forall w: Span
      ensures w !in WordsIn(s, i, j)
    {
      InWords(s, i, j, w);
      if IsWordSpan(s, w) {
        assert IsWordChar(s[w.q]);
      }
    }
  }

  lemma {:induction false} SpaceRun(s: string, i: nat)
    requires i <= |s|
    ensures forall k | i <= k < AfterSpace(s, i) :: IsSpace(s[k])
    decreases |s| - i
  {
    if i < |s| && IsSpace(s[i]) {
      SpaceRun(s, i + 1);
    }
  }

  lemma SpaceWords(s: string, i: nat)
    requires Boundary(s, i)
    ensures Boundary(s, AfterSpace(s, i)) && WordsIn(s, i, AfterSpace(s, i)) == {}
  {
    SpaceRun(s, i);
    NoWords(s, i, AfterSpace(s, i));
  }

  lemma OneWord(s: string, w: Span)
    requires IsWordSpan(s, w)
    ensures WordsIn(s, w.q, w.eq) == {w}
  {
    forall v: Span
      ensures v in WordsIn(s, w.q, w.eq) <==> v == w
    {
      InWords(s, w.q, w.eq, v);
    }
  }

  ghost function WordOf(t: Lexed): multiset<Span> { if t.tok == Word then multiset{t.span} else multiset{} }

  lemma TokenBody(s: string, i: nat)
    requires Boundary(s, i)
    ensures var t := TokenAt(s, i);
            && t.span.q == AfterSpace(s, i) && t.next == AfterSpace(s, t.span.eq) && Boundary(s, t.span.eq)
            && multiset(WordsIn(s, t.span.q, t.span.eq)) == WordOf(t)
  {
    var t := TokenAt(s, i);
    SpaceWords(s, i);
    if t.tok == Word {
      WordChars(s, t.span.q);
      OneWord(s, t.span);
    } else {
      NoWords(s, t.span.q, t.span.eq);
    }
  }

  /** A token takes the word it reports, and no other. */
  lemma TokenWords(s: string, i: nat)
    requires i <= |s| && Boundary(s, i)
    ensures var t := TokenAt(s, i);
            Boundary(s, t.next) && multiset(WordsIn(s, i, t.next)) == WordOf(t)
  {
    hide TokenAt, AfterSpace, WordsIn, WordOf, Boundary;
    var t := TokenAt(s, i);
    TokenBody(s, i);
    SpaceWords(s, i);
    SpaceWords(s, t.span.eq);
    WordsSplit(s, i, t.span.q, t.span.eq);
    WordsSplit(s, i, t.span.eq, t.next);
  }

  // --- the words of a command -------------------------------------------------------------

  ghost function Spans(cmd: Cmd): multiset<Span> {
    match cmd
    case ExecCmd(args) => multiset(args)
    case RedirCmd(c, to) => Spans(c) + multiset{to.file}
    case PipeCmd(l, r) => Spans(l) + Spans(r)
    case ListCmd(l, r) => Spans(l) + Spans(r)
    case BackCmd(c) => Spans(c)
  }

  /** An exec node under redirections. */
  ghost predicate Simple(cmd: Cmd) {
    match cmd
    case ExecCmd(_) => true
    case RedirCmd(c, _) => Simple(c)
    case _ => false
  }

  lemma {:induction false} AddArgSpans(cmd: Cmd, arg: Span)
    requires Simple(cmd)
    ensures Simple(AddArg(cmd, arg)) && Spans(AddArg(cmd, arg)) == Spans(cmd) + multiset{arg}
  {
    match cmd
    case ExecCmd(_) =>
    case RedirCmd(c, to) => AddArgSpans(c, arg);
  }

  /** What parsing from i did: it added the words between i and the position it returns. */
  ghost predicate Took(s: string, before: multiset<Span>, i: nat, r: Parsed<Cmd>) {
    r.Ok? ==> i <= r.pos && Boundary(s, r.pos) && Spans(r.value) == before + multiset(WordsIn(s, i, r.pos))
  }

  lemma TookMore(s: string, before: multiset<Span>, i: nat, j: nat, r: Parsed<Cmd>)
    requires i <= j <= |s| && Boundary(s, j) && Took(s, before + multiset(WordsIn(s, i, j)), j, r)
    ensures Took(s, before, i, r)
  {
    if r.Ok? {
      WordsSplit(s, i, j, r.pos);
    }
  }

  lemma TookNothing(s: string, cmd: Cmd, i: nat)
    requires Boundary(s, i)
    ensures Boundary(s, AfterSpace(s, i)) && Took(s, Spans(cmd), i, Ok(cmd, AfterSpace(s, i)))
  {
    SpaceWords(s, i);
  }

  lemma {:induction false} RedirsWords(s: string, cmd: Cmd, i: nat)
    requires i <= |s| && Boundary(s, i)
    ensures Took(s, Spans(cmd), i, RedirsAt(s, cmd, i))
    ensures Simple(cmd) && RedirsAt(s, cmd, i).Ok? ==> Simple(RedirsAt(s, cmd, i).value)
    decreases |s| - i
  {
    hide TokenAt, AfterSpace, WordsIn, Boundary;
    var j := AfterSpace(s, i);
    SpaceWords(s, i);
    TookNothing(s, cmd, i);
    if Ahead(s, i, {'<', '>'}) {
      var t := TokenAt(s, j);
      TokenWords(s, j);
      var f := TokenAt(s, t.next);
      TokenWords(s, t.next);
      ArrowIsNoWord(s, i);
      if f.tok == Word {
        var out := RedirCmd(cmd, RedirectionOf(t.tok, f.span));
        RedirsWords(s, out, f.next);
        FileTaken(s, i, j, t.next, f.next, f.span);
        TookMore(s, Spans(cmd), i, f.next, RedirsAt(s, out, f.next));
      }
    }
  }

  lemma ArrowIsNoWord(s: string, i: nat)
    requires i <= |s| && Ahead(s, i, {'<', '>'})
    ensures TokenAt(s, AfterSpace(s, i)).tok != Word && i < |s|
  {
  }

  lemma FileTaken(s: string, i: nat, j: nat, k: nat, l: nat, file: Span)
    requires i <= j <= k <= l <= |s| && Boundary(s, j) && Boundary(s, k)
    requires WordsIn(s, i, j) == {} && multiset(WordsIn(s, j, k)) == multiset{}
             && multiset(WordsIn(s, k, l)) == multiset{file}
    ensures multiset(WordsIn(s, i, l)) == multiset{file}
  {
    WordsSplit(s, i, j, k);
    WordsSplit(s, i, k, l);
  }

  lemma {:induction false} ArgsWords(s: string, cmd: Cmd, argc: nat, i: nat)
    requires i <= |s| && Boundary(s, i) && Simple(cmd)
    ensures Took(s, Spans(cmd), i, ArgsAt(s, cmd, argc, i))
    decreases |s| - i
  {
    hide TokenAt, AfterSpace, WordsIn, Boundary, RedirsAt, Spans, Simple, AddArg;
    var j := AfterSpace(s, i);
    SpaceWords(s, i);
    TookNothing(s, cmd, i);
    if !Ahead(s, i, {'|', ')', '&', ';'}) {
      var t := TokenAt(s, j);
      TokenWords(s, j);
      WordsSplit(s, i, j, t.next);
      if t.tok == Word && argc + 1 < MAXARGS {
        AddArgSpans(cmd, t.span);
        var c := AddArg(cmd, t.span);
        RedirsWords(s, c, t.next);
        var r := RedirsAt(s, c, t.next);
        if r.Ok? {
          ArgsWords(s, r.value, argc + 1, r.pos);
          TookMore(s, Spans(c), t.next, r.pos, ArgsAt(s, r.value, argc + 1, r.pos));
          TookMore(s, Spans(cmd), i, t.next, ArgsAt(s, r.value, argc + 1, r.pos));
        }
      }
    }
  }

  lemma SymbolTaken(s: string, i: nat, toks: set<char>)
    requires i <= |s| && Boundary(s, i) && Ahead(s, i, toks) && forall c | c in toks :: IsSymbol(c)
    ensures i < TokenAt(s, i).next && Boundary(s, TokenAt(s, i).next)
            && multiset(WordsIn(s, i, TokenAt(s, i).next)) == multiset{}
  {
    TokenWords(s, i);
  }

  lemma {:induction false} BacksWords(s: string, cmd: Cmd, i: nat)
    requires i <= |s| && Boundary(s, i)
    ensures Took(s, Spans(cmd), i, BacksAt(s, cmd, i))
    decreases |s| - i
  {
    hide TokenAt, AfterSpace, WordsIn, Boundary;
    TookNothing(s, cmd, i);
    if Ahead(s, i, {'&'}) {
      SymbolTaken(s, i, {'&'});
      var next := TokenAt(s, i).next;
      BacksWords(s, BackCmd(cmd), next);
      TookMore(s, Spans(cmd), i, next, BacksAt(s, BackCmd(cmd), next));
    }
  }

  lemma {:induction false} BlockWords(s: string, i: nat)
    requires i <= |s| && Boundary(s, i) && Ahead(s, i, {'('})
    ensures Took(s, multiset{}, i, BlockAt(s, i))
    decreases |s| - i, 0
  {
    hide TokenAt, AfterSpace, WordsIn, Boundary, RedirsAt, LineAt, Spans, Ahead;
    SymbolTaken(s, i, {'('});
    var next := TokenAt(s, i).next;
    LineWords(s, next);
    var r := LineAt(s, next);
    if r.Ok? && Ahead(s, r.pos, {')'}) {
      SymbolTaken(s, r.pos, {')'});
      var close := TokenAt(s, r.pos).next;
      RedirsWords(s, r.value, close);
      var out := RedirsAt(s, r.value, close);
      TookMore(s, Spans(r.value), r.pos, close, out);
      TookMore(s, multiset{}, next, r.pos, out);
      TookMore(s, multiset{}, i, next, out);
    }
  }

  lemma {:induction false} ExecWords(s: string, i: nat)
    requires i <= |s| && Boundary(s, i)
    ensures Took(s, multiset{}, i, ExecAt(s, i))
    decreases |s| - i, 1
  {
    hide TokenAt, AfterSpace, WordsIn, Boundary, RedirsAt, BlockAt, ArgsAt, Ahead;
    if Ahead(s, i, {'('}) {
      BlockWords(s, i);
    } else {
      RedirsWords(s, ExecCmd([]), i);
      var r := RedirsAt(s, ExecCmd([]), i);
      if r.Ok? {
        ArgsWords(s, r.value, 0, r.pos);
        TookMore(s, multiset{}, i, r.pos, ArgsAt(s, r.value, 0, r.pos));
      }
    }
  }

  /** Two commands around an operator token at p. */
  lemma BothTook(s: string, i: nat, a: Parsed<Cmd>, p: nat, next: nat, b: Parsed<Cmd>, c: Cmd)
    requires a.Ok? && b.Ok? && i <= a.pos <= p <= next <= |s| && Boundary(s, next)
    ensures
      && Took(s, multiset{}, i, a) && Took(s, multiset{}, next, b) && multiset(WordsIn(s, a.pos, next)) == multiset{}
      && Spans(c) == Spans(a.value) + Spans(b.value) ==>
        Took(s, multiset{}, i, Ok(c, b.pos))
  {
    if Took(s, multiset{}, i, a) && Took(s, multiset{}, next, b) {
      WordsSplit(s, i, a.pos, next);
      WordsSplit(s, i, next, b.pos);
    }
  }

  lemma {:induction false} PipeWords(s: string, i: nat)
    requires i <= |s| && Boundary(s, i)
    ensures Took(s, multiset{}, i, PipeAt(s, i))
    decreases |s| - i, 2
  {
    hide TokenAt, AfterSpace, WordsIn, Boundary, ExecAt, Ahead;
    ExecWords(s, i);
    var a := ExecAt(s, i);
    if a.Ok? {
      TookNothing(s, a.value, a.pos);
      if Ahead(s, a.pos, {'|'}) {
        SymbolTaken(s, a.pos, {'|'});
        var next := TokenAt(s, a.pos).next;
        PipeWords(s, next);
        var b := PipeAt(s, next);
        if b.Ok? {
          BothTook(s, i, a, a.pos, next, b, PipeCmd(a.value, b.value));
        }
      } else {
        TookMore(s, multiset{}, i, a.pos, Ok(a.value, AfterSpace(s, a.pos)));
      }
    }
  }

  lemma {:induction false} LineWords(s: string, i: nat)
    requires i <= |s| && Boundary(s, i)
    ensures Took(s, multiset{}, i, LineAt(s, i))
    decreases |s| - i, 3
  {
    hide TokenAt, AfterSpace, WordsIn, Boundary, PipeAt, BacksAt, Ahead;
    PipeWords(s, i);
    var p := PipeAt(s, i);
    if p.Ok? {
      BacksWords(s, p.value, p.pos);
      var a := BacksAt(s, p.value, p.pos);
      TookMore(s, multiset{}, i, p.pos, a);
      TookNothing(s, a.value, a.pos);
      if Ahead(s, a.pos, {';'}) {
        SymbolTaken(s, a.pos, {';'});
        var next := TokenAt(s, a.pos).next;
        LineWords(s, next);
        var b := LineAt(s, next);
        if b.Ok? {
          BothTook(s, i, a, a.pos, next, b, ListCmd(a.value, b.value));
        }
      } else {
        TookMore(s, multiset{}, i, a.pos, Ok(a.value, AfterSpace(s, a.pos)));
      }
    }
  }

  /** An accepted line's command holds every word of the line once, and nothing else. */
  lemma WordsConserved(s: string)
    ensures Parse(s).Ok? ==> Spans(Parse(s).value) == multiset(WordsIn(s, 0, |s|))
  {
    hide LineAt, WordsIn, AfterSpace;
    LineWords(s, 0);
    var r := LineAt(s, 0);
    if r.Ok? && AfterSpace(s, r.pos) == |s| {
      SpaceWords(s, r.pos);
      WordsSplit(s, 0, r.pos, |s|);
    }
  }

  // --- nulterminate -----------------------------------------------------------------------

  /** The string at position i of a buffer: the characters before the next NUL. */
  ghost function CString(b: string, i: nat): string
    decreases |b| - i
  {
    if i >= |b| || b[i] == '\0' then "" else [b[i]] + CString(b, i + 1)
  }

  /** The buffer b with a NUL at the end of each of the words ws. */
  ghost predicate Terminated(b: string, ws: multiset<Span>, r: string) {
    && |r| == |b|
    && forall k | 0 <= k < |b| :: r[k] == if EndsOne(ws, k) then '\0' else b[k]
  }

  ghost predicate EndsOne(ws: multiset<Span>, k: nat) { exists q: nat :: Span(q, k) in ws }

  ghost predicate EndsInside(cmd: Cmd, n: nat) { forall w: Span | w in Spans(cmd) :: w.eq < n }

  lemma TerminatedBoth(b: string, x: multiset<Span>, c: string, y: multiset<Span>, d: string)
    requires Terminated(b, x, c) && Terminated(c, y, d)
    ensures Terminated(b, x + y, d)
  {
    forall k | 0 <= k < |b|
      ensures EndsOne(x + y, k) <==> EndsOne(x, k) || EndsOne(y, k)
    {
      if q: nat :| Span(q, k) in x {
        assert Span(q, k) in x + y;
      }
      if q: nat :| Span(q, k) in y {
        assert Span(q, k) in x + y;
      }
    }
  }

  lemma TerminatedOne(b: string, w: Span)
    requires w.eq < |b|
    ensures Terminated(b, multiset{w}, b[w.eq := '\0'])
  {
    assert Span(w.q, w.eq) in multiset{w};
  }

  method NulTerminate(buf: array<char>, cmd: Cmd)
    requires EndsInside(cmd, buf.Length)
    modifies buf
    ensures Terminated(old(buf[..]), Spans(cmd), buf[..])
    decreases cmd
  {
    ghost var b := buf[..];
    match cmd
    case ExecCmd(args) =>
      for i := 0 to |args|
        invariant Terminated(b, multiset(args[..i]), buf[..])
      {
        assert args[i] in Spans(cmd);
        ghost var c := buf[..];
        buf[args[i].eq] := '\0';
        TerminatedOne(c, args[i]);
        assert buf[..] == c[args[i].eq := '\0'];
        TerminatedBoth(b, multiset(args[..i]), c, multiset{args[i]}, buf[..]);
        assert args[..i + 1] == args[..i] + [args[i]];
      }
      assert args[..|args|] == args;
    case RedirCmd(c, to) =>
      assert to.file in Spans(cmd);
      NulTerminate(buf, c);
      ghost var d := buf[..];
      buf[to.file.eq] := '\0';
      TerminatedOne(d, to.file);
      assert buf[..] == d[to.file.eq := '\0'];
      TerminatedBoth(b, Spans(c), d, multiset{to.file}, buf[..]);
    case PipeCmd(l, r) =>
      NulTerminate(buf, l);
      ghost var c := buf[..];
      NulTerminate(buf, r);
      TerminatedBoth(b, Spans(l), c, Spans(r), buf[..]);
    case ListCmd(l, r) =>
      NulTerminate(buf, l);
      ghost var c := buf[..];
      NulTerminate(buf, r);
      TerminatedBoth(b, Spans(l), c, Spans(r), buf[..]);
    case BackCmd(c) =>
      NulTerminate(buf, c);
  }

  lemma {:induction false} ReadToNul(b: string, i: nat, j: nat)
    requires i <= j < |b| && b[j] == '\0' && forall k | i <= k < j :: b[k] != '\0'
    ensures CString(b, i) == b[i..j]
    decreases j - i
  {
    if i < j {
      ReadToNul(b, i + 1, j);
    }
  }

  /** A word of the line survives the NULs that end the other words, and its own ends it. */
  lemma WordReads(s: string, ws: multiset<Span>, b: string, w: Span)
    requires '\0' !in s && w in ws && forall v: Span | v in ws :: IsWordSpan(s, v)
    requires Terminated(s + ['\0'], ws, b)
    ensures CString(b, w.q) == Text(s, w)
  {
    assert Span(w.q, w.eq) in ws;
    assert b[w.eq] == '\0';
    forall k | w.q <= k < w.eq
      ensures b[k] == s[k] && b[k] != '\0'
    {
      assert IsWordChar(s[k]);
      if q: nat :| Span(q, k) in ws {
        assert false;
      }
    }
    ReadToNul(b, w.q, w.eq);
    assert b[w.q..w.eq] == s[w.q..w.eq];
  }

  /** parsecmd: afterwards every argument and file name of the command reads as a C string. */
  method ParseAndTerminate(buf: array<char>, s: string) returns (r: Parsed<Cmd>)
    requires '\0' !in s && buf[..] == s + ['\0']
    modifies buf
    ensures r == Parse(s)
    ensures r.Err? ==> buf[..] == s + ['\0']
    ensures r.Ok? ==> forall w: Span | w in Spans(r.value) :: CString(buf[..], w.q) == Text(s, w)
  {
    r := ParseCmd(s);
    if r.Ok? {
      WordsConserved(s);
      forall w: Span | w in Spans(r.value)
        ensures IsWordSpan(s, w)
      {
        assert w in WordsIn(s, 0, |s|);
        InWords(s, 0, |s|, w);
      }
      NulTerminate(buf, r.value);
      forall w: Span | w in Spans(r.value)
        ensures CString(buf[..], w.q) == Text(s, w)
      {
        WordReads(s, Spans(r.value), buf[..], w);
      }
    }
  }
}
