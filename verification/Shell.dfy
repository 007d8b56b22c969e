/**
  The command parser of sh.c: tokenizer, recursive descent, and what it makes of its input.

  The input is the sequence of characters before the NUL at `es`.  The cursor *ps is a
  position that every function takes and returns; a panic is an `Err`.  Methods carry the
  loops of the source and are proved against functions of the same shape.
*/
module Shell {

  const MAXARGS := 10

  const O_RDONLY := 0x000
  const O_WRONLY := 0x001
  const O_CREATE := 0x200

  /** A word, by the positions q and eq that gettoken reports for it. */
  datatype Span = Span(q: nat, eq: nat)

  datatype Redirection = Redirection(file: Span, mode: nat, fd: nat)

  datatype Cmd =
    | ExecCmd(args: seq<Span>)
    | RedirCmd(cmd: Cmd, to: Redirection)
    | PipeCmd(left: Cmd, right: Cmd)
    | ListCmd(left: Cmd, right: Cmd)
    | BackCmd(cmd: Cmd)

  datatype Error = MissingFile | Syntax | MissingParen | TooManyArgs | Leftovers

  datatype Parsed<T> = Ok(value: T, pos: nat) | Err(error: Error)

  datatype Token = End | Symbol(c: char) | Word

  datatype Lexed = Lexed(tok: Token, span: Span, next: nat)

  predicate IsSpace(c: char) { c == ' ' || c == '\t' || c == '\r' || c == '\n' || c == '\U{000B}' }

  predicate IsSymbol(c: char) { c == '<' || c == '|' || c == '>' || c == '&' || c == ';' || c == '(' || c == ')' }

  predicate IsWordChar(c: char) { !IsSpace(c) && !IsSymbol(c) }

  // --- tokens -----------------------------------------------------------------------------

  function AfterSpace(s: string, i: nat): (j: nat)
    requires i <= |s|
    ensures i <= j <= |s| && (j < |s| ==> !IsSpace(s[j]))
    decreases |s| - i
  {
    if i < |s| && IsSpace(s[i]) then AfterSpace(s, i + 1) else i
  }

  function AfterWord(s: string, i: nat): (j: nat)
    requires i <= |s|
    ensures i <= j <= |s| && (j < |s| ==> !IsWordChar(s[j]))
    decreases |s| - i
  {
    if i < |s| && IsWordChar(s[i]) then AfterWord(s, i + 1) else i
  }

  /** `gettoken`. */
  function TokenAt(s: string, i: nat): (r: Lexed)
    requires i <= |s|
    ensures i <= r.span.q <= r.span.eq <= r.next <= |s|
    ensures r.tok.End? <==> r.span.q == |s|
    ensures !r.tok.End? ==> r.span.q < r.span.eq
  {
    var q := AfterSpace(s, i);
    if q == |s| then Lexed(End, Span(q, q), q)
    else if s[q] == '>' && q + 1 < |s| && s[q + 1] == '>' then Lexed(Symbol('+'), Span(q, q + 2), AfterSpace(s, q + 2))
    else if IsSymbol(s[q]) then Lexed(Symbol(s[q]), Span(q, q + 1), AfterSpace(s, q + 1))
    else var eq := AfterWord(s, q); Lexed(Word, Span(q, eq), AfterSpace(s, eq))
  }

  /** `peek`: the next character after spaces is one of `toks`. */
  predicate Ahead(s: string, i: nat, toks: set<char>)
    requires i <= |s|
  {
    var j := AfterSpace(s, i);
    j < |s| && s[j] in toks
  }

  // --- the parser -------------------------------------------------------------------------

  function RedirectionOf(tok: Token, file: Span): Redirection {
    if tok == Symbol('<') then Redirection(file, O_RDONLY, 0) else Redirection(file, O_WRONLY + O_CREATE, 1)
  }

  /** `parseredirs`: redirections wrap the command, the first one innermost. */
  function RedirsAt(s: string, cmd: Cmd, i: nat): (r: Parsed<Cmd>)
    requires i <= |s|
    ensures r.Ok? ==> i <= r.pos <= |s|
    decreases |s| - i
  {
    var j := AfterSpace(s, i);
    if !Ahead(s, i, {'<', '>'}) then Ok(cmd, j)
    else
      var t := TokenAt(s, j);
      var f := TokenAt(s, t.next);
      if f.tok != Word then Err(MissingFile)
      else RedirsAt(s, RedirCmd(cmd, RedirectionOf(t.tok, f.span)), f.next)
  }

  /** Adds an argument to the exec node that the redirections wrap: argv is filled in place. */
  function AddArg(cmd: Cmd, arg: Span): Cmd {
    match cmd
    case ExecCmd(args) => ExecCmd(args + [arg])
    case RedirCmd(c, to) => RedirCmd(AddArg(c, arg), to)
    case _ => cmd
  }

  /** The loop of `parseexec`, with argc arguments read so far. */
  function ArgsAt(s: string, cmd: Cmd, argc: nat, i: nat): (r: Parsed<Cmd>)
    requires i <= |s|
    ensures r.Ok? ==> i <= r.pos <= |s|
    decreases |s| - i
  {
    var j := AfterSpace(s, i);
    if Ahead(s, i, {'|', ')', '&', ';'}) then Ok(cmd, j)
    else
      var t := TokenAt(s, j);
      if t.tok.End? then Ok(cmd, t.next)
      else if t.tok != Word then Err(Syntax)
      else if argc + 1 >= MAXARGS then Err(TooManyArgs)
      else
        var r := RedirsAt(s, AddArg(cmd, t.span), t.next);
        if r.Err? then r else ArgsAt(s, r.value, argc + 1, r.pos)
  }

  /** `parseblock`, at an opening parenthesis. */
  function BlockAt(s: string, i: nat): (r: Parsed<Cmd>)
    requires i <= |s| && Ahead(s, i, {'('})
    ensures r.Ok? ==> i < r.pos <= |s|
    decreases |s| - i, 0
  {
    var t := TokenAt(s, i);
    var r := LineAt(s, t.next);
    if r.Err? then r
    else if !Ahead(s, r.pos, {')'}) then Err(MissingParen)
    else RedirsAt(s, r.value, TokenAt(s, r.pos).next)
  }

  function ExecAt(s: string, i: nat): (r: Parsed<Cmd>)
    requires i <= |s|
    ensures r.Ok? ==> i <= r.pos <= |s|
    decreases |s| - i, 1
  {
    if Ahead(s, i, {'('}) then BlockAt(s, i)
    else
      var r := RedirsAt(s, ExecCmd([]), i);
      if r.Err? then r else ArgsAt(s, r.value, 0, r.pos)
  }

  function PipeAt(s: string, i: nat): (r: Parsed<Cmd>)
    requires i <= |s|
    ensures r.Ok? ==> i <= r.pos <= |s|
    decreases |s| - i, 2
  {
    var r := ExecAt(s, i);
    if r.Err? then r
    else if !Ahead(s, r.pos, {'|'}) then Ok(r.value, AfterSpace(s, r.pos))
    else
      var r2 := PipeAt(s, TokenAt(s, r.pos).next);
      if r2.Err? then r2 else Ok(PipeCmd(r.value, r2.value), r2.pos)
  }

  /** The loop of `parseline` over '&'. */
  function BacksAt(s: string, cmd: Cmd, i: nat): (r: Parsed<Cmd>)
    requires i <= |s|
    ensures r.Ok? && i <= r.pos <= |s|
    decreases |s| - i
  {
    if Ahead(s, i, {'&'}) then BacksAt(s, BackCmd(cmd), TokenAt(s, i).next) else Ok(cmd, AfterSpace(s, i))
  }

  function LineAt(s: string, i: nat): (r: Parsed<Cmd>)
    requires i <= |s|
    ensures r.Ok? ==> i <= r.pos <= |s|
    decreases |s| - i, 3
  {
    var r := PipeAt(s, i);
    if r.Err? then r
    else
      var b := BacksAt(s, r.value, r.pos);
      if !Ahead(s, b.pos, {';'}) then Ok(b.value, AfterSpace(s, b.pos))
      else
        var r2 := LineAt(s, TokenAt(s, b.pos).next);
        if r2.Err? then r2 else Ok(ListCmd(b.value, r2.value), r2.pos)
  }

  /** `parsecmd` up to `nulterminate`. */
  function Parse(s: string): (r: Parsed<Cmd>)
    ensures r.Ok? ==> r.pos == |s|
  {
    var r := LineAt(s, 0);
    if r.Err? then r
    else if AfterSpace(s, r.pos) != |s| then Err(Leftovers)
    else Ok(r.value, |s|)
  }

  // --- words are runs of word characters -------------------------------------------------

  lemma {:induction false} WordChars(s: string, i: nat)
    requires i <= |s|
    ensures forall k | i <= k < AfterWord(s, i) :: IsWordChar(s[k])
    decreases |s| - i
  {
    if i < |s| && IsWordChar(s[i]) {
      WordChars(s, i + 1);
    }
  }

  lemma {:induction false} SpaceChars(s: string, i: nat)
    requires i <= |s|
    ensures forall k | i <= k < AfterSpace(s, i) :: IsSpace(s[k])
    decreases |s| - i
  {
    if i < |s| && IsSpace(s[i]) {
      SpaceChars(s, i + 1);
    }
  }

  /**
    What gettoken finds, in characters: blanks before and behind the token; a symbol, where ">>" is one;
    or the longest run of characters that are neither blanks nor symbols.
  */
  lemma TokenText(s: string, i: nat)
    requires i <= |s|
    ensures var t := TokenAt(s, i);
            var q, eq, next := t.span.q, t.span.eq, t.next;
            var blanks, symbols := {' ', '\t', '\r', '\n', '\U{000B}'}, {'<', '|', '>', '&', ';', '(', ')'};
            && (forall k | i <= k < q || eq <= k < next :: s[k] in blanks)
            && (q < |s| ==> s[q] !in blanks) && (next < |s| ==> s[next] !in blanks)
            && (t.tok == End <==> q == |s|) && (t.tok == End ==> q == eq == next)
            && (t.tok == Word <==> q < |s| && s[q] !in symbols)
            && (t.tok == Word ==> forall k | q <= k < eq :: s[k] !in blanks && s[k] !in symbols)
            && (t.tok == Word && eq < |s| ==> s[eq] in blanks || s[eq] in symbols)
            && (t.tok == Symbol('+') <==> q + 2 <= |s| && s[q..q + 2] == ">>")
            && (t.tok == Symbol('+') ==> eq == q + 2)
            && (t.tok.Symbol? && t.tok != Symbol('+') ==> eq == q + 1 && t.tok == Symbol(s[q]))
  {
    var t := TokenAt(s, i);
    SpaceChars(s, i);
    SpaceChars(s, t.span.eq);
    if t.tok == Word {
      WordChars(s, t.span.q);
    }
    if t.span.q + 2 <= |s| {
      assert s[t.span.q..t.span.q + 2] == [s[t.span.q], s[t.span.q + 1]];
    }
  }

  // --- leading spaces do not matter -------------------------------------------------------

  lemma SpaceSkipped(s: string, i: nat)
    requires i <= |s|
    ensures var j := AfterSpace(s, i); AfterSpace(s, j) == j && TokenAt(s, j) == TokenAt(s, i)
  {
  }

  lemma RedirsSkipSpace(s: string, cmd: Cmd, i: nat)
    requires i <= |s|
    ensures RedirsAt(s, cmd, AfterSpace(s, i)) == RedirsAt(s, cmd, i)
  {
    SpaceSkipped(s, i);
  }

  lemma ArgsSkipSpace(s: string, cmd: Cmd, argc: nat, i: nat)
    requires i <= |s|
    ensures ArgsAt(s, cmd, argc, AfterSpace(s, i)) == ArgsAt(s, cmd, argc, i)
  {
    SpaceSkipped(s, i);
  }

  lemma BacksSkipSpace(s: string, cmd: Cmd, i: nat)
    requires i <= |s|
    ensures BacksAt(s, cmd, AfterSpace(s, i)) == BacksAt(s, cmd, i)
  {
    SpaceSkipped(s, i);
  }

  // --- nor does a blank at the end --------------------------------------------------------

  /** A position in a text, once a blank has been added at the end. */
  function Later(s: string, p: nat): nat { if p == |s| then |s| + 1 else p }

  ghost predicate SameParse(s: string, r: Parsed<Cmd>, r': Parsed<Cmd>) {
    match r
    case Err(e) => r' == Err(e)
    case Ok(cmd, pos) => r' == Ok(cmd, Later(s, pos))
  }

  lemma {:induction false} SpaceMore(s: string, c: char, i: nat)
    requires i <= |s| && IsSpace(c)
    ensures AfterSpace(s + [c], i) == Later(s, AfterSpace(s, i))
    ensures AfterSpace(s + [c], Later(s, i)) == Later(s, AfterSpace(s, i))
    decreases |s| - i
  {
    if i == |s| {
      assert AfterSpace(s + [c], i + 1) == i + 1;
    } else if IsSpace(s[i]) {
      SpaceMore(s, c, i + 1);
    }
  }

  lemma {:induction false} WordMore(s: string, c: char, i: nat)
    requires i <= |s| && IsSpace(c)
    ensures AfterWord(s + [c], i) == AfterWord(s, i)
    decreases |s| - i
  {
    if i < |s| && IsWordChar(s[i]) {
      WordMore(s, c, i + 1);
    }
  }

  lemma TokenMore(s: string, c: char, i: nat, j: nat)
    requires i <= |s| && IsSpace(c) && (j == i || j == Later(s, i))
    ensures var t, t' := TokenAt(s, i), TokenAt(s + [c], j);
            t'.tok == t.tok && t'.next == Later(s, t.next) && (t.tok != End ==> t'.span == t.span)
  {
    SpaceMore(s, c, i);
    var q := AfterSpace(s, i);
    if q < |s| {
      SpaceMore(s, c, q + 1);
      if q + 1 < |s| { SpaceMore(s, c, q + 2); }
      WordMore(s, c, q);
      SpaceMore(s, c, AfterWord(s, q));
      assert (s + [c])[q] == s[q];
    }
  }

  lemma AheadMore(s: string, c: char, i: nat, j: nat, toks: set<char>)
    requires i <= |s| && IsSpace(c) && (j == i || j == Later(s, i))
    ensures Ahead(s + [c], j, toks) == Ahead(s, i, toks)
  {
    SpaceMore(s, c, i);
  }

  lemma {:induction false} RedirsMore(s: string, c: char, cmd: Cmd, i: nat, j: nat)
    requires i <= |s| && IsSpace(c) && (j == i || j == Later(s, i))
    ensures SameParse(s, RedirsAt(s, cmd, i), RedirsAt(s + [c], cmd, j))
    decreases |s| - i
  {
    hide TokenAt, Ahead;
    SpaceMore(s, c, i);
    AheadMore(s, c, i, j, {'<', '>'});
    if Ahead(s, i, {'<', '>'}) {
      AheadToken(s, i, {'<', '>'});
      var k := AfterSpace(s, i);
      TokenMore(s, c, k, Later(s, k));
      var t := TokenAt(s, k);
      TokenMore(s, c, t.next, Later(s, t.next));
      var f := TokenAt(s, t.next);
      if f.tok == Word {
        RedirsMore(s, c, RedirCmd(cmd, RedirectionOf(t.tok, f.span)), f.next, Later(s, f.next));
      }
    }
  }

  lemma AheadToken(s: string, i: nat, toks: set<char>)
    requires i <= |s| && Ahead(s, i, toks)
    ensures i < TokenAt(s, i).next && i < TokenAt(s, AfterSpace(s, i)).next && AfterSpace(s, i) < |s|
  {
  }

  lemma {:induction false} ArgsMore(s: string, c: char, cmd: Cmd, argc: nat, i: nat, j: nat)
    requires i <= |s| && IsSpace(c) && (j == i || j == Later(s, i))
    ensures SameParse(s, ArgsAt(s, cmd, argc, i), ArgsAt(s + [c], cmd, argc, j))
    decreases |s| - i
  {
    hide TokenAt, Ahead, RedirsAt;
    SpaceMore(s, c, i);
    AheadMore(s, c, i, j, {'|', ')', '&', ';'});
    var k := AfterSpace(s, i);
    TokenMore(s, c, k, Later(s, k));
    var t := TokenAt(s, k);
    if !Ahead(s, i, {'|', ')', '&', ';'}) && t.tok == Word && argc + 1 < MAXARGS {
      RedirsMore(s, c, AddArg(cmd, t.span), t.next, Later(s, t.next));
      var r := RedirsAt(s, AddArg(cmd, t.span), t.next);
      if r.Ok? {
        ArgsMore(s, c, r.value, argc + 1, r.pos, Later(s, r.pos));
      }
    }
  }

  lemma {:induction false} BacksMore(s: string, c: char, cmd: Cmd, i: nat, j: nat)
    requires i <= |s| && IsSpace(c) && (j == i || j == Later(s, i))
    ensures SameParse(s, BacksAt(s, cmd, i), BacksAt(s + [c], cmd, j))
    decreases |s| - i
  {
    hide TokenAt, Ahead;
    SpaceMore(s, c, i);
    AheadMore(s, c, i, j, {'&'});
    if Ahead(s, i, {'&'}) {
      AheadToken(s, i, {'&'});
      TokenMore(s, c, i, j);
      BacksMore(s, c, BackCmd(cmd), TokenAt(s, i).next, Later(s, TokenAt(s, i).next));
    }
  }

  lemma {:induction false} BlockMore(s: string, c: char, i: nat, j: nat)
    requires i <= |s| && IsSpace(c) && (j == i || j == Later(s, i)) && Ahead(s, i, {'('})
    ensures Ahead(s + [c], j, {'('}) && SameParse(s, BlockAt(s, i), BlockAt(s + [c], j))
    decreases |s| - i, 0
  {
    hide TokenAt, Ahead, LineAt, RedirsAt;
    AheadMore(s, c, i, j, {'('});
    AheadToken(s, i, {'('});
    TokenMore(s, c, i, j);
    var t := TokenAt(s, i);
    LineMore(s, c, t.next, Later(s, t.next));
    var r := LineAt(s, t.next);
    if r.Ok? {
      AheadMore(s, c, r.pos, Later(s, r.pos), {')'});
      TokenMore(s, c, r.pos, Later(s, r.pos));
      var n := TokenAt(s, r.pos).next;
      RedirsMore(s, c, r.value, n, Later(s, n));
    }
  }

  lemma {:induction false} ExecMore(s: string, c: char, i: nat, j: nat)
    requires i <= |s| && IsSpace(c) && (j == i || j == Later(s, i))
    ensures SameParse(s, ExecAt(s, i), ExecAt(s + [c], j))
    decreases |s| - i, 1
  {
    hide TokenAt, Ahead, BlockAt, RedirsAt, ArgsAt;
    AheadMore(s, c, i, j, {'('});
    if Ahead(s, i, {'('}) {
      BlockMore(s, c, i, j);
    } else {
      RedirsMore(s, c, ExecCmd([]), i, j);
      var r := RedirsAt(s, ExecCmd([]), i);
      if r.Ok? {
        ArgsMore(s, c, r.value, 0, r.pos, Later(s, r.pos));
      }
    }
  }

  lemma {:induction false} PipeMore(s: string, c: char, i: nat, j: nat)
    requires i <= |s| && IsSpace(c) && (j == i || j == Later(s, i))
    ensures SameParse(s, PipeAt(s, i), PipeAt(s + [c], j))
    decreases |s| - i, 2
  {
    hide TokenAt, Ahead, ExecAt;
    ExecMore(s, c, i, j);
    var r := ExecAt(s, i);
    if r.Ok? {
      SpaceMore(s, c, r.pos);
      AheadMore(s, c, r.pos, Later(s, r.pos), {'|'});
      if Ahead(s, r.pos, {'|'}) {
        AheadToken(s, r.pos, {'|'});
        TokenMore(s, c, r.pos, Later(s, r.pos));
        var n := TokenAt(s, r.pos).next;
        PipeMore(s, c, n, Later(s, n));
      }
    }
  }

  lemma {:induction false} LineMore(s: string, c: char, i: nat, j: nat)
    requires i <= |s| && IsSpace(c) && (j == i || j == Later(s, i))
    ensures SameParse(s, LineAt(s, i), LineAt(s + [c], j))
    decreases |s| - i, 3
  {
    hide TokenAt, Ahead, PipeAt, BacksAt;
    PipeMore(s, c, i, j);
    var r := PipeAt(s, i);
    if r.Ok? {
      BacksMore(s, c, r.value, r.pos, Later(s, r.pos));
      var b := BacksAt(s, r.value, r.pos);
      SpaceMore(s, c, b.pos);
      AheadMore(s, c, b.pos, Later(s, b.pos), {';'});
      if Ahead(s, b.pos, {';'}) {
        AheadToken(s, b.pos, {';'});
        TokenMore(s, c, b.pos, Later(s, b.pos));
        var n := TokenAt(s, b.pos).next;
        LineMore(s, c, n, Later(s, n));
      }
    }
  }

  /** The line that gets delivers ends in a newline: it parses to the command, or the error, of the line without. */
  lemma NewlineIgnored(s: string)
    ensures Parse(s + "\n") == match Parse(s) case Ok(cmd, _) => Ok(cmd, |s| + 1) case Err(e) => Err(e)
  {
    hide LineAt;
    LineMore(s, '\n', 0, 0);
    var r := LineAt(s, 0);
    if r.Ok? {
      SpaceMore(s, '\n', r.pos);
    }
  }

  // --- the loops of the source ------------------------------------------------------------

  method Skip(s: string, start: nat) returns (i: nat)
    requires start <= |s|
    ensures i == AfterSpace(s, start)
  {
    i := start;
    while i < |s| && IsSpace(s[i])
      invariant i <= |s| && AfterSpace(s, i) == AfterSpace(s, start)
    {
      i := i + 1;
    }
  }

  method SkipWord(s: string, start: nat) returns (i: nat)
    requires start <= |s|
    ensures i == AfterWord(s, start)
  {
    i := start;
    while i < |s| && IsWordChar(s[i])
      invariant i <= |s| && AfterWord(s, i) == AfterWord(s, start)
    {
      i := i + 1;
    }
  }

  method GetToken(s: string, start: nat) returns (r: Lexed)
    requires start <= |s|
    ensures r == TokenAt(s, start)
  {
    var q := Skip(s, start);
    var i, tok := q, End;
    if q < |s| {
      match s[q] {
        case '|' | '(' | ')' | ';' | '&' | '<' =>
          tok, i := Symbol(s[q]), q + 1;
        case '>' =>
          tok, i := Symbol('>'), q + 1;
          if i < |s| && s[i] == '>' {
            tok, i := Symbol('+'), i + 1;
          }
        case _ =>
          tok := Word;
          i := SkipWord(s, q);
      }
    }
    var next := Skip(s, i);
    r := Lexed(tok, Span(q, i), next);
  }

  method Peek(s: string, start: nat, toks: set<char>) returns (i: nat, found: bool)
    requires start <= |s|
    ensures i == AfterSpace(s, start) && found == Ahead(s, start, toks)
  {
    i := Skip(s, start);
    found := i < |s| && s[i] in toks;
  }

  method ParseRedirs(s: string, inner: Cmd, start: nat) returns (r: Parsed<Cmd>)
    requires start <= |s|
    ensures r == RedirsAt(s, inner, start)
  {
    var cmd := inner;
    var i, found := Peek(s, start, {'<', '>'});
    RedirsSkipSpace(s, cmd, start);
    SpaceSkipped(s, start);
    while found
      invariant i <= |s| && i == AfterSpace(s, i) && found == Ahead(s, i, {'<', '>'})
      invariant RedirsAt(s, cmd, i) == RedirsAt(s, inner, start)
      decreases |s| - i
    {
      var t := GetToken(s, i);
      var f := GetToken(s, t.next);
      if f.tok != Word { return Err(MissingFile); }
      cmd := RedirCmd(cmd, RedirectionOf(t.tok, f.span));
      i, found := Peek(s, f.next, {'<', '>'});
      RedirsSkipSpace(s, cmd, f.next);
      SpaceSkipped(s, f.next);
    }
    r := Ok(cmd, i);
  }

  method ParseBlock(s: string, start: nat) returns (r: Parsed<Cmd>)
    requires start <= |s| && Ahead(s, start, {'('})
    ensures r == BlockAt(s, start)
    decreases |s| - start, 0
  {
    var t := GetToken(s, start);
    r := ParseLine(s, t.next);
    if r.Err? { return; }
    var i, found := Peek(s, r.pos, {')'});
    if !found { return Err(MissingParen); }
    t := GetToken(s, r.pos);
    r := ParseRedirs(s, r.value, t.next);
  }

  method ParseExec(s: string, start: nat) returns (r: Parsed<Cmd>)
    requires start <= |s|
    ensures r == ExecAt(s, start)
    decreases |s| - start, 1
  {
    var i, found := Peek(s, start, {'('});
    if found {
      r := ParseBlock(s, start);
      return;
    }
    var argc := 0;
    r := ParseRedirs(s, ExecCmd([]), start);
    if r.Err? { return; }
    var cmd := r.value;
    i, found := Peek(s, r.pos, {'|', ')', '&', ';'});
    ArgsSkipSpace(s, cmd, argc, r.pos);
    SpaceSkipped(s, r.pos);
    while !found
      invariant argc < MAXARGS
      invariant i <= |s| && i == AfterSpace(s, i) && found == Ahead(s, i, {'|', ')', '&', ';'})
      invariant ArgsAt(s, cmd, argc, i) == ExecAt(s, start)
      decreases |s| - i
    {
      var t := GetToken(s, i);
      if t.tok == End { return Ok(cmd, t.next); }
      if t.tok != Word { return Err(Syntax); }
      argc := argc + 1;
      if argc >= MAXARGS { return Err(TooManyArgs); }
      r := ParseRedirs(s, AddArg(cmd, t.span), t.next);
      if r.Err? { return; }
      cmd := r.value;
      i, found := Peek(s, r.pos, {'|', ')', '&', ';'});
      ArgsSkipSpace(s, cmd, argc, r.pos);
      SpaceSkipped(s, r.pos);
    }
    r := Ok(cmd, i);
  }

  method ParsePipe(s: string, start: nat) returns (r: Parsed<Cmd>)
    requires start <= |s|
    ensures r == PipeAt(s, start)
    decreases |s| - start, 2
  {
    r := ParseExec(s, start);
    if r.Err? { return; }
    var left := r.value;
    var i, found := Peek(s, r.pos, {'|'});
    if !found { return Ok(left, i); }
    var t := GetToken(s, r.pos);
    r := ParsePipe(s, t.next);
    if r.Ok? { r := Ok(PipeCmd(left, r.value), r.pos); }
  }

  /** The loop of parseline over '&'. */
  method ParseBacks(s: string, inner: Cmd, start: nat) returns (cmd: Cmd, i: nat)
    requires start <= |s|
    ensures Ok(cmd, i) == BacksAt(s, inner, start) && i == AfterSpace(s, i)
  {
    cmd := inner;
    var found;
    i, found := Peek(s, start, {'&'});
    BacksSkipSpace(s, cmd, start);
    SpaceSkipped(s, start);
    while found
      invariant start <= i <= |s| && i == AfterSpace(s, i) && found == Ahead(s, i, {'&'})
      invariant BacksAt(s, cmd, i) == BacksAt(s, inner, start)
      decreases |s| - i
    {
      var t := GetToken(s, i);
      cmd := BackCmd(cmd);
      i, found := Peek(s, t.next, {'&'});
      BacksSkipSpace(s, cmd, t.next);
      SpaceSkipped(s, t.next);
    }
  }

  method ParseLine(s: string, start: nat) returns (r: Parsed<Cmd>)
    requires start <= |s|
    ensures r == LineAt(s, start)
    decreases |s| - start, 3
  {
    r := ParsePipe(s, start);
    if r.Err? { return; }
    var cmd, i := ParseBacks(s, r.value, r.pos);
    var found;
    i, found := Peek(s, i, {';'});
    if !found { return Ok(cmd, i); }
    var t := GetToken(s, i);
    r := ParseLine(s, t.next);
    if r.Ok? { r := Ok(ListCmd(cmd, r.value), r.pos); }
  }

  method ParseCmd(s: string) returns (r: Parsed<Cmd>)
    ensures r == Parse(s)
  {
    r := ParseLine(s, 0);
    if r.Err? { return; }
    var i, _ := Peek(s, r.pos, {});
    if i != |s| { return Err(Leftovers); }
    r := Ok(r.value, i);
  }
}
