/**
  The parser accepts exactly the well-formed lines, and reads each as the tree that it means.

  Positions in the text are related to the tokens from there on: a command read between two
  positions is the tokens that lie between them.
*/
module ShellRoundTrip {
  import opened Shell
  import opened ShellGrammar

  // --- tokens -----------------------------------------------------------------------------

  /** The next token is one of these symbols. */
  predicate Leads(ts: seq<Tok>, cs: set<char>) { ts != [] && ts[0].Sym? && ts[0].c in cs }

  /** What can follow a command, a pipeline and a line. */
  predicate AfterCommand(ts: seq<Tok>) { ts == [] || Leads(ts, {'|', '&', ';', ')'}) }
  predicate AfterPipeline(ts: seq<Tok>) { ts == [] || Leads(ts, {'&', ';', ')'}) }
  predicate AfterLine(ts: seq<Tok>) { ts == [] || Leads(ts, {')'}) }

  lemma ToksSkipSpace(s: string, i: nat)
    requires i <= |s|
    ensures Toks(s, AfterSpace(s, i)) == Toks(s, i) && TokenAt(s, AfterSpace(s, i)) == TokenAt(s, i)
  {
    SpaceSkipped(s, i);
  }

  lemma TokFirst(s: string, i: nat)
    requires i <= |s|
    ensures Toks(s, i) == [] <==> TokenAt(s, i).tok.End?
    ensures Toks(s, i) != [] ==>
              && i < TokenAt(s, i).next <= |s|
              && Toks(s, i)[0] == Lexeme(s, TokenAt(s, i)) && Toks(s, i)[1..] == Toks(s, TokenAt(s, i).next)
  {
    hide AfterSpace, AfterWord;
  }

  lemma AheadIs(s: string, i: nat, cs: set<char>)
    requires i <= |s| && cs <= {'|', '&', ';', '(', ')'}
    ensures Ahead(s, i, cs) <==> Leads(Toks(s, i), cs)
  {
    hide AfterSpace, AfterWord;
    TokFirst(s, i);
  }

  lemma ArrowAhead(s: string, i: nat)
    requires i <= |s|
    ensures Ahead(s, i, {'<', '>'}) <==> Leads(Toks(s, i), {'<', '>', '+'})
  {
    hide AfterSpace, AfterWord;
    TokFirst(s, i);
  }

  lemma TokWord(s: string, i: nat)
    requires i <= |s|
    ensures TokenAt(s, i).tok.Word? ==> IsWord(Text(s, TokenAt(s, i).span))
  {
    var t := TokenAt(s, i);
    WordChars(s, t.span.q);
  }

  lemma Head(a: Tok, ts: seq<Tok>)
    ensures ([a] + ts)[0] == a && ([a] + ts)[1..] == ts
  {
  }

  lemma Assoc(a: seq<Tok>, b: seq<Tok>, c: seq<Tok>)
    ensures (a + b) + c == a + (b + c)
  {
  }

  lemma NothingMore(a: seq<Tok>)
    ensures a + [] == a && [] + a == a
  {
  }

  // --- words and redirections -------------------------------------------------------------

  /** What parseexec does before its loop and after each argument: redirections, then the loop. */
  function Rest(s: string, cmd: Cmd, argc: nat, i: nat): (r: Parsed<Cmd>)
    requires i <= |s|
    ensures r.Ok? ==> i <= r.pos <= |s|
  {
    var r := RedirsAt(s, cmd, i);
    if r.Err? then r else ArgsAt(s, r.value, argc, r.pos)
  }

  lemma RedirsStop(s: string, cmd: Cmd, i: nat)
    requires i <= |s| && !Leads(Toks(s, i), {'<', '>', '+'})
    ensures RedirsAt(s, cmd, i) == Ok(cmd, AfterSpace(s, i))
  {
    hide TokenAt, AfterSpace, Toks;
    ArrowAhead(s, i);
  }

  lemma RestStop(s: string, cmd: Cmd, argc: nat, i: nat)
    requires i <= |s| && AfterCommand(Toks(s, i))
    ensures Rest(s, cmd, argc, i) == Ok(cmd, AfterSpace(s, i)) && Toks(s, AfterSpace(s, i)) == Toks(s, i)
  {
    hide AfterSpace, Toks, RedirsAt;
    var j := AfterSpace(s, i);
    RedirsStop(s, cmd, i);
    ToksSkipSpace(s, i);
    SpaceSkipped(s, i);
    AheadIs(s, j, {'|', ')', '&', ';'});
    TokFirst(s, j);
  }

  lemma {:induction false} AddArgDenotes(s: string, cmd: Cmd, arg: Span)
    ensures Denote(s, AddArg(cmd, arg)) == AddWord(Denote(s, cmd), Text(s, arg))
  {
    match cmd
    case ExecCmd(args) => assert Texts(s, args + [arg]) == Texts(s, args) + [Text(s, arg)];
    case RedirCmd(c, _) => AddArgDenotes(s, c, arg);
    case _ =>
  }

  /** A word is one argument. */
  lemma ArgStep(s: string, i: nat, cmd: Cmd, argc: nat) returns (out: Cmd, j: nat)
    requires i <= |s| && Toks(s, i) != [] && Toks(s, i)[0].Wd?
    ensures i < j <= |s| && Toks(s, i) == [Toks(s, i)[0]] + Toks(s, j) && IsWord(Toks(s, i)[0].text)
    ensures Rest(s, cmd, argc, i) == if argc + 1 < MAXARGS then Rest(s, out, argc + 1, j) else Err(TooManyArgs)
    ensures Denote(s, out) == AddItem(Denote(s, cmd), Arg(Toks(s, i)[0].text))
  {
    hide TokenAt, AfterSpace, RedirsAt, Denote, AddArg, AddWord, Toks;
    var t, k := TokenAt(s, i), AfterSpace(s, i);
    TokFirst(s, i);
    TokWord(s, i);
    RedirsStop(s, cmd, i);
    ToksSkipSpace(s, i);
    SpaceSkipped(s, i);
    AheadIs(s, k, {'|', ')', '&', ';'});
    out, j := AddArg(cmd, t.span), t.next;
    AddArgDenotes(s, cmd, t.span);
  }

  /** A redirection is an arrow and a word. */
  lemma ToStep(s: string, i: nat, cmd: Cmd) returns (a: Arrow, out: Cmd, j: nat)
    requires i <= |s| && Leads(Toks(s, i), {'<', '>', '+'})
    ensures i < j <= |s| && Toks(s, i)[0] == Sym(ArrowSym(a))
    ensures RedirsAt(s, cmd, i) ==
            if |Toks(s, i)| >= 2 && Toks(s, i)[1].Wd? then RedirsAt(s, out, j) else Err(MissingFile)
    ensures |Toks(s, i)| >= 2 && Toks(s, i)[1].Wd? ==>
              && Toks(s, i) == ItemToks(To(a, Toks(s, i)[1].text)) + Toks(s, j) && IsWord(Toks(s, i)[1].text)
              && Denote(s, out) == AddItem(Denote(s, cmd), To(a, Toks(s, i)[1].text))
  {
    hide TokenAt, AfterSpace, Toks;
    var k := AfterSpace(s, i);
    var t := TokenAt(s, k);
    ToksSkipSpace(s, i);
    ArrowAhead(s, i);
    TokFirst(s, k);
    var f := TokenAt(s, t.next);
    TokFirst(s, t.next);
    TokWord(s, t.next);
    a := if t.tok.c == '<' then In else if t.tok.c == '>' then Out else Append;
    out := RedirCmd(cmd, RedirectionOf(t.tok, f.span));
    j := if f.tok.Word? then f.next else t.next;
  }

  /** The arguments and redirections of a simple command. */
  lemma {:induction false} ItemsRead(s: string, i: nat, cmd: Cmd, argc: nat, items: seq<Item>, rest: seq<Tok>)
    returns (out: Cmd, pos: nat)
    requires i <= |s| && AllWords(items) && argc + CountArgs(items) < MAXARGS
    requires Toks(s, i) == ItemsToks(items) + rest && AfterCommand(rest)
    ensures pos <= |s| && Rest(s, cmd, argc, i) == Ok(out, pos) && Toks(s, pos) == rest
    ensures Denote(s, out) == AddItems(Denote(s, cmd), items)
    decreases |items|
  {
    hide RedirsAt, ArgsAt, Denote, AddItem, Toks, AfterSpace;
    if items == [] {
      NothingMore(rest);
      RestStop(s, cmd, argc, i);
      out, pos := cmd, AfterSpace(s, i);
    } else {
      var it, more := items[0], items[1..];
      Assoc(ItemToks(it), ItemsToks(more), rest);
      if it.Arg? {
        var c, j := ArgStep(s, i, cmd, argc);
        Head(Wd(it.word), Toks(s, j));
        Head(Wd(it.word), ItemsToks(more) + rest);
        out, pos := ItemsRead(s, j, c, argc + 1, more, rest);
      } else {
        var c, j := ToStep1(s, i, cmd, it, ItemsToks(more) + rest);
        out, pos := ItemsRead(s, j, c, argc, more, rest);
      }
    }
  }

  lemma ToStep1(s: string, i: nat, cmd: Cmd, it: Item, ts: seq<Tok>) returns (out: Cmd, j: nat)
    requires i <= |s| && it.To? && Toks(s, i) == ItemToks(it) + ts
    ensures i < j <= |s| && RedirsAt(s, cmd, i) == RedirsAt(s, out, j) && Toks(s, j) == ts
    ensures Denote(s, out) == AddItem(Denote(s, cmd), it)
  {
    hide RedirsAt, Denote, AddItem, Toks, AfterSpace;
    var a;
    a, out, j := ToStep(s, i, cmd);
    assert a == it.arrow;
    assert ts == (ItemToks(it) + ts)[2..] && Toks(s, j) == (ItemToks(it) + Toks(s, j))[2..];
  }

  lemma {:induction false} RedirsRead(s: string, i: nat, cmd: Cmd, items: seq<Item>, rest: seq<Tok>)
    returns (out: Cmd, pos: nat)
    requires i <= |s| && AllWords(items) && forall k | 0 <= k < |items| :: items[k].To?
    requires Toks(s, i) == ItemsToks(items) + rest && AfterCommand(rest)
    ensures pos <= |s| && RedirsAt(s, cmd, i) == Ok(out, pos) && Toks(s, pos) == rest
    ensures Denote(s, out) == AddItems(Denote(s, cmd), items)
    decreases |items|
  {
    hide RedirsAt, Denote, AddItem, Toks, AfterSpace;
    if items == [] {
      NothingMore(rest);
      RedirsStop(s, cmd, i);
      ToksSkipSpace(s, i);
      out, pos := cmd, AfterSpace(s, i);
    } else {
      var it, more := items[0], items[1..];
      Assoc(ItemToks(it), ItemsToks(more), rest);
      var c, j := ToStep1(s, i, cmd, it, ItemsToks(more) + rest);
      out, pos := RedirsRead(s, j, c, more, rest);
    }
  }

  // --- commands, pipelines, lines: every line is read -------------------------------------

  lemma SymStep(s: string, i: nat, c: char, ts: seq<Tok>) returns (j: nat)
    requires i <= |s| && Toks(s, i) == [Sym(c)] + ts
    ensures i < j <= |s| && TokenAt(s, i).next == j && Toks(s, j) == ts
  {
    hide Toks, TokenAt;
    TokFirst(s, i);
    Head(Sym(c), ts);
    j := TokenAt(s, i).next;
  }

  /** A simple command does not begin with '(', so parseexec does not take it for a block. */
  lemma NoBlock(s: string, i: nat, items: seq<Item>, rest: seq<Tok>)
    requires i <= |s| && Toks(s, i) == ItemsToks(items) + rest && AfterCommand(rest)
    ensures ExecAt(s, i) == Rest(s, ExecCmd([]), 0, i)
  {
    hide RedirsAt, ArgsAt, BlockAt, Toks;
    AheadIs(s, i, {'('});
    if items != [] {
      assert (ItemsToks(items) + rest)[0] == ItemToks(items[0])[0];
    }
  }

  lemma BlockStep(s: string, i: nat, j: nat, cmd: Cmd, p: nat, q: nat)
    requires i < j <= p < q <= |s| && Leads(Toks(s, i), {'('}) && TokenAt(s, i).next == j
    requires Leads(Toks(s, p), {')'}) && TokenAt(s, p).next == q && LineAt(s, j) == Ok(cmd, p)
    ensures ExecAt(s, i) == RedirsAt(s, cmd, q)
  {
    hide AfterSpace, TokenAt, RedirsAt, ArgsAt, PipeAt, LineAt, Toks;
    AheadIs(s, i, {'('});
    AheadIs(s, p, {')'});
  }

  lemma {:induction false} CommandRead(s: string, i: nat, c: Command, rest: seq<Tok>) returns (cmd: Cmd, pos: nat)
    requires i <= |s| && GoodCommand(c) && Toks(s, i) == CommandToks(c) + rest && AfterCommand(rest)
    ensures pos <= |s| && ExecAt(s, i) == Ok(cmd, pos) && Toks(s, pos) == rest && Denote(s, cmd) == CommandTree(c)
    decreases c
  {
    hide ExecAt, LineAt, RedirsAt, ArgsAt, TokenAt, Toks, ItemsToks, LineToks, AddItems, LineTree;
    match c
    case Simple(items) =>
      NoBlock(s, i, items, rest);
      cmd, pos := ItemsRead(s, i, ExecCmd([]), 0, items, rest);
      assert Denote(s, ExecCmd([])) == ExecTree([]);
    case Block(l, redirs) =>
      var last := ItemsToks(redirs) + rest;
      var after := [Sym(')')] + last;
      BlockShape(l, redirs, rest);
      var j := SymStep(s, i, '(', LineToks(l) + after);
      var inner, p := LineRead(s, j, l, after);
      var q := SymStep(s, p, ')', last);
      BlockStep(s, i, j, inner, p, q);
      cmd, pos := RedirsRead(s, q, inner, redirs, rest);
  }

  lemma BlockShape(l: Line, redirs: seq<Item>, rest: seq<Tok>)
    ensures CommandToks(Block(l, redirs)) + rest ==
            [Sym('(')] + (LineToks(l) + ([Sym(')')] + (ItemsToks(redirs) + rest)))
  {
    hide LineToks, ItemsToks;
    var a, b := LineToks(l), ItemsToks(redirs);
    Assoc([Sym('(')], a + ([Sym(')')] + b), rest);
    Assoc(a, [Sym(')')] + b, rest);
    Assoc([Sym(')')], b, rest);
  }

  lemma PipeStop(s: string, i: nat, cmd: Cmd, p: nat)
    requires i <= p <= |s| && !Leads(Toks(s, p), {'|'}) && ExecAt(s, i) == Ok(cmd, p)
    ensures PipeAt(s, i) == Ok(cmd, AfterSpace(s, p)) && Toks(s, AfterSpace(s, p)) == Toks(s, p)
  {
    hide AfterSpace, TokenAt, ExecAt, Toks;
    AheadIs(s, p, {'|'});
    ToksSkipSpace(s, p);
  }

  lemma PipeStep(s: string, i: nat, a: Cmd, p: nat)
    requires i <= p <= |s| && Leads(Toks(s, p), {'|'}) && ExecAt(s, i) == Ok(a, p)
    ensures var r := PipeAt(s, TokenAt(s, p).next);
            PipeAt(s, i) == if r.Err? then r else Ok(PipeCmd(a, r.value), r.pos)
  {
    hide AfterSpace, TokenAt, ExecAt, Toks;
    AheadIs(s, p, {'|'});
  }

  lemma {:induction false} PipelineRead(s: string, i: nat, p: Pipeline, rest: seq<Tok>) returns (cmd: Cmd, pos: nat)
    requires i <= |s| && GoodPipeline(p) && Toks(s, i) == PipelineToks(p) + rest && AfterPipeline(rest)
    ensures pos <= |s| && PipeAt(s, i) == Ok(cmd, pos) && Toks(s, pos) == rest && Denote(s, cmd) == PipelineTree(p)
    decreases p
  {
    hide PipeAt, ExecAt, TokenAt, Toks, CommandToks, AfterSpace;
    match p
    case One(c) =>
      var k;
      cmd, k := CommandRead(s, i, c, rest);
      PipeStop(s, i, cmd, k);
      pos := AfterSpace(s, k);
    case Piped(c, more) =>
      var after := [Sym('|')] + (PipelineToks(more) + rest);
      Assoc(CommandToks(c), [Sym('|')] + PipelineToks(more), rest);
      Assoc([Sym('|')], PipelineToks(more), rest);
      var a, k := CommandRead(s, i, c, after);
      PipeStep(s, i, a, k);
      var j := SymStep(s, k, '|', PipelineToks(more) + rest);
      var b;
      b, pos := PipelineRead(s, j, more, rest);
      cmd := PipeCmd(a, b);
  }

  lemma BacksStop(s: string, cmd: Cmd, i: nat)
    requires i <= |s| && !Leads(Toks(s, i), {'&'})
    ensures BacksAt(s, cmd, i) == Ok(cmd, AfterSpace(s, i)) && Toks(s, AfterSpace(s, i)) == Toks(s, i)
  {
    hide AfterSpace, TokenAt, Toks;
    AheadIs(s, i, {'&'});
    ToksSkipSpace(s, i);
  }

  lemma BacksStep(s: string, cmd: Cmd, i: nat)
    requires i <= |s| && Leads(Toks(s, i), {'&'})
    ensures BacksAt(s, cmd, i) == BacksAt(s, BackCmd(cmd), TokenAt(s, i).next)
  {
    hide AfterSpace, TokenAt, Toks;
    AheadIs(s, i, {'&'});
  }

  lemma {:induction false} BacksRead(s: string, i: nat, cmd: Cmd, n: nat, rest: seq<Tok>) returns (out: Cmd, pos: nat)
    requires i <= |s| && Toks(s, i) == AmpToks(n) + rest && !Leads(rest, {'&'})
    ensures pos <= |s| && BacksAt(s, cmd, i) == Ok(out, pos) && Toks(s, pos) == rest
    ensures Denote(s, out) == Backs(Denote(s, cmd), n)
    decreases n
  {
    hide BacksAt, TokenAt, AfterSpace, Toks;
    if n == 0 {
      NothingMore(rest);
      BacksStop(s, cmd, i);
      out, pos := cmd, AfterSpace(s, i);
    } else {
      Assoc([Sym('&')], AmpToks(n - 1), rest);
      BacksStep(s, cmd, i);
      var j := SymStep(s, i, '&', AmpToks(n - 1) + rest);
      out, pos := BacksRead(s, j, BackCmd(cmd), n - 1, rest);
    }
  }

  lemma LineStop(s: string, i: nat, a: Cmd, p: nat, cmd: Cmd, q: nat)
    requires i <= p <= q <= |s| && !Leads(Toks(s, q), {';'}) && PipeAt(s, i) == Ok(a, p)
             && BacksAt(s, a, p) == Ok(cmd, q)
    ensures LineAt(s, i) == Ok(cmd, AfterSpace(s, q)) && Toks(s, AfterSpace(s, q)) == Toks(s, q)
  {
    hide AfterSpace, TokenAt, PipeAt, BacksAt, Toks;
    AheadIs(s, q, {';'});
    ToksSkipSpace(s, q);
  }

  lemma LineStep(s: string, i: nat, a: Cmd, p: nat, cmd: Cmd, q: nat)
    requires i <= p <= q <= |s| && Leads(Toks(s, q), {';'}) && PipeAt(s, i) == Ok(a, p)
             && BacksAt(s, a, p) == Ok(cmd, q)
    ensures var r := LineAt(s, TokenAt(s, q).next);
            LineAt(s, i) == if r.Err? then r else Ok(ListCmd(cmd, r.value), r.pos)
  {
    hide AfterSpace, TokenAt, PipeAt, BacksAt, Toks;
    AheadIs(s, q, {';'});
  }

  /** What follows the pipeline of a line. */
  function Later(l: Line): seq<Tok> {
    match l
    case Last(_, _) => []
    case Then(_, _, more) => [Sym(';')] + LineToks(more)
  }

  lemma LineShape(l: Line, rest: seq<Tok>)
    ensures LineToks(l) + rest == PipelineToks(l.first) + (AmpToks(l.amps) + (Later(l) + rest))
    ensures AfterLine(rest) ==> !Leads(Later(l) + rest, {'&'}) && AfterPipeline(AmpToks(l.amps) + (Later(l) + rest))
  {
    hide PipelineToks;
    var a, b := PipelineToks(l.first), AmpToks(l.amps);
    if l.Last? {
      NothingMore(rest);
      Assoc(a, b, rest);
    } else {
      Assoc(a, b + Later(l), rest);
      Assoc(b, Later(l), rest);
    }
  }

  lemma {:induction false} LineRead(s: string, i: nat, l: Line, rest: seq<Tok>) returns (cmd: Cmd, pos: nat)
    requires i <= |s| && GoodLine(l) && Toks(s, i) == LineToks(l) + rest && AfterLine(rest)
    ensures pos <= |s| && LineAt(s, i) == Ok(cmd, pos) && Toks(s, pos) == rest && Denote(s, cmd) == LineTree(l)
    decreases l
  {
    hide LineAt, PipeAt, BacksAt, TokenAt, Toks, AfterSpace, PipelineToks, AmpToks;
    LineShape(l, rest);
    var after := Later(l) + rest;
    var a, p := PipelineRead(s, i, l.first, AmpToks(l.amps) + after);
    var c, q := BacksRead(s, p, a, l.amps, after);
    match l
    case Last(_, _) =>
      NothingMore(rest);
      LineStop(s, i, a, p, c, q);
      cmd, pos := c, AfterSpace(s, q);
    case Then(_, _, more) =>
      Assoc([Sym(';')], LineToks(more), rest);
      LineStep(s, i, a, p, c, q);
      var j := SymStep(s, q, ';', LineToks(more) + rest);
      var b;
      b, pos := LineRead(s, j, more, rest);
      cmd := ListCmd(c, b);
  }

  // --- and nothing else is ----------------------------------------------------------------

  lemma RestBad(s: string, cmd: Cmd, argc: nat, i: nat)
    requires i <= |s| && Toks(s, i) != [] && Toks(s, i)[0].Sym?
    requires !Leads(Toks(s, i), {'<', '>', '+'}) && !AfterCommand(Toks(s, i))
    ensures Rest(s, cmd, argc, i) == Err(Syntax)
  {
    hide AfterSpace, Toks, RedirsAt, TokenAt;
    var j := AfterSpace(s, i);
    RedirsStop(s, cmd, i);
    ToksSkipSpace(s, i);
    SpaceSkipped(s, i);
    AheadIs(s, j, {'|', ')', '&', ';'});
    TokFirst(s, j);
  }

  /** One more item in front. */
  lemma ItemsCons(it: Item, more: seq<Item>)
    ensures var items := [it] + more;
            && ItemsToks(items) == ItemToks(it) + ItemsToks(more)
            && CountArgs(items) == CountArgs(more) + (if it.Arg? then 1 else 0)
            && (IsWord(it.word) && AllWords(more) ==> AllWords(items))
            && forall t :: AddItems(t, items) == AddItems(AddItem(t, it), more)
  {
    var items := [it] + more;
    assert items[1..] == more;
  }

  lemma {:induction false} RestFrom(s: string, i: nat, cmd: Cmd, argc: nat) returns (items: seq<Item>)
    requires i <= |s| && argc < MAXARGS && Rest(s, cmd, argc, i).Ok?
    ensures AllWords(items) && argc + CountArgs(items) < MAXARGS
    ensures var r := Rest(s, cmd, argc, i);
            Toks(s, i) == ItemsToks(items) + Toks(s, r.pos) && Denote(s, r.value) == AddItems(Denote(s, cmd), items)
    decreases |s| - i
  {
    hide RedirsAt, ArgsAt, Denote, AddItem, Toks, AfterSpace, ItemsToks, AddItems, CountArgs, IsWord;
    var ts := Toks(s, i);
    if Leads(ts, {'<', '>', '+'}) {
      var a, c, j := ToStep(s, i, cmd);
      var it := To(a, ts[1].text);
      var more := RestFrom(s, j, c, argc);
      ItemsCons(it, more);
      items := [it] + more;
      Assoc(ItemToks(it), ItemsToks(more), Toks(s, Rest(s, cmd, argc, i).pos));
    } else if ts != [] && ts[0].Wd? {
      var c, j := ArgStep(s, i, cmd, argc);
      var it := Arg(ts[0].text);
      var more := RestFrom(s, j, c, argc + 1);
      ItemsCons(it, more);
      items := [it] + more;
      Assoc(ItemToks(it), ItemsToks(more), Toks(s, Rest(s, cmd, argc, i).pos));
    } else if AfterCommand(ts) {
      items := [];
      RestStop(s, cmd, argc, i);
      NoItems(Denote(s, cmd));
      NothingMore(ts);
    } else {
      RestBad(s, cmd, argc, i);
    }
  }

  lemma NoItems(t: Tree)
    ensures ItemsToks([]) == [] && CountArgs([]) == 0 && AddItems(t, []) == t
  {
  }

  lemma {:induction false} RedirsFrom(s: string, i: nat, cmd: Cmd) returns (items: seq<Item>)
    requires i <= |s| && RedirsAt(s, cmd, i).Ok?
    ensures AllWords(items) && forall k | 0 <= k < |items| :: items[k].To?
    ensures var r := RedirsAt(s, cmd, i);
            Toks(s, i) == ItemsToks(items) + Toks(s, r.pos) && Denote(s, r.value) == AddItems(Denote(s, cmd), items)
    decreases |s| - i
  {
    hide RedirsAt, Denote, AddItem, Toks, AfterSpace, ItemsToks, AddItems, IsWord, CountArgs;
    var ts := Toks(s, i);
    if Leads(ts, {'<', '>', '+'}) {
      var a, c, j := ToStep(s, i, cmd);
      var it := To(a, ts[1].text);
      var more := RedirsFrom(s, j, c);
      ItemsCons(it, more);
      items := [it] + more;
      Assoc(ItemToks(it), ItemsToks(more), Toks(s, RedirsAt(s, cmd, i).pos));
    } else {
      items := [];
      RedirsStop(s, cmd, i);
      ToksSkipSpace(s, i);
      NoItems(Denote(s, cmd));
      NothingMore(ts);
    }
  }

  /** A block that was read: the parts of parseblock's work. */
  lemma BlockFrom(s: string, i: nat) returns (j: nat, p: nat, q: nat)
    requires i <= |s| && Leads(Toks(s, i), {'('}) && ExecAt(s, i).Ok?
    ensures i < j <= p < q <= |s| && LineAt(s, j).Ok? && LineAt(s, j).pos == p
    ensures Toks(s, i) == [Sym('(')] + Toks(s, j) && Toks(s, p) == [Sym(')')] + Toks(s, q)
    ensures ExecAt(s, i) == RedirsAt(s, LineAt(s, j).value, q)
  {
    hide AfterSpace, TokenAt, RedirsAt, ArgsAt, PipeAt, LineAt, Toks;
    AheadIs(s, i, {'('});
    TokFirst(s, i);
    j := TokenAt(s, i).next;
    p := LineAt(s, j).pos;
    AheadIs(s, p, {')'});
    TokFirst(s, p);
    q := TokenAt(s, p).next;
  }

  lemma {:induction false} CommandFrom(s: string, i: nat) returns (c: Command)
    requires i <= |s| && ExecAt(s, i).Ok?
    ensures var r := ExecAt(s, i);
            GoodCommand(c) && Toks(s, i) == CommandToks(c) + Toks(s, r.pos) && Denote(s, r.value) == CommandTree(c)
    decreases |s| - i, 0
  {
    hide LineAt, RedirsAt, ArgsAt, TokenAt, Toks, ItemsToks, LineToks, AddItems, LineTree, AfterSpace, BlockAt, ExecAt;
    var r := ExecAt(s, i);
    AheadIs(s, i, {'('});
    if Leads(Toks(s, i), {'('}) {
      var j, p, q := BlockFrom(s, i);
      var l := LineFrom(s, j);
      var redirs := RedirsFrom(s, q, LineAt(s, j).value);
      c := Block(l, redirs);
      BlockShape(l, redirs, Toks(s, r.pos));
    } else {
      assert r == Rest(s, ExecCmd([]), 0, i) by { SimpleAt(s, i); }
      var items := RestFrom(s, i, ExecCmd([]), 0);
      c := Simple(items);
      assert Denote(s, ExecCmd([])) == ExecTree([]);
    }
  }

  lemma SimpleAt(s: string, i: nat)
    requires i <= |s| && !Ahead(s, i, {'('})
    ensures ExecAt(s, i) == Rest(s, ExecCmd([]), 0, i)
  {
    hide RedirsAt, ArgsAt, BlockAt;
  }

  lemma {:induction false} PipelineFrom(s: string, i: nat) returns (p: Pipeline)
    requires i <= |s| && PipeAt(s, i).Ok?
    ensures var r := PipeAt(s, i);
            GoodPipeline(p) && Toks(s, i) == PipelineToks(p) + Toks(s, r.pos) && Denote(s, r.value) == PipelineTree(p)
    decreases |s| - i, 1
  {
    hide ExecAt, TokenAt, Toks, CommandToks, AfterSpace, PipeAt;
    ExecFirst(s, i);
    var e, r := ExecAt(s, i), PipeAt(s, i);
    var c := CommandFrom(s, i);
    if Leads(Toks(s, e.pos), {'|'}) {
      PipeStep(s, i, e.value, e.pos);
      TokFirst(s, e.pos);
      var j := TokenAt(s, e.pos).next;
      var more := PipelineFrom(s, j);
      p := Piped(c, more);
      Assoc(CommandToks(c), [Sym('|')] + PipelineToks(more), Toks(s, r.pos));
      Assoc([Sym('|')], PipelineToks(more), Toks(s, r.pos));
    } else {
      PipeStop(s, i, e.value, e.pos);
      p := One(c);
    }
  }

  lemma ExecFirst(s: string, i: nat)
    requires i <= |s| && PipeAt(s, i).Ok?
    ensures ExecAt(s, i).Ok?
  {
    hide ExecAt, TokenAt, AfterSpace;
  }

  lemma {:induction false} BacksFrom(s: string, i: nat, cmd: Cmd) returns (n: nat)
    requires i <= |s|
    ensures var r := BacksAt(s, cmd, i);
            Toks(s, i) == AmpToks(n) + Toks(s, r.pos) && Denote(s, r.value) == Backs(Denote(s, cmd), n)
    decreases |s| - i
  {
    hide BacksAt, TokenAt, AfterSpace, Toks;
    if Leads(Toks(s, i), {'&'}) {
      BacksStep(s, cmd, i);
      TokFirst(s, i);
      var j := TokenAt(s, i).next;
      var m := BacksFrom(s, j, BackCmd(cmd));
      n := m + 1;
      Assoc([Sym('&')], AmpToks(m), Toks(s, BacksAt(s, cmd, i).pos));
    } else {
      n := 0;
      BacksStop(s, cmd, i);
      NothingMore(Toks(s, i));
    }
  }

  lemma PipeFirst(s: string, i: nat)
    requires i <= |s| && LineAt(s, i).Ok?
    ensures PipeAt(s, i).Ok?
  {
    hide PipeAt, TokenAt, AfterSpace, BacksAt;
  }

  lemma {:induction false} LineFrom(s: string, i: nat) returns (l: Line)
    requires i <= |s| && LineAt(s, i).Ok?
    ensures var r := LineAt(s, i);
            GoodLine(l) && Toks(s, i) == LineToks(l) + Toks(s, r.pos) && Denote(s, r.value) == LineTree(l)
    decreases |s| - i, 2
  {
    hide LineAt, PipeAt, BacksAt, TokenAt, Toks, AfterSpace, PipelineToks, AmpToks;
    PipeFirst(s, i);
    var e, r := PipeAt(s, i), LineAt(s, i);
    var b := BacksAt(s, e.value, e.pos);
    var p := PipelineFrom(s, i);
    var n := BacksFrom(s, e.pos, e.value);
    if Leads(Toks(s, b.pos), {';'}) {
      LineStep(s, i, e.value, e.pos, b.value, b.pos);
      TokFirst(s, b.pos);
      var j := TokenAt(s, b.pos).next;
      var more := LineFrom(s, j);
      l := Then(p, n, more);
      LineShape(l, Toks(s, r.pos));
      Assoc([Sym(';')], LineToks(more), Toks(s, r.pos));
    } else {
      LineStop(s, i, e.value, e.pos, b.value, b.pos);
      l := Last(p, n);
      LineShape(l, Toks(s, r.pos));
      NothingMore(Toks(s, r.pos));
    }
  }

  // --- the parser is the grammar ----------------------------------------------------------

  ghost predicate IsLineOf(l: Line, s: string) { GoodLine(l) && LineToks(l) == Toks(s, 0) }

  /** A text whose tokens are those of a well-formed line is accepted, and means what the line means. */
  lemma LineAccepted(s: string, l: Line)
    requires IsLineOf(l, s)
    ensures Parse(s).Ok? && Denote(s, Parse(s).value) == LineTree(l)
  {
    hide LineAt, LineToks, LineTree, GoodLine, Denote, TokenAt;
    NothingMore(LineToks(l));
    var cmd, pos := LineRead(s, 0, l, []);
    TokFirst(s, pos);
    NoTokens(s, pos);
  }

  lemma NoTokens(s: string, i: nat)
    requires i <= |s|
    ensures TokenAt(s, i).tok.End? <==> AfterSpace(s, i) == |s|
  {
  }

  /** The parser accepts a text exactly if its tokens are those of some well-formed line. */
  lemma AcceptsIff(s: string)
    ensures Parse(s).Ok? <==> exists l :: IsLineOf(l, s)
    ensures Parse(s).Ok? ==> exists l :: IsLineOf(l, s) && Denote(s, Parse(s).value) == LineTree(l)
  {
    hide LineAt, LineToks, LineTree, GoodLine, Denote, TokenAt, Toks;
    if Parse(s).Ok? {
      var l := LineFrom(s, 0);
      var p := LineAt(s, 0).pos;
      NoTokens(s, p);
      TokFirst(s, p);
      NothingMore(LineToks(l));
      assert IsLineOf(l, s);
    }
    if l :| IsLineOf(l, s) {
      LineAccepted(s, l);
    }
  }

  /** No text has two meanings. */
  lemma OneMeaning(s: string, l: Line, m: Line)
    requires IsLineOf(l, s) && IsLineOf(m, s)
    ensures LineTree(l) == LineTree(m)
  {
    LineAccepted(s, l);
    LineAccepted(s, m);
  }

  // --- one way to write a line ------------------------------------------------------------

  predicate Has(s: string, i: nat, w: string) { i + |w| <= |s| && s[i..i + |w|] == w }

  lemma HasParts(s: string, i: nat, u: string, v: string)
    ensures Has(s, i, u + v) ==> Has(s, i, u) && Has(s, i + |u|, v) && i + |u| + |v| == i + |u + v| <= |s|
  {
    if Has(s, i, u + v) {
      var j := i + |u|;
      assert s[i..j] == s[i..i + |u + v|][..|u|] == u;
      assert s[j..j + |v|] == s[i..i + |u + v|][|u|..] == v;
    }
  }

  lemma HasChar(s: string, i: nat, c: char)
    ensures Has(s, i, [c]) ==> i < |s| && s[i] == c
  {
    if Has(s, i, [c]) {
      assert s[i..i + 1][0] == s[i];
    }
  }

  lemma {:induction false} WordEnds(s: string, i: nat, w: string)
    requires forall k | 0 <= k < |w| :: IsWordChar(w[k])
    requires Has(s, i, w) && (i + |w| < |s| ==> !IsWordChar(s[i + |w|]))
    ensures AfterWord(s, i) == i + |w|
    decreases |w|
  {
    if w != "" {
      assert w == [w[0]] + w[1..];
      HasParts(s, i, [w[0]], w[1..]);
      HasChar(s, i, w[0]);
      WordEnds(s, i + 1, w[1..]);
    }
  }

  lemma WordToken(s: string, i: nat, w: string)
    requires IsWord(w) && Has(s, i, w) && i + |w| < |s| && s[i + |w|] == ' '
    ensures i < |s| && IsWordChar(s[i]) && Text(s, Span(i, i + |w|)) == w
    ensures TokenAt(s, i) == Lexed(Word, Span(i, i + |w|), AfterSpace(s, i + |w| + 1))
  {
    assert s[i] == s[i..i + |w|][0] == w[0];
    WordEnds(s, i, w);
    assert AfterSpace(s, i + |w|) == AfterSpace(s, i + |w| + 1);
  }

  /** A word with a space after it is one token. */
  lemma WordToks(s: string, i: nat, w: string)
    requires IsWord(w) && Has(s, i, w + " ")
    ensures Has(s, i, w) && i + |w| < |s| && IsWordChar(s[i]) && Toks(s, i) == [Wd(w)] + Toks(s, i + |w| + 1)
  {
    hide Toks, TokenAt, AfterSpace, IsWord, Has;
    HasParts(s, i, w, " ");
    HasChar(s, i + |w|, ' ');
    WordToken(s, i, w);
    TokFirst(s, i);
    ToksSkipSpace(s, i + |w| + 1);
  }

  lemma SymbolToks(s: string, i: nat, c: char)
    requires IsSymbol(c) && c != '>' && Has(s, i, [c])
    ensures i < |s| && Toks(s, i) == [Sym(c)] + Toks(s, i + 1)
  {
    hide Toks;
    HasChar(s, i, c);
    assert AfterSpace(s, i) == i;
    TokFirst(s, i);
    ToksSkipSpace(s, i + 1);
  }

  lemma ArrowToks(s: string, i: nat, a: Arrow)
    requires var j := i + |ArrowText(a)|; Has(s, i, ArrowText(a)) && j < |s| && IsWordChar(s[j])
    ensures Toks(s, i) == [Sym(ArrowSym(a))] + Toks(s, i + |ArrowText(a)|)
  {
    hide Toks;
    var n := |ArrowText(a)|;
    assert s[i] == s[i..i + n][0] == ArrowText(a)[0];
    if a.Append? {
      assert s[i + 1] == s[i..i + n][1] == ArrowText(a)[1];
    }
    assert AfterSpace(s, i) == i && AfterSpace(s, i + n) == i + n;
    TokFirst(s, i);
  }

  lemma ItemTextToks(s: string, i: nat, it: Item)
    requires IsWord(it.word) && Has(s, i, ItemText(it))
    ensures i + |ItemText(it)| <= |s| && Toks(s, i) == ItemToks(it) + Toks(s, i + |ItemText(it)|)
  {
    hide Toks, Has, IsWord;
    match it
    case Arg(w) => WordToks(s, i, w);
    case To(a, w) =>
      var k := i + |ArrowText(a)|;
      HasParts(s, i, ArrowText(a), w + " ");
      WordToks(s, k, w);
      ArrowToks(s, i, a);
      Assoc([Sym(ArrowSym(a))], [Wd(w)], Toks(s, k + |w| + 1));
  }

  lemma {:induction false} ItemsTextToks(s: string, i: nat, items: seq<Item>)
    requires AllWords(items) && Has(s, i, ItemsText(items))
    ensures i + |ItemsText(items)| <= |s| && Toks(s, i) == ItemsToks(items) + Toks(s, i + |ItemsText(items)|)
    decreases |items|
  {
    hide Toks, IsWord, ItemText, ItemToks;
    if items == [] {
      NothingMore(Toks(s, i));
    } else {
      var it, more := items[0], items[1..];
      HasParts(s, i, ItemText(it), ItemsText(more));
      ItemTextToks(s, i, it);
      ItemsTextToks(s, i + |ItemText(it)|, more);
      Assoc(ItemToks(it), ItemsToks(more), Toks(s, i + |ItemsText(items)|));
    }
  }

  lemma {:induction false} CommandTextToks(s: string, i: nat, c: Command)
    requires GoodCommand(c) && Has(s, i, CommandText(c))
    ensures i + |CommandText(c)| <= |s| && Toks(s, i) == CommandToks(c) + Toks(s, i + |CommandText(c)|)
    decreases c
  {
    hide Toks, Has, LineText, ItemsText, LineToks, ItemsToks;
    match c
    case Simple(items) => ItemsTextToks(s, i, items);
    case Block(l, redirs) =>
      var p := i + 1 + |LineText(l)|;
      HasParts(s, i, "(", LineText(l) + (")" + ItemsText(redirs)));
      HasParts(s, i + 1, LineText(l), ")" + ItemsText(redirs));
      HasParts(s, p, ")", ItemsText(redirs));
      SymbolToks(s, i, '(');
      LineTextToks(s, i + 1, l);
      SymbolToks(s, p, ')');
      ItemsTextToks(s, p + 1, redirs);
      BlockShape(l, redirs, Toks(s, i + |CommandText(c)|));
  }

  lemma {:induction false} PipelineTextToks(s: string, i: nat, p: Pipeline)
    requires GoodPipeline(p) && Has(s, i, PipelineText(p))
    ensures i + |PipelineText(p)| <= |s| && Toks(s, i) == PipelineToks(p) + Toks(s, i + |PipelineText(p)|)
    decreases p
  {
    hide Toks, Has, CommandText, CommandToks;
    match p
    case One(c) => CommandTextToks(s, i, c);
    case Piped(c, more) =>
      var k := i + |CommandText(c)|;
      HasParts(s, i, CommandText(c), "|" + PipelineText(more));
      HasParts(s, k, "|", PipelineText(more));
      CommandTextToks(s, i, c);
      SymbolToks(s, k, '|');
      PipelineTextToks(s, k + 1, more);
      var rest := Toks(s, i + |PipelineText(p)|);
      Assoc([Sym('|')], PipelineToks(more), rest);
      Assoc(CommandToks(c), [Sym('|')] + PipelineToks(more), rest);
  }

  lemma {:induction false} AmpsTextToks(s: string, i: nat, n: nat)
    requires Has(s, i, Amps(n))
    ensures i + |Amps(n)| <= |s| && Toks(s, i) == AmpToks(n) + Toks(s, i + |Amps(n)|)
    decreases n
  {
    hide Toks;
    if n == 0 {
      NothingMore(Toks(s, i));
    } else {
      HasParts(s, i, "&", Amps(n - 1));
      SymbolToks(s, i, '&');
      AmpsTextToks(s, i + 1, n - 1);
      Assoc([Sym('&')], AmpToks(n - 1), Toks(s, i + |Amps(n)|));
    }
  }

  /** The text that follows the pipeline of a line. */
  function LaterText(l: Line): string {
    match l
    case Last(_, _) => ""
    case Then(_, _, more) => ";" + LineText(more)
  }

  lemma LineTextShape(l: Line)
    ensures LineText(l) == PipelineText(l.first) + (Amps(l.amps) + LaterText(l))
  {
    hide PipelineText, Amps;
    assert Amps(l.amps) + "" == Amps(l.amps);
  }

  lemma {:induction false} LineTextToks(s: string, i: nat, l: Line)
    requires GoodLine(l) && Has(s, i, LineText(l))
    ensures i + |LineText(l)| <= |s| && Toks(s, i) == LineToks(l) + Toks(s, i + |LineText(l)|)
    decreases l, 1
  {
    hide Toks, Has, PipelineText, PipelineToks, Amps, AmpToks, LineText, LineToks, Later, LaterText;
    var p := i + |PipelineText(l.first)|;
    var q := p + |Amps(l.amps)|;
    LineTextShape(l);
    HasParts(s, i, PipelineText(l.first), Amps(l.amps) + LaterText(l));
    HasParts(s, p, Amps(l.amps), LaterText(l));
    PipelineTextToks(s, i, l.first);
    AmpsTextToks(s, p, l.amps);
    LaterTextToks(s, q, l);
    LineShape(l, Toks(s, i + |LineText(l)|));
  }

  lemma {:induction false} LaterTextToks(s: string, i: nat, l: Line)
    requires GoodLine(l) && Has(s, i, LaterText(l))
    ensures i + |LaterText(l)| <= |s| && Toks(s, i) == Later(l) + Toks(s, i + |LaterText(l)|)
    decreases l, 0
  {
    hide Toks, LineText, LineToks;
    match l
    case Last(_, _) => NothingMore(Toks(s, i));
    case Then(_, _, more) =>
      HasParts(s, i, ";", LineText(more));
      SymbolToks(s, i, ';');
      LineTextToks(s, i + 1, more);
      Assoc([Sym(';')], LineToks(more), Toks(s, i + |LaterText(l)|));
  }

  /** The parser accepts every well-formed line in its plainest spelling, and its command means what the line means. */
  lemma ParsesGrammar(l: Line)
    requires GoodLine(l)
    ensures Parse(LineText(l)).Ok? && Denote(LineText(l), Parse(LineText(l)).value) == LineTree(l)
  {
    hide LineAt, LineText, LineTree, GoodLine, Denote, LineToks, Parse, TokenAt;
    var s := LineText(l);
    assert s[0..0 + |s|] == s;
    LineTextToks(s, 0, l);
    NothingMore(LineToks(l));
    NoTokens(s, |s|);
    TokFirst(s, |s|);
    LineAccepted(s, l);
  }

  // --- printing a tree --------------------------------------------------------------------

  /** The trees the shell can express: fewer than MAXARGS words, and its two redirections. */
  predicate Expressible(t: Tree) {
    match t
    case ExecTree(ws) => |ws| < MAXARGS && forall k | 0 <= k < |ws| :: IsWord(ws[k])
    case RedirTree(c, f, m, d) =>
      Expressible(c) && IsWord(f) && ((m == O_RDONLY && d == 0) || (m == O_WRONLY + O_CREATE && d == 1))
    case PipeTree(l, r) => Expressible(l) && Expressible(r)
    case ListTree(l, r) => Expressible(l) && Expressible(r)
    case BackTree(c) => Expressible(c)
  }

  function Args(ws: seq<string>): (items: seq<Item>) {
    if ws == [] then [] else [Arg(ws[0])] + Args(ws[1..])
  }

  /** A line for a tree, with parentheses around every operand. */
  function LineOf(t: Tree): Line {
    match t
    case ExecTree(ws) => Last(One(Simple(Args(ws))), 0)
    case RedirTree(c, f, _, d) => Last(One(Block(LineOf(c), [To(if d == 0 then In else Out, f)])), 0)
    case PipeTree(l, r) => Last(Piped(Block(LineOf(l), []), One(Block(LineOf(r), []))), 0)
    case ListTree(l, r) => Then(One(Block(LineOf(l), [])), 0, Last(One(Block(LineOf(r), [])), 0))
    case BackTree(c) => Last(One(Block(LineOf(c), [])), 1)
  }

  lemma {:induction false} ArgsMean(ws: seq<string>, before: seq<string>)
    requires forall k | 0 <= k < |ws| :: IsWord(ws[k])
    ensures AllWords(Args(ws)) && CountArgs(Args(ws)) == |ws|
    ensures AddItems(ExecTree(before), Args(ws)) == ExecTree(before + ws)
    decreases |ws|
  {
    if ws == [] {
      assert before + ws == before;
    } else {
      ArgsMean(ws[1..], before + [ws[0]]);
      var items := Args(ws);
      assert items[1..] == Args(ws[1..]);
      assert before + [ws[0]] + ws[1..] == before + ws;
    }
  }

  /** Redirections and parentheses around a line. */
  lemma BlockMeans(l: Line, redirs: seq<Item>)
    requires GoodLine(l) && AllWords(redirs) && forall k | 0 <= k < |redirs| :: redirs[k].To?
    ensures var c := Block(l, redirs); GoodCommand(c) && CommandTree(c) == AddItems(LineTree(l), redirs)
    ensures var p := One(Block(l, redirs)); GoodPipeline(p) && PipelineTree(p) == AddItems(LineTree(l), redirs)
  {
    assert GoodCommand(Block(l, redirs));
  }

  lemma LastMeans(p: Pipeline, n: nat)
    requires GoodPipeline(p)
    ensures GoodLine(Last(p, n)) && LineTree(Last(p, n)) == Backs(PipelineTree(p), n)
  {
  }

  lemma {:induction false} LineOfMeans(t: Tree)
    requires Expressible(t)
    ensures GoodLine(LineOf(t)) && LineTree(LineOf(t)) == t
  {
    hide AddItems, AddItem, AllWords, IsWord, CountArgs;
    match t
    case ExecTree(ws) => ExecOfMeans(ws);
    case RedirTree(c, f, _, d) =>
      LineOfMeans(c);
      RedirOfMeans(t);
    case PipeTree(l, r) =>
      LineOfMeans(l);
      LineOfMeans(r);
      ParenMeans(LineOf(l));
      ParenMeans(LineOf(r));
      LastMeans(Piped(Block(LineOf(l), []), One(Block(LineOf(r), []))), 0);
    case ListTree(l, r) =>
      LineOfMeans(l);
      LineOfMeans(r);
      ParenMeans(LineOf(l));
      ParenMeans(LineOf(r));
      LastMeans(One(Block(LineOf(r), [])), 0);
    case BackTree(c) =>
      LineOfMeans(c);
      ParenMeans(LineOf(c));
      LastMeans(One(Block(LineOf(c), [])), 1);
      assert Backs(c, 1) == Backs(BackTree(c), 0);
  }

  lemma ParenMeans(l: Line)
    requires GoodLine(l)
    ensures var c := Block(l, []); GoodCommand(c) && CommandTree(c) == LineTree(l)
    ensures var p := One(Block(l, [])); GoodPipeline(p) && PipelineTree(p) == LineTree(l)
  {
    BlockMeans(l, []);
  }

  lemma ExecOfMeans(ws: seq<string>)
    requires Expressible(ExecTree(ws))
    ensures GoodLine(LineOf(ExecTree(ws))) && LineTree(LineOf(ExecTree(ws))) == ExecTree(ws)
  {
    ArgsMean(ws, []);
    assert [] + ws == ws;
    var c := Simple(Args(ws));
    assert GoodCommand(c) && CommandTree(c) == ExecTree(ws);
    LastMeans(One(c), 0);
  }

  lemma RedirOfMeans(t: Tree)
    requires t.RedirTree? && Expressible(t) && GoodLine(LineOf(t.cmd)) && LineTree(LineOf(t.cmd)) == t.cmd
    ensures GoodLine(LineOf(t)) && LineTree(LineOf(t)) == t
  {
    var items := [To(if t.fd == 0 then In else Out, t.file)];
    BlockMeans(LineOf(t.cmd), items);
    LastMeans(One(Block(LineOf(t.cmd), items)), 0);
    assert AddItems(t.cmd, items) == AddItems(AddItem(t.cmd, items[0]), items[1..]);
  }

  /** Parsing inverts printing, for every tree the shell can express. */
  lemma RoundTrip(t: Tree)
    requires Expressible(t)
    ensures var s := LineText(LineOf(t)); Parse(s).Ok? && Denote(s, Parse(s).value) == t
  {
    LineOfMeans(t);
    ParsesGrammar(LineOf(t));
  }
}
