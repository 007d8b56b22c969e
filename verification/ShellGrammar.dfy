/**
  The shell's grammar, written down apart from the parser, and what each form means.

    line     = pipeline '&'* [';' line]
    pipeline = command ['|' pipeline]
    command  = words and redirections in any order  |  '(' line ')' redirections

  A `Tree` is a command with its words spelled out.  `ShellRoundTrip` proves that the parser
  accepts exactly the texts whose tokens, whatever the blanks between them, are those of a line,
  and reads them as the tree that the line means.
*/
module ShellGrammar {
  import opened Shell

  datatype Tree =
    | ExecTree(words: seq<string>)
    | RedirTree(cmd: Tree, file: string, mode: nat, fd: nat)
    | PipeTree(left: Tree, right: Tree)
    | ListTree(left: Tree, right: Tree)
    | BackTree(cmd: Tree)

  datatype Arrow = In | Out | Append

  datatype Item = Arg(word: string) | To(arrow: Arrow, word: string)

  datatype Command = Simple(items: seq<Item>) | Block(line: Line, redirs: seq<Item>)

  datatype Pipeline = One(first: Command) | Piped(first: Command, rest: Pipeline)

  datatype Line = Last(first: Pipeline, amps: nat) | Then(first: Pipeline, amps: nat, rest: Line)

  // --- well-formed lines ------------------------------------------------------------------

  predicate IsWord(w: string) { |w| > 0 && forall k | 0 <= k < |w| :: IsWordChar(w[k]) }

  predicate AllWords(items: seq<Item>) { forall k | 0 <= k < |items| :: IsWord(items[k].word) }

  function CountArgs(items: seq<Item>): nat {
    if items == [] then 0 else (if items[0].Arg? then 1 else 0) + CountArgs(items[1..])
  }

  /** Words are words, a command has fewer than MAXARGS of them, a block only redirections. */
  predicate GoodCommand(c: Command) {
    match c
    case Simple(items) => AllWords(items) && CountArgs(items) < MAXARGS
    case Block(l, redirs) => GoodLine(l) && AllWords(redirs) && forall k | 0 <= k < |redirs| :: redirs[k].To?
  }

  predicate GoodPipeline(p: Pipeline) {
    match p
    case One(c) => GoodCommand(c)
    case Piped(c, rest) => GoodCommand(c) && GoodPipeline(rest)
  }

  predicate GoodLine(l: Line) {
    match l
    case Last(p, _) => GoodPipeline(p)
    case Then(p, _, rest) => GoodPipeline(p) && GoodLine(rest)
  }

  // --- their tokens -----------------------------------------------------------------------

  /** A token of the text; '+' stands for ">>". */
  datatype Tok = Sym(c: char) | Wd(text: string)

  function ArrowSym(a: Arrow): char {
    match a
    case In => '<'
    case Out => '>'
    case Append => '+'
  }

  function ItemToks(it: Item): seq<Tok> {
    match it
    case Arg(w) => [Wd(w)]
    case To(a, w) => [Sym(ArrowSym(a)), Wd(w)]
  }

  function ItemsToks(items: seq<Item>): seq<Tok> {
    if items == [] then [] else ItemToks(items[0]) + ItemsToks(items[1..])
  }

  function CommandToks(c: Command): seq<Tok> {
    match c
    case Simple(items) => ItemsToks(items)
    case Block(l, redirs) => [Sym('(')] + (LineToks(l) + ([Sym(')')] + ItemsToks(redirs)))
  }

  function PipelineToks(p: Pipeline): seq<Tok> {
    match p
    case One(c) => CommandToks(c)
    case Piped(c, rest) => CommandToks(c) + ([Sym('|')] + PipelineToks(rest))
  }

  function AmpToks(n: nat): seq<Tok> { if n == 0 then [] else [Sym('&')] + AmpToks(n - 1) }

  function LineToks(l: Line): seq<Tok> {
    match l
    case Last(p, n) => PipelineToks(p) + AmpToks(n)
    case Then(p, n, rest) => PipelineToks(p) + (AmpToks(n) + ([Sym(';')] + LineToks(rest)))
  }

  function Lexeme(s: string, t: Lexed): Tok
    requires !t.tok.End?
  {
    if t.tok.Word? then Wd(Text(s, t.span)) else Sym(t.tok.c)
  }

  /** The tokens of the text from position i on. */
  function Toks(s: string, i: nat): seq<Tok>
    requires i <= |s|
    decreases |s| - i
  {
    var t := TokenAt(s, i);
    if t.tok.End? then [] else [Lexeme(s, t)] + Toks(s, t.next)
  }

  // --- their text -------------------------------------------------------------------------

  function ArrowText(a: Arrow): string {
    match a
    case In => "<"
    case Out => ">"
    case Append => ">>"
  }

  function ItemText(it: Item): string {
    match it
    case Arg(w) => w + " "
    case To(a, w) => ArrowText(a) + (w + " ")
  }

  function ItemsText(items: seq<Item>): string {
    if items == [] then "" else ItemText(items[0]) + ItemsText(items[1..])
  }

  function CommandText(c: Command): string {
    match c
    case Simple(items) => ItemsText(items)
    case Block(l, redirs) => "(" + (LineText(l) + (")" + ItemsText(redirs)))
  }

  function PipelineText(p: Pipeline): string {
    match p
    case One(c) => CommandText(c)
    case Piped(c, rest) => CommandText(c) + ("|" + PipelineText(rest))
  }

  function Amps(n: nat): string { if n == 0 then "" else "&" + Amps(n - 1) }

  function LineText(l: Line): string {
    match l
    case Last(p, n) => PipelineText(p) + Amps(n)
    case Then(p, n, rest) => PipelineText(p) + (Amps(n) + (";" + LineText(rest)))
  }

  // --- their meaning ----------------------------------------------------------------------

  /** Adds a word to the exec node below the redirections. */
  function AddWord(t: Tree, w: string): Tree {
    match t
    case ExecTree(ws) => ExecTree(ws + [w])
    case RedirTree(c, f, m, d) => RedirTree(AddWord(c, w), f, m, d)
    case _ => t
  }

  function AddItem(t: Tree, it: Item): Tree {
    match it
    case Arg(w) => AddWord(t, w)
    case To(In, f) => RedirTree(t, f, O_RDONLY, 0)
    case To(_, f) => RedirTree(t, f, O_WRONLY + O_CREATE, 1)
  }

  function AddItems(t: Tree, items: seq<Item>): Tree
    decreases |items|
  {
    if items == [] then t else AddItems(AddItem(t, items[0]), items[1..])
  }

  function CommandTree(c: Command): Tree {
    match c
    case Simple(items) => AddItems(ExecTree([]), items)
    case Block(l, redirs) => AddItems(LineTree(l), redirs)
  }

  function PipelineTree(p: Pipeline): Tree {
    match p
    case One(c) => CommandTree(c)
    case Piped(c, rest) => PipeTree(CommandTree(c), PipelineTree(rest))
  }

  function Backs(t: Tree, n: nat): Tree
    decreases n
  {
    if n == 0 then t else Backs(BackTree(t), n - 1)
  }

  function LineTree(l: Line): Tree {
    match l
    case Last(p, n) => Backs(PipelineTree(p), n)
    case Then(p, n, rest) => ListTree(Backs(PipelineTree(p), n), LineTree(rest))
  }

  /** The tree that a parsed command stands for in the text s. */
  function Text(s: string, w: Span): string {
    if w.q <= w.eq <= |s| then s[w.q..w.eq] else ""
  }

  function Texts(s: string, ws: seq<Span>): (r: seq<string>)
    ensures |r| == |ws| && forall k | 0 <= k < |ws| :: r[k] == Text(s, ws[k])
  {
    seq(|ws|, k requires 0 <= k < |ws| => Text(s, ws[k]))
  }

  function Denote(s: string, cmd: Cmd): Tree {
    match cmd
    case ExecCmd(args) => ExecTree(Texts(s, args))
    case RedirCmd(c, to) => RedirTree(Denote(s, c), Text(s, to.file), to.mode, to.fd)
    case PipeCmd(l, r) => PipeTree(Denote(s, l), Denote(s, r))
    case ListCmd(l, r) => ListTree(Denote(s, l), Denote(s, r))
    case BackCmd(c) => BackTree(Denote(s, c))
  }
}
