/**
  The regular-expression matcher of grep.c, against a denotational reading of patterns.

  A C string is modelled as the sequence of the characters before its NUL, so "the
  character at p is NUL" is "the sequence is empty there".
*/
module Grep {

  /** One pattern element: a character (or '.') that occurs once, or is repeated. */
  datatype Item = Once(c: char) | Star(c: char)

  /** The meaning of a pattern: its elements, and whether it ends in a '$' anchor. */
  datatype Pattern = Pattern(items: seq<Item>, atEnd: bool)

  ghost predicate CharFits(c: char, t: char) { c == '.' || c == t }

  /** The words one element stands for. */
  ghost predicate Piece(item: Item, w: seq<char>) {
    match item
    case Once(c) => |w| == 1 && CharFits(c, w[0])
    case Star(c) => forall j | 0 <= j < |w| :: CharFits(c, w[j])
  }

  ghost function Concat(parts: seq<seq<char>>): seq<char> {
    if parts == [] then [] else parts[0] + Concat(parts[1..])
  }

  /** `parts` splits `w` into one word for every element. */
  ghost predicate Splits(items: seq<Item>, w: seq<char>, parts: seq<seq<char>>) {
    && |parts| == |items|
    && Concat(parts) == w
    && forall i | 0 <= i < |items| :: Piece(items[i], parts[i])
  }

  /** The language of a list of elements: the words that split along it. */
  ghost predicate InLanguage(items: seq<Item>, w: seq<char>) {
    exists parts :: Splits(items, w, parts)
  }

  /** The pattern a string denotes (without the leading '^'). */
  ghost function Parse(re: seq<char>): Pattern {
    if re == [] then Pattern([], false)
    else if |re| >= 2 && re[1] == '*' then
      var p := Parse(re[2..]);
      Pattern([Star(re[0])] + p.items, p.atEnd)
    else if re == ['$'] then Pattern([], true)
    else
      var p := Parse(re[1..]);
      Pattern([Once(re[0])] + p.items, p.atEnd)
  }

  /** The first k characters of the text are a word of the pattern. */
  ghost predicate PrefixFits(p: Pattern, text: seq<char>, k: nat) {
    k <= |text| && InLanguage(p.items, text[..k]) && (p.atEnd ==> k == |text|)
  }

  /** Some prefix of the text is a word of the pattern. */
  ghost predicate Accepts(p: Pattern, text: seq<char>) {
    exists k: nat :: PrefixFits(p, text, k)
  }

  /** What the matcher is for: '^' pins the match to the start, otherwise any position will do. */
  ghost predicate Matches(re: seq<char>, text: seq<char>) {
    if re != [] && re[0] == '^' then Accepts(Parse(re[1..]), text)
    else exists i | 0 <= i <= |text| :: Accepts(Parse(re), text[i..])
  }

  lemma LanguageCons(item: Item, rest: seq<Item>, v: seq<char>, w: seq<char>)
    requires Piece(item, v) && InLanguage(rest, w)
    ensures InLanguage([item] + rest, v + w)
  {
    var parts :| Splits(rest, w, parts);
    assert ([v] + parts)[1..] == parts;
    assert Splits([item] + rest, v + w, [v] + parts);
  }

  lemma LanguageUncons(item: Item, rest: seq<Item>, w: seq<char>) returns (m: nat)
    requires InLanguage([item] + rest, w)
    ensures m <= |w| && Piece(item, w[..m]) && InLanguage(rest, w[m..])
  {
    var parts :| Splits([item] + rest, w, parts);
    m := |parts[0]|;
    assert w == parts[0] + Concat(parts[1..]);
    assert w[..m] == parts[0] && w[m..] == Concat(parts[1..]);
    assert forall i | 0 <= i < |rest| :: ([item] + rest)[i + 1] == rest[i];
    assert Piece(([item] + rest)[0], parts[0]);
    assert Splits(rest, w[m..], parts[1..]);
  }

  lemma LanguageNil(w: seq<char>)
    ensures InLanguage([], w) <==> w == []
  {
    assert Splits([], [], []);
  }

  /** A pattern with one more element in front accepts a text iff that element can take a prefix. */
  lemma AcceptsCons(item: Item, p: Pattern, text: seq<char>)
    ensures Accepts(Pattern([item] + p.items, p.atEnd), text)
       <==> exists m: nat :: m <= |text| && Piece(item, text[..m]) && Accepts(p, text[m..])
  {
    var q := Pattern([item] + p.items, p.atEnd);
    hide InLanguage, Piece;
    if k: nat :| PrefixFits(q, text, k) {
      var m := LanguageUncons(item, p.items, text[..k]);
      Slices(text, m, k);
      assert PrefixFits(p, text[m..], k - m);
    }
    if m: nat :| m <= |text| && Piece(item, text[..m]) && Accepts(p, text[m..]) {
      var k: nat :| PrefixFits(p, text[m..], k);
      LanguageCons(item, p.items, text[..m], text[m..][..k]);
      Slices(text, m, m + k);
      assert PrefixFits(q, text, m + k);
    }
  }

  lemma Slices(text: seq<char>, m: nat, k: nat)
    requires m <= k <= |text|
    ensures text[..k][..m] == text[..m] && text[..k][m..] == text[m..][..k - m]
    ensures text[..m] + text[m..][..k - m] == text[..k]
  {
  }

  /** Both matchers terminate on every input: the pattern shrinks, and a star's scan is bounded by the text. */
  method MatchHere(re: seq<char>, text: seq<char>) returns (found: bool)
    ensures found <==> Accepts(Parse(re), text)
    decreases |re|, 0
  {
    if re == [] {
      LanguageNil(text[..0]);
      assert PrefixFits(Parse(re), text, 0);
      return true;
    }
    if |re| >= 2 && re[1] == '*' {
      found := MatchStar(re[0], re[2..], text);
      AcceptsCons(Star(re[0]), Parse(re[2..]), text);
      return;
    }
    if re == ['$'] {
      LanguageNil(text);
      forall k: nat | k <= |text| ensures InLanguage([], text[..k]) <==> k == 0 { LanguageNil(text[..k]); }
      if text == [] { assert PrefixFits(Parse(re), text, 0); }
      return text == [];
    }
    AcceptsCons(Once(re[0]), Parse(re[1..]), text);
    if text != [] && (re[0] == '.' || re[0] == text[0]) {
      found := MatchHere(re[1..], text[1..]);
      assert Piece(Once(re[0]), text[..1]);
      return;
    }
    return false;
  }

  method MatchStar(c: char, re: seq<char>, text: seq<char>) returns (found: bool)
    ensures found <==> exists m: nat :: m <= |text| && Piece(Star(c), text[..m]) && Accepts(Parse(re), text[m..])
    decreases |re|, 1
  {
    var i := 0;
    while true
      invariant 0 <= i <= |text| && Piece(Star(c), text[..i])
      invariant forall m: nat | m < i :: !Accepts(Parse(re), text[m..])
      decreases |text| - i
    {
      found := MatchHere(re, text[i..]);
      if found { return; }
      if i == |text| || (text[i] != c && c != '.') {
        forall m: nat | i < m <= |text| ensures !Piece(Star(c), text[..m]) {
          assert text[..m][i] == text[i];
        }
        return false;
      }
      i := i + 1;
    }
  }

  method Match(re: seq<char>, text: seq<char>) returns (found: bool)
    ensures found <==> Matches(re, text)
  {
    if re != [] && re[0] == '^' {
      found := MatchHere(re[1..], text);
      return;
    }
    var i := 0;
    while true
      invariant 0 <= i <= |text|
      invariant forall m | 0 <= m < i :: !Accepts(Parse(re), text[m..])
      decreases |text| - i
    {
      found := MatchHere(re, text[i..]);
      if found { return; }
      if i == |text| { return false; }
      i := i + 1;
    }
  }
}
