/** The ASDL tokenizer: the text is split into lines, each line is stripped
    and scanned left to right with the rule "skip white space, then take a
    word, a `--` comment or a single character". Words become
    `ConstructorId` or `TypeId` by the case of their first letter, the nine
    operator characters are looked up in a fixed table, and anything else is
    a syntax error carrying the 1-based line number. */
module Lexer {
  import opened Errors

  datatype TokenKind =
    | ConstructorId | TypeId
    | Equals | Comma | Question | Pipe | Asterisk | LParen | RParen | LBrace | RBrace

  datatype Token = Token(kind: TokenKind, value: string, line: nat)

  /** What the tokenizer yields before it stops: the tokens produced before
      the first lexical error, and that error if there is one. The source's
      tokenizer is a generator, so the error only surfaces when the parser
      pulls the token after the last one listed here. */
  datatype Lexed = Lexed(tokens: seq<Token>, failure: Option<SyntaxError>)

  // ---------------------------------------------------------------------
  // Character classes
  // ---------------------------------------------------------------------

  /** The characters at which Python's str.splitlines breaks a line. */
  predicate IsLineBreak(c: char) {
    || c == '\n' || c == '\r' || c == '\U{B}' || c == '\U{C}'
    || c == '\U{1C}' || c == '\U{1D}' || c == '\U{1E}'
    || c == '\U{85}' || c == '\U{2028}' || c == '\U{2029}'
  }

  /** White space as str.strip and the `\s` of a regular expression see it. */
  predicate IsSpace(c: char) {
    || IsLineBreak(c) || c == ' ' || c == '\t' || c == '\U{1F}'
    || c == '\U{A0}' || c == '\U{1680}' || ('\U{2000}' <= c <= '\U{200A}')
    || c == '\U{202F}' || c == '\U{205F}' || c == '\U{3000}'
  }

  predicate IsUpper(c: char) { 'A' <= c <= 'Z' }

  predicate IsLetter(c: char) { IsUpper(c) || 'a' <= c <= 'z' }

  predicate IsDigit(c: char) { '0' <= c <= '9' }

  /** A character of a `\w` run (ASCII only). */
  predicate IsWordChar(c: char) { IsLetter(c) || IsDigit(c) || c == '_' }

  predicate IsWord(v: string) {
    forall i | 0 <= i < |v| :: IsWordChar(v[i])
  }

  predicate IsOperator(k: TokenKind) {
    !k.ConstructorId? && !k.TypeId?
  }

  // ---------------------------------------------------------------------
  // The operator table
  // ---------------------------------------------------------------------

  /** The character-to-kind table of the nine operator characters. Every
      kind it yields is an operator kind whose character is `c`, and no
      operator character is white space, a word character or a dash (so an
      operator can never start a word or a comment). */
  function OperatorKind(c: char): (k: Option<TokenKind>)
    ensures k.Some? ==> IsOperator(k.value)
    ensures k.Some? ==> !IsSpace(c) && !IsWordChar(c) && c != '-'
  {
    match c
    case '=' => Some(Equals)
    case ',' => Some(Comma)
    case '?' => Some(Question)
    case '|' => Some(Pipe)
    case '(' => Some(LParen)
    case ')' => Some(RParen)
    case '*' => Some(Asterisk)
    case '{' => Some(LBrace)
    case '}' => Some(RBrace)
    case _ => None
  }

  /** The character of an operator kind: the table read backwards. */
  function OperatorChar(k: TokenKind): (c: char)
    requires IsOperator(k)
    ensures OperatorKind(c) == Some(k)
    ensures forall d: char :: OperatorKind(d) == Some(k) ==> d == c
  {
    match k
    case Equals => '='
    case Comma => ','
    case Question => '?'
    case Pipe => '|'
    case LParen => '('
    case RParen => ')'
    case Asterisk => '*'
    case LBrace => '{'
    case RBrace => '}'
  }

  /** The kind a token with text `v` must have: a word starting with a letter
      is an identifier classified by the case of that letter, a single
      operator character has its table kind, and nothing else is a token. */
  function LexemeKind(v: string): Option<TokenKind> {
    if |v| > 0 && IsLetter(v[0]) && IsWord(v) then
      Some(if IsUpper(v[0]) then ConstructorId else TypeId)
    else if |v| == 1 then
      OperatorKind(v[0])
    else
      None
  }

  /** The texts that are tokens: a word starting with a letter is an
      identifier, a constructor name exactly when the letter is upper case,
      and an operator token is the one character of its kind. */
  lemma LexemeKinds(v: string)
    ensures var r := LexemeKind(v);
      && (r.Some? && !IsOperator(r.value) <==> |v| > 0 && IsLetter(v[0]) && IsWord(v))
      && (r.Some? && !IsOperator(r.value) ==> (r.value == ConstructorId <==> IsUpper(v[0])))
      && (r.Some? && IsOperator(r.value) <==> |v| == 1 && OperatorKind(v[0]).Some?)
      && (r.Some? && IsOperator(r.value) ==> v == [OperatorChar(r.value)])
  {
    if |v| == 1 && OperatorKind(v[0]).Some? {
      assert v == [v[0]];
    }
  }

  predicate IsLexeme(v: string) {
    LexemeKind(v).Some?
  }

  /** A token whose kind agrees with its text. */
  predicate Spelled(t: Token) {
    LexemeKind(t.value) == Some(t.kind)
  }

  // ---------------------------------------------------------------------
  // Lines
  // ---------------------------------------------------------------------

  predicate NoBreaks(l: string) {
    forall i | 0 <= i < |l| :: !IsLineBreak(l[i])
  }

  /** The index of the first line break in `s`, or |s| if there is none. */
  function FirstBreak(s: string): (i: nat)
    ensures i <= |s|
    ensures NoBreaks(s[..i])
    ensures i < |s| ==> IsLineBreak(s[i])
  {
    if |s| == 0 || IsLineBreak(s[0]) then 0 else 1 + FirstBreak(s[1..])
  }

  /** Python's str.splitlines: a "\r\n" pair is one break, and a break at the
      very end does not start another (empty) line. */
  function SplitLines(s: string): (lines: seq<string>)
    ensures forall i | 0 <= i < |lines| :: NoBreaks(lines[i])
    ensures |s| > 0 <==> |lines| > 0
    decreases |s|
  {
    if |s| == 0 then []
    else
      var i := FirstBreak(s);
      if i == |s| then [s] else [s[..i]] + SplitLines(s[AfterBreak(s, i)..])
  }

  /** The index just after the line break at `i`: a "\r\n" pair is one
      break. */
  function AfterBreak(s: string, i: nat): (next: nat)
    requires i < |s|
    ensures i < next <= |s|
  {
    if s[i] == '\r' && i + 1 < |s| && s[i + 1] == '\n' then i + 2 else i + 1
  }

  /** The ending of each line `SplitLines` returns: the break that ends it,
      or nothing for a last line that runs to the end of the text. */
  function LineEnds(s: string): (ends: seq<string>)
    ensures |ends| == |SplitLines(s)|
    decreases |s|
  {
    if |s| == 0 then []
    else
      var i := FirstBreak(s);
      if i == |s| then [""] else [s[i..AfterBreak(s, i)]] + LineEnds(s[AfterBreak(s, i)..])
  }

  /** A line ending str.splitlines recognises: one break character, or the
      pair "\r\n". */
  predicate IsBreak(b: string) {
    b == "\r\n" || (|b| == 1 && IsLineBreak(b[0]))
  }

  /** The lines, each followed by its ending. */
  function JoinLines(lines: seq<string>, ends: seq<string>): string
    requires |lines| == |ends|
  {
    if |lines| == 0 then "" else lines[0] + ends[0] + JoinLines(lines[1..], ends[1..])
  }

  /** Lines and endings as str.splitlines takes a text apart: no line holds
      a break, every line is ended by a break except that a non-empty last
      line may run to the end of the text, and a "\r" ending is never
      followed by an empty line ended by "\n" (the two would be one "\r\n"
      break). */
  predicate SplitForm(lines: seq<string>, ends: seq<string>)
    requires |lines| == |ends|
    decreases |lines|
  {
    || |lines| == 0
    || (&& NoBreaks(lines[0])
        && (IsBreak(ends[0]) || (|lines| == 1 && ends[0] == "" && |lines[0]| > 0))
        && (ends[0] == "\r" && |lines| > 1 && lines[1] == "" ==> ends[1] != "\n")
        && SplitForm(lines[1..], ends[1..]))
  }

  /** str.lstrip: `s` with its leading white space removed. */
  function StripLeft(s: string): (r: string)
    ensures |r| <= |s| && forall i | 0 <= i < |r| :: r[i] == s[|s| - |r| + i]
    ensures forall i | 0 <= i < |s| - |r| :: IsSpace(s[i])
    ensures |r| > 0 ==> !IsSpace(r[0])
  {
    hide IsSpace;
    if |s| > 0 && IsSpace(s[0]) then StripLeft(s[1..]) else s
  }

  /** str.rstrip: `s` with its trailing white space removed. */
  function StripRight(s: string): (r: string)
    ensures |r| <= |s| && forall i | 0 <= i < |r| :: r[i] == s[i]
    ensures forall i | |r| <= i < |s| :: IsSpace(s[i])
    ensures |r| > 0 ==> !IsSpace(r[|r| - 1])
  {
    hide IsSpace;
    if |s| > 0 && IsSpace(s[|s| - 1]) then StripRight(s[..|s| - 1]) else s
  }

  /** str.strip. */
  function Strip(s: string): string {
    StripRight(StripLeft(s))
  }

  /** str.strip keeps the piece of `s` between its leading and its trailing
      white space, and that piece neither starts nor ends with white
      space. */
  lemma StripTrims(s: string)
    ensures var r := Strip(s); var k := LeadingSpace(s);
      && k + |r| <= |s| && r == s[k..k + |r|]
      && (forall i | 0 <= i < k :: IsSpace(s[i]))
      && (forall i | k + |r| <= i < |s| :: IsSpace(s[i]))
      && (|r| > 0 ==> !IsSpace(r[0]) && !IsSpace(r[|r| - 1]))
  {
    var l := StripLeft(s);
    var r := StripRight(l);
    var k := |s| - |l|;
    StripLeftSuffix(s);
    StripRightPrefix(l);
    StripEnds(s);
    assert Strip(s) == r && LeadingSpace(s) == k;
    hide *;
    SliceOfSuffix(s, l, r, k);
  }

  /** A prefix `r` of the suffix `l` of `s` from `k` is a slice of `s`,
      and what follows `r` in `l` follows it in `s`. */
  lemma SliceOfSuffix(s: string, l: string, r: string, k: nat)
    requires k <= |s| && l == s[k..] && |r| <= |l| && r == l[..|r|]
    requires forall i | |r| <= i < |l| :: IsSpace(l[i])
    ensures k + |r| <= |s| && r == s[k..k + |r|]
    ensures forall i | k + |r| <= i < |s| :: IsSpace(s[i])
  {
    hide IsSpace;
    forall i | k + |r| <= i < |s|
      ensures IsSpace(s[i])
    {
      assert s[i] == l[i - k];
    }
  }

  lemma StripEnds(s: string)
    ensures var r := StripRight(StripLeft(s));
      |r| > 0 ==> !IsSpace(r[0]) && !IsSpace(r[|r| - 1])
  {
    hide IsSpace;
  }

  lemma StripLeftSuffix(s: string)
    ensures var l := StripLeft(s); var k := |s| - |l|;
      && l == s[k..] && forall i | 0 <= i < k :: IsSpace(s[i])
  {
    hide IsSpace;
  }

  lemma StripRightPrefix(l: string)
    ensures var r := StripRight(l);
      && r == l[..|r|] && forall i | |r| <= i < |l| :: IsSpace(l[i])
  {
    hide IsSpace;
  }

  /** The length of the white space `s` starts with. */
  function LeadingSpace(s: string): (k: nat)
    ensures k <= |s|
  {
    |s| - |StripLeft(s)|
  }

  /** A text that neither starts nor ends with white space is left as it
      is. */
  lemma StripNothing(s: string)
    requires |s| > 0 && !IsSpace(s[0]) && !IsSpace(s[|s| - 1])
    ensures Strip(s) == s
  {
    hide IsSpace;
  }

  // ---------------------------------------------------------------------
  // Scanning one line
  // ---------------------------------------------------------------------

  /** The length of the longest run of word characters at the start of `s`. */
  function WordRun(s: string): (k: nat)
    ensures k <= |s|
    ensures IsWord(s[..k])
    ensures k == |s| || !IsWordChar(s[k])
  {
    if |s| > 0 && IsWordChar(s[0]) then 1 + WordRun(s[1..]) else 0
  }

  function Prepend(t: Token, r: Lexed): Lexed {
    Lexed([t] + r.tokens, r.failure)
  }

  /** Scans one line numbered `n`. Every token it yields is spelled
      correctly and carries `n`; a failure carries `n` too. */
  function ScanLine(s: string, n: nat): (r: Lexed)
    ensures forall i | 0 <= i < |r.tokens| :: r.tokens[i].line == n && Spelled(r.tokens[i])
    ensures r.failure.Some? ==> r.failure.value == SyntaxError(Known(n))
    decreases |s|
  {
    if |s| == 0 then
      Lexed([], None)
    else if IsSpace(s[0]) then
      ScanLine(s[1..], n)
    else if IsWordChar(s[0]) then
      var k := WordRun(s);
      if IsLetter(s[0]) then
        var kind := if IsUpper(s[0]) then ConstructorId else TypeId;
        Prepend(Token(kind, s[..k], n), ScanLine(s[k..], n))
      else
        // A run that starts with a digit or an underscore is looked up in the
        // operator table, where it is never found.
        Lexed([], Some(SyntaxError(Known(n))))
    else if |s| >= 2 && s[0] == '-' && s[1] == '-' then
      Lexed([], None)
    else
      match OperatorKind(s[0])
      case Some(kind) => Prepend(Token(kind, [s[0]], n), ScanLine(s[1..], n))
      case None => Lexed([], Some(SyntaxError(Known(n))))
  }

  /** Tokenizes `lines`, the first of them numbered `n`, stopping at the
      first lexical error. Tokens come out in line order, each with the
      number of a line in the range, and a failure is reported on a line no
      earlier than any token before it. */
  function TokenizeLines(lines: seq<string>, n: nat): (r: Lexed)
    ensures forall i | 0 <= i < |r.tokens| :: n <= r.tokens[i].line < n + |lines| && Spelled(r.tokens[i])
    ensures forall i, j | 0 <= i < j < |r.tokens| :: r.tokens[i].line <= r.tokens[j].line
    ensures r.failure.Some? ==>
      && r.failure.value.line.Known?
      && n <= r.failure.value.line.n < n + |lines|
      && forall i | 0 <= i < |r.tokens| :: r.tokens[i].line <= r.failure.value.line.n
  {
    hide *;
    if |lines| == 0 then
      Lexed([], None)
    else
      var first := ScanLine(Strip(lines[0]), n);
      if first.failure.Some? then
        OneLine(first, n, |lines|);
        first
      else
        var rest := TokenizeLines(lines[1..], n + 1);
        LinesConcat(first.tokens, rest, n, |lines|);
        Lexed(first.tokens + rest.tokens, rest.failure)
  }

  /** A line that fails keeps every promise `TokenizeLines` makes. */
  lemma OneLine(first: Lexed, n: nat, count: nat)
    requires count > 0
    requires forall i | 0 <= i < |first.tokens| :: first.tokens[i].line == n && Spelled(first.tokens[i])
    requires first.failure.Some? ==> first.failure.value == SyntaxError(Known(n))
    ensures forall i | 0 <= i < |first.tokens| :: n <= first.tokens[i].line < n + count && Spelled(first.tokens[i])
    ensures forall i, j | 0 <= i < j < |first.tokens| :: first.tokens[i].line <= first.tokens[j].line
    ensures first.failure.Some? ==>
      && first.failure.value.line.Known?
      && n <= first.failure.value.line.n < n + count
      && forall i | 0 <= i < |first.tokens| :: first.tokens[i].line <= first.failure.value.line.n
  {
    hide Spelled;
  }

  /** The tokens of line `n` in front of what the `count - 1` lines after it
      give keep every promise `TokenizeLines` makes for `count` lines. */
  lemma LinesConcat(a: seq<Token>, rest: Lexed, n: nat, count: nat)
    requires count > 0
    requires forall i | 0 <= i < |a| :: a[i].line == n && Spelled(a[i])
    requires forall i | 0 <= i < |rest.tokens| :: n + 1 <= rest.tokens[i].line < n + count && Spelled(rest.tokens[i])
    requires forall i, j | 0 <= i < j < |rest.tokens| :: rest.tokens[i].line <= rest.tokens[j].line
    requires rest.failure.Some? ==>
      && rest.failure.value.line.Known?
      && n + 1 <= rest.failure.value.line.n < n + count
      && forall i | 0 <= i < |rest.tokens| :: rest.tokens[i].line <= rest.failure.value.line.n
    ensures var ts := a + rest.tokens;
      && (forall i | 0 <= i < |ts| :: n <= ts[i].line < n + count && Spelled(ts[i]))
      && (forall i, j | 0 <= i < j < |ts| :: ts[i].line <= ts[j].line)
      && (rest.failure.Some? ==> forall i | 0 <= i < |ts| :: ts[i].line <= rest.failure.value.line.n)
  {
    hide Spelled;
    var ts := a + rest.tokens;
    LineOrderConcat(a, rest.tokens, n);
    forall i | 0 <= i < |ts|
      ensures n <= ts[i].line < n + count && Spelled(ts[i])
      ensures rest.failure.Some? ==> ts[i].line <= rest.failure.value.line.n
    {
      if i >= |a| {
        assert ts[i] == rest.tokens[i - |a|];
      }
    }
  }

  lemma LineOrderConcat(a: seq<Token>, b: seq<Token>, n: nat)
    requires forall i | 0 <= i < |a| :: a[i].line == n
    requires forall i | 0 <= i < |b| :: n < b[i].line
    requires forall i, j | 0 <= i < j < |b| :: b[i].line <= b[j].line
    ensures forall i, j | 0 <= i < j < |a + b| :: (a + b)[i].line <= (a + b)[j].line
  {
    forall i, j | 0 <= i < j < |a + b|
      ensures (a + b)[i].line <= (a + b)[j].line
    {
      if j < |a| {
      } else if i < |a| {
        assert (a + b)[j] == b[j - |a|];
      } else {
        assert (a + b)[j] == b[j - |a|];
        assert (a + b)[i] == b[i - |a|];
      }
    }
  }

  /** The whole tokenizer: lines are numbered from 1. */
  function Tokenize(buf: string): (r: Lexed)
    ensures forall i | 0 <= i < |r.tokens| :: 1 <= r.tokens[i].line <= |SplitLines(buf)| && Spelled(r.tokens[i])
    ensures forall i, j | 0 <= i < j < |r.tokens| :: r.tokens[i].line <= r.tokens[j].line
    ensures r.failure.Some? ==>
      && r.failure.value.line.Known?
      && 1 <= r.failure.value.line.n <= |SplitLines(buf)|
  {
    TokenizeLines(SplitLines(buf), 1)
  }

  // ---------------------------------------------------------------------
  // Rendering token texts back to source text
  // ---------------------------------------------------------------------

  predicate AllLexemes(vs: seq<string>) {
    forall i | 0 <= i < |vs| :: IsLexeme(vs[i])
  }

  /** The texts `vs`, each followed by one space. */
  function Unwords(vs: seq<string>): string {
    if |vs| == 0 then "" else vs[0] + " " + Unwords(vs[1..])
  }

  /** The tokens the texts `vs` stand for on line `n`. */
  function TokensAt(vs: seq<string>, n: nat): (ts: seq<Token>)
    requires AllLexemes(vs)
  {
    if |vs| == 0 then [] else [Token(LexemeKind(vs[0]).value, vs[0], n)] + TokensAt(vs[1..], n)
  }

  /** One line per element of `ls`, each line ending in "\n". */
  function RenderLines(ls: seq<seq<string>>): string {
    if |ls| == 0 then "" else Unwords(ls[0]) + "\n" + RenderLines(ls[1..])
  }

  /** The tokens of `ls`, the first line numbered `n`. */
  function LinesTokens(ls: seq<seq<string>>, n: nat): seq<Token>
    requires forall i | 0 <= i < |ls| :: AllLexemes(ls[i])
  {
    if |ls| == 0 then [] else TokensAt(ls[0], n) + LinesTokens(ls[1..], n + 1)
  }

  /** The texts of all lines, in order. */
  function Concat(ls: seq<seq<string>>): seq<string> {
    if |ls| == 0 then [] else ls[0] + Concat(ls[1..])
  }

  // ---------------------------------------------------------------------
  // Lemmas
  // ---------------------------------------------------------------------

  lemma {:induction false} WordRunOfWord(a: string, b: string)
    requires IsWord(a)
    requires |b| == 0 || !IsWordChar(b[0])
    ensures WordRun(a + b) == |a|
  {
    if |a| > 0 {
      assert (a + b)[1..] == a[1..] + b;
      WordRunOfWord(a[1..], b);
    } else {
      assert a + b == b;
    }
  }

  /** Identifier classification: a word starting with a letter and not
      followed by another word character is one identifier token whose kind
      is decided by the case of its first letter, and scanning resumes right
      after it. */
  lemma ScanWord(w: string, s: string, n: nat)
    requires |w| > 0 && IsLetter(w[0]) && IsWord(w)
    requires |s| == 0 || !IsWordChar(s[0])
    ensures ScanLine(w + s, n)
         == Prepend(Token(if IsUpper(w[0]) then ConstructorId else TypeId, w, n), ScanLine(s, n))
  {
    var x := w + s;
    WordRunOfWord(w, s);
    assert x[..|w|] == w;
    assert x[|w|..] == s;
  }

  /** Each operator character is exactly one token of its table kind, with
      that character as its text, whatever follows it. */
  lemma ScanOperator(c: char, s: string, n: nat)
    requires OperatorKind(c).Some?
    ensures ScanLine([c] + s, n) == Prepend(Token(OperatorKind(c).value, [c], n), ScanLine(s, n))
  {
    assert ([c] + s)[1..] == s;
  }

  /** White space before a lexeme is skipped. */
  lemma ScanLeadingSpace(c: char, s: string, n: nat)
    requires IsSpace(c)
    ensures ScanLine([c] + s, n) == ScanLine(s, n)
  {
    assert ([c] + s)[1..] == s;
  }

  /** Lexemes separated by spaces come back as exactly their tokens, and
      scanning then carries on with whatever follows. */
  lemma {:induction false} ScanAfterLexemes(vs: seq<string>, s: string, n: nat)
    requires AllLexemes(vs)
    ensures ScanLine(Unwords(vs) + s, n)
         == Lexed(TokensAt(vs, n) + ScanLine(s, n).tokens, ScanLine(s, n).failure)
  {
    if |vs| > 0 {
      hide ScanLine;
      var v := vs[0];
      var tail := Unwords(vs[1..]) + s;
      assert Unwords(vs) + s == v + (" " + tail);
      ScanAfterLexemes(vs[1..], s, n);
      var t := Token(LexemeKind(v).value, v, n);
      ScanLexeme(v, tail, n);
      calc {
        ScanLine(Unwords(vs) + s, n);
        Prepend(t, ScanLine(tail, n));
        Lexed([t] + (TokensAt(vs[1..], n) + ScanLine(s, n).tokens), ScanLine(s, n).failure);
        { assert [t] + (TokensAt(vs[1..], n) + ScanLine(s, n).tokens)
              == ([t] + TokensAt(vs[1..], n)) + ScanLine(s, n).tokens; }
        Lexed(TokensAt(vs, n) + ScanLine(s, n).tokens, ScanLine(s, n).failure);
      }
    } else {
      assert Unwords(vs) + s == s;
    }
  }

  /** One lexeme followed by a space is its token, then the rest. */
  lemma ScanLexeme(v: string, tail: string, n: nat)
    requires IsLexeme(v)
    ensures ScanLine(v + (" " + tail), n) == Prepend(Token(LexemeKind(v).value, v, n), ScanLine(tail, n))
  {
    assert (" " + tail)[1..] == tail;
    assert ScanLine(" " + tail, n) == ScanLine(tail, n);
    if IsLetter(v[0]) && IsWord(v) {
      ScanWord(v, " " + tail, n);
    } else {
      assert v == [v[0]];
      ScanOperator(v[0], " " + tail, n);
    }
  }

  /** A comment discards the rest of its line: nothing after `--` becomes a
      token or an error. */
  lemma CommentDiscarded(vs: seq<string>, comment: string, n: nat)
    requires AllLexemes(vs)
    ensures ScanLine(Unwords(vs) + "--" + comment, n) == Lexed(TokensAt(vs, n), None)
  {
    assert Unwords(vs) + "--" + comment == Unwords(vs) + ("--" + comment);
    ScanAfterLexemes(vs, "--" + comment, n);
  }

  /** The text at which scanning fails: a word starting with a digit or an
      underscore, or a character that is not white space, not a word
      character, not in the operator table and not the start of a comment. */
  predicate RejectedStart(s: string) {
    && |s| > 0
    && !IsSpace(s[0])
    && (|| (IsWordChar(s[0]) && !IsLetter(s[0]))
        || (!IsWordChar(s[0]) && OperatorKind(s[0]).None? && !(|s| >= 2 && s[0] == '-' && s[1] == '-')))
  }

  /** Scanning stops at rejected text with an error on the current line,
      keeping the tokens before it. */
  lemma RejectedStartFails(vs: seq<string>, s: string, n: nat)
    requires AllLexemes(vs)
    requires RejectedStart(s)
    ensures ScanLine(Unwords(vs) + s, n) == Lexed(TokensAt(vs, n), Some(SyntaxError(Known(n))))
  {
    ScanAfterLexemes(vs, s, n);
  }

  lemma {:induction false} ScanTrailingSpace(s: string, c: char, n: nat)
    requires IsSpace(c)
    ensures ScanLine(s + [c], n) == ScanLine(s, n)
    decreases |s|
  {
    var x := s + [c];
    if |s| == 0 {
      assert x[1..] == [];
    } else if IsSpace(s[0]) {
      assert x[1..] == s[1..] + [c];
      ScanTrailingSpace(s[1..], c, n);
    } else if IsWordChar(s[0]) {
      var k := WordRun(s);
      if IsLetter(s[0]) {
        assert s == s[..k] + s[k..];
        WordRunOfWord(s[..k], s[k..] + [c]);
        assert x == s[..k] + (s[k..] + [c]);
        assert x[..k] == s[..k];
        assert x[k..] == s[k..] + [c];
        ScanTrailingSpace(s[k..], c, n);
      }
    } else if |s| >= 2 && s[0] == '-' && s[1] == '-' {
    } else if |s| == 1 {
      assert x[1..] == [c];
      assert ScanLine([c], n) == ScanLine([], n) by {
        assert [c][1..] == [];
      }
    } else {
      assert x[1..] == s[1..] + [c];
      ScanTrailingSpace(s[1..], c, n);
    }
  }

  lemma {:induction false} ScanStripLeft(s: string, n: nat)
    ensures ScanLine(StripLeft(s), n) == ScanLine(s, n)
    decreases |s|
  {
    if |s| > 0 && IsSpace(s[0]) {
      ScanStripLeft(s[1..], n);
    }
  }

  lemma {:induction false} ScanStripRight(s: string, n: nat)
    ensures ScanLine(StripRight(s), n) == ScanLine(s, n)
    decreases |s|
  {
    if |s| > 0 && IsSpace(s[|s| - 1]) {
      var init := s[..|s| - 1];
      assert s == init + [s[|s| - 1]];
      ScanTrailingSpace(init, s[|s| - 1], n);
      ScanStripRight(init, n);
    }
  }

  /** Stripping a line before scanning it changes nothing: the scanner
      already skips leading white space and stops at trailing white space. */
  lemma ScanIgnoresStrip(s: string, n: nat)
    ensures ScanLine(Strip(s), n) == ScanLine(s, n)
  {
    ScanStripRight(StripLeft(s), n);
    ScanStripLeft(s, n);
  }

  lemma {:induction false} UnwordsNoBreaks(vs: seq<string>)
    requires AllLexemes(vs)
    ensures NoBreaks(Unwords(vs))
  {
    if |vs| > 0 {
      UnwordsNoBreaks(vs[1..]);
      var v := vs[0];
      if !(IsLetter(v[0]) && IsWord(v)) {
        assert |v| == 1;
      }
      assert NoBreaks(v) by {
        forall i | 0 <= i < |v| ensures !IsLineBreak(v[i]) {
          if IsLetter(v[0]) && IsWord(v) {
            assert IsWordChar(v[i]);
          }
        }
      }
    }
  }

  /** A line without breaks, followed by "\n", is split off as one line. */
  lemma SplitAfterLine(a: string, b: string)
    requires NoBreaks(a)
    ensures SplitLines(a + "\n" + b) == [a] + SplitLines(b)
  {
    var s := a + "\n" + b;
    FirstBreakOf(a, "\n" + b);
    assert s == a + ("\n" + b);
    assert s[..|a|] == a;
    assert s[|a| + 1..] == b;
  }

  lemma {:induction false} FirstBreakOf(a: string, b: string)
    requires NoBreaks(a)
    requires |b| > 0 && IsLineBreak(b[0])
    ensures FirstBreak(a + b) == |a|
  {
    if |a| > 0 {
      assert (a + b)[1..] == a[1..] + b;
      FirstBreakOf(a[1..], b);
    } else {
      assert a + b == b;
    }
  }

  lemma {:induction false} FirstBreakNone(a: string)
    requires NoBreaks(a)
    ensures FirstBreak(a) == |a|
  {
    if |a| > 0 {
      FirstBreakNone(a[1..]);
    }
  }

  /** Line numbering: rendering lines of lexemes and tokenizing the text gives
      back exactly their tokens, each carrying the 1-based number of the line
      it was written on. */
  lemma TokenizeRendered(ls: seq<seq<string>>)
    requires forall i | 0 <= i < |ls| :: AllLexemes(ls[i])
    ensures Tokenize(RenderLines(ls)) == Lexed(LinesTokens(ls, 1), None)
  {
    TokenizeAfterRendered(ls, "", 1, 1 + |ls|);
    assert RenderLines(ls) + "" == RenderLines(ls);
    assert LinesTokens(ls, 1) + [] == LinesTokens(ls, 1);
  }

  /** Rendered lines in front of any text contribute their tokens, with their
      own line numbers, and the text after them is tokenized with numbering
      continuing at `m`, the number of the first line after them. */
  lemma {:induction false} TokenizeAfterRendered(ls: seq<seq<string>>, rest: string, n: nat, m: nat)
    requires forall i | 0 <= i < |ls| :: AllLexemes(ls[i])
    requires m == n + |ls|
    ensures TokenizeLines(SplitLines(RenderLines(ls) + rest), n)
         == Lexed(LinesTokens(ls, n) + TokenizeLines(SplitLines(rest), m).tokens,
                  TokenizeLines(SplitLines(rest), m).failure)
  {
    if |ls| > 0 {
      var u := Unwords(ls[0]);
      var more := RenderLines(ls[1..]) + rest;
      assert RenderLines(ls) + rest == u + "\n" + more;
      RenderedLine(ls[0], more, n);
      TokenizeAfterRendered(ls[1..], rest, n + 1, m);
      var t := TokenizeLines(SplitLines(rest), m);
      ComposeLines(RenderLines(ls) + rest, u, more, TokensAt(ls[0], n), LinesTokens(ls[1..], n + 1), t, n);
    } else {
      assert RenderLines(ls) + rest == rest;
    }
  }

  lemma ComposeLines(whole: string, u: string, more: string, first: seq<Token>, mid: seq<Token>, t: Lexed, n: nat)
    requires SplitLines(whole) == [u] + SplitLines(more)
    requires ScanLine(Strip(u), n) == Lexed(first, None)
    requires TokenizeLines(SplitLines(more), n + 1) == Lexed(mid + t.tokens, t.failure)
    ensures TokenizeLines(SplitLines(whole), n) == Lexed((first + mid) + t.tokens, t.failure)
  {
    hide *;
    TokenizeLinesStep(u, SplitLines(more), first, n);
    assert first + (mid + t.tokens) == (first + mid) + t.tokens;
  }

  /** The first line of rendered text is split off and scans to its tokens. */
  lemma RenderedLine(vs: seq<string>, rest: string, n: nat)
    requires AllLexemes(vs)
    ensures SplitLines(Unwords(vs) + "\n" + rest) == [Unwords(vs)] + SplitLines(rest)
    ensures ScanLine(Strip(Unwords(vs)), n) == Lexed(TokensAt(vs, n), None)
  {
    UnwordsNoBreaks(vs);
    SplitAfterLine(Unwords(vs), rest);
    ScanIgnoresStrip(Unwords(vs), n);
    ScanAfterLexemes(vs, "", n);
    assert Unwords(vs) + "" == Unwords(vs);
  }

  /** A line that scans without error contributes its tokens in front of the
      tokens of the lines after it. */
  lemma TokenizeLinesStep(a: string, later: seq<string>, ts: seq<Token>, n: nat)
    requires ScanLine(Strip(a), n) == Lexed(ts, None)
    ensures TokenizeLines([a] + later, n)
         == Lexed(ts + TokenizeLines(later, n + 1).tokens, TokenizeLines(later, n + 1).failure)
  {
    assert ([a] + later)[0] == a;
    assert ([a] + later)[1..] == later;
  }

  /** Tokenizing stops at the first rejected text: the tokens of every earlier
      line and of the lexemes before it on its own line are kept, the error
      carries the number of that line, and nothing after it is looked at. */
  lemma TokenizeStopsAtRejected(ls: seq<seq<string>>, vs: seq<string>, s: string, later: string)
    requires forall i | 0 <= i < |ls| :: AllLexemes(ls[i])
    requires AllLexemes(vs)
    requires RejectedStart(s) && NoBreaks(s)
    ensures Tokenize(RenderLines(ls) + (Unwords(vs) + s + "\n" + later))
         == Lexed(LinesTokens(ls, 1) + TokensAt(vs, |ls| + 1), Some(SyntaxError(Known(|ls| + 1))))
  {
    TokenizeAfterRendered(ls, Unwords(vs) + s + "\n" + later, 1, 1 + |ls|);
    TokenizeStopsHere(vs, s, later, 1 + |ls|);
  }

  lemma TokenizeStopsHere(vs: seq<string>, s: string, later: string, n: nat)
    requires AllLexemes(vs)
    requires RejectedStart(s) && NoBreaks(s)
    ensures TokenizeLines(SplitLines(Unwords(vs) + s + "\n" + later), n)
         == Lexed(TokensAt(vs, n), Some(SyntaxError(Known(n))))
  {
    var a := Unwords(vs) + s;
    UnwordsNoBreaks(vs);
    assert NoBreaks(a);
    SplitAfterLine(a, later);
    ScanIgnoresStrip(a, n);
    RejectedStartFails(vs, s, n);
    RejectedLineStops(a, SplitLines(later), n);
  }

  /** A line that fails to scan ends tokenizing with its own result. */
  lemma RejectedLineStops(a: string, later: seq<string>, n: nat)
    requires ScanLine(Strip(a), n).failure.Some?
    ensures TokenizeLines([a] + later, n) == ScanLine(Strip(a), n)
  {
    assert ([a] + later)[0] == a;
  }

  /** The tokens for the texts `vs` are, one by one, those texts with their
      kinds, on line `n`. */
  lemma {:induction false} TokensAtTexts(vs: seq<string>, n: nat)
    requires AllLexemes(vs)
    ensures |TokensAt(vs, n)| == |vs|
    ensures forall i | 0 <= i < |vs| :: TokensAt(vs, n)[i].value == vs[i] && Spelled(TokensAt(vs, n)[i])
  {
    if |vs| > 0 {
      TokensAtTexts(vs[1..], n);
      assert forall i | 1 <= i < |vs| :: TokensAt(vs, n)[i] == TokensAt(vs[1..], n)[i - 1];
    }
  }

  /** The tokens of several lines are, one by one, the texts of all lines
      in order, each with its kind. */
  lemma {:induction false} LinesTokensTexts(ls: seq<seq<string>>, n: nat)
    requires forall i | 0 <= i < |ls| :: AllLexemes(ls[i])
    ensures |LinesTokens(ls, n)| == |Concat(ls)|
    ensures forall i | 0 <= i < |Concat(ls)| :: LinesTokens(ls, n)[i].value == Concat(ls)[i] && Spelled(LinesTokens(ls, n)[i])
  {
    if |ls| > 0 {
      TokensAtTexts(ls[0], n);
      LinesTokensTexts(ls[1..], n + 1);
      var a := TokensAt(ls[0], n);
      var b := LinesTokens(ls[1..], n + 1);
      forall i | 0 <= i < |Concat(ls)|
        ensures LinesTokens(ls, n)[i].value == Concat(ls)[i] && Spelled(LinesTokens(ls, n)[i])
      {
        if i < |a| {
          assert (a + b)[i] == a[i];
          assert Concat(ls)[i] == ls[0][i];
        } else {
          assert (a + b)[i] == b[i - |a|];
          assert Concat(ls)[i] == Concat(ls[1..])[i - |a|];
        }
      }
    }
  }

  /** When all texts are lexemes, so are those of each line. */
  lemma {:induction false} LinesLexemes(ls: seq<seq<string>>)
    requires AllLexemes(Concat(ls))
    ensures forall i | 0 <= i < |ls| :: AllLexemes(ls[i])
  {
    if |ls| > 0 {
      assert forall j | 0 <= j < |ls[0]| :: Concat(ls)[j] == ls[0][j];
      assert forall j | 0 <= j < |Concat(ls[1..])| :: Concat(ls)[|ls[0]| + j] == Concat(ls[1..])[j];
      LinesLexemes(ls[1..]);
      assert forall i | 1 <= i < |ls| :: ls[i] == ls[1..][i - 1];
    }
  }

  /** Splitting loses nothing: the lines, each followed by its ending, are
      the text. */
  lemma {:induction false} JoinSplitLines(s: string)
    ensures JoinLines(SplitLines(s), LineEnds(s)) == s
    decreases |s|
  {
    if |s| > 0 {
      var i := FirstBreak(s);
      var lines := SplitLines(s);
      var ends := LineEnds(s);
      if i == |s| {
        assert lines == [s] && ends == [""];
        JoinCons(lines, ends);
      } else {
        var next := AfterBreak(s, i);
        var rest := s[next..];
        SplitStep(s);
        hide *;
        JoinSplitLines(rest);
        JoinFront(s, i, next, lines, ends);
      }
    }
  }

  /** The lines and endings of a text have the form str.splitlines gives. */
  lemma {:induction false} SplitLinesForm(s: string)
    ensures SplitForm(SplitLines(s), LineEnds(s))
    decreases |s|
  {
    if |s| > 0 {
      var i := FirstBreak(s);
      var lines := SplitLines(s);
      var ends := LineEnds(s);
      if i == |s| {
        assert lines == [s] && ends == [""];
        SplitFormCons(lines, ends);
      } else {
        var next := AfterBreak(s, i);
        var rest := s[next..];
        SplitStep(s);
        hide *;
        SplitLinesForm(rest);
        assert lines[1..] == SplitLines(rest) && ends[1..] == LineEnds(rest);
        if |rest| > 0 {
          FirstEnd(rest);
        }
        SplitFormCons(lines, ends);
      }
    }
  }

  /** Lines and endings whose tail joins to the text after `next`, with the
      first line and ending the text before it, join to the whole text. */
  lemma JoinFront(s: string, i: nat, next: nat, lines: seq<string>, ends: seq<string>)
    requires i <= next <= |s| && |lines| == |ends| > 0
    requires lines[0] == s[..i] && ends[0] == s[i..next]
    requires JoinLines(lines[1..], ends[1..]) == s[next..]
    ensures JoinLines(lines, ends) == s
  {
    JoinCons(lines, ends);
    hide JoinLines;
    assert s == s[..i] + s[i..next] + s[next..];
  }

  /** One step of SplitForm. */
  lemma SplitFormCons(lines: seq<string>, ends: seq<string>)
    requires |lines| == |ends| > 0
    ensures SplitForm(lines, ends) <==>
      && NoBreaks(lines[0])
      && (IsBreak(ends[0]) || (|lines| == 1 && ends[0] == "" && |lines[0]| > 0))
      && (ends[0] == "\r" && |lines| > 1 && lines[1] == "" ==> ends[1] != "\n")
      && SplitForm(lines[1..], ends[1..])
  {
  }

  /** One step of JoinLines; nothing follows the last line's ending. */
  lemma JoinCons(lines: seq<string>, ends: seq<string>)
    requires |lines| == |ends| > 0
    ensures JoinLines(lines, ends) == lines[0] + ends[0] + JoinLines(lines[1..], ends[1..])
    ensures |lines| == 1 ==> JoinLines(lines[1..], ends[1..]) == ""
  {
  }

  /** One line split off: the text before the first break, that break, and
      then the split of the rest. */
  lemma SplitStep(s: string)
    requires |s| > 0 && FirstBreak(s) < |s|
    ensures var i := FirstBreak(s); var next := AfterBreak(s, i);
      && SplitLines(s) == [s[..i]] + SplitLines(s[next..])
      && LineEnds(s) == [s[i..next]] + LineEnds(s[next..])
      && SplitLines(s)[0] == s[..i] && SplitLines(s)[1..] == SplitLines(s[next..])
      && LineEnds(s)[0] == s[i..next] && LineEnds(s)[1..] == LineEnds(s[next..])
      && IsBreak(s[i..next])
      && (s[i..next] == "\r" && next < |s| ==> s[next] != '\n')
  {
    var i := FirstBreak(s);
    hide IsLineBreak;
    BreakAt(s, i);
  }

  /** The break at `i` is one str.splitlines recognises, and a lone "\r"
      break is not followed by "\n". */
  lemma BreakAt(s: string, i: nat)
    requires i < |s| && IsLineBreak(s[i])
    ensures var next := AfterBreak(s, i);
      && IsBreak(s[i..next])
      && (s[i..next] == "\r" && next < |s| ==> s[next] != '\n')
  {
    hide IsLineBreak;
    var next := AfterBreak(s, i);
    if next == i + 2 {
      assert s[i..next] == [s[i], s[i + 1]] == "\r\n";
    } else {
      assert s[i..next] == [s[i]];
    }
  }

  /** A text that starts with an empty line starts with that line's
      ending. */
  lemma FirstEnd(s: string)
    requires |s| > 0
    ensures SplitLines(s)[0] == "" ==> |LineEnds(s)[0]| > 0 && LineEnds(s)[0][0] == s[0]
  {
  }

  /** Joined lines in split form do not start with "\n" unless the first
      line is empty and ended by "\n". */
  lemma JoinHead(lines: seq<string>, ends: seq<string>)
    requires |lines| == |ends| && SplitForm(lines, ends)
    requires |lines| > 0 ==> !(lines[0] == "" && ends[0] == "\n")
    ensures |JoinLines(lines, ends)| > 0 ==> JoinLines(lines, ends)[0] != '\n'
  {
    if |lines| > 0 {
      SplitFormCons(lines, ends);
      JoinCons(lines, ends);
      hide SplitForm, JoinLines;
      if |lines[0]| == 0 && ends[0] != "\r\n" {
        assert ends[0] == [ends[0][0]];
      }
    }
  }

  /** A line, a break and the rest: the line is split off, provided a lone
      "\r" break is not followed by "\n". */
  lemma SplitFront(a: string, e: string, rest: string)
    requires NoBreaks(a) && IsBreak(e)
    requires e == "\r" && |rest| > 0 ==> rest[0] != '\n'
    ensures SplitLines(a + e + rest) == [a] + SplitLines(rest)
  {
    hide *;
    var s := a + e + rest;
    assert s == a + (e + rest);
    BreakHead(e);
    FirstBreakOf(a, e + rest);
    AfterBreakOf(a, e, rest);
    SplitUnfold(s);
    assert s[..|a|] == a && s[|a| + |e|..] == rest;
  }

  lemma SplitUnfold(s: string)
    requires |s| > 0 && FirstBreak(s) < |s|
    ensures SplitLines(s) == [s[..FirstBreak(s)]] + SplitLines(s[AfterBreak(s, FirstBreak(s))..])
  {
  }

  /** The text after a break: a lone "\r" break not followed by "\n" is
      one character, like every other break but "\r\n". */
  lemma AfterBreakOf(a: string, e: string, rest: string)
    requires IsBreak(e)
    requires e == "\r" && |rest| > 0 ==> rest[0] != '\n'
    ensures AfterBreak(a + e + rest, |a|) == |a| + |e|
  {
    var s := a + e + rest;
    var i := |a|;
    BreakHead(e);
    hide IsLineBreak, IsBreak;
    if e == "\r\n" {
      assert s[i] == '\r' && s[i + 1] == '\n';
    } else {
      assert s[i] == e[0];
      if e[0] == '\r' {
        assert e == "\r";
      }
    }
  }

  /** A line ending is "\r\n" or one break character. */
  lemma BreakHead(e: string)
    requires IsBreak(e)
    ensures IsLineBreak(e[0])
    ensures e == "\r\n" ==> e[0] == '\r' && e[1] == '\n'
    ensures e != "\r\n" ==> e == [e[0]]
  {
  }

  /** A last line without breaks splits to itself. */
  lemma SplitLast(a: string)
    requires NoBreaks(a) && |a| > 0
    ensures SplitLines(a) == [a]
  {
    FirstBreakNone(a);
  }

  /** Splitting inverts joining: text put together from lines and endings
      of the split form is split back into exactly those lines. */
  lemma {:induction false} SplitJoinLines(lines: seq<string>, ends: seq<string>)
    requires |lines| == |ends| && SplitForm(lines, ends)
    ensures SplitLines(JoinLines(lines, ends)) == lines
    decreases |lines|
  {
    if |lines| > 0 {
      SplitFormCons(lines, ends);
      JoinCons(lines, ends);
      var rest := JoinLines(lines[1..], ends[1..]);
      hide SplitForm, JoinLines, SplitLines;
      if ends[0] == "" {
        assert JoinLines(lines, ends) == lines[0];
        SplitLast(lines[0]);
      } else {
        if ends[0] == "\r" {
          JoinHead(lines[1..], ends[1..]);
        }
        SplitFront(lines[0], ends[0], rest);
        SplitJoinLines(lines[1..], ends[1..]);
        assert lines == [lines[0]] + lines[1..];
      }
    }
  }
}
