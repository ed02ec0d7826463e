/** Two places where the code as written does not do what it evidently
    means to, each modelled twice: as written, with a lemma exhibiting the
    discrepancy, and against the corrected definition the rest of the model
    uses (`Lexer.OperatorKind` for the first, `Parser.KindAt` for the
    second). */
module Findings {
  import opened Errors
  import opened Lexer
  import opened Parser

  /** The Python exceptions the code as written raises that are not syntax
      errors. */
  datatype PyError = TypeError | AttributeError

  // ---------------------------------------------------------------------
  // The operator table is a member of the token-kind enumeration
  // ---------------------------------------------------------------------

  /** How the scan of a line ends: at the end of the line or a comment, or
      with an exception that escapes the tokenizer. As written, the syntax
      error for an unknown lexeme is never reached. */
  datatype Stop = Finished | Threw(exception: PyError)

  datatype Scanned = Scanned(tokens: seq<Token>, stop: Stop)

  function PrependScanned(t: Token, r: Scanned): Scanned {
    Scanned([t] + r.tokens, r.stop)
  }

  /** Looking a lexeme up in the operator table as the source declares it.
      The table is assigned inside the enumeration's class body, so it is
      not a dictionary but one more member of the enumeration, and
      subscripting an enumeration member raises TypeError whatever the key.
      The handler around the lookup catches only KeyError, so the TypeError
      leaves the tokenizer. */
  function SubscriptOperatorTable(lexeme: string): PyError {
    TypeError
  }

  /** `Lexer.ScanLine` with the operator lookup as written: identifiers and
      comments are scanned as before, and every other lexeme, an operator
      included, ends the scan with the lookup's exception. */
  function ScanLineAsWritten(s: string, n: nat): (r: Scanned)
    ensures forall i | 0 <= i < |r.tokens| :: r.tokens[i].line == n && r.tokens[i].kind in IdKinds
    ensures r.stop == Finished || r.stop == Threw(TypeError)
    decreases |s|
  {
    if |s| == 0 then
      Scanned([], Finished)
    else if IsSpace(s[0]) then
      ScanLineAsWritten(s[1..], n)
    else if IsWordChar(s[0]) then
      var k := WordRun(s);
      if IsLetter(s[0]) then
        var kind := if IsUpper(s[0]) then ConstructorId else TypeId;
        PrependScanned(Token(kind, s[..k], n), ScanLineAsWritten(s[k..], n))
      else
        Scanned([], Threw(SubscriptOperatorTable(s[..k])))
    else if |s| >= 2 && s[0] == '-' && s[1] == '-' then
      Scanned([], Finished)
    else
      Scanned([], Threw(SubscriptOperatorTable([s[0]])))
  }

  /** The tokenizer as written: lines numbered from `n`, stopping at the
      first line whose scan does not finish. */
  function TokenizeLinesAsWritten(lines: seq<string>, n: nat): (r: Scanned)
    ensures forall i | 0 <= i < |r.tokens| :: r.tokens[i].kind in IdKinds
    ensures r.stop == Finished || r.stop == Threw(TypeError)
  {
    if |lines| == 0 then
      Scanned([], Finished)
    else
      var first := ScanLineAsWritten(Strip(lines[0]), n);
      if first.stop != Finished then
        first
      else
        var rest := TokenizeLinesAsWritten(lines[1..], n + 1);
        Scanned(first.tokens + rest.tokens, rest.stop)
  }

  /** `tokenize_asdl` as written: only identifier tokens come out, and the
      tokenizer either finishes or raises TypeError. */
  function TokenizeAsWritten(buf: string): (r: Scanned)
    ensures forall i | 0 <= i < |r.tokens| :: r.tokens[i].kind in IdKinds
    ensures r.stop == Finished || r.stop == Threw(TypeError)
  {
    TokenizeLinesAsWritten(SplitLines(buf), 1)
  }

  /** The tokenizer as written yields a prefix of what the corrected one
      yields, and it finishes, then with the same tokens, exactly when the
      corrected one succeeds on a description without operators. */
  lemma TokenizeAsWrittenPrefix(buf: string)
    ensures TokenizeAsWritten(buf).tokens <= Tokenize(buf).tokens
    ensures TokenizeAsWritten(buf).stop == Finished <==>
      Tokenize(buf).failure.None? && forall i | 0 <= i < |Tokenize(buf).tokens| :: Tokenize(buf).tokens[i].kind in IdKinds
    ensures TokenizeAsWritten(buf).stop == Finished ==> TokenizeAsWritten(buf).tokens == Tokenize(buf).tokens
  {
    LinesAsWrittenPrefix(SplitLines(buf), 1);
  }

  lemma {:induction false} LinesAsWrittenPrefix(lines: seq<string>, n: nat)
    ensures TokenizeLinesAsWritten(lines, n).tokens <= TokenizeLines(lines, n).tokens
    ensures TokenizeLinesAsWritten(lines, n).stop == Finished <==>
      TokenizeLines(lines, n).failure.None? && AllIds(TokenizeLines(lines, n).tokens)
    ensures TokenizeLinesAsWritten(lines, n).stop == Finished ==> TokenizeLinesAsWritten(lines, n).tokens == TokenizeLines(lines, n).tokens
    decreases |lines|
  {
    if |lines| > 0 {
      var line := Strip(lines[0]);
      ScanAsWrittenPrefix(line, n);
      var fw := ScanLineAsWritten(line, n);
      var fc := ScanLine(line, n);
      var w := TokenizeLinesAsWritten(lines, n);
      var c := TokenizeLines(lines, n);
      if fw.stop != Finished {
        assert w == fw;
        if fc.failure.Some? {
          assert c == fc;
        } else {
          var rest := TokenizeLines(lines[1..], n + 1);
          assert c == Lexed(fc.tokens + rest.tokens, rest.failure);
          PrefixConcat(fw.tokens, fc.tokens, rest.tokens);
          IdsConcat(fc.tokens, rest.tokens);
        }
      } else {
        var wrest := TokenizeLinesAsWritten(lines[1..], n + 1);
        var rest := TokenizeLines(lines[1..], n + 1);
        LinesAsWrittenPrefix(lines[1..], n + 1);
        assert w == Scanned(fc.tokens + wrest.tokens, wrest.stop);
        assert c == Lexed(fc.tokens + rest.tokens, rest.failure);
        hide *;
        SamePrefixConcat(fc.tokens, wrest.tokens, rest.tokens);
        IdsConcat(fc.tokens, rest.tokens);
      }
    }
  }

  predicate AllIds(ts: seq<Token>) {
    forall i | 0 <= i < |ts| :: ts[i].kind in IdKinds
  }

  lemma IdsConcat(a: seq<Token>, b: seq<Token>)
    ensures AllIds(a + b) <==> AllIds(a) && AllIds(b)
  {
    if AllIds(a) && AllIds(b) {
      forall i | 0 <= i < |a + b| ensures (a + b)[i].kind in IdKinds {
        if i >= |a| {
          assert (a + b)[i] == b[i - |a|];
        }
      }
    }
    if AllIds(a + b) {
      forall i | 0 <= i < |a| ensures a[i].kind in IdKinds {
        assert (a + b)[i] == a[i];
      }
      forall i | 0 <= i < |b| ensures b[i].kind in IdKinds {
        assert (a + b)[i + |a|] == b[i];
      }
    }
  }

  lemma OneId(t: Token)
    requires t.kind == ConstructorId || t.kind == TypeId
    ensures AllIds([t])
  {
  }

  lemma PrefixConcat(p: seq<Token>, a: seq<Token>, b: seq<Token>)
    requires p <= a
    ensures p <= a + b
  {
  }

  lemma SamePrefixConcat(a: seq<Token>, x: seq<Token>, y: seq<Token>)
    requires x <= y
    ensures a + x <= a + y
  {
  }

  /** Line by line, the scan as written yields a prefix of what the corrected
      scan yields, and it finishes exactly when the corrected scan finishes
      without meeting a single operator. */
  lemma {:induction false} ScanAsWrittenPrefix(s: string, n: nat)
    ensures ScanLineAsWritten(s, n).tokens <= ScanLine(s, n).tokens
    ensures ScanLineAsWritten(s, n).stop == Finished <==>
      ScanLine(s, n).failure.None? && AllIds(ScanLine(s, n).tokens)
    ensures ScanLineAsWritten(s, n).stop == Finished ==> ScanLineAsWritten(s, n).tokens == ScanLine(s, n).tokens
    decreases |s|
  {
    var w := ScanLineAsWritten(s, n);
    var c := ScanLine(s, n);
    if |s| == 0 {
    } else if IsSpace(s[0]) {
      ScanAsWrittenPrefix(s[1..], n);
    } else if IsWordChar(s[0]) {
      var k := WordRun(s);
      if IsLetter(s[0]) {
        ScanAsWrittenPrefix(s[k..], n);
        var t := Token(if IsUpper(s[0]) then ConstructorId else TypeId, s[..k], n);
        var wr := ScanLineAsWritten(s[k..], n);
        var cr := ScanLine(s[k..], n);
        assert w == Scanned([t] + wr.tokens, wr.stop);
        assert c == Lexed([t] + cr.tokens, cr.failure);
        hide *;
        OneId(t);
        IdsConcat([t], cr.tokens);
        SamePrefixConcat([t], wr.tokens, cr.tokens);
      }
    } else if |s| >= 2 && s[0] == '-' && s[1] == '-' {
    } else {
      match OperatorKind(s[0])
      case Some(kind) =>
        assert c.tokens[0].kind == kind;
      case None =>
    }
  }

  /** As in the corrected scan, a word starting with a letter is one
      identifier token, and scanning resumes right after it. */
  lemma ScanWordAsWritten(w: string, s: string, n: nat)
    requires |w| > 0 && IsLetter(w[0]) && IsWord(w)
    requires |s| == 0 || !IsWordChar(s[0])
    ensures ScanLineAsWritten(w + s, n)
         == PrependScanned(Token(if IsUpper(w[0]) then ConstructorId else TypeId, w, n), ScanLineAsWritten(s, n))
  {
    var x := w + s;
    WordRunOfWord(w, s);
    assert x[..|w|] == w;
    assert x[|w|..] == s;
  }

  lemma ScanSpaceAsWritten(c: char, s: string, n: nat)
    requires IsSpace(c)
    ensures ScanLineAsWritten([c] + s, n) == ScanLineAsWritten(s, n)
  {
    assert ([c] + s)[1..] == s;
  }

  /** As written, an operator character ends the scan with TypeError,
      whatever follows it. */
  lemma ScanOperatorAsWritten(c: char, s: string, n: nat)
    requires OperatorKind(c).Some?
    ensures ScanLineAsWritten([c] + s, n) == Scanned([], Threw(TypeError))
  {
  }

  /** The texts and characters of the line `module M {`. */
  lemma BraceLine()
    ensures "module M {" == "module" + ([' '] + ("M" + ([' '] + (['{'] + ""))))
    ensures |"module"| > 0 && IsLetter("module"[0]) && !IsUpper("module"[0]) && IsWord("module")
    ensures |"M"| > 0 && IsLetter("M"[0]) && IsUpper("M"[0]) && IsWord("M")
    ensures IsSpace(' ') && !IsWordChar(' ') && OperatorKind('{') == Some(LBrace)
  {
  }

  /** Scanning the line `module M {` as written stops with TypeError at the
      brace. */
  lemma BraceAsWritten()
    ensures ScanLineAsWritten("module M {", 1)
      == Scanned([Token(TypeId, "module", 1), Token(ConstructorId, "M", 1)], Threw(TypeError))
  {
    hide *;
    BraceLine();
    var afterM := [' '] + (['{'] + "");
    var afterModule := [' '] + ("M" + afterM);
    ScanWordAsWritten("module", afterModule, 1);
    ScanSpaceAsWritten(' ', "M" + afterM, 1);
    ScanWordAsWritten("M", afterM, 1);
    ScanSpaceAsWritten(' ', ['{'] + "", 1);
    ScanOperatorAsWritten('{', "", 1);
    PrependTwice(Token(TypeId, "module", 1), Token(ConstructorId, "M", 1), Threw(TypeError));
  }

  lemma PrependTwice(a: Token, b: Token, stop: Stop)
    ensures PrependScanned(a, PrependScanned(b, Scanned([], stop))) == Scanned([a, b], stop)
  {
  }

  /** The corrected scan of the same line yields the `LBrace` token. */
  lemma BraceCorrected()
    ensures ScanLine("module M {", 1)
      == Lexed([Token(TypeId, "module", 1), Token(ConstructorId, "M", 1), Token(LBrace, "{", 1)], None)
  {
    hide *;
    BraceLine();
    var afterM := [' '] + (['{'] + "");
    var afterModule := [' '] + ("M" + afterM);
    ScanWord("module", afterModule, 1);
    ScanLeadingSpace(' ', "M" + afterM, 1);
    ScanWord("M", afterM, 1);
    ScanLeadingSpace(' ', ['{'] + "", 1);
    ScanOperator('{', "", 1);
    PrependThrice(Token(TypeId, "module", 1), Token(ConstructorId, "M", 1), Token(LBrace, "{", 1));
  }

  lemma PrependThrice(a: Token, b: Token, c: Token)
    ensures Prepend(a, Prepend(b, Prepend(c, ScanLine("", 1)))) == Lexed([a, b, c], None)
  {
  }

  /** No module can be parsed from what the tokenizer as written yields,
      however the parser then meets the end of those tokens: a module ends
      with a closing brace, and the tokenizer as written never yields one. */
  lemma NoModuleAsWritten(buf: string, pos: nat)
    ensures forall f :: ParseModule(Lexed(TokenizeAsWritten(buf).tokens, f), pos).Err?
  {
    forall f ensures ParseModule(Lexed(TokenizeAsWritten(buf).tokens, f), pos).Err? {
      ModuleShape(Lexed(TokenizeAsWritten(buf).tokens, f), pos);
    }
  }

  // ---------------------------------------------------------------------
  // The current token after the end of input
  // ---------------------------------------------------------------------

  datatype Outcome<T> = Returned(value: T) | Raised(exception: PyError)

  /** The current token's kind as the parser reads it: at the end of input
      the current token is None, and reading its kind raises AttributeError
      instead of a syntax error. */
  function KindAsWritten(lx: Lexed, pos: nat): (r: Outcome<TokenKind>)
    ensures r.Raised? ==> r.exception == AttributeError
  {
    if pos < |lx.tokens| then Returned(lx.tokens[pos].kind) else Raised(AttributeError)
  }

  /** The corrected read agrees with the read as written on every token, and
      reports a syntax error with no line exactly where the read as written
      raises AttributeError. */
  lemma KindAsWrittenCorrected(lx: Lexed, pos: nat)
    ensures KindAsWritten(lx, pos).Returned? <==> KindAt(lx, pos).Ok?
    ensures KindAsWritten(lx, pos).Returned? ==> KindAsWritten(lx, pos).value == KindAt(lx, pos).value
    ensures KindAsWritten(lx, pos) == Raised(AttributeError) <==> KindAt(lx, pos) == Err(SyntaxError(Unknown))
  {
  }

  /** The texts and characters of the one-line description `module M`. */
  lemma NameOnlyLine()
    ensures "module M" == "module" + ([' '] + ("M" + ""))
    ensures |"module"| > 0 && IsLetter("module"[0]) && !IsUpper("module"[0]) && IsWord("module")
    ensures |"M"| > 0 && IsLetter("M"[0]) && IsUpper("M"[0]) && IsWord("M")
    ensures IsSpace(' ') && !IsWordChar(' ')
    ensures SplitLines("module M") == ["module M"] && Strip("module M") == "module M"
  {
    NameOnlySplit();
    NameOnlyStrip();
    hide SplitLines, Strip;
  }

  lemma NameOnlySplit()
    ensures SplitLines("module M") == ["module M"]
  {
    hide IsLineBreak;
    NoBreakChars();
    assert NoBreaks("module M");
    SplitLast("module M");
  }

  lemma NameOnlyStrip()
    ensures Strip("module M") == "module M"
  {
    assert !IsSpace('m') && !IsSpace('M');
    var s := "module M";
    assert s[0] == 'm' && s[|s| - 1] == 'M';
    hide IsSpace;
    StripNothing(s);
  }

  lemma NoBreakChars()
    ensures !IsLineBreak('m') && !IsLineBreak('o') && !IsLineBreak('d') && !IsLineBreak('u')
    ensures !IsLineBreak('l') && !IsLineBreak('e') && !IsLineBreak(' ') && !IsLineBreak('M')
  {
  }

  /** The tokens `module M` yields, corrected or as written. */
  function NameOnlyTokens(): seq<Token> {
    [Token(TypeId, "module", 1), Token(ConstructorId, "M", 1)]
  }

  /** As written, `module M` is tokenized without an exception, and the
      parser, matching the `{` after the name, reads the kind of a token that
      does not exist: AttributeError. */
  lemma NameOnlyAsWritten()
    ensures TokenizeAsWritten("module M") == Scanned(NameOnlyTokens(), Finished)
    ensures KindAsWritten(Lexed(TokenizeAsWritten("module M").tokens, None), 2) == Raised(AttributeError)
  {
    KindPastEnd(NameOnlyTokens());
    hide *;
    NameOnlyLine();
    ScanWordAsWritten("module", [' '] + ("M" + ""), 1);
    ScanSpaceAsWritten(' ', "M" + "", 1);
    ScanWordAsWritten("M", "", 1);
    NameOnlyScanned();
    NameOnlyLinesAsWritten();
  }

  lemma NameOnlyScanned()
    ensures PrependScanned(Token(TypeId, "module", 1), PrependScanned(Token(ConstructorId, "M", 1), ScanLineAsWritten("", 1)))
         == Scanned(NameOnlyTokens(), Finished)
  {
  }

  lemma NameOnlyLinesAsWritten()
    requires ScanLineAsWritten("module M", 1) == Scanned(NameOnlyTokens(), Finished)
    requires SplitLines("module M") == ["module M"] && Strip("module M") == "module M"
    ensures TokenizeAsWritten("module M") == Scanned(NameOnlyTokens(), Finished)
  {
    hide ScanLineAsWritten, SplitLines, Strip;
    assert ["module M"][1..] == [];
    assert NameOnlyTokens() + [] == NameOnlyTokens();
  }

  lemma KindPastEnd(ts: seq<Token>)
    requires |ts| == 2
    ensures KindAsWritten(Lexed(ts, None), 2) == Raised(AttributeError)
    ensures KindAt(Lexed(ts, None), 2) == Err(SyntaxError(Unknown))
  {
  }

  /** Corrected, `module M` tokenizes to the same two tokens, and the parse
      fails with a syntax error with no line where the `{` is missing. */
  lemma NameOnlyCorrected()
    ensures Tokenize("module M") == Lexed(NameOnlyTokens(), None)
    ensures Parse("module M") == Err(SyntaxError(Unknown))
  {
    hide *;
    NameOnlyLine();
    ScanWord("module", [' '] + ("M" + ""), 1);
    ScanLeadingSpace(' ', "M" + "", 1);
    ScanWord("M", "", 1);
    NameOnlyPrepended();
    NameOnlyLines();
    NameOnlyParse();
  }

  lemma NameOnlyPrepended()
    ensures Prepend(Token(TypeId, "module", 1), Prepend(Token(ConstructorId, "M", 1), ScanLine("", 1)))
         == Lexed(NameOnlyTokens(), None)
  {
  }

  lemma NameOnlyLines()
    requires ScanLine("module M", 1) == Lexed(NameOnlyTokens(), None)
    requires SplitLines("module M") == ["module M"] && Strip("module M") == "module M"
    ensures Tokenize("module M") == Lexed(NameOnlyTokens(), None)
  {
    hide ScanLine, SplitLines, Strip;
    assert ["module M"][1..] == [];
    assert NameOnlyTokens() + [] == NameOnlyTokens();
  }

  lemma NameOnlyParse()
    requires Tokenize("module M") == Lexed(NameOnlyTokens(), None)
    ensures Parse("module M") == Err(SyntaxError(Unknown))
  {
    hide Tokenize, ParseDefinitions, ParseType;
  }

  /** The tokens of a description cut off after its opening brace. */
  function Truncated(): Lexed {
    Lexed([Token(TypeId, "module", 1), Token(ConstructorId, "M", 1), Token(LBrace, "{", 1)], None)
  }

  lemma TruncatedTokens()
    ensures Tokenize(RenderLines([["module", "M", "{"]])) == Truncated()
  {
    var vs: seq<string> := ["module", "M", "{"];
    assert LexemeKind("module") == Some(TypeId);
    assert LexemeKind("M") == Some(ConstructorId);
    assert LexemeKind("{") == Some(LBrace);
    assert vs[1..] == ["M", "{"] && vs[1..][1..] == ["{"] && vs[1..][1..][1..] == [];
    assert TokensAt(vs, 1) == Truncated().tokens;
    var ls: seq<seq<string>> := [vs];
    assert |ls[1..]| == 0;
    assert LinesTokens(ls, 1) == TokensAt(vs, 1);
    TokenizeRendered(ls);
  }

  /** With the operator table corrected, the cut-off description gets past
      its `{`, and the definitions loop then reads the kind of a token that
      does not exist. As written that read raises AttributeError; in the
      model it is a syntax error with no line. (Without that correction the
      tokenizer raises TypeError at the `{` first.) */
  lemma TruncatedModule()
    ensures KindAsWritten(Truncated(), 3) == Raised(AttributeError)
    ensures ParseModule(Truncated(), 0) == Err(SyntaxError(Unknown))
  {
    assert ParseDefinitions(Truncated(), 3) == Err(SyntaxError(Unknown));
  }
}
