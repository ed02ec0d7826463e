/** Parsing inverts printing, level by level: the tokens printed for a node,
    found at some position of any token stream and followed by a token that
    cannot continue that node, parse back to the node and end right after
    its tokens. At the top, `Parse(Print(m)) == Ok(m)`. */
module RoundTrip {
  import opened Errors
  import opened Lexer
  import opened Nodes
  import opened Parser
  import opened Printer

  /** The tokens `e` appear in the stream starting at `pos`: same kinds and
      same texts, on whatever lines. */
  predicate At(lx: Lexed, pos: nat, e: seq<Token>) {
    && pos + |e| <= |lx.tokens|
    && forall i | 0 <= i < |e| :: lx.tokens[pos + i].kind == e[i].kind && lx.tokens[pos + i].value == e[i].value
  }

  lemma {:induction false} AtSplit(lx: Lexed, pos: nat, a: seq<Token>, b: seq<Token>)
    requires At(lx, pos, a + b)
    ensures At(lx, pos, a) && At(lx, pos + |a|, b)
    ensures pos + |a| + |b| <= |lx.tokens|
  {
    forall i | 0 <= i < |a|
      ensures lx.tokens[pos + i].kind == a[i].kind && lx.tokens[pos + i].value == a[i].value
    {
      assert (a + b)[i] == a[i];
    }
    forall i | 0 <= i < |b|
      ensures lx.tokens[pos + |a| + i].kind == b[i].kind && lx.tokens[pos + |a| + i].value == b[i].value
    {
      assert (a + b)[|a| + i] == b[i];
    }
  }

  /** Three pieces in a row, with the positions of the second and third. */
  lemma {:induction false} AtSplit3(lx: Lexed, pos: nat, a: seq<Token>, b: seq<Token>, c: seq<Token>)
    requires At(lx, pos, a + b + c)
    ensures At(lx, pos, a) && At(lx, pos + |a|, b) && At(lx, pos + |a| + |b|, c)
    ensures pos + |a| + |b| + |c| <= |lx.tokens|
  {
    assert a + b + c == a + (b + c);
    AtSplit(lx, pos, a, b + c);
    AtSplit(lx, pos + |a|, b, c);
  }

  lemma {:induction false} AtHead(lx: Lexed, pos: nat, e: seq<Token>)
    requires At(lx, pos, e) && |e| > 0
    ensures pos < |lx.tokens| && lx.tokens[pos].kind == e[0].kind && lx.tokens[pos].value == e[0].value
  {
  }

  /** The stream goes on after `e`: there is a token right after it. */
  predicate AtThen(lx: Lexed, pos: nat, e: seq<Token>) {
    At(lx, pos, e) && pos + |e| < |lx.tokens|
  }

  /** The token right after `e`. */
  function Next(lx: Lexed, pos: nat, e: seq<Token>): Token
    requires AtThen(lx, pos, e)
  {
    lx.tokens[pos + |e|]
  }


  /** Two pieces in a row followed by a token: the first is followed by the
      head of the second, or by that token when the second is empty. */
  lemma {:induction false} AtThenSplit(lx: Lexed, pos: nat, a: seq<Token>, b: seq<Token>)
    requires AtThen(lx, pos, a + b)
    ensures At(lx, pos, a) && AtThen(lx, pos, a) && AtThen(lx, pos + |a|, b)
    ensures pos + |a| + |b| < |lx.tokens|
    ensures |b| > 0 ==> Next(lx, pos, a).kind == b[0].kind && Next(lx, pos, a).value == b[0].value
    ensures |b| == 0 ==> Next(lx, pos, a) == Next(lx, pos, a + b)
    ensures Next(lx, pos + |a|, b) == Next(lx, pos, a + b)
  {
    AtSplit(lx, pos, a, b);
    if |b| > 0 {
      AtHead(lx, pos + |a|, b);
    }
  }

  /** Three pieces in a row followed by a token. */
  lemma {:induction false} AtThenSplit3(lx: Lexed, pos: nat, a: seq<Token>, b: seq<Token>, c: seq<Token>)
    requires AtThen(lx, pos, a + b + c)
    ensures At(lx, pos, a) && At(lx, pos + |a|, b) && At(lx, pos + |a| + |b|, c)
    ensures AtThen(lx, pos, a) && AtThen(lx, pos + |a|, b) && AtThen(lx, pos + |a| + |b|, c)
    ensures pos + |a| + |b| + |c| < |lx.tokens|
    ensures |c| > 0 ==> Next(lx, pos + |a|, b).kind == c[0].kind && Next(lx, pos + |a|, b).value == c[0].value
    ensures |c| == 0 ==> Next(lx, pos + |a|, b) == Next(lx, pos, a + b + c)
    ensures Next(lx, pos + |a| + |b|, c) == Next(lx, pos, a + b + c)
  {
    assert a + b + c == a + (b + c);
    AtThenSplit(lx, pos, a, b + c);
    AtThenSplit(lx, pos + |a|, b, c);
  }

  /** `AtThenSplit3` with the positions of the second and third pieces
      given. */
  lemma AtThenSplit3At(lx: Lexed, pos: nat, a: seq<Token>, b: seq<Token>, c: seq<Token>, p1: nat, p2: nat)
    requires AtThen(lx, pos, a + b + c) && p1 == pos + |a| && p2 == p1 + |b|
    ensures At(lx, pos, a) && At(lx, p1, b) && AtThen(lx, p2, c)
    ensures Next(lx, p2, c) == Next(lx, pos, a + b + c)
    ensures p2 + |c| == pos + |a + b + c|
  {
    hide At;
    AtThenSplit3(lx, pos, a, b, c);
  }

  // ---------------------------------------------------------------------
  // Fields
  // ---------------------------------------------------------------------

  /** A token that cannot continue field `f`: once the field has a name
      nothing can, and otherwise neither a quantifier nor an identifier. */
  predicate EndsField(f: Field, t: Token) {
    f.name.Some? || t.kind !in {Question, Asterisk, ConstructorId, TypeId}
  }

  /** Where the printed tokens of field `f` sit: the type at `pos`, then the
      optional `?`, `*` and name, and the token after them at `end`. */
  predicate FieldLaidOut(lx: Lexed, pos: nat, f: Field, end: nat) {
    var afterOpt := pos + 1 + (if f.isOpt then 1 else 0);
    var afterStar := afterOpt + (if f.isSeq then 1 else 0);
    && end == afterStar + (if f.name.Some? then 1 else 0)
    && end < |lx.tokens|
    && lx.tokens[pos].kind == TypeId && lx.tokens[pos].value == f.typ
    && (lx.tokens[pos + 1].kind == Question <==> f.isOpt)
    && (lx.tokens[afterOpt].kind == Asterisk <==> f.isSeq)
    && (lx.tokens[afterStar].kind in IdKinds <==> f.name.Some?)
    && (f.name.Some? ==> lx.tokens[afterStar].value == f.name.value)
  }

  lemma {:induction false} FieldLayout(lx: Lexed, pos: nat, f: Field)
    requires ReadableField(f)
    requires AtThen(lx, pos, FieldTokens(f)) && EndsField(f, Next(lx, pos, FieldTokens(f)))
    ensures FieldLaidOut(lx, pos, f, pos + |FieldTokens(f)|)
  {
    hide At;
    var opt: seq<Token> := if f.isOpt then [Op(Question)] else [];
    var star: seq<Token> := if f.isSeq then [Op(Asterisk)] else [];
    var name: seq<Token> := if f.name.Some? then [Id(f.name.value)] else [];
    assert FieldTokens(f) == [Id(f.typ)] + (opt + (star + name));
    var afterOpt := pos + 1 + |opt|;
    var afterStar := afterOpt + |star|;
    AtSplit(lx, pos, [Id(f.typ)], opt + (star + name));
    AtSplit(lx, pos + 1, opt, star + name);
    AtSplit(lx, afterOpt, star, name);
    AtHead(lx, pos, [Id(f.typ)]);
    var end := pos + |FieldTokens(f)|;
    assert end == afterStar + |name|;
    if f.isOpt {
      AtHead(lx, pos + 1, opt);
    }
    if f.isSeq {
      AtHead(lx, afterOpt, star);
    }
    if f.name.Some? {
      AtHead(lx, afterStar, name);
    } else {
      assert afterStar == end;
    }
    assert lx.tokens[afterStar].kind in IdKinds <==> f.name.Some?;
    assert lx.tokens[afterOpt].kind == Asterisk <==> f.isSeq by {
      if !f.isSeq {
        assert afterOpt == afterStar;
      }
    }
    assert lx.tokens[pos + 1].kind == Question <==> f.isOpt by {
      if !f.isOpt {
        assert pos + 1 == afterOpt;
        if !f.isSeq {
          assert afterOpt == afterStar;
        }
      }
    }
  }

  /** The parser reads a field laid out as printed. */
  lemma {:induction false} FieldParse(lx: Lexed, pos: nat, f: Field, end: nat)
    requires FieldLaidOut(lx, pos, f, end)
    ensures ParseField(lx, pos) == Ok((f, end))
  {
  }

  lemma {:induction false} FieldRoundTrip(lx: Lexed, pos: nat, f: Field)
    requires ReadableField(f)
    requires AtThen(lx, pos, FieldTokens(f)) && EndsField(f, Next(lx, pos, FieldTokens(f)))
    ensures pos < |lx.tokens| && lx.tokens[pos].kind == TypeId
    ensures ParseField(lx, pos) == Ok((f, pos + |FieldTokens(f)|))
  {
    var end := pos + |FieldTokens(f)|;
    FieldLayout(lx, pos, f);
    FieldParse(lx, pos, f, end);
  }

  /* From here on each level has three parts. A layout lemma says where the
     printed pieces of a node sit, in position variables chosen by the
     caller; a parse step says what one turn of the parser does with pieces
     already known to read back; and the round-trip lemma joins the two
     with the parser's definitions hidden, so that the parser is only ever
     unfolded inside a step. */

  /** The conditions on a field list carry over to its tail. */
  lemma {:induction false} ItemsTail(fs: seq<Field>, commas: seq<bool>)
    requires |commas| == |fs| && |fs| > 0 && ReadableFields(fs)
    requires forall i | 0 <= i < |fs| - 1 :: commas[i] || fs[i].name.Some?
    ensures ReadableField(fs[0]) && (!commas[0] && |fs| > 1 ==> fs[0].name.Some?)
    ensures |commas[1..]| == |fs[1..]| && ReadableFields(fs[1..])
    ensures forall i | 0 <= i < |fs[1..]| - 1 :: commas[1..][i] || fs[1..][i].name.Some?
  {
    forall i | 0 <= i < |fs[1..]|
      ensures ReadableField(fs[1..][i])
    {
      assert fs[1..][i] == fs[i + 1];
    }
    forall i | 0 <= i < |fs[1..]| - 1
      ensures commas[1..][i] || fs[1..][i].name.Some?
    {
      assert commas[1..][i] == commas[i + 1];
    }
  }

  lemma {:induction false} ItemsLayout(lx: Lexed, pos: nat, fs: seq<Field>, commas: seq<bool>, afterField: nat, afterComma: nat, end: nat)
    requires |commas| == |fs| && |fs| > 0
    requires !commas[0] && |fs| > 1 ==> fs[0].name.Some?
    requires AtThen(lx, pos, ItemTokens(fs, commas)) && Next(lx, pos, ItemTokens(fs, commas)).kind == RParen
    requires afterField == pos + |FieldTokens(fs[0])|
    requires afterComma == afterField + (if commas[0] then 1 else 0)
    requires end == pos + |ItemTokens(fs, commas)|
    ensures AtThen(lx, pos, FieldTokens(fs[0])) && EndsField(fs[0], Next(lx, pos, FieldTokens(fs[0])))
    ensures afterField < |lx.tokens|
    ensures lx.tokens[afterField].kind == Comma ==> afterComma == afterField + 1
    ensures lx.tokens[afterField].kind != Comma ==> afterComma == afterField
    ensures AtThen(lx, afterComma, ItemTokens(fs[1..], commas[1..]))
    ensures Next(lx, afterComma, ItemTokens(fs[1..], commas[1..])).kind == RParen
    ensures afterComma + |ItemTokens(fs[1..], commas[1..])| == end
  {
    hide At;
    var comma: seq<Token> := if commas[0] then [Op(Comma)] else [];
    var rest := ItemTokens(fs[1..], commas[1..]);
    assert ItemTokens(fs, commas) == FieldTokens(fs[0]) + comma + rest;
    AtSplit3(lx, pos, FieldTokens(fs[0]), comma, rest);
    if commas[0] {
      AtHead(lx, afterField, comma);
    } else if |fs| > 1 {
      assert rest[0] == Id(fs[1].typ);
      AtHead(lx, afterField, rest);
    } else {
      assert afterField == end;
    }
  }

  /** One turn of the field loop: a field, then a `)` that ends the loop, a
      `,` that is skipped, or anything else, which goes back to the loop
      test. After a `)` the loop test fails at once, so in every case the
      rest of the list is what the loop reads from `afterComma`. */
  lemma {:induction false} ItemsParseStep(lx: Lexed, pos: nat, f: Field, afterField: nat, afterComma: nat, rest: seq<Field>, end: nat)
    requires pos < |lx.tokens| && lx.tokens[pos].kind == TypeId
    requires ParseField(lx, pos) == Ok((f, afterField)) && afterField < |lx.tokens|
    requires lx.tokens[afterField].kind == Comma ==> afterComma == afterField + 1
    requires lx.tokens[afterField].kind != Comma ==> afterComma == afterField
    requires FieldItems(lx, afterComma) == Ok((rest, end))
    ensures FieldItems(lx, pos) == Ok(([f] + rest, end))
  {
    hide ParseField, ParseFields, ParseType;
    assert KindAt(lx, pos) == Ok(TypeId);
    var next := lx.tokens[afterField].kind;
    assert KindAt(lx, afterField) == Ok(next);
    if next == RParen {
      assert FieldItems(lx, afterField) == Ok(([], afterField));
      assert [f] + rest == [f];
    } else if next == Comma {
      assert Advance(lx, afterField) == Ok(afterField + 1);
    }
    hide KindAt, Advance;
  }

  /** The field loop reads back any list printed with any comma pattern in
      which a field not followed by a comma has a name (or is last), up to
      the closing parenthesis. Trailing commas are therefore accepted, and
      so are named fields written without commas between them. */
  lemma {:induction false} ItemsRoundTrip(lx: Lexed, pos: nat, fs: seq<Field>, commas: seq<bool>)
    requires |commas| == |fs| && ReadableFields(fs)
    requires forall i | 0 <= i < |fs| - 1 :: commas[i] || fs[i].name.Some?
    requires AtThen(lx, pos, ItemTokens(fs, commas)) && Next(lx, pos, ItemTokens(fs, commas)).kind == RParen
    ensures FieldItems(lx, pos) == Ok((fs, pos + |ItemTokens(fs, commas)|))
    decreases |fs|, 1
  {
    hide ParseField, ParseFields, ParseType;
    if |fs| == 0 {
      assert lx.tokens[pos].kind == RParen;
    } else {
      hide *;
      var afterField := pos + |FieldTokens(fs[0])|;
      var afterComma := afterField + (if commas[0] then 1 else 0);
      var end := pos + |ItemTokens(fs, commas)|;
      ItemsTail(fs, commas);
      ItemsLayout(lx, pos, fs, commas, afterField, afterComma, end);
      FieldRoundTrip(lx, pos, fs[0]);
      ItemsCons(lx, pos, fs, commas, afterField, afterComma, end);
    }
  }

  /** The items after a first field already read back. */
  lemma {:induction false} ItemsCons(lx: Lexed, pos: nat, fs: seq<Field>, commas: seq<bool>, afterField: nat, afterComma: nat, end: nat)
    requires |fs| > 0 && |commas| == |fs| && ReadableFields(fs[1..])
    requires forall i | 0 <= i < |fs[1..]| - 1 :: commas[1..][i] || fs[1..][i].name.Some?
    requires pos < |lx.tokens| && lx.tokens[pos].kind == TypeId
    requires ParseField(lx, pos) == Ok((fs[0], afterField)) && afterField < |lx.tokens|
    requires lx.tokens[afterField].kind == Comma ==> afterComma == afterField + 1
    requires lx.tokens[afterField].kind != Comma ==> afterComma == afterField
    requires AtThen(lx, afterComma, ItemTokens(fs[1..], commas[1..]))
    requires Next(lx, afterComma, ItemTokens(fs[1..], commas[1..])).kind == RParen
    requires afterComma + |ItemTokens(fs[1..], commas[1..])| == end
    ensures FieldItems(lx, pos) == Ok((fs, end))
    decreases |fs|, 0
  {
    hide *;
    ItemsRoundTrip(lx, afterComma, fs[1..], commas[1..]);
    ItemsParseStep(lx, pos, fs[0], afterField, afterComma, fs[1..], end);
    assert [fs[0]] + fs[1..] == fs;
  }

  lemma {:induction false} FieldsLayout(lx: Lexed, pos: nat, fs: seq<Field>, start: nat, close: nat, end: nat)
    requires At(lx, pos, FieldsTokens(fs))
    requires start == pos + 1 && close == start + |ItemTokens(fs, Separators(|fs|))| && end == pos + |FieldsTokens(fs)|
    ensures pos < |lx.tokens| && lx.tokens[pos].kind == LParen
    ensures AtThen(lx, start, ItemTokens(fs, Separators(|fs|)))
    ensures Next(lx, start, ItemTokens(fs, Separators(|fs|))).kind == RParen
    ensures close < |lx.tokens| && lx.tokens[close].kind == RParen && end == close + 1
    ensures forall i | 0 <= i < |fs| - 1 :: Separators(|fs|)[i] || fs[i].name.Some?
  {
    var items := ItemTokens(fs, Separators(|fs|));
    AtSplit3(lx, pos, [Op(LParen)], items, [Op(RParen)]);
    AtHead(lx, pos, [Op(LParen)]);
    AtHead(lx, close, [Op(RParen)]);
    forall i | 0 <= i < |fs| - 1
      ensures Separators(|fs|)[i] || fs[i].name.Some?
    {
      SeparatorsAt(|fs|, i);
    }
  }

  lemma {:induction false} FieldsParse(lx: Lexed, pos: nat, fs: seq<Field>, close: nat, end: nat)
    requires pos < |lx.tokens| && lx.tokens[pos].kind == LParen
    requires FieldItems(lx, pos + 1) == Ok((fs, close))
    requires close < |lx.tokens| && lx.tokens[close].kind == RParen && end == close + 1
    requires end < |lx.tokens| || lx.failure.None?
    ensures ParseFields(lx, pos) == Ok((fs, end))
  {
    assert Match(lx, pos, {LParen}) == Ok((lx.tokens[pos].value, pos + 1));
    assert Match(lx, close, {RParen}) == Ok((lx.tokens[close].value, end));
    hide Match, FieldItems;
  }

  /** A field list reads back; the stream must not fail right after its
      closing parenthesis. */
  lemma {:induction false} FieldsRoundTrip(lx: Lexed, pos: nat, fs: seq<Field>)
    requires ReadableFields(fs)
    requires At(lx, pos, FieldsTokens(fs))
    requires pos + |FieldsTokens(fs)| < |lx.tokens| || lx.failure.None?
    ensures ParseFields(lx, pos) == Ok((fs, pos + |FieldsTokens(fs)|))
  {
    hide *;
    var start := pos + 1;
    var close := start + |ItemTokens(fs, Separators(|fs|))|;
    var end := pos + |FieldsTokens(fs)|;
    FieldsLayout(lx, pos, fs, start, close, end);
    ItemsRoundTrip(lx, start, fs, Separators(|fs|));
    FieldsParse(lx, pos, fs, close, end);
  }

  // ---------------------------------------------------------------------
  // Sums and products
  // ---------------------------------------------------------------------

  /** A token that cannot continue a sum's constructors. */
  predicate EndsConstructors(t: Token) {
    t.kind !in {LParen, Pipe}
  }

  lemma {:induction false} ConstructorLayout(lx: Lexed, pos: nat, c: Constructor, start: nat, end: nat)
    requires ReadableConstructor(c)
    requires AtThen(lx, pos, ConstructorTokens(c)) && Next(lx, pos, ConstructorTokens(c)).kind != LParen
    requires start == pos + 1 && end == pos + |ConstructorTokens(c)|
    ensures pos < |lx.tokens| && lx.tokens[pos].kind == ConstructorId && lx.tokens[pos].value == c.name
    ensures start < |lx.tokens| && ReadableFields(c.fields)
    ensures lx.tokens[start].kind == LParen ==>
      At(lx, start, FieldsTokens(c.fields)) && start + |FieldsTokens(c.fields)| == end && end < |lx.tokens|
    ensures lx.tokens[start].kind != LParen ==> c.fields == [] && end == start
  {
    var fields := if |c.fields| == 0 then [] else FieldsTokens(c.fields);
    AtSplit(lx, pos, [Id(c.name)], fields);
    AtHead(lx, pos, [Id(c.name)]);
    if |c.fields| > 0 {
      AtHead(lx, start, fields);
    }
  }

  lemma {:induction false} ConstructorParse(lx: Lexed, pos: nat, c: Constructor, end: nat)
    requires pos + 1 < |lx.tokens| && lx.tokens[pos].kind == ConstructorId && lx.tokens[pos].value == c.name
    requires lx.tokens[pos + 1].kind == LParen ==> ParseFields(lx, pos + 1) == Ok((c.fields, end))
    requires lx.tokens[pos + 1].kind != LParen ==> c.fields == [] && end == pos + 1
    ensures ParseConstructor(lx, pos) == Ok((c, end))
  {
  }

  lemma {:induction false} ConstructorRoundTrip(lx: Lexed, pos: nat, c: Constructor)
    requires ReadableConstructor(c)
    requires AtThen(lx, pos, ConstructorTokens(c)) && Next(lx, pos, ConstructorTokens(c)).kind != LParen
    ensures pos < |lx.tokens| && lx.tokens[pos].kind == ConstructorId
    ensures ParseConstructor(lx, pos) == Ok((c, pos + |ConstructorTokens(c)|))
  {
    hide *;
    var start := pos + 1;
    var end := pos + |ConstructorTokens(c)|;
    ConstructorLayout(lx, pos, c, start, end);
    if lx.tokens[start].kind == LParen {
      FieldsRoundTrip(lx, start, c.fields);
    }
    ConstructorParse(lx, pos, c, end);
  }

  lemma {:induction false} ConstructorsTail(cs: seq<Constructor>)
    requires |cs| > 0 && ReadableConstructors(cs)
    ensures ReadableConstructor(cs[0]) && ReadableConstructors(cs[1..])
  {
    forall i | 0 <= i < |cs[1..]|
      ensures ReadableConstructor(cs[1..][i])
    {
      assert cs[1..][i] == cs[i + 1];
    }
  }

  /** Where the tokens of non-empty alternatives sit: `|`, the first
      constructor, then the other alternatives, followed by a token that
      ends them. */
  lemma {:induction false} AlternativesLayout(lx: Lexed, pos: nat, cs: seq<Constructor>, start: nat, after: nat, end: nat)
    requires |cs| > 0
    requires AtThen(lx, pos, AlternativesTokens(cs)) && EndsConstructors(Next(lx, pos, AlternativesTokens(cs)))
    requires start == pos + 1 && after == start + |ConstructorTokens(cs[0])| && end == pos + |AlternativesTokens(cs)|
    ensures start < |lx.tokens| && lx.tokens[pos].kind == Pipe
    ensures At(lx, start, ConstructorTokens(cs[0]))
    ensures AtThen(lx, after, AlternativesTokens(cs[1..])) && EndsConstructors(Next(lx, after, AlternativesTokens(cs[1..])))
    ensures after + |AlternativesTokens(cs[1..])| == end
  {
    var c := ConstructorTokens(cs[0]);
    var rest := AlternativesTokens(cs[1..]);
    assert AlternativesTokens(cs) == [Op(Pipe)] + c + rest;
    assert Op(Pipe).kind == Pipe;
    hide At, AtThen, Next, AlternativesTokens, ConstructorTokens, Op;
    AtThenSplit3At(lx, pos, [Op(Pipe)], c, rest, start, after);
    AtHead(lx, pos, [Op(Pipe)]);
  }

  /** A constructor followed by more alternatives, or by a token that ends
      them, is followed by something other than `(`. */
  lemma {:induction false} AlternativesFirst(lx: Lexed, start: nat, c: Constructor, after: nat, cs: seq<Constructor>)
    requires At(lx, start, ConstructorTokens(c)) && after == start + |ConstructorTokens(c)|
    requires AtThen(lx, after, AlternativesTokens(cs)) && EndsConstructors(Next(lx, after, AlternativesTokens(cs)))
    ensures AtThen(lx, start, ConstructorTokens(c)) && Next(lx, start, ConstructorTokens(c)).kind != LParen
  {
    if |cs| > 0 {
      AtHead(lx, after, AlternativesTokens(cs));
    }
  }

  /** One turn of the constructor loop: `|` and a constructor. */
  lemma {:induction false} AlternativesParseStep(lx: Lexed, pos: nat, c: Constructor, afterConstructor: nat, rest: seq<Constructor>, end: nat)
    requires pos + 1 < |lx.tokens| && lx.tokens[pos].kind == Pipe
    requires ParseConstructor(lx, pos + 1) == Ok((c, afterConstructor))
    requires MoreConstructors(lx, afterConstructor) == Ok((rest, end))
    ensures MoreConstructors(lx, pos) == Ok(([c] + rest, end))
  {
  }

  lemma {:induction false} AlternativesRoundTrip(lx: Lexed, pos: nat, cs: seq<Constructor>)
    requires ReadableConstructors(cs)
    requires AtThen(lx, pos, AlternativesTokens(cs)) && EndsConstructors(Next(lx, pos, AlternativesTokens(cs)))
    ensures MoreConstructors(lx, pos) == Ok((cs, pos + |AlternativesTokens(cs)|))
    decreases |cs|, 1
  {
    if |cs| == 0 {
      assert lx.tokens[pos].kind != Pipe;
    } else {
      AlternativesCons(lx, pos, cs);
    }
  }

  /** Non-empty alternatives: the first one, then the others by induction. */
  lemma {:induction false} AlternativesCons(lx: Lexed, pos: nat, cs: seq<Constructor>)
    requires |cs| > 0 && ReadableConstructors(cs)
    requires AtThen(lx, pos, AlternativesTokens(cs)) && EndsConstructors(Next(lx, pos, AlternativesTokens(cs)))
    ensures MoreConstructors(lx, pos) == Ok((cs, pos + |AlternativesTokens(cs)|))
    decreases |cs|, 0
  {
    hide *;
    var start := pos + 1;
    var after := start + |ConstructorTokens(cs[0])|;
    var end := pos + |AlternativesTokens(cs)|;
    ConstructorsTail(cs);
    AlternativesLayout(lx, pos, cs, start, after, end);
    AlternativesFirst(lx, start, cs[0], after, cs[1..]);
    ConstructorRoundTrip(lx, start, cs[0]);
    AlternativesRoundTrip(lx, after, cs[1..]);
    AlternativesParseStep(lx, pos, cs[0], after, cs[1..], end);
    assert [cs[0]] + cs[1..] == cs;
  }

  /** A token that ends a definition: the closing brace, or the name of the
      next definition, which may be `attributes` only when `shown` had the
      attributes written out. */
  predicate EndsDefinition(t: Token, shown: bool) {
    t.kind == RBrace || (t.kind == TypeId && (shown || t.value != "attributes"))
  }

  lemma {:induction false} AttributesLayout(lx: Lexed, pos: nat, attributes: seq<Field>, shown: bool, start: nat, end: nat)
    requires AtThen(lx, pos, AttributesTokens(attributes, shown)) && EndsDefinition(Next(lx, pos, AttributesTokens(attributes, shown)), shown)
    requires start == pos + 1 && end == pos + |AttributesTokens(attributes, shown)|
    ensures pos < |lx.tokens|
    ensures IsKeyword(lx.tokens[pos], "attributes") ==>
      start < |lx.tokens| && At(lx, start, FieldsTokens(attributes))
      && start + |FieldsTokens(attributes)| == end && end < |lx.tokens|
    ensures !IsKeyword(lx.tokens[pos], "attributes") ==> attributes == [] && end == pos
  {
    if |attributes| > 0 || shown {
      AtSplit(lx, pos, [Id("attributes")], FieldsTokens(attributes));
      AtHead(lx, pos, [Id("attributes")]);
      AtHead(lx, start, FieldsTokens(attributes));
    }
  }

  lemma {:induction false} AttributesParse(lx: Lexed, pos: nat, attributes: seq<Field>, end: nat)
    requires pos < |lx.tokens|
    requires IsKeyword(lx.tokens[pos], "attributes") ==>
      pos + 1 < |lx.tokens| && ParseFields(lx, pos + 1) == Ok((attributes, end))
    requires !IsKeyword(lx.tokens[pos], "attributes") ==> attributes == [] && end == pos
    ensures ParseOptionalAttributes(lx, pos) == Ok((attributes, end))
  {
    hide ParseFields, FieldItems;
  }

  lemma {:induction false} AttributesRoundTrip(lx: Lexed, pos: nat, attributes: seq<Field>, shown: bool)
    requires ReadableFields(attributes)
    requires AtThen(lx, pos, AttributesTokens(attributes, shown)) && EndsDefinition(Next(lx, pos, AttributesTokens(attributes, shown)), shown)
    ensures ParseOptionalAttributes(lx, pos) == Ok((attributes, pos + |AttributesTokens(attributes, shown)|))
  {
    hide *;
    var start := pos + 1;
    var end := pos + |AttributesTokens(attributes, shown)|;
    AttributesLayout(lx, pos, attributes, shown, start, end);
    if IsKeyword(lx.tokens[pos], "attributes") {
      FieldsRoundTrip(lx, start, attributes);
    }
    AttributesParse(lx, pos, attributes, end);
  }

  lemma {:induction false} SumReadable(v: Value)
    requires v.Sum? && ReadableValue(v)
    ensures |v.types| > 0 && ReadableConstructors(v.types) && ReadableFields(v.attributes)
    ensures v == Sum([v.types[0]] + v.types[1..], v.attributes)
  {
    assert [v.types[0]] + v.types[1..] == v.types;
  }

  /** Where the tokens of a sum sit: the first constructor, the other
      alternatives, then the attributes, each followed by a token that ends
      it. */
  lemma {:induction false} SumLayout(lx: Lexed, pos: nat, v: Value, shown: bool, afterFirst: nat, afterAlternatives: nat, end: nat)
    requires v.Sum? && |v.types| > 0
    requires AtThen(lx, pos, ValueTokens(v, shown)) && EndsDefinition(Next(lx, pos, ValueTokens(v, shown)), shown)
    requires afterFirst == pos + |ConstructorTokens(v.types[0])|
    requires afterAlternatives == afterFirst + |AlternativesTokens(v.types[1..])|
    requires end == pos + |ValueTokens(v, shown)|
    ensures At(lx, pos, ConstructorTokens(v.types[0]))
    ensures AtThen(lx, afterFirst, AlternativesTokens(v.types[1..]))
    ensures EndsConstructors(Next(lx, afterFirst, AlternativesTokens(v.types[1..])))
    ensures AtThen(lx, afterAlternatives, AttributesTokens(v.attributes, shown))
    ensures EndsDefinition(Next(lx, afterAlternatives, AttributesTokens(v.attributes, shown)), shown)
    ensures afterAlternatives + |AttributesTokens(v.attributes, shown)| == end
  {
    hide *;
    SumTokens(v, shown);
    AttributesHead(v.attributes, shown);
    EndsDefinitionEndsConstructors(Next(lx, pos, ValueTokens(v, shown)), shown);
    AtThenSplit3(lx, pos, ConstructorTokens(v.types[0]), AlternativesTokens(v.types[1..]), AttributesTokens(v.attributes, shown));
    if |AttributesTokens(v.attributes, shown)| > 0 {
      EndsAlike(Next(lx, afterFirst, AlternativesTokens(v.types[1..])), AttributesTokens(v.attributes, shown)[0], shown);
    }
  }

  /** Whether a token ends a node depends only on its kind and text. */
  lemma {:induction false} EndsAlike(t: Token, u: Token, shown: bool)
    requires t.kind == u.kind && t.value == u.value
    ensures EndsConstructors(t) <==> EndsConstructors(u)
    ensures EndsDefinition(t, shown) <==> EndsDefinition(u, shown)
  {
  }

  lemma {:induction false} EndsDefinitionEndsConstructors(t: Token, shown: bool)
    ensures EndsDefinition(t, shown) ==> EndsConstructors(t)
  {
  }

  lemma {:induction false} SumTokens(v: Value, shown: bool)
    requires v.Sum? && |v.types| > 0
    ensures ValueTokens(v, shown) == ConstructorTokens(v.types[0]) + AlternativesTokens(v.types[1..]) + AttributesTokens(v.attributes, shown)
  {
  }

  /** Printed attributes start with the keyword, which ends a sum's
      alternatives. */
  lemma {:induction false} AttributesHead(attributes: seq<Field>, shown: bool)
    ensures |AttributesTokens(attributes, shown)| > 0 ==> AttributesTokens(attributes, shown)[0] == Id("attributes")
    ensures |AttributesTokens(attributes, shown)| > 0 ==> EndsConstructors(AttributesTokens(attributes, shown)[0])
  {
  }

  lemma {:induction false} SumParse(lx: Lexed, pos: nat, c: Constructor, afterFirst: nat, rest: seq<Constructor>,
                 afterAlternatives: nat, attributes: seq<Field>, end: nat)
    requires pos < |lx.tokens| && lx.tokens[pos].kind == ConstructorId
    requires ParseConstructor(lx, pos) == Ok((c, afterFirst))
    requires MoreConstructors(lx, afterFirst) == Ok((rest, afterAlternatives))
    requires ParseOptionalAttributes(lx, afterAlternatives) == Ok((attributes, end))
    ensures ParseType(lx, pos) == Ok((Sum([c] + rest, attributes), end))
  {
  }

  lemma {:induction false} SumRoundTrip(lx: Lexed, pos: nat, v: Value, shown: bool)
    requires v.Sum? && |v.types| > 0 && ReadableValue(v)
    requires AtThen(lx, pos, ValueTokens(v, shown)) && EndsDefinition(Next(lx, pos, ValueTokens(v, shown)), shown)
    ensures ParseType(lx, pos) == Ok((v, pos + |ValueTokens(v, shown)|))
  {
    hide *;
    var afterFirst := pos + |ConstructorTokens(v.types[0])|;
    var afterAlternatives := afterFirst + |AlternativesTokens(v.types[1..])|;
    var end := pos + |ValueTokens(v, shown)|;
    SumReadable(v);
    ConstructorsTail(v.types);
    SumLayout(lx, pos, v, shown, afterFirst, afterAlternatives, end);
    AlternativesFirst(lx, pos, v.types[0], afterFirst, v.types[1..]);
    ConstructorRoundTrip(lx, pos, v.types[0]);
    AlternativesRoundTrip(lx, afterFirst, v.types[1..]);
    AttributesRoundTrip(lx, afterAlternatives, v.attributes, shown);
    SumParse(lx, pos, v.types[0], afterFirst, v.types[1..], afterAlternatives, v.attributes, end);
  }

  lemma {:induction false} ProductLayout(lx: Lexed, pos: nat, v: Value, shown: bool, afterFields: nat, end: nat)
    requires v.Product? && ReadableValue(v)
    requires AtThen(lx, pos, ValueTokens(v, shown)) && EndsDefinition(Next(lx, pos, ValueTokens(v, shown)), shown)
    requires afterFields == pos + |FieldsTokens(v.fields)| && end == pos + |ValueTokens(v, shown)|
    ensures ReadableFields(v.fields) && ReadableFields(v.attributes)
    ensures pos < |lx.tokens| && lx.tokens[pos].kind == LParen
    ensures At(lx, pos, FieldsTokens(v.fields)) && pos + |FieldsTokens(v.fields)| < |lx.tokens|
    ensures AtThen(lx, afterFields, AttributesTokens(v.attributes, shown))
    ensures EndsDefinition(Next(lx, afterFields, AttributesTokens(v.attributes, shown)), shown)
    ensures afterFields + |AttributesTokens(v.attributes, shown)| == end
    ensures v == Product(v.fields, v.attributes)
  {
    var fields := FieldsTokens(v.fields);
    var attrs := AttributesTokens(v.attributes, shown);
    AtSplit(lx, pos, fields, attrs);
    AtHead(lx, pos, fields);
    if |attrs| > 0 {
      AtHead(lx, afterFields, attrs);
    }
  }

  lemma {:induction false} ProductParse(lx: Lexed, pos: nat, fs: seq<Field>, afterFields: nat, attributes: seq<Field>, end: nat)
    requires pos < |lx.tokens| && lx.tokens[pos].kind == LParen
    requires ParseFields(lx, pos) == Ok((fs, afterFields))
    requires ParseOptionalAttributes(lx, afterFields) == Ok((attributes, end))
    ensures ParseType(lx, pos) == Ok((Product(fs, attributes), end))
  {
  }

  lemma {:induction false} ProductRoundTrip(lx: Lexed, pos: nat, v: Value, shown: bool)
    requires v.Product? && ReadableValue(v)
    requires AtThen(lx, pos, ValueTokens(v, shown)) && EndsDefinition(Next(lx, pos, ValueTokens(v, shown)), shown)
    ensures ParseType(lx, pos) == Ok((v, pos + |ValueTokens(v, shown)|))
  {
    hide *;
    var afterFields := pos + |FieldsTokens(v.fields)|;
    var end := pos + |ValueTokens(v, shown)|;
    ProductLayout(lx, pos, v, shown, afterFields, end);
    FieldsRoundTrip(lx, pos, v.fields);
    AttributesRoundTrip(lx, afterFields, v.attributes, shown);
    ProductParse(lx, pos, v.fields, afterFields, v.attributes, end);
  }

  lemma {:induction false} ValueRoundTrip(lx: Lexed, pos: nat, v: Value, shown: bool)
    requires ReadableValue(v)
    requires AtThen(lx, pos, ValueTokens(v, shown)) && EndsDefinition(Next(lx, pos, ValueTokens(v, shown)), shown)
    ensures ParseType(lx, pos) == Ok((v, pos + |ValueTokens(v, shown)|))
  {
    if v.Sum? {
      SumRoundTrip(lx, pos, v, shown);
    } else {
      ProductRoundTrip(lx, pos, v, shown);
    }
  }

  // ---------------------------------------------------------------------
  // Definitions and modules
  // ---------------------------------------------------------------------

  lemma {:induction false} DefinitionTokensSplit(d: Type, shown: bool)
    requires ReadableType(d)
    ensures IsOperator(Equals)
    ensures DefinitionTokens(d, shown) == [Id(d.name)] + [Op(Equals)] + ValueTokens(d.value, shown)
    ensures Id(d.name).kind == TypeId && Id(d.name).value == d.name && Op(Equals).kind == Equals
    ensures ReadableValue(d.value)
  {
  }

  lemma {:induction false} DefinitionLayout(lx: Lexed, pos: nat, d: Type, shown: bool, start: nat, afterValue: nat)
    requires ReadableType(d)
    requires AtThen(lx, pos, DefinitionTokens(d, shown)) && EndsDefinition(Next(lx, pos, DefinitionTokens(d, shown)), shown)
    requires start == pos + 2 && afterValue == pos + |DefinitionTokens(d, shown)|
    ensures pos + 2 < |lx.tokens|
    ensures lx.tokens[pos].kind == TypeId && lx.tokens[pos].value == d.name
    ensures lx.tokens[pos + 1].kind == Equals
    ensures ReadableValue(d.value)
    ensures AtThen(lx, start, ValueTokens(d.value, shown)) && EndsDefinition(Next(lx, start, ValueTokens(d.value, shown)), shown)
    ensures start + |ValueTokens(d.value, shown)| == afterValue
  {
    hide *;
    DefinitionTokensSplit(d, shown);
    AtThenSplit3(lx, pos, [Id(d.name)], [Op(Equals)], ValueTokens(d.value, shown));
    AtHead(lx, pos, [Id(d.name)]);
    AtHead(lx, pos + 1, [Op(Equals)]);
  }

  /** One turn of the definitions loop: a name, `=`, and a type. */
  lemma {:induction false} DefinitionsParseStep(lx: Lexed, pos: nat, d: Type, afterValue: nat, rest: seq<Type>, end: nat)
    requires pos + 2 < |lx.tokens|
    requires lx.tokens[pos].kind == TypeId && lx.tokens[pos].value == d.name
    requires lx.tokens[pos + 1].kind == Equals
    requires ParseType(lx, pos + 2) == Ok((d.value, afterValue))
    requires ParseDefinitions(lx, afterValue) == Ok((rest, end))
    ensures ParseDefinitions(lx, pos) == Ok(([d] + rest, end))
  {
    assert Advance(lx, pos) == Ok(pos + 1);
    assert Match(lx, pos + 1, {Equals}) == Ok((lx.tokens[pos + 1].value, pos + 2));
    assert d == Type(lx.tokens[pos].value, d.value);
    hide Match, Advance, ParseType;
  }

  lemma {:induction false} DefinitionRoundTrip(lx: Lexed, pos: nat, d: Type, shown: bool, rest: seq<Type>, end: nat)
    requires ReadableType(d)
    requires AtThen(lx, pos, DefinitionTokens(d, shown)) && EndsDefinition(Next(lx, pos, DefinitionTokens(d, shown)), shown)
    requires ParseDefinitions(lx, pos + |DefinitionTokens(d, shown)|) == Ok((rest, end))
    ensures ParseDefinitions(lx, pos) == Ok(([d] + rest, end))
  {
    hide *;
    var start := pos + 2;
    var afterValue := pos + |DefinitionTokens(d, shown)|;
    DefinitionLayout(lx, pos, d, shown, start, afterValue);
    ValueRoundTrip(lx, start, d.value, shown);
    DefinitionsParseStep(lx, pos, d, afterValue, rest, end);
  }

  /** The conditions on definitions carry over to the tail, and the tail's
      first name ends the first definition. */
  lemma {:induction false} DefinitionsTail(ds: seq<Type>)
    requires |ds| > 0 && ReadableTypes(ds)
    ensures ReadableType(ds[0]) && ReadableTypes(ds[1..])
    ensures DefinitionsTokens(ds) == DefinitionTokens(ds[0], AttributesNext(ds)) + DefinitionsTokens(ds[1..])
    ensures |DefinitionsTokens(ds[1..])| > 0 ==> EndsDefinition(DefinitionsTokens(ds[1..])[0], AttributesNext(ds))
    ensures [ds[0]] + ds[1..] == ds
  {
    if |ds| > 1 {
      assert DefinitionsTokens(ds[1..])[0] == Id(ds[1].name);
      assert ReadableType(ds[1]);
    }
    forall i | 0 <= i < |ds[1..]|
      ensures ReadableType(ds[1..][i])
    {
      assert ds[1..][i] == ds[i + 1];
    }
  }

  lemma {:induction false} RBraceEndsDefinition(t: Token, shown: bool)
    ensures t.kind == RBrace ==> EndsDefinition(t, shown)
  {
  }

  lemma {:induction false} DefinitionsLayout(lx: Lexed, pos: nat, ds: seq<Type>, afterValue: nat, end: nat)
    requires |ds| > 0 && ReadableTypes(ds)
    requires AtThen(lx, pos, DefinitionsTokens(ds)) && Next(lx, pos, DefinitionsTokens(ds)).kind == RBrace
    requires afterValue == pos + |DefinitionTokens(ds[0], AttributesNext(ds))| && end == pos + |DefinitionsTokens(ds)|
    ensures ReadableType(ds[0]) && ReadableTypes(ds[1..])
    ensures AtThen(lx, pos, DefinitionTokens(ds[0], AttributesNext(ds))) && EndsDefinition(Next(lx, pos, DefinitionTokens(ds[0], AttributesNext(ds))), AttributesNext(ds))
    ensures AtThen(lx, afterValue, DefinitionsTokens(ds[1..]))
    ensures Next(lx, afterValue, DefinitionsTokens(ds[1..])).kind == RBrace
    ensures afterValue + |DefinitionsTokens(ds[1..])| == end
    ensures [ds[0]] + ds[1..] == ds
  {
    hide *;
    DefinitionsTail(ds);
    RBraceEndsDefinition(Next(lx, pos, DefinitionsTokens(ds)), AttributesNext(ds));
    AtThenSplit(lx, pos, DefinitionTokens(ds[0], AttributesNext(ds)), DefinitionsTokens(ds[1..]));
    if |DefinitionsTokens(ds[1..])| > 0 {
      EndsAlike(Next(lx, pos, DefinitionTokens(ds[0], AttributesNext(ds))), DefinitionsTokens(ds[1..])[0], AttributesNext(ds));
    }
  }

  lemma {:induction false} DefinitionsRoundTrip(lx: Lexed, pos: nat, ds: seq<Type>)
    requires ReadableTypes(ds)
    requires AtThen(lx, pos, DefinitionsTokens(ds)) && Next(lx, pos, DefinitionsTokens(ds)).kind == RBrace
    ensures ParseDefinitions(lx, pos) == Ok((ds, pos + |DefinitionsTokens(ds)|))
    decreases |ds|, 1
  {
    if |ds| == 0 {
      assert lx.tokens[pos].kind == RBrace;
    } else {
      hide *;
      var afterValue := pos + |DefinitionTokens(ds[0], AttributesNext(ds))|;
      var end := pos + |DefinitionsTokens(ds)|;
      DefinitionsLayout(lx, pos, ds, afterValue, end);
      DefinitionsCons(lx, pos, ds, afterValue, end);
    }
  }

  /** The definitions after the first one, then the first one. */
  lemma {:induction false} DefinitionsCons(lx: Lexed, pos: nat, ds: seq<Type>, afterValue: nat, end: nat)
    requires |ds| > 0 && ReadableType(ds[0]) && ReadableTypes(ds[1..])
    requires AtThen(lx, pos, DefinitionTokens(ds[0], AttributesNext(ds))) && EndsDefinition(Next(lx, pos, DefinitionTokens(ds[0], AttributesNext(ds))), AttributesNext(ds))
    requires afterValue == pos + |DefinitionTokens(ds[0], AttributesNext(ds))|
    requires AtThen(lx, afterValue, DefinitionsTokens(ds[1..]))
    requires Next(lx, afterValue, DefinitionsTokens(ds[1..])).kind == RBrace
    requires afterValue + |DefinitionsTokens(ds[1..])| == end
    requires [ds[0]] + ds[1..] == ds
    ensures ParseDefinitions(lx, pos) == Ok((ds, end))
    decreases |ds|, 0
  {
    hide *;
    DefinitionsRoundTrip(lx, afterValue, ds[1..]);
    DefinitionRoundTrip(lx, pos, ds[0], AttributesNext(ds), ds[1..], end);
  }

  lemma {:induction false} ModuleLayout(lx: Lexed, pos: nat, m: Module, start: nat, close: nat, end: nat)
    requires At(lx, pos, ModuleTokens(m))
    requires start == pos + 3 && close == start + |DefinitionsTokens(m.dfns)| && end == pos + |ModuleTokens(m)|
    ensures pos + 3 < |lx.tokens|
    ensures IsKeyword(lx.tokens[pos], "module")
    ensures lx.tokens[pos + 1].kind in IdKinds && lx.tokens[pos + 1].value == m.name
    ensures lx.tokens[pos + 2].kind == LBrace
    ensures AtThen(lx, start, DefinitionsTokens(m.dfns)) && Next(lx, start, DefinitionsTokens(m.dfns)).kind == RBrace
    ensures close < |lx.tokens| && lx.tokens[close].kind == RBrace && end == close + 1
  {
    var a, b, c := Id("module"), Id(m.name), Op(LBrace);
    ModuleHead(m);
    assert |[a, b, c]| == 3;
    hide At, AtThen, Next, ModuleTokens, DefinitionsTokens, Id, Op;
    AtBefore(lx, pos, [a, b, c], DefinitionsTokens(m.dfns), Op(RBrace), start, close);
    AtFirstThree(lx, pos, a, b, c);
  }

  /** The middle piece of `h + d + [t]` is followed by `t`. */
  lemma AtBefore(lx: Lexed, pos: nat, h: seq<Token>, d: seq<Token>, t: Token, start: nat, close: nat)
    requires At(lx, pos, h + d + [t])
    requires start == pos + |h| && close == start + |d|
    ensures At(lx, pos, h)
    ensures AtThen(lx, start, d) && Next(lx, start, d).kind == t.kind
    ensures close < |lx.tokens| && lx.tokens[close].kind == t.kind
  {
    hide At;
    AtSplit(lx, pos, h + d, [t]);
    AtSplit(lx, pos, h, d);
    AtHead(lx, close, [t]);
  }

  lemma AtFirstThree(lx: Lexed, pos: nat, a: Token, b: Token, c: Token)
    requires At(lx, pos, [a, b, c])
    ensures pos + 2 < |lx.tokens|
    ensures lx.tokens[pos].kind == a.kind && lx.tokens[pos].value == a.value
    ensures lx.tokens[pos + 1].kind == b.kind && lx.tokens[pos + 1].value == b.value
    ensures lx.tokens[pos + 2].kind == c.kind && lx.tokens[pos + 2].value == c.value
  {
    assert [a, b, c][0] == a && [a, b, c][1] == b && [a, b, c][2] == c;
  }

  /** The tokens a module prints to, piece by piece. */
  lemma ModuleHead(m: Module)
    ensures ModuleTokens(m) == [Id("module"), Id(m.name), Op(LBrace)] + DefinitionsTokens(m.dfns) + [Op(RBrace)]
    ensures Id("module").kind == TypeId && Id("module").value == "module"
    ensures Id(m.name).kind in IdKinds && Id(m.name).value == m.name
    ensures Op(LBrace).kind == LBrace && Op(RBrace).kind == RBrace
  {
  }

  lemma BracedParse(lx: Lexed, pos: nat, dfns: seq<Type>, close: nat)
    requires pos < |lx.tokens| && lx.tokens[pos].kind == LBrace
    requires ParseDefinitions(lx, pos + 1) == Ok((dfns, close))
    requires close < |lx.tokens| && lx.tokens[close].kind == RBrace
    requires close + 1 < |lx.tokens| || lx.failure.None?
    ensures ParseBraced(lx, pos) == Ok((dfns, close + 1))
  {
    hide ParseDefinitions;
  }

  lemma {:induction false} ModuleParse(lx: Lexed, pos: nat, m: Module, close: nat, end: nat)
    requires pos + 3 < |lx.tokens|
    requires IsKeyword(lx.tokens[pos], "module")
    requires lx.tokens[pos + 1].kind in IdKinds && lx.tokens[pos + 1].value == m.name
    requires lx.tokens[pos + 2].kind == LBrace
    requires ParseDefinitions(lx, pos + 3) == Ok((m.dfns, close))
    requires close < |lx.tokens| && lx.tokens[close].kind == RBrace && end == close + 1
    requires end < |lx.tokens| || lx.failure.None?
    ensures ParseModule(lx, pos) == Ok((m, end))
  {
    hide ParseDefinitions, ParseBraced;
    BracedParse(lx, pos + 2, m.dfns, close);
  }

  /** A printed module reads back from any position of any stream, whatever
      follows its closing brace, provided the stream does not fail right
      there. */
  lemma {:induction false} ModuleRoundTrip(lx: Lexed, pos: nat, m: Module)
    requires ReadableTypes(m.dfns)
    requires At(lx, pos, ModuleTokens(m))
    requires pos + |ModuleTokens(m)| < |lx.tokens| || lx.failure.None?
    ensures ParseModule(lx, pos) == Ok((m, pos + |ModuleTokens(m)|))
  {
    hide *;
    var start := pos + 3;
    var close := start + |DefinitionsTokens(m.dfns)|;
    var end := pos + |ModuleTokens(m)|;
    ModuleLayout(lx, pos, m, start, close, end);
    DefinitionsRoundTrip(lx, start, m.dfns);
    ModuleParse(lx, pos, m, close, end);
  }

  /** Printing then parsing gives back the module. */
  lemma {:induction false} ParsePrint(m: Module)
    requires PrintableModule(m)
    ensures Parse(Print(m)) == Ok(m)
  {
    TokenizePrint(m);
    ModuleRoundTrip(Tokenize(Print(m)), 0, m);
  }

  /** The module's texts laid out over any number of lines, in order, read
      back as the module: the parser never looks at line numbers. */
  lemma {:induction false} ParseLaidOut(m: Module, ls: seq<seq<string>>)
    requires PrintableModule(m)
    requires Concat(ls) == Values(ModuleTokens(m))
    ensures Parse(RenderLines(ls)) == Ok(m)
  {
    var ts := ModuleTokens(m);
    ModulePrinted(m);
    TokensOfValues(ts);
    LinesLexemes(ls);
    TokenizeRendered(ls);
    LinesTokensTexts(ls, 1);
    var lx := Tokenize(RenderLines(ls));
    forall i | 0 <= i < |ts|
      ensures lx.tokens[i].kind == ts[i].kind && lx.tokens[i].value == ts[i].value
    {
      assert lx.tokens[i].value == Values(ts)[i];
    }
    assert At(lx, 0, ts);
    ModuleRoundTrip(lx, 0, m);
  }
}
