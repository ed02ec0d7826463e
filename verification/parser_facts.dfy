/** What the field loop of the parser accepts and rejects, on the smallest
    token streams that show it. Each lemma fixes the kinds of a few tokens
    from `pos` on and leaves the rest of the stream arbitrary. */
module ParserFacts {
  import opened Errors
  import opened Lexer
  import opened Nodes
  import opened Parser

  /** The field of type `t` with no quantifier and no name. */
  function Bare(t: string): Field {
    Field(t, None, false, false)
  }

  /** A `TypeId` followed by a token that is neither a quantifier nor an
      identifier is one bare field, and the parser stops right after it. */
  lemma BareField(lx: Lexed, pos: nat)
    requires pos + 1 < |lx.tokens| && lx.tokens[pos].kind == TypeId
    requires lx.tokens[pos + 1].kind !in {Question, Asterisk, ConstructorId, TypeId}
    ensures ParseField(lx, pos) == Ok((Bare(lx.tokens[pos].value), pos + 1))
  {
    assert ParseQuantifier(lx, pos + 1) == Ok(((false, false), pos + 1));
    assert ParseOptionalName(lx, pos + 1) == Ok((None, pos + 1));
  }

  /** `()` is an empty field list. */
  lemma EmptyFields(lx: Lexed, pos: nat)
    requires pos + 1 < |lx.tokens|
    requires lx.tokens[pos].kind == LParen && lx.tokens[pos + 1].kind == RParen && Valid(lx, pos + 2)
    ensures ParseFields(lx, pos) == Ok(([], pos + 2))
  {
    assert FieldItems(lx, pos + 1) == Ok(([], pos + 1));
  }

  /** A comma before the closing parenthesis is accepted: `(t,)` is one
      field. */
  lemma TrailingComma(lx: Lexed, pos: nat)
    requires pos + 3 < |lx.tokens|
    requires lx.tokens[pos].kind == LParen && lx.tokens[pos + 1].kind == TypeId && lx.tokens[pos + 2].kind == Comma && lx.tokens[pos + 3].kind == RParen && Valid(lx, pos + 4)
    ensures ParseFields(lx, pos) == Ok(([Bare(lx.tokens[pos + 1].value)], pos + 4))
  {
    BareField(lx, pos + 1);
    assert KindAt(lx, pos + 2) == Ok(Comma) && Advance(lx, pos + 2) == Ok(pos + 3);
    assert FieldItems(lx, pos + 3) == Ok(([], pos + 3));
    assert [Bare(lx.tokens[pos + 1].value)] + [] == [Bare(lx.tokens[pos + 1].value)];
    assert FieldItems(lx, pos + 1) == Ok(([Bare(lx.tokens[pos + 1].value)], pos + 3));
  }

  /** Two commas in a row are an error on the line of the second, which the
      loop leaves for the closing parenthesis to reject. */
  lemma DoubleComma(lx: Lexed, pos: nat)
    requires pos + 3 < |lx.tokens|
    requires lx.tokens[pos].kind == LParen && lx.tokens[pos + 1].kind == TypeId && lx.tokens[pos + 2].kind == Comma && lx.tokens[pos + 3].kind == Comma
    ensures ParseFields(lx, pos) == Err(SyntaxError(Known(lx.tokens[pos + 3].line)))
  {
    BareField(lx, pos + 1);
    assert KindAt(lx, pos + 2) == Ok(Comma) && Advance(lx, pos + 2) == Ok(pos + 3);
    assert FieldItems(lx, pos + 3) == Ok(([], pos + 3));
    assert [Bare(lx.tokens[pos + 1].value)] + [] == [Bare(lx.tokens[pos + 1].value)];
    assert FieldItems(lx, pos + 1) == Ok(([Bare(lx.tokens[pos + 1].value)], pos + 3));
  }

  /** Fields need no comma between them when the first is named:
      `(t a u)` is two fields. */
  lemma NamedFieldsWithoutComma(lx: Lexed, pos: nat)
    requires pos + 4 < |lx.tokens|
    requires lx.tokens[pos].kind == LParen && lx.tokens[pos + 1].kind == TypeId && lx.tokens[pos + 2].kind == TypeId && lx.tokens[pos + 3].kind == TypeId && lx.tokens[pos + 4].kind == RParen && Valid(lx, pos + 5)
    ensures ParseFields(lx, pos)
      == Ok(([Field(lx.tokens[pos + 1].value, Some(lx.tokens[pos + 2].value), false, false),
              Bare(lx.tokens[pos + 3].value)], pos + 5))
  {
    var first := Field(lx.tokens[pos + 1].value, Some(lx.tokens[pos + 2].value), false, false);
    assert ParseQuantifier(lx, pos + 2) == Ok(((false, false), pos + 2));
    assert ParseField(lx, pos + 1) == Ok((first, pos + 3));
    BareField(lx, pos + 3);
    assert FieldItems(lx, pos + 3) == Ok(([Bare(lx.tokens[pos + 3].value)], pos + 4));
    assert KindAt(lx, pos + 3) == Ok(TypeId);
    assert [first] + [Bare(lx.tokens[pos + 3].value)] == [first, Bare(lx.tokens[pos + 3].value)];
    assert FieldItems(lx, pos + 1) == Ok(([first, Bare(lx.tokens[pos + 3].value)], pos + 4));
  }

  /** `?` is looked for before `*`, so `?*` marks a field both optional and
      a sequence. */
  lemma OptionalSequence(lx: Lexed, pos: nat)
    requires pos + 1 < |lx.tokens|
    requires lx.tokens[pos].kind == Question && lx.tokens[pos + 1].kind == Asterisk && Valid(lx, pos + 2)
    ensures ParseQuantifier(lx, pos) == Ok(((true, true), pos + 2))
  {
  }

  /** `*?` in that order is rejected: after `*` the `?` is neither a name
      nor a separator, and the closing parenthesis is expected there. */
  lemma SequenceThenOptional(lx: Lexed, pos: nat)
    requires pos + 3 < |lx.tokens|
    requires lx.tokens[pos].kind == LParen && lx.tokens[pos + 1].kind == TypeId && lx.tokens[pos + 2].kind == Asterisk && lx.tokens[pos + 3].kind == Question
    ensures ParseFields(lx, pos) == Err(SyntaxError(Known(lx.tokens[pos + 3].line)))
  {
    var field := Field(lx.tokens[pos + 1].value, None, true, false);
    assert ParseQuantifier(lx, pos + 2) == Ok(((true, false), pos + 3));
    assert ParseOptionalName(lx, pos + 3) == Ok((None, pos + 3));
    assert ParseField(lx, pos + 1) == Ok((field, pos + 3));
    assert FieldItems(lx, pos + 3) == Ok(([], pos + 3));
    assert KindAt(lx, pos + 3) == Ok(Question);
    assert [field] + [] == [field];
    assert FieldItems(lx, pos + 1) == Ok(([field], pos + 3));
  }

  /** A definition whose body starts with neither `(` nor a constructor name
      is an error on the line of that token; the keyword `attributes` alone
      does not make a product. */
  lemma DefinitionNeedsBody(lx: Lexed, pos: nat)
    requires pos + 2 < |lx.tokens|
    requires lx.tokens[pos].kind == TypeId && lx.tokens[pos + 1].kind == Equals && lx.tokens[pos + 2].kind == TypeId
    ensures ParseDefinitions(lx, pos) == Err(SyntaxError(Known(lx.tokens[pos + 2].line)))
  {
    assert ParseType(lx, pos + 2) == Err(SyntaxError(Known(lx.tokens[pos + 2].line)));
  }

  /** A definition named `attributes` right after a sum without an
      attributes list is read as that sum's attributes, and the `=` after it is then rejected where a field
      list must open. */
  lemma AttributesAfterSum(lx: Lexed, pos: nat)
    requires pos + 4 < |lx.tokens|
    requires lx.tokens[pos].kind == TypeId && lx.tokens[pos + 1].kind == Equals && lx.tokens[pos + 2].kind == ConstructorId
    requires IsKeyword(lx.tokens[pos + 3], "attributes") && lx.tokens[pos + 4].kind == Equals
    ensures ParseDefinitions(lx, pos) == Err(SyntaxError(Known(lx.tokens[pos + 4].line)))
  {
    assert ParseConstructor(lx, pos + 2) == Ok((Constructor(lx.tokens[pos + 2].value, []), pos + 3));
    assert MoreConstructors(lx, pos + 3) == Ok(([], pos + 3));
    assert ParseOptionalAttributes(lx, pos + 3) == Err(SyntaxError(Known(lx.tokens[pos + 4].line)));
    assert ParseType(lx, pos + 2) == Err(SyntaxError(Known(lx.tokens[pos + 4].line)));
  }

  /** The same holds right after a product: a definition named
      `attributes` after `()` is read as the product's attributes. */
  lemma AttributesAfterProduct(lx: Lexed, pos: nat)
    requires pos + 5 < |lx.tokens|
    requires lx.tokens[pos].kind == TypeId && lx.tokens[pos + 1].kind == Equals
    requires lx.tokens[pos + 2].kind == LParen && lx.tokens[pos + 3].kind == RParen
    requires IsKeyword(lx.tokens[pos + 4], "attributes") && lx.tokens[pos + 5].kind == Equals
    ensures ParseDefinitions(lx, pos) == Err(SyntaxError(Known(lx.tokens[pos + 5].line)))
  {
    EmptyFields(lx, pos + 2);
    assert ParseOptionalAttributes(lx, pos + 4) == Err(SyntaxError(Known(lx.tokens[pos + 5].line)));
    assert ParseType(lx, pos + 2) == Err(SyntaxError(Known(lx.tokens[pos + 5].line)));
  }

  /** Attributes are looked for once: after `attributes ()`, even an empty
      list, a definition named `attributes` starts the next definition. */
  lemma AttributesAfterAttributes(lx: Lexed, pos: nat)
    requires pos + 6 < |lx.tokens|
    requires lx.tokens[pos].kind == TypeId && lx.tokens[pos + 1].kind == Equals && lx.tokens[pos + 2].kind == ConstructorId
    requires IsKeyword(lx.tokens[pos + 3], "attributes")
    requires lx.tokens[pos + 4].kind == LParen && lx.tokens[pos + 5].kind == RParen
    requires IsKeyword(lx.tokens[pos + 6], "attributes")
    ensures ParseType(lx, pos + 2) == Ok((Sum([Constructor(lx.tokens[pos + 2].value, [])], []), pos + 6))
    ensures ParseDefinitions(lx, pos + 6).Ok? ==>
      && ParseDefinitions(lx, pos + 6).value.0[0].name == "attributes"
      && ParseDefinitions(lx, pos) == Ok(([Type(lx.tokens[pos].value, Sum([Constructor(lx.tokens[pos + 2].value, [])], []))]
                                         + ParseDefinitions(lx, pos + 6).value.0, ParseDefinitions(lx, pos + 6).value.1))
  {
    EmptyFields(lx, pos + 4);
    assert ParseConstructor(lx, pos + 2) == Ok((Constructor(lx.tokens[pos + 2].value, []), pos + 3));
    assert MoreConstructors(lx, pos + 3) == Ok(([], pos + 3));
    assert ParseOptionalAttributes(lx, pos + 3) == Ok(([], pos + 6));
    assert [Constructor(lx.tokens[pos + 2].value, [])] + [] == [Constructor(lx.tokens[pos + 2].value, [])];
  }

  /** `module M { }` parses only when pulling the token after `}` succeeds:
      the closing `match` pulls it, so a lexical error right after the brace
      fails the parse with that error, while any token there, or a clean end
      of input, leaves the module parsed and that token unread. */
  lemma AfterClosingBrace(lx: Lexed, pos: nat)
    requires pos + 3 < |lx.tokens|
    requires IsKeyword(lx.tokens[pos], "module") && lx.tokens[pos + 1].kind in IdKinds
    requires lx.tokens[pos + 2].kind == LBrace && lx.tokens[pos + 3].kind == RBrace
    ensures pos + 4 < |lx.tokens| || lx.failure.None? ==>
      ParseModule(lx, pos) == Ok((Module(lx.tokens[pos + 1].value, []), pos + 4))
    ensures pos + 4 == |lx.tokens| && lx.failure.Some? ==>
      ParseModule(lx, pos) == Err(lx.failure.value)
  {
  }
}
