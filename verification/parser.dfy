/** The ASDL parser: recursive descent with one token of lookahead over the
    token stream, building a `Module`. The parser's state is a position in
    the stream; every step returns the value it parsed together with the
    position after it, or the syntax error that aborts the whole parse.

    The grammar, with `Id` either kind of identifier:
      module      ::= "module" Id "{" { TypeId "=" type } "}"
      type        ::= fields ["attributes" fields] | sum
      sum         ::= constructor { "|" constructor } ["attributes" fields]
      constructor ::= ConstructorId [fields]
      fields      ::= "(" { TypeId ["?"] ["*"] [Id] [","] } ")"
    where the last line is what the field loop actually accepts. */
module Parser {
  import opened Errors
  import opened Lexer
  import opened Nodes

  const IdKinds: set<TokenKind> := {ConstructorId, TypeId}

  /** A position the parser can stand at: on a token that has been pulled, or
      at the end of a stream that ended without a lexical error. */
  predicate Valid(lx: Lexed, pos: int) {
    || (0 <= pos < |lx.tokens|)
    || (pos == |lx.tokens| && lx.failure.None?)
  }

  // ---------------------------------------------------------------------
  // Primitives
  // ---------------------------------------------------------------------

  /** Pulls the first token: fails only when the very first token is a
      lexical error. */
  function Start(lx: Lexed): (r: Result<nat>)
    ensures r.Ok? ==> r.value == 0 && Valid(lx, 0)
    ensures r.Err? <==> |lx.tokens| == 0 && lx.failure.Some?
    ensures r.Err? ==> lx.failure == Some(r.error)
  {
    if |lx.tokens| == 0 && lx.failure.Some? then Err(lx.failure.value) else Ok(0)
  }

  /** Consumes the current token and pulls the next one: moves exactly one
      position on, and fails only when the token pulled is the lexical error
      that ended the stream. */
  function Advance(lx: Lexed, pos: nat): (r: Result<nat>)
    requires pos < |lx.tokens|
    ensures r.Ok? ==> r.value == pos + 1 && Valid(lx, r.value)
    ensures r.Err? ==> pos + 1 == |lx.tokens| && lx.failure == Some(r.error)
  {
    if pos + 1 == |lx.tokens| && lx.failure.Some? then Err(lx.failure.value) else Ok(pos + 1)
  }

  /** The kind of the current token. At the end of input there is no current
      token, and asking for its kind is a syntax error with no line. */
  function KindAt(lx: Lexed, pos: nat): (r: Result<TokenKind>)
    ensures r.Ok? <==> pos < |lx.tokens|
    ensures r.Ok? ==> r.value == lx.tokens[pos].kind
    ensures r.Err? ==> r.error == SyntaxError(Unknown)
  {
    if pos < |lx.tokens| then Ok(lx.tokens[pos].kind) else Err(SyntaxError(Unknown))
  }

  /** The `match` primitive: the current token must have one of `kinds`; its
      text is returned and the next token pulled. A token of another kind is
      an error on that token's line. */
  function Match(lx: Lexed, pos: nat, kinds: set<TokenKind>): (r: Result<(string, nat)>)
    ensures r.Ok? ==> pos < |lx.tokens| && lx.tokens[pos].kind in kinds
    ensures r.Ok? ==> r.value == (lx.tokens[pos].value, pos + 1) && Valid(lx, pos + 1)
    ensures pos < |lx.tokens| && lx.tokens[pos].kind !in kinds ==> r == Err(SyntaxError(Known(lx.tokens[pos].line)))
    ensures pos >= |lx.tokens| ==> r == Err(SyntaxError(Unknown))
  {
    var kind :- KindAt(lx, pos);
    if kind in kinds then
      var next :- Advance(lx, pos);
      Ok((lx.tokens[pos].value, next))
    else
      Err(SyntaxError(Known(lx.tokens[pos].line)))
  }

  /** A token is the contextual keyword `keyword` when it is a `TypeId` with
      exactly that text. */
  predicate IsKeyword(t: Token, keyword: string) {
    t.kind == TypeId && t.value == keyword
  }

  /** Whether the current token is the contextual keyword `keyword`. */
  function AtKeyword(lx: Lexed, pos: nat, keyword: string): (r: Result<bool>)
    ensures r.Ok? <==> pos < |lx.tokens|
    ensures r.Ok? ==> (r.value <==> IsKeyword(lx.tokens[pos], keyword))
  {
    var kind :- KindAt(lx, pos);
    Ok(kind == TypeId && lx.tokens[pos].value == keyword)
  }

  /** Consumes the current token if it has kind `kind`, and says whether it
      did. */
  function Optional(lx: Lexed, pos: nat, kind: TokenKind): (r: Result<(bool, nat)>)
    ensures r.Ok? ==> pos < |lx.tokens| && Valid(lx, r.value.1)
    ensures r.Ok? ==> (r.value.0 <==> lx.tokens[pos].kind == kind)
    ensures r.Ok? ==> r.value.1 == if r.value.0 then pos + 1 else pos
  {
    var current :- KindAt(lx, pos);
    if current == kind then
      var next :- Advance(lx, pos);
      Ok((true, next))
    else
      Ok((false, pos))
  }

  // ---------------------------------------------------------------------
  // Fields
  // ---------------------------------------------------------------------

  /** The quantifiers after a field's type: `?` is looked for first and `*`
      second, independently, so `? *` sets both flags. Returns
      (is sequence, is optional). */
  function ParseQuantifier(lx: Lexed, pos: nat): (r: Result<((bool, bool), nat)>)
    ensures r.Ok? ==> pos < |lx.tokens| && Valid(lx, r.value.1)
    ensures r.Ok? ==> (r.value.0.1 <==> lx.tokens[pos].kind == Question)
    ensures r.Ok? ==>
      var afterOpt := if r.value.0.1 then pos + 1 else pos;
      && (r.value.0.0 <==> afterOpt < |lx.tokens| && lx.tokens[afterOpt].kind == Asterisk)
      && r.value.1 == if r.value.0.0 then afterOpt + 1 else afterOpt
  {
    var (isOpt, afterOpt) :- Optional(lx, pos, Question);
    var (isSeq, afterSeq) :- Optional(lx, afterOpt, Asterisk);
    Ok(((isSeq, isOpt), afterSeq))
  }

  /** A field's optional name: an identifier of either kind, taken if it is
      the current token. */
  function ParseOptionalName(lx: Lexed, pos: nat): (r: Result<(Option<string>, nat)>)
    ensures r.Ok? ==> pos < |lx.tokens| && Valid(lx, r.value.1)
    ensures r.Ok? ==> (r.value.0.Some? <==> lx.tokens[pos].kind in IdKinds)
    ensures r.Ok? && r.value.0.Some? ==> r.value == (Some(lx.tokens[pos].value), pos + 1)
    ensures r.Ok? && r.value.0.None? ==> r.value.1 == pos
  {
    var kind :- KindAt(lx, pos);
    if kind in IdKinds then
      var next :- Advance(lx, pos);
      Ok((Some(lx.tokens[pos].value), next))
    else
      Ok((None, pos))
  }

  /** One field, starting at its `TypeId`: the type, the quantifiers, and the
      optional name. */
  function ParseField(lx: Lexed, pos: nat): (r: Result<(Field, nat)>)
    requires pos < |lx.tokens| && lx.tokens[pos].kind == TypeId
    ensures r.Ok? ==> pos < r.value.1 && Valid(lx, r.value.1)
    ensures r.Ok? ==> r.value.0.typ == lx.tokens[pos].value
  {
    var afterType :- Advance(lx, pos);
    var (quantifier, afterQuantifier) :- ParseQuantifier(lx, afterType);
    var (name, next) :- ParseOptionalName(lx, afterQuantifier);
    Ok((Field(lx.tokens[pos].value, name, quantifier.0, quantifier.1), next))
  }

  /** The loop inside a field list: fields are read while the current token
      is a `TypeId`; after each field a `)` ends the loop, a `,` is skipped,
      and anything else goes back to the loop test. Stops before the `)`. */
  function FieldItems(lx: Lexed, pos: nat): (r: Result<(seq<Field>, nat)>)
    ensures r.Ok? ==> pos <= r.value.1 && Valid(lx, r.value.1)
    decreases |lx.tokens| - pos
  {
    var kind :- KindAt(lx, pos);
    if kind != TypeId then
      Ok(([], pos))
    else
      var (field, afterField) :- ParseField(lx, pos);
      var next :- KindAt(lx, afterField);
      if next == RParen then
        Ok(([field], afterField))
      else if next == Comma then
        var afterComma :- Advance(lx, afterField);
        var (rest, end) :- FieldItems(lx, afterComma);
        Ok(([field] + rest, end))
      else
        var (rest, end) :- FieldItems(lx, afterField);
        Ok(([field] + rest, end))
  }

  /** A parenthesised field list; `()` is an empty one. */
  function ParseFields(lx: Lexed, pos: nat): (r: Result<(seq<Field>, nat)>)
    ensures r.Ok? ==> pos + 2 <= r.value.1 && Valid(lx, r.value.1)
    ensures r.Ok? ==> lx.tokens[pos].kind == LParen && lx.tokens[r.value.1 - 1].kind == RParen
    ensures pos < |lx.tokens| && lx.tokens[pos].kind != LParen ==> r == Err(SyntaxError(Known(lx.tokens[pos].line)))
  {
    var (_, afterOpen) :- Match(lx, pos, {LParen});
    var (fields, beforeClose) :- FieldItems(lx, afterOpen);
    var (_, next) :- Match(lx, beforeClose, {RParen});
    Ok((fields, next))
  }

  /** A field list if the current token opens one, otherwise no fields. */
  function ParseOptionalFields(lx: Lexed, pos: nat): (r: Result<(seq<Field>, nat)>)
    ensures r.Ok? ==> pos <= r.value.1 && Valid(lx, r.value.1)
    ensures r.Ok? && r.value.1 == pos ==> r.value.0 == []
  {
    var kind :- KindAt(lx, pos);
    if kind == LParen then ParseFields(lx, pos) else Ok(([], pos))
  }

  /** `attributes` followed by a field list, if the current token is that
      keyword; otherwise no attributes. */
  function ParseOptionalAttributes(lx: Lexed, pos: nat): (r: Result<(seq<Field>, nat)>)
    ensures r.Ok? ==> pos <= r.value.1 && Valid(lx, r.value.1)
    ensures r.Ok? && r.value.1 == pos ==> r.value.0 == []
  {
    var isKeyword :- AtKeyword(lx, pos, "attributes");
    if isKeyword then
      var next :- Advance(lx, pos);
      ParseFields(lx, next)
    else
      Ok(([], pos))
  }

  // ---------------------------------------------------------------------
  // Definitions
  // ---------------------------------------------------------------------

  /** A constructor: a `ConstructorId` and an optional field list. */
  function ParseConstructor(lx: Lexed, pos: nat): (r: Result<(Constructor, nat)>)
    ensures r.Ok? ==> pos < r.value.1 && Valid(lx, r.value.1)
    ensures r.Ok? ==> lx.tokens[pos].kind == ConstructorId && r.value.0.name == lx.tokens[pos].value
  {
    var (name, afterName) :- Match(lx, pos, {ConstructorId});
    var (fields, next) :- ParseOptionalFields(lx, afterName);
    Ok((Constructor(name, fields), next))
  }

  /** The constructors after the first, each introduced by `|`. */
  function MoreConstructors(lx: Lexed, pos: nat): (r: Result<(seq<Constructor>, nat)>)
    ensures r.Ok? ==> pos <= r.value.1 && Valid(lx, r.value.1)
    decreases |lx.tokens| - pos
  {
    var kind :- KindAt(lx, pos);
    if kind == Pipe then
      var afterPipe :- Advance(lx, pos);
      var (c, afterConstructor) :- ParseConstructor(lx, afterPipe);
      var (rest, next) :- MoreConstructors(lx, afterConstructor);
      Ok(([c] + rest, next))
    else
      Ok(([], pos))
  }

  /** The body of a definition: a product if it starts with `(`, otherwise a
      sum, which needs at least one constructor. */
  function ParseType(lx: Lexed, pos: nat): (r: Result<(Value, nat)>)
    ensures r.Ok? ==> pos < r.value.1 && Valid(lx, r.value.1)
    ensures r.Ok? ==> (r.value.0.Product? <==> lx.tokens[pos].kind == LParen)
    ensures r.Ok? && r.value.0.Sum? ==> |r.value.0.types| > 0
    ensures pos < |lx.tokens| && lx.tokens[pos].kind !in {LParen, ConstructorId} ==>
      r == Err(SyntaxError(Known(lx.tokens[pos].line)))
  {
    var kind :- KindAt(lx, pos);
    if kind == LParen then
      var (fields, afterFields) :- ParseFields(lx, pos);
      var (attributes, next) :- ParseOptionalAttributes(lx, afterFields);
      Ok((Product(fields, attributes), next))
    else
      var (first, afterFirst) :- ParseConstructor(lx, pos);
      var (rest, afterRest) :- MoreConstructors(lx, afterFirst);
      var (attributes, next) :- ParseOptionalAttributes(lx, afterRest);
      Ok((Sum([first] + rest, attributes), next))
  }

  /** The definitions `TypeId = type`, read while the current token is a
      `TypeId`; each definition's name is the text of its `TypeId`. */
  function ParseDefinitions(lx: Lexed, pos: nat): (r: Result<(seq<Type>, nat)>)
    ensures r.Ok? ==> pos <= r.value.1 && Valid(lx, r.value.1)
    ensures r.Ok? && |r.value.0| > 0 ==> pos < |lx.tokens| && lx.tokens[pos].kind == TypeId && r.value.0[0].name == lx.tokens[pos].value
    decreases |lx.tokens| - pos
  {
    var kind :- KindAt(lx, pos);
    if kind == TypeId then
      var afterName :- Advance(lx, pos);
      var (_, afterEquals) :- Match(lx, afterName, {Equals});
      var (value, afterValue) :- ParseType(lx, afterEquals);
      var (rest, next) :- ParseDefinitions(lx, afterValue);
      Ok(([Type(lx.tokens[pos].value, value)] + rest, next))
    else
      Ok(([], pos))
  }

  /** The definitions between the module's braces. */
  function ParseBraced(lx: Lexed, pos: nat): (r: Result<(seq<Type>, nat)>)
    ensures r.Ok? ==> pos + 2 <= r.value.1 && Valid(lx, r.value.1)
  {
    hide ParseDefinitions, ParseType;
    var (_, afterOpen) :- Match(lx, pos, {LBrace});
    var (dfns, beforeClose) :- ParseDefinitions(lx, afterOpen);
    var (_, next) :- Match(lx, beforeClose, {RBrace});
    Ok((dfns, next))
  }

  /** What follows the keyword `module`: the module's name, then its
      definitions between braces. */
  function ParseModuleBody(lx: Lexed, pos: nat): (r: Result<(Module, nat)>)
    ensures r.Ok? ==> pos + 3 <= r.value.1 && Valid(lx, r.value.1)
  {
    hide ParseBraced, ParseDefinitions;
    var (name, afterName) :- Match(lx, pos, IdKinds);
    var (dfns, next) :- ParseBraced(lx, afterName);
    Ok((Module(name, dfns), next))
  }

  /** `module Id { definitions }`. Matching the closing brace pulls the
      token after it, so a lexical error right there fails the parse; the
      kind and text of that token are never looked at. */
  function ParseModule(lx: Lexed, pos: nat): (r: Result<(Module, nat)>)
    ensures r.Ok? ==> pos + 4 <= r.value.1 && Valid(lx, r.value.1)
    ensures r.Ok? ==> IsKeyword(lx.tokens[pos], "module")
  {
    hide ParseModuleBody, ParseBraced, ParseDefinitions;
    var isModule :- AtKeyword(lx, pos, "module");
    if !isModule then
      Err(SyntaxError(Known(lx.tokens[pos].line)))
    else
      match Advance(lx, pos)
      case Err(e) => Err(e)
      case Ok(afterKeyword) => ParseModuleBody(lx, afterKeyword)
  }

  /** A parsed module is the keyword, its name, and braces around its
      definitions. */
  lemma ModuleShape(lx: Lexed, pos: nat)
    ensures ParseModule(lx, pos).Ok? ==>
      var (m, end) := ParseModule(lx, pos).value;
      && lx.tokens[pos + 1].kind in IdKinds && m.name == lx.tokens[pos + 1].value
      && lx.tokens[pos + 2].kind == LBrace && lx.tokens[end - 1].kind == RBrace
  {
    hide ParseDefinitions;
  }

  /** Anything but the keyword `module` first is an error on that token's
      line. */
  lemma ModuleNeedsKeyword(lx: Lexed, pos: nat)
    requires pos < |lx.tokens| && !IsKeyword(lx.tokens[pos], "module")
    ensures ParseModule(lx, pos) == Err(SyntaxError(Known(lx.tokens[pos].line)))
  {
    hide ParseModuleBody, ParseBraced, ParseDefinitions;
  }

  /** Parses ASDL text into a module, or fails with the first syntax error. */
  function Parse(buf: string): (r: Result<Module>)
    ensures r.Ok? ==> |Tokenize(buf).tokens| >= 4
    ensures r.Ok? ==> Tokenize(buf).tokens[0].value == "module"
  {
    var lx := Tokenize(buf);
    var start :- Start(lx);
    var (m, _) :- ParseModule(lx, start);
    Ok(m)
  }
}
