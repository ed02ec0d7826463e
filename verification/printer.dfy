/** The inverse of the parser: a module rendered back to ASDL text. Each
    node is emitted as the tokens that spell it; the module's tokens are then
    written on one line. Any module prints; `PrintableModule` says which
    ones read back as themselves. */
module Printer {
  import opened Errors
  import opened Lexer
  import opened Nodes

  // ---------------------------------------------------------------------
  // Which modules print and read back
  // ---------------------------------------------------------------------

  predicate StartsUpper(s: string) {
    |s| > 0 && IsUpper(s[0])
  }

  /** A word the lexer reads as one identifier token. */
  predicate IsIdentifier(s: string) {
    |s| > 0 && IsLetter(s[0]) && IsWord(s)
  }

  /* The `Readable` predicates say that the parser reads a node's printed
     tokens back as the same node: field types are `TypeId`s, constructor
     names are `ConstructorId`s, and a sum has a constructor. A definition
     may be named `attributes`: the printer then writes the attributes of
     the definition before it even when they are empty. */

  predicate ReadableField(f: Field) {
    !StartsUpper(f.typ)
  }

  predicate ReadableFields(fs: seq<Field>) {
    forall i | 0 <= i < |fs| :: ReadableField(fs[i])
  }

  predicate ReadableConstructor(c: Constructor) {
    StartsUpper(c.name) && ReadableFields(c.fields)
  }

  predicate ReadableConstructors(cs: seq<Constructor>) {
    forall i | 0 <= i < |cs| :: ReadableConstructor(cs[i])
  }

  predicate ReadableValue(v: Value) {
    match v
    case Sum(cs, attributes) => |cs| > 0 && ReadableConstructors(cs) && ReadableFields(attributes)
    case Product(fs, attributes) => ReadableFields(fs) && ReadableFields(attributes)
  }

  predicate ReadableType(d: Type) {
    !StartsUpper(d.name) && ReadableValue(d.value)
  }

  predicate ReadableTypes(ds: seq<Type>) {
    forall i | 0 <= i < |ds| :: ReadableType(ds[i])
  }

  /* The `Words` predicates say that every name in a node is an identifier,
     so that the lexer reads the printed text back as the same tokens. */

  predicate WordsField(f: Field) {
    IsIdentifier(f.typ) && (f.name.Some? ==> IsIdentifier(f.name.value))
  }

  predicate WordsFields(fs: seq<Field>) {
    forall i | 0 <= i < |fs| :: WordsField(fs[i])
  }

  predicate WordsConstructor(c: Constructor) {
    IsIdentifier(c.name) && WordsFields(c.fields)
  }

  predicate WordsConstructors(cs: seq<Constructor>) {
    forall i | 0 <= i < |cs| :: WordsConstructor(cs[i])
  }

  predicate WordsValue(v: Value) {
    match v
    case Sum(cs, attributes) => WordsConstructors(cs) && WordsFields(attributes)
    case Product(fs, attributes) => WordsFields(fs) && WordsFields(attributes)
  }

  predicate WordsTypes(ds: seq<Type>) {
    forall i | 0 <= i < |ds| :: IsIdentifier(ds[i].name) && WordsValue(ds[i].value)
  }

  /** A module that prints as text the parser reads back as the module. */
  predicate PrintableModule(m: Module) {
    IsIdentifier(m.name) && WordsTypes(m.dfns) && ReadableTypes(m.dfns)
  }

  // ---------------------------------------------------------------------
  // Tokens
  // ---------------------------------------------------------------------

  /** Tokens as the lexer would produce them from a single line: each one's
      kind agrees with its text. */
  predicate Printed(ts: seq<Token>) {
    forall i | 0 <= i < |ts| :: ts[i].line == 1 && Spelled(ts[i])
  }

  lemma PrintedConcat(a: seq<Token>, b: seq<Token>)
    requires Printed(a) && Printed(b)
    ensures Printed(a + b)
  {
  }

  /** The identifier token for `v`; its kind is decided by the case of the
      first letter. */
  function Id(v: string): Token {
    Token(if StartsUpper(v) then ConstructorId else TypeId, v, 1)
  }

  /** The operator token of kind `k`. */
  function Op(k: TokenKind): Token
    requires IsOperator(k)
  {
    Token(k, [OperatorChar(k)], 1)
  }

  /** A field: its type, `?` if optional, `*` if a sequence, then its name. */
  function FieldTokens(f: Field): seq<Token> {
    [Id(f.typ)]
    + (if f.isOpt then [Op(Question)] else [])
    + (if f.isSeq then [Op(Asterisk)] else [])
    + (if f.name.Some? then [Id(f.name.value)] else [])
  }

  /** The fields of a field list, field `i` followed by a comma exactly when
      `commas[i]` holds. */
  function ItemTokens(fs: seq<Field>, commas: seq<bool>): seq<Token>
    requires |commas| == |fs|
  {
    if |fs| == 0 then
      []
    else
      FieldTokens(fs[0]) + (if commas[0] then [Op(Comma)] else []) + ItemTokens(fs[1..], commas[1..])
  }

  /** The usual comma pattern: a comma between fields, none after the last. */
  function Separators(n: nat): (commas: seq<bool>)
    ensures |commas| == n
  {
    seq(n, i => i < n - 1)
  }

  /** Exactly the fields before the last are followed by a comma. */
  lemma SeparatorsAt(n: nat, i: nat)
    requires i < n
    ensures Separators(n)[i] <==> i + 1 < n
  {
  }

  /** A parenthesised field list with the usual commas. */
  function FieldsTokens(fs: seq<Field>): seq<Token> {
    [Op(LParen)] + ItemTokens(fs, Separators(|fs|)) + [Op(RParen)]
  }

  /** A constructor; a constructor without fields is written without
      parentheses. */
  function ConstructorTokens(c: Constructor): seq<Token> {
    [Id(c.name)] + (if |c.fields| == 0 then [] else FieldsTokens(c.fields))
  }

  /** Constructors after the first of a sum, each introduced by `|`. */
  function AlternativesTokens(cs: seq<Constructor>): seq<Token> {
    if |cs| == 0 then [] else [Op(Pipe)] + ConstructorTokens(cs[0]) + AlternativesTokens(cs[1..])
  }

  /** `attributes` and a field list, or nothing when there are no
      attributes and `shown` does not ask for the keyword anyway. */
  function AttributesTokens(attributes: seq<Field>, shown: bool): seq<Token> {
    if |attributes| == 0 && !shown then [] else [Id("attributes")] + FieldsTokens(attributes)
  }

  /** A sum with no constructor prints as nothing; no readable value is one. */
  function ValueTokens(v: Value, shown: bool): seq<Token> {
    match v
    case Sum(cs, attributes) =>
      if |cs| == 0 then []
      else ConstructorTokens(cs[0]) + AlternativesTokens(cs[1..]) + AttributesTokens(attributes, shown)
    case Product(fs, attributes) =>
      FieldsTokens(fs) + AttributesTokens(attributes, shown)
  }

  /** `name = value`. */
  function DefinitionTokens(d: Type, shown: bool): seq<Token> {
    [Id(d.name)] + [Op(Equals)] + ValueTokens(d.value, shown)
  }

  /** The second definition is named `attributes`, so the first one's
      attributes must be written out, as `attributes ()` if empty, or the
      name would be read as their keyword. */
  predicate AttributesNext(ds: seq<Type>) {
    |ds| > 1 && ds[1].name == "attributes"
  }

  function DefinitionsTokens(ds: seq<Type>): seq<Token> {
    if |ds| == 0 then [] else DefinitionTokens(ds[0], AttributesNext(ds)) + DefinitionsTokens(ds[1..])
  }

  /** `module name { definitions }`. */
  function ModuleTokens(m: Module): seq<Token> {
    [Id("module"), Id(m.name), Op(LBrace)] + DefinitionsTokens(m.dfns) + [Op(RBrace)]
  }

  // ---------------------------------------------------------------------
  // The printed tokens are the lexer's tokens
  // ---------------------------------------------------------------------

  lemma IdPrinted(v: string)
    requires IsIdentifier(v)
    ensures Printed([Id(v)])
  {
  }

  lemma OpPrinted(k: TokenKind)
    requires IsOperator(k)
    ensures Printed([Op(k)])
  {
  }

  lemma FieldPrinted(f: Field)
    requires WordsField(f)
    ensures Printed(FieldTokens(f))
  {
    var opt: seq<Token> := if f.isOpt then [Op(Question)] else [];
    var star: seq<Token> := if f.isSeq then [Op(Asterisk)] else [];
    var name: seq<Token> := if f.name.Some? then [Id(f.name.value)] else [];
    IdPrinted(f.typ);
    OpPrinted(Question);
    OpPrinted(Asterisk);
    if f.name.Some? {
      IdPrinted(f.name.value);
    }
    PrintedConcat([Id(f.typ)], opt);
    PrintedConcat([Id(f.typ)] + opt, star);
    PrintedConcat([Id(f.typ)] + opt + star, name);
  }

  lemma {:induction false} ItemsPrinted(fs: seq<Field>, commas: seq<bool>)
    requires |commas| == |fs| && WordsFields(fs)
    ensures Printed(ItemTokens(fs, commas))
    decreases |fs|
  {
    if |fs| > 0 {
      var comma: seq<Token> := if commas[0] then [Op(Comma)] else [];
      FieldPrinted(fs[0]);
      OpPrinted(Comma);
      ItemsPrinted(fs[1..], commas[1..]);
      PrintedConcat(FieldTokens(fs[0]), comma);
      PrintedConcat(FieldTokens(fs[0]) + comma, ItemTokens(fs[1..], commas[1..]));
    }
  }

  lemma FieldsPrinted(fs: seq<Field>)
    requires WordsFields(fs)
    ensures Printed(FieldsTokens(fs))
  {
    var items := ItemTokens(fs, Separators(|fs|));
    ItemsPrinted(fs, Separators(|fs|));
    OpPrinted(LParen);
    OpPrinted(RParen);
    PrintedConcat([Op(LParen)], items);
    PrintedConcat([Op(LParen)] + items, [Op(RParen)]);
  }

  lemma ConstructorPrinted(c: Constructor)
    requires WordsConstructor(c)
    ensures Printed(ConstructorTokens(c))
  {
    IdPrinted(c.name);
    if |c.fields| > 0 {
      FieldsPrinted(c.fields);
      PrintedConcat([Id(c.name)], FieldsTokens(c.fields));
    } else {
      assert ConstructorTokens(c) == [Id(c.name)];
    }
  }

  lemma {:induction false} AlternativesPrinted(cs: seq<Constructor>)
    requires WordsConstructors(cs)
    ensures Printed(AlternativesTokens(cs))
    decreases |cs|
  {
    if |cs| > 0 {
      OpPrinted(Pipe);
      ConstructorPrinted(cs[0]);
      AlternativesPrinted(cs[1..]);
      PrintedConcat([Op(Pipe)], ConstructorTokens(cs[0]));
      PrintedConcat([Op(Pipe)] + ConstructorTokens(cs[0]), AlternativesTokens(cs[1..]));
    }
  }

  lemma AttributesPrinted(attributes: seq<Field>, shown: bool)
    requires WordsFields(attributes)
    ensures Printed(AttributesTokens(attributes, shown))
  {
    if |attributes| > 0 || shown {
      IdPrinted("attributes");
      FieldsPrinted(attributes);
      PrintedConcat([Id("attributes")], FieldsTokens(attributes));
    }
  }

  lemma ValuePrinted(v: Value, shown: bool)
    requires WordsValue(v)
    ensures Printed(ValueTokens(v, shown))
  {
    match v
    case Sum(cs, attributes) =>
      if |cs| > 0 {
        ConstructorPrinted(cs[0]);
        AlternativesPrinted(cs[1..]);
        AttributesPrinted(attributes, shown);
        PrintedConcat(ConstructorTokens(cs[0]), AlternativesTokens(cs[1..]));
        PrintedConcat(ConstructorTokens(cs[0]) + AlternativesTokens(cs[1..]), AttributesTokens(attributes, shown));
      }
    case Product(fs, attributes) =>
      FieldsPrinted(fs);
      AttributesPrinted(attributes, shown);
      PrintedConcat(FieldsTokens(fs), AttributesTokens(attributes, shown));
  }

  lemma {:induction false} DefinitionsPrinted(ds: seq<Type>)
    requires WordsTypes(ds)
    ensures Printed(DefinitionsTokens(ds))
    decreases |ds|
  {
    if |ds| > 0 {
      IdPrinted(ds[0].name);
      OpPrinted(Equals);
      var shown := AttributesNext(ds);
      ValuePrinted(ds[0].value, shown);
      PrintedConcat([Id(ds[0].name)], [Op(Equals)]);
      PrintedConcat([Id(ds[0].name), Op(Equals)], ValueTokens(ds[0].value, shown));
      DefinitionsPrinted(ds[1..]);
      PrintedConcat(DefinitionTokens(ds[0], shown), DefinitionsTokens(ds[1..]));
    }
  }

  lemma ModulePrinted(m: Module)
    requires PrintableModule(m)
    ensures Printed(ModuleTokens(m))
  {
    var head := [Id("module"), Id(m.name), Op(LBrace)];
    IdPrinted("module");
    IdPrinted(m.name);
    OpPrinted(LBrace);
    OpPrinted(RBrace);
    PrintedConcat([Id("module")], [Id(m.name)]);
    PrintedConcat([Id("module"), Id(m.name)], [Op(LBrace)]);
    DefinitionsPrinted(m.dfns);
    PrintedConcat(head, DefinitionsTokens(m.dfns));
    PrintedConcat(head + DefinitionsTokens(m.dfns), [Op(RBrace)]);
  }

  // ---------------------------------------------------------------------
  // Text
  // ---------------------------------------------------------------------

  function Values(ts: seq<Token>): (vs: seq<string>)
    ensures |vs| == |ts| && forall i | 0 <= i < |ts| :: vs[i] == ts[i].value
  {
    seq(|ts|, i requires 0 <= i < |ts| => ts[i].value)
  }

  /** The text of a module: all of its tokens on one line, each followed by
      a space. */
  function Print(m: Module): string {
    RenderLines([Values(ModuleTokens(m))])
  }

  /** Printed tokens are recovered from their texts. */
  lemma {:induction false} TokensOfValues(ts: seq<Token>)
    requires Printed(ts)
    ensures AllLexemes(Values(ts))
    ensures TokensAt(Values(ts), 1) == ts
    decreases |ts|
  {
    if |ts| > 0 {
      assert Values(ts)[1..] == Values(ts[1..]);
      TokensOfValues(ts[1..]);
    }
  }

  /** The lexer reads the printed text back as exactly the module's tokens,
      with no lexical error. */
  lemma TokenizePrint(m: Module)
    requires PrintableModule(m)
    ensures Tokenize(Print(m)) == Lexed(ModuleTokens(m), None)
  {
    var ts := ModuleTokens(m);
    ModulePrinted(m);
    TokensOfValues(ts);
    TokenizeRendered([Values(ts)]);
    assert LinesTokens([Values(ts)], 1) == TokensAt(Values(ts), 1) + LinesTokens([], 2);
  }
}
