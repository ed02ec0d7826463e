/** The converse of the round trip: whatever the parser returns is a module
    the printer writes back as text with the same parse. Together with
    `RoundTrip.ParsePrint` this says that `PrintableModule` is exactly the set
    of modules the parser can produce, and that every accepted text parses
    like its printed form. */
module ReadBack {
  import opened Errors
  import opened Lexer
  import opened Nodes
  import opened Parser
  import opened Printer
  import opened RoundTrip

  /** Every token's kind agrees with its text, as in any output of the
      lexer. */
  predicate AllSpelled(lx: Lexed) {
    forall i | 0 <= i < |lx.tokens| :: Spelled(lx.tokens[i])
  }

  /** The text of an identifier token is a word, and it starts with an
      upper-case letter exactly when the token is a `ConstructorId`. */
  lemma SpelledIdentifier(t: Token)
    requires Spelled(t) && t.kind in IdKinds
    ensures IsIdentifier(t.value)
    ensures StartsUpper(t.value) <==> t.kind == ConstructorId
  {
    LexemeKinds(t.value);
  }

  predicate GoodFields(fs: seq<Field>) {
    ReadableFields(fs) && WordsFields(fs)
  }

  predicate GoodConstructors(cs: seq<Constructor>) {
    ReadableConstructors(cs) && WordsConstructors(cs)
  }

  predicate GoodTypes(ds: seq<Type>) {
    ReadableTypes(ds) && WordsTypes(ds)
  }

  lemma FieldsPrepend(f: Field, fs: seq<Field>)
    requires ReadableField(f) && WordsField(f) && GoodFields(fs)
    ensures GoodFields([f] + fs)
  {
    forall i | 0 <= i < |[f] + fs|
      ensures ReadableField(([f] + fs)[i]) && WordsField(([f] + fs)[i])
    {
      if i > 0 {
        assert ([f] + fs)[i] == fs[i - 1];
      }
    }
  }

  lemma ConstructorsPrepend(c: Constructor, cs: seq<Constructor>)
    requires ReadableConstructor(c) && WordsConstructor(c) && GoodConstructors(cs)
    ensures GoodConstructors([c] + cs)
  {
    forall i | 0 <= i < |[c] + cs|
      ensures ReadableConstructor(([c] + cs)[i]) && WordsConstructor(([c] + cs)[i])
    {
      if i > 0 {
        assert ([c] + cs)[i] == cs[i - 1];
      }
    }
  }

  lemma TypesPrepend(d: Type, ds: seq<Type>)
    requires ReadableType(d) && IsIdentifier(d.name) && WordsValue(d.value) && GoodTypes(ds)
    ensures GoodTypes([d] + ds)
  {
    forall i | 0 <= i < |[d] + ds|
      ensures ReadableType(([d] + ds)[i]) && IsIdentifier(([d] + ds)[i].name) && WordsValue(([d] + ds)[i].value)
    {
      if i > 0 {
        assert ([d] + ds)[i] == ds[i - 1];
      }
    }
  }

  // ---------------------------------------------------------------------
  // Fields
  // ---------------------------------------------------------------------

  /** A parsed field's type is a `TypeId`'s text and its name an
      identifier's. */
  lemma ParsedField(lx: Lexed, pos: nat)
    requires AllSpelled(lx) && pos < |lx.tokens| && lx.tokens[pos].kind == TypeId
    ensures ParseField(lx, pos).Ok? ==>
      ReadableField(ParseField(lx, pos).value.0) && WordsField(ParseField(lx, pos).value.0)
  {
    if ParseField(lx, pos).Ok? {
      SpelledIdentifier(lx.tokens[pos]);
      var q := ParseQuantifier(lx, pos + 1).value.1;
      if ParseOptionalName(lx, q).value.0.Some? {
        SpelledIdentifier(lx.tokens[q]);
      }
    }
  }

  lemma {:induction false} ParsedItems(lx: Lexed, pos: nat)
    requires AllSpelled(lx)
    ensures FieldItems(lx, pos).Ok? ==> GoodFields(FieldItems(lx, pos).value.0)
    decreases |lx.tokens| - pos
  {
    if FieldItems(lx, pos).Ok? && lx.tokens[pos].kind == TypeId {
      var (f, afterField) := ParseField(lx, pos).value;
      ParsedField(lx, pos);
      if lx.tokens[afterField].kind == RParen {
        FieldsPrepend(f, []);
      } else if lx.tokens[afterField].kind == Comma {
        ParsedItems(lx, afterField + 1);
        FieldsPrepend(f, FieldItems(lx, afterField + 1).value.0);
      } else {
        ParsedItems(lx, afterField);
        FieldsPrepend(f, FieldItems(lx, afterField).value.0);
      }
    }
  }

  lemma ParsedFields(lx: Lexed, pos: nat)
    requires AllSpelled(lx)
    ensures ParseFields(lx, pos).Ok? ==> GoodFields(ParseFields(lx, pos).value.0)
  {
    ParsedItems(lx, pos + 1);
  }

  lemma ParsedOptionalFields(lx: Lexed, pos: nat)
    requires AllSpelled(lx)
    ensures ParseOptionalFields(lx, pos).Ok? ==> GoodFields(ParseOptionalFields(lx, pos).value.0)
  {
    ParsedFields(lx, pos);
  }

  lemma ParsedAttributes(lx: Lexed, pos: nat)
    requires AllSpelled(lx)
    ensures ParseOptionalAttributes(lx, pos).Ok? ==> GoodFields(ParseOptionalAttributes(lx, pos).value.0)
  {
    ParsedFields(lx, pos + 1);
  }

  // ---------------------------------------------------------------------
  // Constructors and values
  // ---------------------------------------------------------------------

  /** A parsed constructor is named by a `ConstructorId`'s text. */
  lemma ParsedConstructor(lx: Lexed, pos: nat)
    requires AllSpelled(lx)
    ensures ParseConstructor(lx, pos).Ok? ==>
      ReadableConstructor(ParseConstructor(lx, pos).value.0) && WordsConstructor(ParseConstructor(lx, pos).value.0)
  {
    if ParseConstructor(lx, pos).Ok? {
      SpelledIdentifier(lx.tokens[pos]);
      ParsedOptionalFields(lx, pos + 1);
    }
  }

  lemma {:induction false} ParsedAlternatives(lx: Lexed, pos: nat)
    requires AllSpelled(lx)
    ensures MoreConstructors(lx, pos).Ok? ==> GoodConstructors(MoreConstructors(lx, pos).value.0)
    decreases |lx.tokens| - pos
  {
    if MoreConstructors(lx, pos).Ok? && lx.tokens[pos].kind == Pipe {
      var (c, afterConstructor) := ParseConstructor(lx, pos + 1).value;
      ParsedConstructor(lx, pos + 1);
      ParsedAlternatives(lx, afterConstructor);
      ConstructorsPrepend(c, MoreConstructors(lx, afterConstructor).value.0);
    }
  }

  /** A parsed value is readable and spelled in words; a sum has its first
      constructor. */
  lemma ParsedValue(lx: Lexed, pos: nat)
    requires AllSpelled(lx)
    ensures ParseType(lx, pos).Ok? ==>
      ReadableValue(ParseType(lx, pos).value.0) && WordsValue(ParseType(lx, pos).value.0)
  {
    if ParseType(lx, pos).Ok? {
      if lx.tokens[pos].kind == LParen {
        var afterFields := ParseFields(lx, pos).value.1;
        ParsedFields(lx, pos);
        ParsedAttributes(lx, afterFields);
      } else {
        var (c, afterFirst) := ParseConstructor(lx, pos).value;
        var afterRest := MoreConstructors(lx, afterFirst).value.1;
        ParsedConstructor(lx, pos);
        ParsedAlternatives(lx, afterFirst);
        ConstructorsPrepend(c, MoreConstructors(lx, afterFirst).value.0);
        ParsedAttributes(lx, afterRest);
      }
    }
  }

  // ---------------------------------------------------------------------
  // Definitions and modules
  // ---------------------------------------------------------------------

  lemma {:induction false} ParsedDefinitions(lx: Lexed, pos: nat)
    requires AllSpelled(lx)
    ensures ParseDefinitions(lx, pos).Ok? ==> GoodTypes(ParseDefinitions(lx, pos).value.0)
    decreases |lx.tokens| - pos
  {
    if ParseDefinitions(lx, pos).Ok? && lx.tokens[pos].kind == TypeId {
      var (value, afterValue) := ParseType(lx, pos + 2).value;
      SpelledIdentifier(lx.tokens[pos]);
      ParsedValue(lx, pos + 2);
      ParsedDefinitions(lx, afterValue);
      TypesPrepend(Type(lx.tokens[pos].value, value), ParseDefinitions(lx, afterValue).value.0);
    }
  }

  lemma ParsedModule(lx: Lexed, pos: nat)
    requires AllSpelled(lx)
    ensures ParseModule(lx, pos).Ok? ==> PrintableModule(ParseModule(lx, pos).value.0)
  {
    if ParseModule(lx, pos).Ok? {
      ModuleShape(lx, pos);
      SpelledIdentifier(lx.tokens[pos + 1]);
      ParsedDefinitions(lx, pos + 3);
    }
  }

  /** Every module the parser returns is printable. */
  lemma ParseReadable(buf: string)
    ensures Parse(buf).Ok? ==> PrintableModule(Parse(buf).value)
  {
    ParsedModule(Tokenize(buf), 0);
  }

  /** A module is printable exactly when printing it and parsing the text
      gives it back. */
  lemma PrintableIffReadBack(m: Module)
    ensures PrintableModule(m) <==> Parse(Print(m)) == Ok(m)
  {
    if PrintableModule(m) {
      ParsePrint(m);
    }
    if Parse(Print(m)) == Ok(m) {
      ParseReadable(Print(m));
    }
  }

  /** Every accepted text parses like the printed text of its module. */
  lemma ReprintParse(buf: string)
    ensures Parse(buf).Ok? ==> Parse(Print(Parse(buf).value)) == Parse(buf)
  {
    if Parse(buf).Ok? {
      ParseReadable(buf);
      ParsePrint(Parse(buf).value);
    }
  }

  /** `t = C` followed by a definition named `attributes`: the parser gives
      `t` no attributes either when they are left out or when they are
      written `attributes ()`. The printer writes the second form, and the
      text reads back. */
  function AttributesNamed(): Module {
    Module("M", [Type("t", Sum([Constructor("C", [])], [])), Type("attributes", Product([Field("int", Some("b"), false, false)], []))])
  }

  lemma AttributesNamedPrintable()
    ensures PrintableModule(AttributesNamed())
  {
    var m := AttributesNamed();
    assert IsLetter('M') && IsLetter('t') && IsLetter('C') && IsLetter('a') && IsLetter('i') && IsLetter('b');
    assert IsWord("attributes") && IsWord("int") && IsWord("M") && IsWord("t") && IsWord("C") && IsWord("b");
    assert IsIdentifier(m.name) && IsIdentifier("t") && IsIdentifier("attributes");
    assert WordsValue(m.dfns[0].value) && WordsValue(m.dfns[1].value);
    assert ReadableType(m.dfns[0]) && ReadableType(m.dfns[1]);
  }

  /** The empty attributes of `t` are written out, because the next
      definition is named `attributes`. */
  lemma AttributesNamedTokens()
    ensures AttributesNext(AttributesNamed().dfns)
    ensures DefinitionTokens(AttributesNamed().dfns[0], true)
         == [Id("t"), Op(Equals), Id("C"), Id("attributes"), Op(LParen), Op(RParen)]
  {
    assert ItemTokens([], Separators(0)) == [];
  }

  lemma AttributesNamedReadBack()
    ensures PrintableModule(AttributesNamed())
    ensures Parse(Print(AttributesNamed())) == Ok(AttributesNamed())
  {
    AttributesNamedPrintable();
    hide *;
    ParsePrint(AttributesNamed());
  }
}
