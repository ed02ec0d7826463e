# ASDL reader, modelled in Dafny

This project models `asdl.py`, which reads Zephyr ASDL (Abstract Syntax Description Language) descriptions: a small language of modules, type definitions, sums of constructors, products, fields and attributes. It has four parts, each a Dafny module, plus a printer and the proofs about them:

- `Lexer` (lexer.dfy) — `tokenize_asdl` and the token types.
  - The text is split into lines as `str.splitlines` does.
  - Each stripped line is scanned with the rule `\s*(\w+|--.*|.)`.
  - A word is a `ConstructorId` or a `TypeId` by the case of its first letter.
  - `--` ends the line.
  - The nine operator characters are looked up in a fixed table.
  - Anything else is a syntax error carrying the 1-based line number.
  - The generator is modelled as `Lexed`: the tokens it yields, then the lexical error that stopped it, if any.
- `Parser` (parser.dfy) — `ASDLParser.parse` on a text buffer. It is recursive descent over the token stream, with the parser's state a position. Each step returns its node and the next position, or the syntax error that ends the parse.
- `Nodes` (nodes.dfy) — the node classes `Module`, `Type`, `Sum`, `Product`, `Constructor` and `Field`, and `builtin_types`. The module's name→value map is `Module.Types()`.
- `Checker` (checker.dfy) — the `Check` visitor and `check`.
  - Duplicate constructor names are counted.
  - Field types that are neither defined nor builtin are counted.
  - The check succeeds when the count is zero.
- `Errors` (errors.dfy) — `Option`, the `Result` the parser threads, and `SyntaxError` with a known or unknown line (`ASDLSyntaxError`).
- `Printer` (printer.dfy) — not part of the program. It is the parser's partner: it renders a module back to ASDL text, so that `Parse(Print(m)) == Ok(m)` can be stated. Empty attributes print as nothing, except before a definition named `attributes`, where they print as `attributes ()`.
- `RoundTrip` (roundtrip.dfy) — the parse-of-print proofs, level by level.
- `ReadBack` (readback.dfy) — the converse: every module the parser returns is printable. So the printable modules are exactly the modules the parser can produce, and every accepted text parses like the printed text of its module.
- `ParserFacts` (parser_facts.dfy) — what the parser accepts and rejects on small token patterns: trailing commas, double commas, quantifier order, definitions without a body, and `attributes` used as a name.
- `Findings` (findings.dfy) — two places where the code as written raises a Python exception instead of doing what it evidently means. See "## Findings".

Where the documented behaviour of the reader and its code differ, the model follows the code:

- A comma before the closing parenthesis of a field list is accepted (`ParserFacts.TrailingComma`).
- A word starting with a digit or an underscore is rejected, like an unknown operator character (`Lexer.RejectedStartFails`).
- A definition named `attributes` right after a sum or a product that has no attributes list is read as the keyword that starts that definition's attributes (`ParserFacts.AttributesAfterSum`, `ParserFacts.AttributesAfterProduct`). Attributes are looked for only once per definition. So after a written attributes list, even `attributes ()`, the name starts an ordinary definition (`ParserFacts.AttributesAfterAttributes`). The printer relies on this (`ReadBack.AttributesNamedReadBack`).
- Text after the closing `}` is not read as part of the module, but matching the `}` pulls the next token. So `module M { } $` fails with the tokenizer's error for `$`, while `module M { } x $` parses as `M` (`ParserFacts.AfterClosingBrace`). The round-trip lemmas carry this proviso.

## Model

| member | source | states |
|---|---|---|
| Nodes.TypesOf | asdl.py:61-64 | The map derived from a module's definitions has exactly the defined names as keys, and each name maps to the value of its last definition, so a later definition with the same name wins. |
| Nodes.Module.Types | asdl.py:64 | `mod.types`: its keys are exactly the module's definition names, and each name maps to the value of the last definition with that name. |
| Lexer.OperatorKind | asdl.py:259-269 | Only the nine table characters have an operator kind, and each kind is an operator kind. No table character is white space, a word character or a dash, so an operator never starts a word or a comment. |
| Lexer.OperatorChar | asdl.py:259-269 | The table is one-to-one: each operator kind has a character that maps back to it, and no other character maps to it. |
| Lexer.FirstBreak | asdl.py:289 | Finds the first line break: no break before the index, and a break at it unless it is the end. |
| Lexer.SplitLines | asdl.py:289 | The lines of the buffer contain no line-break characters, and only the empty buffer has no lines. |
| Lexer.JoinSplitLines | asdl.py:289 | `str.splitlines` loses nothing: each line followed by the break that ended it gives back the buffer. |
| Lexer.SplitLinesForm | asdl.py:289 | The lines and their breaks have the shape `str.splitlines` produces: no break inside a line, every line ended by a break except a non-empty last one, and no `\r` break followed by an empty line ended by `\n`. |
| Lexer.SplitJoinLines | asdl.py:289 | Conversely, lines and breaks of that shape, joined, split back into exactly those lines. |
| Lexer.SplitFront | asdl.py:289 | A line without breaks followed by one break is split off as the first line, and the rest is split on its own. |
| Lexer.StripLeft | asdl.py:290 | `lstrip`: the result is a suffix of the input, everything removed is white space, and the result does not start with white space. |
| Lexer.StripRight | asdl.py:290 | `rstrip`: the result is a prefix of the input, everything removed is white space, and the result does not end with white space. |
| Lexer.StripTrims | asdl.py:290 | `line.strip()` is a slice of the line: everything before and after it is white space, and a non-empty result neither starts nor ends with white space. |
| Lexer.StripNothing | asdl.py:290 | A non-empty line that neither starts nor ends with white space is left as it is by `strip`. |
| Lexer.LexemeKinds | asdl.py:292-307 | A lexeme has an identifier kind exactly when it is a word starting with a letter, `ConstructorId` exactly when that letter is upper case. It has an operator kind exactly when it is a single table character, and then it is that kind's character. |
| Lexer.WordRun | asdl.py:290 | The `\w+` alternative: the longest run of word characters at the start of the text. |
| Lexer.ScanLine | asdl.py:290-307 | Every token scanned from line `n` carries `n`, and its kind agrees with its text. A failure is a syntax error on line `n`. |
| Lexer.TokenizeLines | asdl.py:289-307 | Tokens come out in line order, each with the number of a line in the range and a kind that agrees with its text. A failure has a known line in the range, no earlier than any token before it. |
| Lexer.Tokenize | asdl.py:287-307 | Lines are numbered from 1, and tokens carry nondecreasing line numbers between 1 and the number of lines. A failure carries a known line within the buffer. |
| Lexer.ScanWord | asdl.py:292-297 | A word starting with a letter is one token: `ConstructorId` if the letter is upper case, `TypeId` otherwise. Its text is the whole word, and scanning resumes right after it. |
| Lexer.ScanOperator | asdl.py:301-307 | Each operator character yields exactly one token of its table kind, with that character as its text, whatever follows it. |
| Lexer.ScanLeadingSpace | asdl.py:290 | White space before a lexeme is skipped. |
| Lexer.ScanLexeme | asdl.py:290-307 | One lexeme followed by a space is its token, then the scan of the rest. |
| Lexer.ScanAfterLexemes | asdl.py:290-307 | Lexemes separated by spaces scan to exactly their tokens, followed by the scan of whatever comes after them. |
| Lexer.CommentDiscarded | asdl.py:298-300 | `--` discards the rest of its line: nothing after it becomes a token or an error. |
| Lexer.RejectedStartFails | asdl.py:301-306 | At a character outside the table, or a word starting with a digit or underscore, the scan keeps the tokens before it and fails with a syntax error on that line. |
| Lexer.ScanTrailingSpace | asdl.py:290 | White space at the end of a line changes nothing the scan yields. |
| Lexer.ScanStripLeft | asdl.py:290 | Scanning a left-stripped line is scanning the line. |
| Lexer.ScanStripRight | asdl.py:290 | Scanning a right-stripped line is scanning the line. |
| Lexer.ScanIgnoresStrip | asdl.py:290 | `line.strip()` before the scan changes nothing the scan yields. |
| Lexer.SplitAfterLine | asdl.py:289 | A line without breaks followed by `\n` is split off as one line. |
| Lexer.TokenizeLinesStep | asdl.py:289-307 | A line that scans without error contributes its tokens in front of those of the later lines. |
| Lexer.RejectedLineStops | asdl.py:289-307 | A line that fails to scan ends the tokenizer with that line's result, and later lines are never read. |
| Lexer.TokenizeRendered | asdl.py:287-307 | Lines of lexemes, rendered and tokenized, give back exactly their tokens with no error. Each token carries the 1-based number of its line. |
| Lexer.TokensAtTexts | asdl.py:290-307 | The tokens of lexemes on one line are one per lexeme, in order, each with its lexeme as its text. |
| Lexer.LinesTokensTexts | asdl.py:289-307 | The tokens of lines of lexemes are one per lexeme across all lines, in order, each with its lexeme as its text. |
| Lexer.LinesLexemes | asdl.py:290-307 | Lines whose lexemes, taken together, are all lexemes each hold only lexemes. |
| Lexer.TokenizeStopsAtRejected | asdl.py:289-307 | Rejected text on some line stops the tokenizer. The tokens of all earlier lines, and of that line before the rejected text, are kept. The error carries that line's number, and what follows is never looked at. |
| Parser.Start | asdl.py:322-327 | The first pull fails exactly when the very first token is a lexical error, and then fails with that error. |
| Parser.Advance | asdl.py:415-424 | `_advance` moves exactly one token on. It fails only when the token it pulls is the lexical error that ended the stream. |
| Parser.KindAt | asdl.py:415-424 | The current token's kind, defined exactly while a token is current. After the end of input it is a syntax error with an unknown line (the corrected reading; see Findings). |
| Parser.Match | asdl.py:428-444 | `_match` succeeds only on a token of one of the given kinds, returning its text and moving one on. Another kind is a syntax error on that token's line; end of input is one with an unknown line. |
| Parser.AtKeyword | asdl.py:446-447 | Defined while a token is current, and true exactly when that token is a `TypeId` with the keyword's text. |
| Parser.Optional | asdl.py:405-413 | Consumes the current token exactly when it has the given kind, and says whether it did. |
| Parser.ParseQuantifier | asdl.py:405-413 | `?` is tested first and `*` second, independently. `opt` is set exactly when the first token is `?`. `seq` is set exactly when the token after the optional `?` is `*`. One position is consumed per flag set. |
| Parser.ParseOptionalName | asdl.py:382-383 | A field name is taken exactly when the current token is an identifier of either kind, and then its text is the name. |
| Parser.ParseField | asdl.py:379-384 | A field starts at its `TypeId`, whose text is the field's type, and consumes at least that token. |
| Parser.FieldItems | asdl.py:379-388 | The field loop ends at or after where it started, at a valid position. |
| Parser.ParseFields | asdl.py:376-390 | A parsed field list opens with `(` and closes with `)`. A first token other than `(` is an error on its line. |
| Parser.ParseOptionalFields | asdl.py:392-396 | Without a field list nothing is consumed and the fields are empty (`fields or []`). |
| Parser.ParseOptionalAttributes | asdl.py:398-403 | Without the keyword nothing is consumed and the attributes are empty. |
| Parser.ParseConstructor | asdl.py:358-361 | A constructor starts with a `ConstructorId`, whose text is its name. |
| Parser.MoreConstructors | asdl.py:362-370 | The constructors separated by pipes end at or after where they started. |
| Parser.ParseType | asdl.py:352-374 | The body is a product exactly when it starts with `(`, and a sum has at least one constructor. A body starting with anything but `(` or a `ConstructorId` is an error on that token's line. |
| Parser.ParseDefinitions | asdl.py:343-350 | A non-empty definition list starts at a `TypeId`, and the first definition is named by its text. |
| Parser.ParseBraced | asdl.py:338-340 | The braced part consumes at least its two braces. |
| Parser.ParseModuleBody | asdl.py:337-341 | The name and the braced part consume at least three tokens. |
| Parser.ParseModule | asdl.py:329-341 | A parsed module starts with the keyword `module` and spans at least four tokens. |
| Parser.ModuleShape | asdl.py:329-341 | A parsed module's name is the identifier after `module`, followed by `{`, and its last token is `}`. |
| Parser.ModuleNeedsKeyword | asdl.py:330-336 | Any first token but the keyword `module` is a syntax error on that token's line. |
| Parser.Parse | asdl.py:322-327 | A buffer that parses has at least four tokens, the first spelled `module`. |
| ParserFacts.BareField | asdl.py:379-384 | A `TypeId` followed by neither a quantifier nor an identifier is one field with no name and no quantifier. |
| ParserFacts.EmptyFields | asdl.py:376-390 | `()` parses to an empty field list. |
| ParserFacts.TrailingComma | asdl.py:384-390 | `(t,)` is one field: a comma before `)` is accepted. |
| ParserFacts.DoubleComma | asdl.py:384-390 | `(t,,` is a syntax error on the line of the second comma, raised by the closing `_match`. |
| ParserFacts.NamedFieldsWithoutComma | asdl.py:379-388 | `(t a u)` is two fields: no comma is needed after a named field. |
| ParserFacts.OptionalSequence | asdl.py:405-413 | `?*` sets both `opt` and `seq`. |
| ParserFacts.SequenceThenOptional | asdl.py:379-389 | `(t*?` is a syntax error on the line of the `?`. |
| ParserFacts.DefinitionNeedsBody | asdl.py:352-361 | `t = u` with `u` a `TypeId` is a syntax error on the line of `u`: a keyword alone does not make a product. |
| ParserFacts.AttributesAfterSum | asdl.py:398-403 | After a sum without an attributes list, a definition named `attributes` is taken for the keyword, and its `=` is an error on its own line. |
| ParserFacts.AttributesAfterProduct | asdl.py:352-403 | After a product without an attributes list, a definition named `attributes` is taken for the keyword too, and its `=` is an error on its own line. |
| ParserFacts.AttributesAfterAttributes | asdl.py:343-403 | After a sum whose attributes are written `attributes ()`, a definition named `attributes` is an ordinary definition: the sum ends before it, with no attributes, and the definitions loop goes on there. |
| ParserFacts.AfterClosingBrace | asdl.py:329-341 | `module M { }` is parsed, with the token after `}` left unread, exactly when pulling that token succeeds; when the stream ends there with a lexical error, the parse fails with that error. |
| RoundTrip.FieldRoundTrip | asdl.py:379-384 | A field's printed tokens, followed by a token that cannot continue the field, parse back to that field and end right after its tokens. |
| RoundTrip.ItemsRoundTrip | asdl.py:379-388 | A sequence of fields, printed with any choice of commas in which each unnamed field but the last has one, and followed by `)`, parses back to exactly those fields. |
| RoundTrip.FieldsRoundTrip | asdl.py:376-390 | A printed field list parses back to its fields, whatever tokens follow its `)`, provided pulling the token after it does not hit a lexical error, which the source then raises. |
| RoundTrip.ConstructorRoundTrip | asdl.py:358-361 | A printed constructor not followed by `(` parses back to the constructor. |
| RoundTrip.AlternativesRoundTrip | asdl.py:362-370 | Constructors printed each after a pipe, followed by a token that cannot continue them, parse back to those constructors. |
| RoundTrip.AttributesRoundTrip | asdl.py:398-403 | Printed attributes parse back to themselves. Empty ones print as nothing, or as `attributes ()` when the next definition is named `attributes`; either way they read back as empty. |
| RoundTrip.SumRoundTrip | asdl.py:356-371 | A printed sum with at least one constructor parses back to the sum. |
| RoundTrip.ProductRoundTrip | asdl.py:353-355 | A printed product parses back to the product. |
| RoundTrip.ValueRoundTrip | asdl.py:352-374 | A printed definition body, sum or product, parses back to itself. |
| RoundTrip.DefinitionRoundTrip | asdl.py:343-350 | A printed definition in front of what parses as further definitions is added before them. |
| RoundTrip.DefinitionsRoundTrip | asdl.py:343-350 | Printed definitions followed by `}` parse back to the same list, in source order, including definitions named `attributes`. |
| RoundTrip.ModuleRoundTrip | asdl.py:329-341 | Tokens of the kinds and texts a module prints to, on any lines, anywhere in any token stream, parse back to the module whatever tokens follow its `}`, provided pulling the token after it does not hit a lexical error, which the source then raises. |
| Printer.TokenizePrint | asdl.py:287-307 | The tokenizer reads a printed module's text back as exactly the module's tokens, with no error. |
| RoundTrip.ParsePrint | asdl.py:322-327 | `Parse(Print(m)) == Ok(m)` for every printable module, which by `ReadBack.ParseReadable` includes every module the parser returns. |
| RoundTrip.ParseLaidOut | asdl.py:287-341 | The same module's texts spread over any number of lines, in order, parse back to the module: line numbers never change what is parsed. |
| ReadBack.SpelledIdentifier | asdl.py:292-297 | The text of an identifier token is a word starting with a letter, and it starts with an upper-case letter exactly when the token is a `ConstructorId`. |
| ReadBack.ParsedField | asdl.py:379-384 | A parsed field's type is the text of a `TypeId` and its name that of an identifier, so the printer writes the field back as the same tokens. |
| ReadBack.ParsedItems | asdl.py:379-388 | Every field read by the field loop is printable. |
| ReadBack.ParsedFields | asdl.py:376-390 | Every field of a parsed field list is printable. |
| ReadBack.ParsedOptionalFields | asdl.py:358-361 | Every field of a constructor's optional field list is printable. |
| ReadBack.ParsedAttributes | asdl.py:398-403 | Every parsed attribute is printable. |
| ReadBack.ParsedConstructor | asdl.py:358-361 | A parsed constructor is named by a `ConstructorId`'s text and its fields are printable. |
| ReadBack.ParsedAlternatives | asdl.py:362-370 | Every constructor after a pipe is printable. |
| ReadBack.ParsedValue | asdl.py:352-374 | A parsed definition body is printable: a sum has a first constructor, and every name in it is spelled as its token. |
| ReadBack.ParsedDefinitions | asdl.py:343-350 | Every parsed definition is printable, whatever names follow, `attributes` included. |
| ReadBack.ParsedModule | asdl.py:329-341 | A module parsed from tokens spelled as the lexer spells them is printable. |
| ReadBack.ParseReadable | asdl.py:322-327 | Every module `Parse` returns is printable. |
| ReadBack.PrintableIffReadBack | asdl.py:322-327 | A module is printable exactly when printing it and parsing the text gives it back. |
| ReadBack.ReprintParse | asdl.py:322-327 | Every accepted text, with comments, any commas or any layout, parses exactly like the printed text of the module it parses to. |
| ReadBack.AttributesNamedTokens | asdl.py:398-403 | Before a definition named `attributes`, the empty attributes of `t = C` are written `attributes ()`. |
| ReadBack.AttributesNamedReadBack | asdl.py:343-403 | `t = C` followed by a definition named `attributes` is printable, and it reads back as itself. |
| Checker.Registered | asdl.py:195-203 | Registering a constructor name adds it to the registry. It counts one error exactly when the name was registered already, keeps every earlier entry, gives a new name the current type, and leaves the usage index alone. |
| Checker.Used | asdl.py:207-210 | `setdefault` then `append`: the index gains the type's name, its list of users ends with the new user after the earlier ones, and every other type's list is unchanged. |
| Checker.VisitConstructor | asdl.py:195-205 | A constructor registers its name for its type, counting one error exactly when the name was registered already, keeps every earlier entry, and records exactly its field types. |
| Checker.VisitConstructors | asdl.py:191-193 | A sum's constructors add exactly their names to the registry, each new one owned by the sum, keep every earlier entry, and add at most one error each. |
| Checker.VisitType | asdl.py:188-214 | A product registers nothing and counts no error, and records exactly its field types; a sum registers exactly its constructor names; every new entry is owned by the definition's name. |
| Checker.VisitDefinitions | asdl.py:184-186 | The visit over the definitions keeps every earlier registry entry, and neither the registry, the error count nor the usage index shrinks. |
| Checker.VisitField | asdl.py:207-210 | Visiting a field records its type and changes neither the constructor registry nor the error count. |
| Checker.VisitFields | asdl.py:204-214 | Visiting fields changes neither the constructor registry nor the error count, and the usage index gains exactly the fields' types. |
| Checker.VisitFlat | asdl.py:184-214 | The visitor over the definitions is registering every constructor with its type, in source order, plus recording every field type outside attributes with its user. |
| Checker.RegisterRegistry | asdl.py:195-203 | The registry keeps every earlier entry, and each new name maps to the owner of its first occurrence. |
| Checker.RegisterErrors | asdl.py:195-203 | Each constructor occurrence whose name is already registered adds one error, and nothing else does. |
| Checker.IndexKeys | asdl.py:207-210 | The usage index gains exactly the field types used. |
| Checker.IndexUsers | asdl.py:207-210 | Each type's list of users grows by the owners of its uses, in order. |
| Checker.NoDuplicatesCount | asdl.py:195-203 | Constructor names are pairwise different exactly when there are as many names as constructors. |
| Checker.UndefinedAmongAdd | asdl.py:226-228 | A new field type adds one undefined type exactly when it is neither defined nor builtin. |
| Checker.CountUndefined | asdl.py:226-230 | The loop over recorded field types counts exactly those neither defined by the module nor builtin. |
| Checker.Check | asdl.py:217-231 | The error count is the duplicate constructor occurrences plus the distinct undefined field types. `check` succeeds exactly when the count is zero, which holds exactly when the module is well formed. |
| Checker.CheckFacts | asdl.py:217-231 | After the visit the errors are the duplicate constructor occurrences, and the recorded types are the field types used. Well formed means no duplicate and no undefined type. |
| Checker.VisitResult | asdl.py:184-214 | After the visit, each constructor name maps to the type that first defined it, and each field type maps to its users in visit order. |
| Checker.AttributesIgnored | asdl.py:191-214 | Attributes are never visited: definitions that differ only in their attributes give the same visitor state. |
| Findings.ScanLineAsWritten | asdl.py:290-307 | As written, a line yields only identifier tokens. Its scan either finishes or stops with TypeError. |
| Findings.TokenizeLinesAsWritten | asdl.py:289-307 | As written, the tokenizer yields only identifier tokens, and stops with TypeError or finishes. |
| Findings.TokenizeAsWritten | asdl.py:287-307 | `tokenize_asdl` as written on a buffer yields only identifier tokens, and either finishes or raises TypeError. |
| Findings.TokenizeAsWrittenPrefix | asdl.py:287-307 | As written, the tokenizer yields a prefix of the corrected tokenizer's tokens. It finishes exactly when the corrected one succeeds without an operator token, and then with the same tokens. |
| Findings.LinesAsWrittenPrefix | asdl.py:289-307 | The same, line by line from any line number. |
| Findings.ScanAsWrittenPrefix | asdl.py:301-307 | As written, a line's tokens are a prefix of the corrected scan's tokens. The scan finishes exactly when the corrected scan meets no operator and no error, and then with the same tokens. |
| Findings.ScanWordAsWritten | asdl.py:292-297 | As written, identifiers are scanned as in the corrected scan. |
| Findings.ScanOperatorAsWritten | asdl.py:303-304 | As written, every operator character ends the scan with TypeError. |
| Findings.BraceAsWritten | asdl.py:259-269 | As written, `module M {` yields `module` and `M`, then TypeError at the brace. |
| Findings.BraceCorrected | asdl.py:301-307 | Corrected, the same line yields the `LBrace` token after `module` and `M`. |
| Findings.NoModuleAsWritten | asdl.py:338-340 | As written, no input parses to a module: a module needs a closing brace, and the tokenizer as written never yields one. |
| Findings.KindAsWritten | asdl.py:422-423 | As written, reading the current kind after the end of input raises AttributeError. |
| Findings.KindAsWrittenCorrected | asdl.py:415-424 | The corrected read agrees with the read as written on every token. It is a syntax error with no line exactly where the read as written raises AttributeError. |
| Findings.TruncatedTokens | asdl.py:287-307 | `module M {` tokenizes, when corrected, to its three tokens and no error. |
| Findings.TruncatedModule | asdl.py:343-345 | With the operator table corrected, `module M {` gets past its brace, and the loop over definitions reads the kind of a token that does not exist. As written this raises AttributeError; in the model it is a syntax error with no line. |
| Findings.NameOnlyAsWritten | asdl.py:415-437 | As written, `module M` tokenizes to `module` and `M` with no exception, and the kind read when `_match` reads the `{` after them (line 338 calls it) raises AttributeError. |
| Findings.NameOnlyCorrected | asdl.py:415-424 | Corrected, `module M` tokenizes to the same two tokens, and its parse is a syntax error with no line. |
| Findings.KindPastEnd | asdl.py:415-437 | Past the end of two tokens the kind read as written raises AttributeError, and the corrected read is a syntax error with no line. |

## Left out

- `parse(filename)` (asdl.py:237-241) is file I/O. It is left out; the model parses a text buffer.
- The `print` diagnostics of the visitor and `check` (asdl.py:168, 201-202, 229-230) are not modelled: the check returns its error count.
- The text of error messages is not modelled: a syntax error keeps only its line, known or unknown.
- The `__repr__` and `__str__` renderings (asdl.py:51-142) are left out. `Printer.Print` is an independent renderer written for the round trip, not a model of them.
- The `VisitorBase` dispatch by class name, its per-class cache and its log-then-reraise (asdl.py:151-169) are replaced by direct recursion over the node datatypes. The cache only saves lookups, and no visit method raises.
- Unicode `\w`, `isalpha` and `isupper` are modelled on ASCII letters, digits and `_`. A non-ASCII letter is rejected by the model, though Python would take it as part of a word. White space and line breaks follow Python's full sets.
- The tokenizer as a lazy generator is modelled as the list of tokens it yields before it stops, with the error it stops with. The parser meets that error at the position where it pulls the token after the last one yielded.
- `Token.lineno` is annotated `str` in the source but holds the `int` line number. The model uses `nat`. A line number that is missing or 0 reads as unknown (asdl.py:281), which can only happen at end of input.
- Parser.FieldItems: its contract only bounds the end position. What the loop accepts is stated by `RoundTrip.ItemsRoundTrip` and the `ParserFacts` lemmas.
- Parser.MoreConstructors: its contract only bounds the end position. What it parses is stated by `RoundTrip.AlternativesRoundTrip`.
- Parser.ParseBraced: its contract only bounds the end position. The braces are stated by `Parser.ModuleShape`, and the contents by `RoundTrip.ModuleRoundTrip`.
- Parser.ParseModuleBody: its contract only bounds the end position. The name and braces are stated by `Parser.ModuleShape`.
- Parser.ParseModule: the name and brace facts are stated in the separate lemma `Parser.ModuleShape`, not in its own contract.
- RoundTrip.ParsePrint: the round trip covers only printable modules, which the parser never leaves. In a printable module:
  - the module name, every type name, constructor name, field type and field name is a word that starts with a letter;
  - type names and field types start with a lower-case letter;
  - constructor names start with an upper-case letter;
  - every sum has at least one constructor.
  `ReadBack.PrintableIffReadBack` shows that no other module reads back as itself.

## Findings

| source | as written | input that shows it | evidently intended | confidence | as-written member | corrected member |
|---|---|---|---|---|---|---|
| asdl.py:259-269, 303-306 | `operator_table` is assigned inside the body of the `TokenKind` enumeration, so it becomes one more enumeration member, not a dictionary. `TokenKind.operator_table[c]` then raises TypeError, which `except KeyError` does not catch. Even as a dictionary, its values would be the raw integers 2 to 10, not `TokenKind` members. | the line `module M {`: the scan raises TypeError at `{` | each of the nine table characters yields one token of its kind; any other character is a syntax error on its line | high; not executed | Findings.BraceAsWritten | Lexer.ScanOperator |
| asdl.py:338, 422-423, 436 | at end of input `_advance` sets `cur_token` to None. The next `self.cur_token.kind` raises AttributeError instead of a syntax error. The definitions loop at line 345 has the same read, but the tokenizer as written reaches it only once the first finding is corrected. | `module M`: the tokenizer as written yields `module` and `M` and no exception; `_match` for the `{` then reads `.kind` of None | a syntax error with an unknown line | high; not executed | Findings.NameOnlyAsWritten | Findings.NameOnlyCorrected |
