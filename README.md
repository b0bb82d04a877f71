# disarm: the ARM expression parser, modelled in Dafny

disarm reads Azure Resource Manager (ARM) templates. Every string value in a
template can hold an ARM expression such as `[concat('a', parameters('b'))]`.
`parse_expression` turns that text into an `ArmExpression` tree. This project
models that function, together with the template's record types, as pure
Dafny functions over `seq<char>`, and proves what the parser does on every
shape of input.

- `wrappers.dfy`: `Option` and `Result`.
- `strings.dfy`: the string operations the parser relies on: `starts_with`,
  `find`, `rfind`, `split` on one character, and `trim`. It also proves
  facts about them: split and join are inverse, split gives one more piece
  than there are separators, and trim is idempotent.
- `ast.dfy`: `ArmExpression`, `LiteralValue`, `FunctionExpression`,
  `ReferenceExpression`, `FunctionName`, `ArmTemplate`, `ArmParameter`,
  `ArmResource` and `ArmOutput` as datatypes. It also defines
  `ParsedShape`, the shapes the parser can produce.
- `parser.dfy`: `Parse`, the model of `parse_expression`.
  - Each way the Rust code can panic is its own `Failure` value. These are
    the four fixed-offset slices of the reference forms, the two `expect`s
    on the parentheses, the reversed argument slice, the `todo!()` for an
    unknown name, and the slice of a lone quote.
  - `parse_expression` never returns `Err`, so the `expect("parseable")` on each
    argument never fires. A failing argument's own failure is therefore the
    failure of the whole call.
  - The call branch works in the Rust code's order: find the first `(`, then
    the last `)`, then slice, then parse the arguments left to right, and
    only then look up the name. A failing argument is therefore reported
    before an unknown name.
  - `Parse` tests for a leading `[` before it tests the bare `variables(`
    and `parameters(` prefixes. The Rust code tests them in the order
    bracketed variable, bare variable, bracketed parameter, bare parameter.
    Both orders give the same result, because an input that starts with `[`
    can match neither bare prefix.
- `properties.dfy`: what `Parse` yields for each branch, stated in terms of
  the input's structure:
  - the reference forms and their length thresholds;
  - a call text `"[" + f + "(" + a + ")" + t`;
  - the argument list;
  - quoted and verbatim literals;
  - the failures;
  - the shape of every result.
- `printer.dfy` and `roundtrip.dfy`: `Render` writes parser-shaped
  expressions as text. `Render` is not part of the Rust code; it is the
  inverse that `Parse` is proved against. The round trip
  `Parse(Render(e)) == Ok(e)` holds for every expression whose calls have
  at least one argument and whose call arguments render without commas
  (`Printable`).
- `cases.dfy`: particular inputs that show the naive argument split:
  - `()` is one `None` argument;
  - `'x,y'` is two arguments;
  - unknown and empty function names fail.

The code splits arguments at every `,` (src/lib.rs:46). It does not treat
quoted commas, `''` escapes, numbers, booleans or resource references
specially, and has no depth limit or typed error. The model follows the
code: `Parse` never produces `Number`, `Boolean` or `Reference`
(`ShapeOfParse`), and commas inside quotes split arguments
(`QuotedCommaSplits`).

## Model

| member | source | states |
|---|---|---|
| Strings.StartsWithAt | src/lib.rs:24-70 | `s.starts_with(prefix)` holds exactly when `prefix` is no longer than `s` and agrees with it at each of its positions |
| Strings.StartsWithConcat | src/lib.rs:24-70 | `s.starts_with(prefix)` holds exactly when `s` is `prefix` followed by the rest of `s` |
| Strings.NotStartsWith | src/lib.rs:24-70 | a string that differs from `prefix` at a position both share does not start with it |
| Strings.IndexOf | src/lib.rs:41 | `find`: absent exactly when the character does not occur; otherwise an index holding it with no occurrence before it |
| Strings.LastIndexOf | src/lib.rs:42 | `rfind`: absent exactly when the character does not occur; otherwise an index holding it with no occurrence after it |
| Strings.FirstFrom | src/lib.rs:41 | the first occurrence at or after a position, with no occurrence between that position and it |
| Strings.LastBefore | src/lib.rs:42 | the last occurrence before a position, with no occurrence between it and that position |
| Strings.Split | src/lib.rs:46 | `split(",")` gives at least one piece, no piece holds the separator, and no piece is longer than the input |
| Strings.JoinOfSplit | src/lib.rs:46 | joining the pieces with the separator gives back the input, so nothing is lost |
| Strings.SplitOfJoin | src/lib.rs:46 | splitting a join of separator-free pieces gives back exactly those pieces |
| Strings.SplitCount | src/lib.rs:46 | splitting gives one more piece than the input has separators |
| Strings.Trim | src/lib.rs:46 | `trim` is no longer than its input and neither starts nor ends with whitespace |
| Strings.TrimRemovesWhitespace | src/lib.rs:46 | `trim` keeps one contiguous part of its input and removes only whitespace before and after it |
| Strings.TrimOfTrimmed | src/lib.rs:46 | a text with no whitespace at either end is left unchanged by `trim` |
| Strings.TrimIdempotent | src/lib.rs:46 | trimming twice is trimming once |
| Strings.TrimAll | src/lib.rs:46 | `.map(trim)` keeps the number and order of the pieces and trims each one |
| Parser.FunctionNamed | src/lib.rs:54-62 | a name is recognised exactly when it is one of the six spellings, and the function found is spelled as that name |
| Parser.SpellingRecognised | src/lib.rs:54-60 | each of the six functions is recognised under its own spelling |
| Parser.SpellingIsName | src/lib.rs:55-60 | no spelling contains `(` or equals `variables` or `parameters` |
| Parser.ArgumentTexts | src/lib.rs:46 | the argument texts are never empty as a list, and none is longer than the text between the parentheses |
| Parser.Parse | src/lib.rs:17-78 | the result is `None` exactly when the input is empty |
| Parser.CallParts | src/lib.rs:41-45 | the argument text cut out of a call is shorter than the call, so the recursion terminates |
| Parser.ParseCall | src/lib.rs:40-68 | a successful call branch yields a `Function` |
| Parser.ParseCallParts | src/lib.rs:49-67 | a successful call yields a `Function` |
| Parser.ParseArguments | src/lib.rs:49-52 | a successful argument list has one value per argument text |
| ParserProperties.VariableForms | src/lib.rs:24-31 | both variable forms yield the text between the fixed offsets, whatever characters stand where the quotes should be |
| ParserProperties.QuotedVariable | src/lib.rs:24-31 | `[variables('n')]` and `variables('n')` both yield `Variable(n)`, for every `n` |
| ParserProperties.ParameterForms | src/lib.rs:32-39 | both parameter forms yield the text between the fixed offsets, unchecked quotes included |
| ParserProperties.QuotedParameter | src/lib.rs:32-39 | `[parameters('n')]` and `parameters('n')` both yield `Parameter(n)`, for every `n` |
| ParserProperties.BracketedVariableLength | src/lib.rs:24-27 | an input starting with `[variables(` fails under 15 characters and is otherwise cut at offsets 12 and 3 |
| ParserProperties.BareVariableLength | src/lib.rs:28-31 | an input starting with `variables(` fails under 13 characters and is otherwise cut at offsets 11 and 2 |
| ParserProperties.BracketedParameterLength | src/lib.rs:32-35 | an input starting with `[parameters(` fails under 16 characters and is otherwise cut at offsets 13 and 3 |
| ParserProperties.BareParameterLength | src/lib.rs:36-39 | an input starting with `parameters(` fails under 14 characters and is otherwise cut at offsets 12 and 2 |
| ParserProperties.NotReferencePrefix | src/lib.rs:24-40 | a name other than a reference keyword, followed by `(`, does not match a bracketed reference prefix |
| ParserProperties.ArgumentsInOrder | src/lib.rs:49-52 | the arguments succeed exactly when each argument does, and then hold their values in order; otherwise the first failing argument's failure is the result |
| ParserProperties.BracketGoesToCall | src/lib.rs:24-40 | a `[` input that is neither bracketed reference form goes to the call branch |
| ParserProperties.CallEntersBranch | src/lib.rs:24-40 | a call text whose name is not a reference keyword goes to the call branch |
| ParserProperties.OpeningAfterName | src/lib.rs:41 | the first `(` of `[f(…` is the one after a `(`-free name |
| ParserProperties.ClosingBeforeTail | src/lib.rs:42 | the last `)` is the one before a `)`-free tail |
| ParserProperties.OpeningOfCall | src/lib.rs:41 | in a call text, `find("(")` is the position after the name |
| ParserProperties.ClosingOfCall | src/lib.rs:42 | in a call text, `rfind(")")` is the position before the tail |
| ParserProperties.CallIndices | src/lib.rs:41-42 | where both parentheses of a call text are found |
| ParserProperties.PartsAt | src/lib.rs:41-45 | with the first `(` before the last `)`, the name and argument text are the slices between `[`, `(` and `)` |
| ParserProperties.PartsOfCall | src/lib.rs:41-45 | the call branch reads back the name and the argument text of a call text |
| ParserProperties.CallReadsParts | src/lib.rs:40-46 | the call branch of a call text parses the pieces of exactly that argument text under that name |
| ParserProperties.CallDispatch | src/lib.rs:40-46 | `Parse` of a call text is the call of its name on its argument texts |
| ParserProperties.CallOfParts | src/lib.rs:49-67 | a call succeeds exactly when its name is known and all its arguments succeed, and then is that function of those values in order. With all arguments succeeding and an unknown name it fails with that name. Otherwise the first failing argument decides |
| ParserProperties.CallOfArguments | src/lib.rs:49-67 | a known name applied to arguments that parse to given values is that function of those values |
| ParserProperties.CallSucceeds | src/lib.rs:40-67 | a call text with a known name and arguments that parse to given values yields that `Function` |
| ParserProperties.ArgumentPieces | src/lib.rs:46 | the arguments are the trimmed comma-separated pieces, one more than the commas |
| ParserProperties.ArgumentTextsOfJoin | src/lib.rs:46 | comma-free, already trimmed pieces joined by commas come back as exactly those argument texts |
| ParserProperties.CallBranch | src/lib.rs:40-68 | the whole call branch: argument count and pieces; success exactly when the name is known and every argument parses, in which case the result is the `Function` of the argument values in order; unknown-name failure; first failing argument's failure. The tail after the last `)` is never read |
| ParserProperties.QuotedLength | src/lib.rs:70-72 | an input opening with a quote loses its first and last characters, and a lone quote fails |
| ParserProperties.QuotedLiteral | src/lib.rs:70-72 | a quote, `x` and any last character yield the literal `x`, with nothing unescaped; `'` alone fails |
| ParserProperties.VerbatimLiteral | src/lib.rs:22-76 | the input itself is the literal exactly when it is non-empty and starts with none of `[`, a quote, `variables(` and `parameters(` |
| ParserProperties.MissingOpening | src/lib.rs:41 | a `[` input without `(` fails on the opening parenthesis |
| ParserProperties.CallFailures | src/lib.rs:42-45 | a call without `)` fails on the closing parenthesis, and one whose last `)` is before its first `(` fails on the reversed slice |
| ParserProperties.ShapeOfParse | src/lib.rs:17-78 | every successful result, at every depth, is made only of `None`, `Variable`, `Parameter`, string literals and calls |
| ParserProperties.ShapeOfCall | src/lib.rs:40-68 | the call branch keeps that shape, given that its shorter arguments do |
| ParserProperties.ShapeOfArguments | src/lib.rs:49-67 | a call of arguments of parsed shape has parsed shape |
| ParserProperties.ArgumentsBoundFree | src/lib.rs:49-52 | the argument list's result does not depend on the bound used for termination |
| ParserProperties.TailIgnored | src/lib.rs:42-45 | two call texts that differ only after their last `)`, the closing `]` included, parse alike |
| RoundTrip.RenderUntrimmed | src/lib.rs:46 | a rendered expression is unchanged by `trim` |
| RoundTrip.ParseOfRender | src/lib.rs:17-78 | parsing the text of a printable expression gives that expression back |
| RoundTrip.ParseOfRenderedCall | src/lib.rs:40-68 | the same for a call: each argument is read back from its own piece of the argument text |
| ParserCases.EmptyArgumentList | src/lib.rs:45-52 | `f()` with a known `f` is `f` applied to one `None` argument, not to none |
| ParserCases.QuotedCommaPieces | src/lib.rs:46 | `'x,y'` gives the two argument texts `'x` and `y'` |
| ParserCases.QuotedCommaSplits | src/lib.rs:46-76 | a quoted comma still splits: `f('x,y')` is `f` of the quoted literal `'x` without its last character and the verbatim literal `y'` |
| ParserCases.UnknownName | src/lib.rs:54-61 | a name outside the six fails with that name once its arguments have parsed |
| ParserCases.EmptyName | src/lib.rs:44-61 | `[(x)]` fails on the empty name |

## Left out

- The `Deserialize` implementation and its visitor (src/lib.rs:79-104), and
  the serde derives, are glue around a JSON codec that is not part of this
  model. The visitor only hands the string to `parse_expression`.
- `dbg!(value)` (src/lib.rs:21) writes to standard error. It is output only.
- The test (src/lib.rs:170-193) reads a fixture file through the file
  system and decodes it with `serde_json`, neither of which is part of this
  model.
- The type parameter `E` and the `Err` result are left out because
  `parse_expression` never builds an `Err`. In the model, `Err` carries the
  `Failure` at which the Rust code would panic.
- Rust indexes strings by UTF-8 byte and panics when a slice cuts a
  character. The model indexes by character, so it matches the Rust code only
  on ASCII input.
- Trim: removes ASCII whitespace only, because the model has no Unicode
  tables; Rust's `trim` also removes the other Unicode white-space
  characters.
- `LiteralValue::Number(f64)` keeps its IEEE 754 bit pattern, with no
  floating-point arithmetic, because the parser never builds a number.
  Equality of two numbers in the model compares bit patterns, while the
  derived `PartialEq` (src/lib.rs:106) uses `f64` equality, under which NaN
  differs from itself and `0.0` equals `-0.0`.
- `parse_expression` recurses once per nesting level of calls
  (src/lib.rs:51) with no limit, so deep enough nesting overflows the
  thread stack and aborts the program. `Parse` is a total function and
  returns a result at every depth; stack exhaustion is not modelled.
- `BTreeMap` is a `map`, so key order is not modelled. `Box` in
  `depends_on` is plain nesting.
- ParseOfRender: covers only expressions whose call arguments render without
  commas, and only calls with at least one argument. The parser splits at
  every comma, so a comma inside an argument would be read as two
  arguments; and it reads `()` as one empty argument.
