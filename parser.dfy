/**
 * `parse_expression`: turns the raw text of a template string value into an
 * `ArmExpression`. Every way the Rust `parse_expression` can panic is a distinct `Failure`.
 */
module Parser {
  import opened Wrappers
  import opened Strings
  import opened Ast

  /** The panic sites of `parse_expression`, one value each. */
  datatype Failure =
    | BracketedVariableTooShort    // `[variables(` input under 15 characters: the slice's start lies after its end (`value[12..len-3]`)
    | VariableTooShort             // `variables(` input under 13 characters: the start lies after the end (`value[11..len-2]`)
    | BracketedParameterTooShort   // `[parameters(` input under 16 characters: the start lies after the end (`value[13..len-3]`)
    | ParameterTooShort            // `parameters(` input under 14 characters: the start lies after the end (`value[12..len-2]`)
    | NoOpeningParenthesis         // a `[` input without `(`: `expect("opening parenthesis")`
    | NoClosingParenthesis         // a `[` input without `)`: `expect("closing bracket")`
    | ClosingBeforeOpening         // the last `)` lies before the first `(`: the argument slice's start lies after its end
    | UnknownFunction(name: string) // a function name outside the known six: `todo!()`
    | LoneQuote                    // the one-character input `'`: the literal slice's start lies after its end (`value[1..0]`)

  /** The function a name is the spelling of, if it is one of the six the parser knows. */
  function FunctionNamed(name: string): (r: Option<FunctionName>)
    ensures r.Some? <==> name in {"format", "concat", "copyIndex", "resourceId", "if", "resourceGroup"}
    ensures r.Some? ==> Spelling(r.value) == name
  {
    if name == "format" then Some(Format)
    else if name == "concat" then Some(Concat)
    else if name == "copyIndex" then Some(CopyIndex)
    else if name == "resourceId" then Some(ResourceId)
    else if name == "if" then Some(If)
    else if name == "resourceGroup" then Some(ResourceGroup)
    else Option.None
  }

  /** How a function is written in an expression. */
  function Spelling(f: FunctionName): string {
    match f
    case Format => "format"
    case Concat => "concat"
    case CopyIndex => "copyIndex"
    case ResourceId => "resourceId"
    case If => "if"
    case ResourceGroup => "resourceGroup"
  }

  /** Every function is recognised under its own spelling. */
  lemma SpellingRecognised(f: FunctionName)
    ensures FunctionNamed(Spelling(f)) == Some(f)
  {
  }

  /** No spelling holds a `(` or is one of the words of a reference form. */
  lemma SpellingIsName(f: FunctionName)
    ensures '(' !in Spelling(f) && Spelling(f) != "variables" && Spelling(f) != "parameters"
  {
    match f
    case Format =>
    case Concat =>
    case CopyIndex =>
    case ResourceId =>
    case If =>
    case ResourceGroup =>
  }

  /**
   * The argument texts of a call whose parentheses enclose `inner`: split at
   * every `,` and trimmed, none longer than `inner`.
   */
  function ArgumentTexts(inner: string): (r: seq<string>)
    ensures |r| >= 1
    ensures forall i :: 0 <= i < |r| ==> |r[i]| <= |inner|
  {
    var pieces := Split(inner, ',');
    var r := TrimAll(pieces);
    assert forall i :: 0 <= i < |r| ==> |r[i]| <= |inner| by {
      forall i | 0 <= i < |r| ensures |r[i]| <= |inner| {
        assert r[i] == Trim(pieces[i]);
      }
    }
    r
  }

  /** `parse_expression(value)` */
  function Parse(s: string): (r: Result<ArmExpression, Failure>)
    ensures r == Ok(ArmExpression.None) <==> s == []
    decreases |s|, 3, 0
  {
    if s == [] then Ok(ArmExpression.None)
    else if s[0] == '[' then
      if StartsWith(s, "[variables(") then
        if |s| < 15 then Err(BracketedVariableTooShort) else Ok(Variable(s[12..|s| - 3]))
      else if StartsWith(s, "[parameters(") then
        if |s| < 16 then Err(BracketedParameterTooShort) else Ok(Parameter(s[13..|s| - 3]))
      else ParseCall(s)
    else if StartsWith(s, "variables(") then
      if |s| < 13 then Err(VariableTooShort) else Ok(Variable(s[11..|s| - 2]))
    else if StartsWith(s, "parameters(") then
      if |s| < 14 then Err(ParameterTooShort) else Ok(Parameter(s[12..|s| - 2]))
    else if s[0] == '\'' then
      if |s| < 2 then Err(LoneQuote) else Ok(Literal(String(s[1..|s| - 1])))
    else
      Ok(Literal(String(s)))
  }

  /** The two parts of a call text: the function name and the text between the parentheses. */
  datatype CallSyntax = CallSyntax(name: string, argumentText: string)

  /** The text of a call: `[`, a name, `(`, the arguments, `)` and a tail. */
  function CallText(f: string, a: string, t: string): string {
    "[" + f + "(" + a + ")" + t
  }

  /**
   * The function-call branch of `parse_expression`, up to the arguments: the
   * name runs from after the `[` to the first `(`, the argument text from
   * there to the last `)`. Fails without a `(`, without a `)`, or when the
   * last `)` comes before the first `(`.
   */
  function CallParts(s: string): (r: Result<CallSyntax, Failure>)
    requires |s| >= 1 && s[0] == '['
    ensures r.Ok? ==> |r.value.argumentText| < |s|
  {
    match IndexOf(s, '(')
    case None => Err(NoOpeningParenthesis)
    case Some(open) =>
      match LastIndexOf(s, ')')
      case None => Err(NoClosingParenthesis)
      case Some(close) =>
        if close < open + 1 then Err(ClosingBeforeOpening)
        else
          assert open != 0 by { assert s[0] != '('; }
          Ok(CallSyntax(s[1..open], s[open + 1..close]))
  }

  /** The function-call branch of `parse_expression`. */
  function ParseCall(s: string): (r: Result<ArmExpression, Failure>)
    requires |s| >= 1 && s[0] == '['
    ensures r.Ok? ==> r.value.Function?
    decreases |s|, 2, 0
  {
    match CallParts(s)
    case Err(e) => Err(e)
    case Ok(call) => ParseCallParts(call.name, ArgumentTexts(call.argumentText), |s|)
  }

  /**
   * A call given its name and its argument texts: the arguments are parsed
   * first, and only then is the name looked up. `bound` exceeds the length
   * of every argument text.
   */
  function ParseCallParts(name: string, texts: seq<string>, bound: nat): (r: Result<ArmExpression, Failure>)
    requires forall i :: 0 <= i < |texts| ==> |texts[i]| < bound
    ensures r.Ok? ==> r.value.Function?
    decreases bound, 1, 0
  {
    match ParseArguments(texts, bound)
    case Err(e) => Err(e)
    case Ok(args) =>
      match FunctionNamed(name)
      case None => Err(UnknownFunction(name))
      case Some(f) => Ok(Function(FunctionExpression(f, args)))
  }

  /**
   * Each argument text parsed in turn, left to right; the first failure is
   * the failure of the whole list. `bound` exceeds the length of every text.
   */
  function ParseArguments(texts: seq<string>, bound: nat): (r: Result<seq<ArmExpression>, Failure>)
    requires forall i :: 0 <= i < |texts| ==> |texts[i]| < bound
    ensures r.Ok? ==> |r.value| == |texts|
    decreases bound, 0, |texts|
  {
    if texts == [] then Ok([])
    else
      match Parse(texts[0])
      case Err(e) => Err(e)
      case Ok(first) =>
        match ParseArguments(texts[1..], bound)
        case Err(e) => Err(e)
        case Ok(rest) => Ok([first] + rest)
  }
}
