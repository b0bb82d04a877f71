/**
 * What `Parse` does, stated in terms of the shape of its input: for each
 * branch of `parse_expression`, which inputs reach it and what they yield.
 */
module ParserProperties {
  import opened Wrappers
  import opened Strings
  import opened Ast
  import opened Parser

  /** The first `(` of `"[" + f + "(" + rest` is the one after `f`. */
  lemma OpeningAfterName(f: string, rest: string)
    requires '(' !in f
    ensures IndexOf("[" + f + "(" + rest, '(') == Some(1 + |f|)
  {
    var s := "[" + f + "(" + rest;
    assert s[1 + |f|] == '(';
    assert s[..1 + |f|] == "[" + f;
  }

  /** The last `)` of `front + ")" + t` is the one before `t` when `t` has none. */
  lemma ClosingBeforeTail(front: string, t: string)
    requires ')' !in t
    ensures LastIndexOf(front + ")" + t, ')') == Some(|front|)
  {
    var s := front + ")" + t;
    assert s[|front|] == ')';
    assert s[|front| + 1..] == t;
  }

  /**
   * An input whose name (the text after `[` up to a `(`) differs from `word`
   * does not start like the `[word(` forms that are sliced at fixed offsets.
   */
  lemma NotReferencePrefix(s: string, f: string, word: string)
    requires '(' !in f && '(' !in word && f != word
    requires 1 + |f| < |s| && s[1..1 + |f|] == f && s[1 + |f|] == '('
    ensures !StartsWith(s, "[" + word + "(")
  {
    var p := "[" + word + "(";
    if |f| < |word| {
      assert p[1 + |f|] == word[|f|];
      NotStartsWith(s, p, 1 + |f|);
    } else if |f| > |word| {
      assert s[1 + |word|] == f[|word|];
      NotStartsWith(s, p, 1 + |word|);
    } else {
      var j :| 0 <= j < |f| && f[j] != word[j];
      assert s[1 + j] == f[j] && p[1 + j] == word[j];
      NotStartsWith(s, p, 1 + j);
    }
  }

  /**
   * Variables: the text between fixed offsets is the name, in both the
   * bracketed and the bare form. The characters around it, where the quotes
   * usually stand, are dropped without being looked at.
   */
  lemma VariableForms(n: string, q: char, x: char, y: char, z: char)
    ensures Parse("[variables(" + [q] + n + [x, y, z]) == Ok(Variable(n))
    ensures Parse("variables(" + [q] + n + [x, y]) == Ok(Variable(n))
  {
    var b := "[variables(" + [q] + n + [x, y, z];
    assert b[..11] == "[variables(";
    assert b[12..|b| - 3] == n;
    var u := "variables(" + [q] + n + [x, y];
    assert u[..10] == "variables(";
    assert u[0] == 'v';
    assert u[11..|u| - 2] == n;
  }

  /** Both quoted spellings of a variable reference parse to the same `Variable`. */
  lemma QuotedVariable(n: string)
    ensures Parse("[variables('" + n + "')]") == Ok(Variable(n))
    ensures Parse("variables('" + n + "')") == Ok(Variable(n))
  {
    VariableForms(n, '\'', '\'', ')', ']');
    assert "[variables('" == "[variables(" + ['\''] && "')]" == ['\'', ')', ']'];
    assert "variables('" == "variables(" + ['\''] && "')" == ['\'', ')'];
  }

  /** Parameters: as for variables, at the offsets of the longer keyword. */
  lemma ParameterForms(n: string, q: char, x: char, y: char, z: char)
    ensures Parse("[parameters(" + [q] + n + [x, y, z]) == Ok(Parameter(n))
    ensures Parse("parameters(" + [q] + n + [x, y]) == Ok(Parameter(n))
  {
    var b := "[parameters(" + [q] + n + [x, y, z];
    assert b[..12] == "[parameters(";
    assert b[..11] != "[variables(" by { assert b[1] == 'p'; }
    assert b[13..|b| - 3] == n;
    var u := "parameters(" + [q] + n + [x, y];
    assert u[..11] == "parameters(";
    assert u[..10] != "variables(" by { assert u[0] == 'p'; }
    assert u[12..|u| - 2] == n;
  }

  /** Both quoted spellings of a parameter reference parse to the same `Parameter`. */
  lemma QuotedParameter(n: string)
    ensures Parse("[parameters('" + n + "')]") == Ok(Parameter(n))
    ensures Parse("parameters('" + n + "')") == Ok(Parameter(n))
  {
    ParameterForms(n, '\'', '\'', ')', ']');
    assert "[parameters('" == "[parameters(" + ['\''] && "')]" == ['\'', ')', ']'];
    assert "parameters('" == "parameters(" + ['\''] && "')" == ['\'', ')'];
  }

  /**
   * An input that starts with a reference keyword is cut at that keyword's
   * fixed offsets when it is long enough for them, and otherwise fails at
   * that slice: under 15, 13, 16 and 14 characters for the four forms.
   */
  lemma BracketedVariableLength(s: string)
    requires StartsWith(s, "[variables(")
    ensures Parse(s) == if |s| < 15 then Err(BracketedVariableTooShort) else Ok(Variable(s[12..|s| - 3]))
  {
    assert s != [];
  }

  lemma BareVariableLength(s: string)
    requires StartsWith(s, "variables(")
    ensures Parse(s) == if |s| < 13 then Err(VariableTooShort) else Ok(Variable(s[11..|s| - 2]))
  {
    assert s[0] == 'v';
  }

  lemma BracketedParameterLength(s: string)
    requires StartsWith(s, "[parameters(")
    ensures Parse(s) == if |s| < 16 then Err(BracketedParameterTooShort) else Ok(Parameter(s[13..|s| - 3]))
  {
    assert s != [] && s[0] == '[';
    assert s[1] == s[..12][1] == 'p';
    NotStartsWith(s, "[variables(", 1);
  }

  lemma BareParameterLength(s: string)
    requires StartsWith(s, "parameters(")
    ensures Parse(s) == if |s| < 14 then Err(ParameterTooShort) else Ok(Parameter(s[12..|s| - 2]))
  {
    assert s[0] == 'p';
    NotStartsWith(s, "variables(", 0);
  }

  /**
   * The argument list succeeds exactly when every argument does, and then
   * holds their values in order; otherwise its failure is that of the first
   * argument that fails.
   */
  lemma {:induction false} ArgumentsInOrder(texts: seq<string>, bound: nat)
    requires forall i :: 0 <= i < |texts| ==> |texts[i]| < bound
    ensures ParseArguments(texts, bound).Ok? <==> forall i :: 0 <= i < |texts| ==> Parse(texts[i]).Ok?
    ensures ParseArguments(texts, bound).Ok? ==>
      forall i :: 0 <= i < |texts| ==> Parse(texts[i]) == Ok(ParseArguments(texts, bound).value[i])
    ensures forall k :: (0 <= k < |texts| && Parse(texts[k]).Err? && forall j :: 0 <= j < k ==> Parse(texts[j]).Ok?) ==>
      ParseArguments(texts, bound) == Parse(texts[k]).PropagateError()
    decreases |texts|
  {
    if texts != [] {
      ArgumentsInOrder(texts[1..], bound);
      assert forall i :: 1 <= i < |texts| ==> texts[i] == texts[1..][i - 1];
    }
  }

  /** An input starting with `[` but not with a bracketed keyword goes to the call branch. */
  lemma BracketGoesToCall(s: string)
    requires s != [] && s[0] == '['
    requires !StartsWith(s, "[variables(") && !StartsWith(s, "[parameters(")
    ensures Parse(s) == ParseCall(s)
  {
  }

  /** A call text is parsed by the call branch at the positions of its own parentheses. */
  lemma CallDispatch(f: string, a: string, t: string)
    requires '(' !in f && ')' !in t
    requires f != "variables" && f != "parameters"
    ensures |a| < |CallText(f, a, t)|
    ensures Parse(CallText(f, a, t)) == ParseCallParts(f, ArgumentTexts(a), |CallText(f, a, t)|)
  {
    CallEntersBranch(f, a, t);
    CallReadsParts(f, a, t);
  }

  /** A call text is not a reference form, so it reaches the call branch. */
  lemma CallEntersBranch(f: string, a: string, t: string)
    requires '(' !in f
    requires f != "variables" && f != "parameters"
    ensures Parse(CallText(f, a, t)) == ParseCall(CallText(f, a, t))
  {
    var s := CallText(f, a, t);
    CallSlices(f, a, t);
    assert s[1 + |f|] == '(';
    NotReferencePrefix(s, f, "variables");
    NotReferencePrefix(s, f, "parameters");
    BracketGoesToCall(s);
  }

  /** The call branch finds the name and the argument text of a call text. */
  lemma CallReadsParts(f: string, a: string, t: string)
    requires '(' !in f && ')' !in t
    ensures |a| < |CallText(f, a, t)|
    ensures ParseCall(CallText(f, a, t)) == ParseCallParts(f, ArgumentTexts(a), |CallText(f, a, t)|)
  {
    PartsOfCall(f, a, t);
  }

  /** The name and the argument text the call branch cuts out of a call text. */
  lemma PartsOfCall(f: string, a: string, t: string)
    requires '(' !in f && ')' !in t
    ensures CallParts(CallText(f, a, t)) == Ok(CallSyntax(f, a))
  {
    CallIndices(f, a, t);
    PartsAt(CallText(f, a, t), 1 + |f|, 2 + |f| + |a|);
    CallSlices(f, a, t);
  }

  /** The call branch cuts at the first `(` and the last `)` when they are in that order. */
  lemma PartsAt(s: string, open: nat, close: nat)
    requires |s| >= 1 && s[0] == '['
    requires IndexOf(s, '(') == Some(open) && LastIndexOf(s, ')') == Some(close) && open < close
    ensures 1 <= open && CallParts(s) == Ok(CallSyntax(s[1..open], s[open + 1..close]))
  {
  }

  /** Where the parentheses of a call text lie. */
  lemma CallIndices(f: string, a: string, t: string)
    requires '(' !in f && ')' !in t
    ensures |CallText(f, a, t)| >= 1 && CallText(f, a, t)[0] == '['
    ensures IndexOf(CallText(f, a, t), '(') == Some(1 + |f|)
    ensures LastIndexOf(CallText(f, a, t), ')') == Some(2 + |f| + |a|)
  {
    OpeningOfCall(f, a, t);
    ClosingOfCall(f, a, t);
  }

  /** Where the name and the argument text of a call text lie. */
  lemma CallSlices(f: string, a: string, t: string)
    ensures CallText(f, a, t)[1..1 + |f|] == f
    ensures CallText(f, a, t)[2 + |f|..2 + |f| + |a|] == a
  {
  }

  lemma OpeningOfCall(f: string, a: string, t: string)
    requires '(' !in f
    ensures IndexOf(CallText(f, a, t), '(') == Some(1 + |f|)
  {
    assert CallText(f, a, t) == "[" + f + "(" + (a + ")" + t);
    OpeningAfterName(f, a + ")" + t);
  }

  lemma ClosingOfCall(f: string, a: string, t: string)
    requires ')' !in t
    ensures LastIndexOf(CallText(f, a, t), ')') == Some(2 + |f| + |a|)
  {
    assert CallText(f, a, t) == ("[" + f + "(" + a) + ")" + t;
    ClosingBeforeTail("[" + f + "(" + a, t);
  }

  /**
   * A call given its name and argument texts: the arguments are parsed left
   * to right. The first
   * argument that fails is the failure of the call; when all succeed, the
   * call is a `Function` of them if the name is one of the six and an
   * `UnknownFunction` failure otherwise.
   */
  lemma CallOfParts(name: string, texts: seq<string>, bound: nat)
    requires forall i :: 0 <= i < |texts| ==> |texts[i]| < bound
    ensures ParseCallParts(name, texts, bound).Ok? ==>
      FunctionNamed(name).Some? && forall i :: 0 <= i < |texts| ==> Parse(texts[i]).Ok?
    ensures (forall i :: 0 <= i < |texts| ==> Parse(texts[i]).Ok?) && FunctionNamed(name).Some? ==>
      && ParseCallParts(name, texts, bound).Ok?
      && ParseCallParts(name, texts, bound).value.Function?
      && ParseCallParts(name, texts, bound).value.call.name == FunctionNamed(name).value
      && |ParseCallParts(name, texts, bound).value.call.arguments| == |texts|
      && forall i :: 0 <= i < |texts| ==>
           Parse(texts[i]) == Ok(ParseCallParts(name, texts, bound).value.call.arguments[i])
    ensures (forall i :: 0 <= i < |texts| ==> Parse(texts[i]).Ok?) && FunctionNamed(name).None? ==>
      ParseCallParts(name, texts, bound) == Err(UnknownFunction(name))
    ensures forall k :: (0 <= k < |texts| && Parse(texts[k]).Err?
                         && (forall j :: 0 <= j < k ==> Parse(texts[j]).Ok?)) ==>
      ParseCallParts(name, texts, bound) == Parse(texts[k])
  {
    ArgumentsInOrder(texts, bound);
  }

  /** A call of a known function whose arguments all parse is that function applied to their values. */
  lemma CallOfArguments(name: string, texts: seq<string>, bound: nat, args: seq<ArmExpression>)
    requires forall i :: 0 <= i < |texts| ==> |texts[i]| < bound
    requires |args| == |texts| && forall i :: 0 <= i < |texts| ==> Parse(texts[i]) == Ok(args[i])
    requires FunctionNamed(name).Some?
    ensures ParseCallParts(name, texts, bound) == Ok(Function(FunctionExpression(FunctionNamed(name).value, args)))
  {
    ArgumentsInOrder(texts, bound);
    assert ParseArguments(texts, bound).value == args;
  }

  /** A call text of a known function whose arguments parse to `args` is that call. */
  lemma CallSucceeds(f: string, a: string, t: string, args: seq<ArmExpression>)
    requires ')' !in t
    requires |args| == |ArgumentTexts(a)| && forall i :: 0 <= i < |args| ==> Parse(ArgumentTexts(a)[i]) == Ok(args[i])
    requires FunctionNamed(f).Some?
    ensures Parse(CallText(f, a, t)) == Ok(Function(FunctionExpression(FunctionNamed(f).value, args)))
  {
    SpellingIsName(FunctionNamed(f).value);
    CallDispatch(f, a, t);
    CallOfArguments(f, ArgumentTexts(a), |CallText(f, a, t)|, args);
  }

  /** The argument texts of a call are its comma-separated pieces, trimmed: one more than its commas. */
  lemma ArgumentPieces(inner: string)
    ensures |ArgumentTexts(inner)| == Count(inner, ',') + 1
    ensures forall i :: 0 <= i < |ArgumentTexts(inner)| ==> ArgumentTexts(inner)[i] == Trim(Split(inner, ',')[i])
  {
    SplitCount(inner, ',');
  }

  /** Comma-free, already trimmed pieces joined by commas are read back as those argument texts. */
  lemma ArgumentTextsOfJoin(pieces: seq<string>)
    requires |pieces| >= 1
    requires forall i :: 0 <= i < |pieces| ==> ',' !in pieces[i] && Trim(pieces[i]) == pieces[i]
    ensures ArgumentTexts(Join(pieces, ',')) == pieces
  {
    SplitOfJoin(pieces, ',');
    ArgumentPieces(Join(pieces, ','));
  }

  /**
   * A call whose name has no `(` (and is not a reference keyword) and whose
   * tail has no `)`: the arguments are the comma-separated pieces of `a`,
   * trimmed, one more than the commas in `a`, parsed left to right. The first
   * argument that fails is the failure of the call; when all succeed, the
   * call is a `Function` of them if `f` is one of the six names and an
   * `UnknownFunction(f)` failure otherwise. The tail is never looked at.
   */
  lemma CallBranch(f: string, a: string, t: string)
    requires '(' !in f && ')' !in t
    requires f != "variables" && f != "parameters"
    ensures |ArgumentTexts(a)| == Count(a, ',') + 1
    ensures forall i :: 0 <= i < |ArgumentTexts(a)| ==> ArgumentTexts(a)[i] == Trim(Split(a, ',')[i])
    ensures Parse(CallText(f, a, t)).Ok? ==>
      FunctionNamed(f).Some? && forall i :: 0 <= i < |ArgumentTexts(a)| ==> Parse(ArgumentTexts(a)[i]).Ok?
    ensures (forall i :: 0 <= i < |ArgumentTexts(a)| ==> Parse(ArgumentTexts(a)[i]).Ok?) && FunctionNamed(f).Some? ==>
      && Parse(CallText(f, a, t)).Ok?
      && Parse(CallText(f, a, t)).value.Function?
      && Parse(CallText(f, a, t)).value.call.name == FunctionNamed(f).value
      && |Parse(CallText(f, a, t)).value.call.arguments| == |ArgumentTexts(a)|
      && forall i :: 0 <= i < |ArgumentTexts(a)| ==>
           Parse(ArgumentTexts(a)[i]) == Ok(Parse(CallText(f, a, t)).value.call.arguments[i])
    ensures (forall i :: 0 <= i < |ArgumentTexts(a)| ==> Parse(ArgumentTexts(a)[i]).Ok?) && FunctionNamed(f).None? ==>
      Parse(CallText(f, a, t)) == Err(UnknownFunction(f))
    ensures forall k :: (0 <= k < |ArgumentTexts(a)| && Parse(ArgumentTexts(a)[k]).Err?
                         && (forall j :: 0 <= j < k ==> Parse(ArgumentTexts(a)[j]).Ok?)) ==>
      Parse(CallText(f, a, t)) == Parse(ArgumentTexts(a)[k])
  {
    CallDispatch(f, a, t);
    ArgumentPieces(a);
    CallOfParts(f, ArgumentTexts(a), |CallText(f, a, t)|);
  }

  /**
   * An input opening with a quote drops its first and its last character,
   * whatever they are; the lone quote fails at that slice.
   */
  lemma QuotedLength(s: string)
    requires s != [] && s[0] == '\''
    ensures Parse(s) == if |s| < 2 then Err(LoneQuote) else Ok(Literal(String(s[1..|s| - 1])))
  {
    NotStartsWith(s, "variables(", 0);
    NotStartsWith(s, "parameters(", 0);
  }

  /** A quoted text is the literal between the quotes; the lone quote is a failure. */
  lemma QuotedLiteral(x: string, c: char)
    ensures Parse("'" + x + [c]) == Ok(Literal(String(x)))
    ensures Parse("'") == Err(LoneQuote)
  {
    var s := "'" + x + [c];
    QuotedLength(s);
    assert s[1..|s| - 1] == x;
    QuotedLength("'");
  }

  /**
   * An input is taken verbatim as a string literal exactly when it is not
   * empty and opens with none of `[`, a quote, `variables(` and `parameters(`.
   */
  lemma VerbatimLiteral(s: string)
    ensures Parse(s) == Ok(Literal(String(s))) <==>
      s != [] && s[0] != '[' && s[0] != '\'' && !StartsWith(s, "variables(") && !StartsWith(s, "parameters(")
  {
    if s != [] && s[0] == '\'' {
      QuotedLength(s);
    }
  }

  /** A `[` input without any `(` fails looking for the opening parenthesis. */
  lemma MissingOpening(s: string)
    requires s != [] && s[0] == '[' && '(' !in s
    ensures Parse(s) == Err(NoOpeningParenthesis)
  {
    if |s| > 10 {
      NotStartsWith(s, "[variables(", 10);
    }
    if |s| > 11 {
      NotStartsWith(s, "[parameters(", 11);
    }
  }

  /**
   * A `[` input that is neither bracketed reference form fails when it has
   * no `)` after a `(`, or when its last `)` comes before its first `(`.
   */
  lemma CallFailures(s: string)
    requires s != [] && s[0] == '['
    requires !StartsWith(s, "[variables(") && !StartsWith(s, "[parameters(")
    ensures '(' in s && ')' !in s ==> Parse(s) == Err(NoClosingParenthesis)
    ensures IndexOf(s, '(').Some? && LastIndexOf(s, ')').Some? && LastIndexOf(s, ')').value < IndexOf(s, '(').value ==>
      Parse(s) == Err(ClosingBeforeOpening)
  {
    BracketGoesToCall(s);
  }

  /**
   * Whatever the parser yields has the shape `ParsedShape` describes: no
   * number, boolean or resource reference appears anywhere in it.
   */
  lemma {:induction false} ShapeOfParse(s: string)
    ensures Parse(s).Ok? ==> ParsedShape(Parse(s).value)
    decreases |s|, 1
  {
    if s != [] && s[0] == '[' && !StartsWith(s, "[variables(") && !StartsWith(s, "[parameters(") {
      BracketGoesToCall(s);
      ShapeOfCall(s);
    }
  }

  /** The call branch yields a parsed shape, given that each shorter input does. */
  lemma {:induction false} ShapeOfCall(s: string)
    requires s != [] && s[0] == '['
    ensures ParseCall(s).Ok? ==> ParsedShape(ParseCall(s).value)
    decreases |s|, 0
  {
    match CallParts(s)
    case Err(_) =>
    case Ok(call) =>
      var texts := ArgumentTexts(call.argumentText);
      forall i | 0 <= i < |texts|
        ensures Parse(texts[i]).Ok? ==> ParsedShape(Parse(texts[i]).value)
      {
        ShapeOfParse(texts[i]);
      }
      ShapeOfArguments(call.name, texts, |s|);
  }

  /** A call of arguments of parsed shape has a parsed shape. */
  lemma ShapeOfArguments(name: string, texts: seq<string>, bound: nat)
    requires forall i :: 0 <= i < |texts| ==> |texts[i]| < bound
    requires forall i :: 0 <= i < |texts| ==> Parse(texts[i]).Ok? ==> ParsedShape(Parse(texts[i]).value)
    ensures ParseCallParts(name, texts, bound).Ok? ==> ParsedShape(ParseCallParts(name, texts, bound).value)
  {
    ArgumentsInOrder(texts, bound);
  }

  /** The bound that justifies the recursion has no say in the result. */
  lemma {:induction false} ArgumentsBoundFree(texts: seq<string>, b1: nat, b2: nat)
    requires forall i :: 0 <= i < |texts| ==> |texts[i]| < b1 && |texts[i]| < b2
    ensures ParseArguments(texts, b1) == ParseArguments(texts, b2)
    decreases |texts|
  {
    if texts != [] {
      ArgumentsBoundFree(texts[1..], b1, b2);
    }
  }

  /** Whatever follows the last `)` of a call, the closing `]` included, is never looked at. */
  lemma TailIgnored(f: string, a: string, t1: string, t2: string)
    requires '(' !in f && ')' !in t1 && ')' !in t2
    requires f != "variables" && f != "parameters"
    ensures Parse(CallText(f, a, t1)) == Parse(CallText(f, a, t2))
  {
    CallDispatch(f, a, t1);
    CallDispatch(f, a, t2);
    ArgumentsBoundFree(ArgumentTexts(a), |CallText(f, a, t1)|, |CallText(f, a, t2)|);
  }
}
