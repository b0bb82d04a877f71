/**
 * Particular argument texts, showing how the naive argument split and the
 * unchecked function names behave.
 */
module ParserCases {
  import opened Wrappers
  import opened Strings
  import opened Ast
  import opened Parser
  import opened ParserProperties

  /** `()` holds one empty argument, which parses to `None`. */
  lemma EmptyArgumentList(f: FunctionName, t: string)
    requires ')' !in t
    ensures Parse(CallText(Spelling(f), "", t)) == Ok(Function(FunctionExpression(f, [ArmExpression.None])))
  {
    assert ArgumentTexts("") == [""];
    SpellingRecognised(f);
    CallSucceeds(Spelling(f), "", t, [ArmExpression.None]);
  }

  /**
   * A comma between quotes still separates arguments: `'x,y'` is read as the
   * two arguments `'x` and `y'`, the first a quoted literal that loses the
   * last character of `x`, the second a verbatim literal that keeps its quote.
   */
  lemma QuotedCommaSplits(f: FunctionName, x: string, y: string, t: string)
    requires ')' !in t && ',' !in x && ',' !in y
    requires x != [] && !IsWhitespace(x[|x| - 1])
    requires y != [] && !IsWhitespace(y[0]) && y[0] != '[' && y[0] != '\''
    requires !StartsWith(y + "'", "variables(") && !StartsWith(y + "'", "parameters(")
    ensures Parse(CallText(Spelling(f), "'" + x + "," + y + "'", t))
         == Ok(Function(FunctionExpression(f, [Literal(String(x[..|x| - 1])), Literal(String(y + "'"))])))
  {
    var a := "'" + x + "," + y + "'";
    QuotedCommaPieces(x, y);
    QuotedLength("'" + x);
    assert ("'" + x)[1..|x|] == x[..|x| - 1];
    VerbatimLiteral(y + "'");
    SpellingRecognised(f);
    CallSucceeds(Spelling(f), a, t, [Literal(String(x[..|x| - 1])), Literal(String(y + "'"))]);
  }

  /** The argument texts of `'x,y'` are `'x` and `y'`. */
  lemma QuotedCommaPieces(x: string, y: string)
    requires ',' !in x && ',' !in y
    requires x != [] && !IsWhitespace(x[|x| - 1])
    requires y != [] && !IsWhitespace(y[0])
    ensures ArgumentTexts("'" + x + "," + y + "'") == ["'" + x, y + "'"]
  {
    var p := "'" + x;
    var q := y + "'";
    TrimOfTrimmed(p);
    TrimOfTrimmed(q);
    ArgumentTextsOfJoin([p, q]);
    assert Join([p, q], ',') == p + [','] + Join([q], ',');
    assert "'" + x + "," + y + "'" == p + [','] + q;
  }

  /** A name outside the six fails once its arguments have parsed; the empty name is one of them. */
  lemma UnknownName(f: string, a: string, t: string)
    requires '(' !in f && ')' !in t && FunctionNamed(f).None?
    requires f != "variables" && f != "parameters"
    requires forall i :: 0 <= i < |ArgumentTexts(a)| ==> Parse(ArgumentTexts(a)[i]).Ok?
    ensures Parse(CallText(f, a, t)) == Err(UnknownFunction(f))
  {
    CallBranch(f, a, t);
  }

  /** `[(x)]`, for any character `x` a verbatim literal, fails on its empty name. */
  lemma EmptyName(x: char, t: string)
    requires ')' !in t && x != '[' && x != '\'' && x != ',' && !IsWhitespace(x)
    ensures Parse(CallText("", [x], t)) == Err(UnknownFunction(""))
  {
    assert Split([x], ',') == [[x]];
    TrimOfTrimmed([x]);
    ArgumentPieces([x]);
    VerbatimLiteral([x]);
    UnknownName("", [x], t);
  }
}
