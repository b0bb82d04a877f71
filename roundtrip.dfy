/**
 * `Parse` undoes `Render`: every expression the renderer writes
 * unambiguously is read back unchanged.
 */
module RoundTrip {
  import opened Wrappers
  import opened Strings
  import opened Ast
  import opened Parser
  import opened Printer
  import opened ParserProperties

  /** The rendered text of an expression neither starts nor ends with whitespace. */
  lemma RenderUntrimmed(e: ArmExpression)
    requires ParsedShape(e)
    ensures Trim(Render(e)) == Render(e)
  {
    TrimOfTrimmed(Render(e));
  }

  /** Reading back what was rendered gives the expression that was rendered. */
  lemma {:induction false} ParseOfRender(e: ArmExpression)
    requires Printable(e)
    ensures ParsedShape(e) && Parse(Render(e)) == Ok(e)
    decreases e, 1
  {
    match e
    case None =>
    case Literal(v) =>
      QuotedLiteral(v.text, '\'');
    case Variable(n) =>
      QuotedVariable(n);
    case Parameter(n) =>
      QuotedParameter(n);
    case Function(_) =>
      ParseOfRenderedCall(e);
  }

  /** The call case of `ParseOfRender`: each argument is read back from its own piece of the argument text. */
  lemma {:induction false} ParseOfRenderedCall(e: ArmExpression)
    requires e.Function? && Printable(e)
    ensures ParsedShape(e) && Parse(Render(e)) == Ok(e)
    decreases e, 0
  {
    var call := e.call;
    var args := call.arguments;
    var pieces := seq(|args|, i requires 0 <= i < |args| => Render(args[i]));
    var a := Join(pieces, ',');
    assert Render(e) == CallText(Spelling(call.name), a, "]");
    SplitOfJoin(pieces, ',');
    ArgumentPieces(a);
    forall i | 0 <= i < |args|
      ensures Parse(ArgumentTexts(a)[i]) == Ok(args[i])
    {
      RenderUntrimmed(args[i]);
      ParseOfRender(args[i]);
    }
    SpellingRecognised(call.name);
    CallSucceeds(Spelling(call.name), a, "]", args);
  }
}
