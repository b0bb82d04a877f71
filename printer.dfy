/**
 * Text for the expressions the parser can produce: the inverse `Parse` is
 * proved against. It writes references in their bare quoted form, literals
 * between quotes, and calls with their arguments joined by commas.
 */
module Printer {
  import opened Strings
  import opened Ast
  import opened Parser

  /** The text of `e`, which `Parse` reads back as `e` when `Printable(e)`. */
  function Render(e: ArmExpression): string
    requires ParsedShape(e)
    decreases e
  {
    match e
    case None => ""
    case Literal(v) => "'" + v.text + "'"
    case Variable(n) => "variables('" + n + "')"
    case Parameter(n) => "parameters('" + n + "')"
    case Function(FunctionExpression(f, args)) =>
      CallText(Spelling(f), Join(seq(|args|, i requires 0 <= i < |args| => Render(args[i])), ','), "]")
  }

  /**
   * The expressions `Render` writes unambiguously: of parsed shape, and every
   * call has at least one argument, none of whose texts holds a comma (the
   * parser splits the argument text at every comma, and reads `()` as one
   * empty argument).
   */
  predicate Printable(e: ArmExpression)
    decreases e
  {
    match e
    case None => true
    case Literal(v) => v.String?
    case Variable(_) => true
    case Parameter(_) => true
    case Reference(_) => false
    case Function(call) =>
      && |call.arguments| >= 1
      && forall a :: a in call.arguments ==> ParsedShape(a) && Printable(a) && ',' !in Render(a)
  }
}
