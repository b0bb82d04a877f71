/**
 * The expression tree an ARM template's string values are parsed into, and
 * the records of the template itself. All of them are immutable values.
 */
module Ast {
  import opened Wrappers

  /** A 64-bit floating-point number, kept as its IEEE 754 bit pattern; the parser never builds one. */
  datatype Float64 = Float64(bits: bv64)

  /** A constant: a string, a number or a boolean. */
  datatype LiteralValue = String(text: string) | Number(number: Float64) | Boolean(flag: bool)

  /** The template functions the parser knows by name. */
  datatype FunctionName = Concat | ResourceId | CopyIndex | Format | If | ResourceGroup

  /** A call of a template function on its arguments, in order. */
  datatype FunctionExpression = FunctionExpression(name: FunctionName, arguments: seq<ArmExpression>)

  /** A reference to a deployed resource, with an optional API version. */
  datatype ReferenceExpression = ReferenceExpression(resourceName: string, apiVersion: Option<string>)

  /** One node of an ARM expression. `None` is the expression of an empty string. */
  datatype ArmExpression =
    | Literal(literal: LiteralValue)
    | Function(call: FunctionExpression)
    | Parameter(parameterName: string)
    | Variable(variableName: string)
    | Reference(reference: ReferenceExpression)
    | None

  /** A template parameter: its declared type and an optional default value. */
  datatype ArmParameter = ArmParameter(typeName: string, defaultValue: Option<ArmExpression>)

  /**
   * A resource: its (possibly templated) name, its type, its API version and
   * the resources it depends on, held as nested resource values.
   */
  datatype ArmResource = ArmResource(
    name: ArmExpression,
    typeName: string,
    apiVersion: string,
    dependsOn: Option<seq<ArmResource>>)

  /** A named output value of a deployment. */
  datatype ArmOutput = ArmOutput(name: string, value: ArmExpression)

  /** A whole template document: parameters and variables by name, resources and outputs in order. */
  datatype ArmTemplate = ArmTemplate(
    parameters: Option<map<string, ArmParameter>>,
    variables: Option<map<string, ArmExpression>>,
    resources: seq<ArmResource>,
    outputs: Option<seq<ArmOutput>>)

  /**
   * The shapes the parser can produce: no numbers, booleans or references,
   * at any depth.
   */
  predicate ParsedShape(e: ArmExpression) {
    match e
    case None => true
    case Variable(_) => true
    case Parameter(_) => true
    case Literal(v) => v.String?
    case Reference(_) => false
    case Function(call) => forall a :: a in call.arguments ==> ParsedShape(a)
  }
}
