/**
 * The lexical atoms of a tag (src/hr/fer/zemris/custom/scripting/tokens): one constructor per
 * Token subclass, with the subclass's final field, and their canonical text.
 */
module Tokens {
  import opened JavaNumbers
  import opened Values

  datatype Token =
    | Operator(symbol: string)        // TokenOperator
    | Function(name: string)          // TokenFunction, without the '@'
    | Variable(name: string)          // TokenVariable
    | ConstantInteger(intValue: int)     // TokenConstantInteger, a 32-bit int
    | ConstantDouble(doubleValue: Double)   // TokenConstantDouble
    | ConstantString(text: string)   // TokenConstantString, escapes already resolved

  /** Token.asText as each subclass overrides it. */
  function AsText(fp: FloatOps, t: Token): string {
    match t
    case Operator(symbol) => symbol
    case Function(name) => "@" + name
    case Variable(name) => name
    case ConstantInteger(v) => IntToString(v)
    case ConstantDouble(d) => fp.show(d)
    case ConstantString(text) => "\"" + text + "\""
  }
}
