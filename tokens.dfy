/**
 * The token sequence the expression engine consumes. Tokens are produced by a
 * tokenizer and a postfix converter that are not part of this model.
 */
module Tokens {

  /** An operator: its symbol, how many operands it takes, and what it computes. */
  datatype Operator = Operator(symbol: string, numOperands: nat, apply: seq<real> -> real)

  /** A function: its name, how many arguments it takes, and what it computes. */
  datatype Function = Function(name: string, numArguments: nat, apply: seq<real> -> real)

  /**
   * One token in postfix order. `OtherToken` stands for the token kinds the
   * engine neither evaluates nor counts (parentheses, argument separators).
   */
  datatype Token =
    | NumberToken(number: real)
    | VariableToken(name: string)
    | OperatorToken(op: Operator)
    | FunctionToken(func: Function)
    | OtherToken

  /** How many stacked values the token consumes when it is evaluated. */
  function Arity(t: Token): nat
  {
    match t
    case OperatorToken(op) => op.numOperands
    case FunctionToken(f) => f.numArguments
    case _ => 0
  }

  /** The net change in stack depth when the token is evaluated successfully. */
  function Effect(t: Token): int
  {
    match t
    case NumberToken(_) => 1
    case VariableToken(_) => 1
    case OperatorToken(op) => 1 - op.numOperands
    case FunctionToken(f) => 1 - f.numArguments
    case OtherToken => 0
  }
}
