/**
 * What `Expression.evaluate` computes, as functions on the token sequence, a
 * stack of values and the current variable bindings.
 */
module Evaluation {
  import opened Wrappers
  import opened Tokens

  /** Why an evaluation is abandoned. */
  datatype EvalError =
    | UnboundVariable(variable: string)      // no value has been set for a variable
    | NotEnoughOperands(symbol: string)       // an operator finds fewer values than it takes
    | NotEnoughArguments(functionName: string) // a function finds fewer values than it takes
    | TooManyItems                            // more than one value is left at the end
    | EmptyStack                              // the final pop finds no value

  /**
   * Replaces the top `k` values by what `apply` computes from them; `apply`
   * sees the popped values deepest first.
   */
  function Reduce(s: seq<real>, k: nat, apply: seq<real> -> real): (r: seq<real>)
    requires k <= |s|
    ensures |r| == |s| - k + 1
    ensures r[..|s| - k] == s[..|s| - k]
    ensures r[|s| - k] == apply(s[|s| - k..])
  {
    s[..|s| - k] + [apply(s[|s| - k..])]
  }

  /** The effect of one token on the stack. */
  function Step(t: Token, s: seq<real>, vals: map<string, real>): (r: Result<seq<real>, EvalError>)
    ensures r.Err? <==> (t.VariableToken? && t.name !in vals) || |s| < Arity(t)
    ensures r.Ok? ==> |r.value| == |s| + Effect(t)
    ensures r.Ok? ==> r.value[..|s| - Arity(t)] == s[..|s| - Arity(t)]
  {
    match t
    case NumberToken(v) => Ok(s + [v])
    case VariableToken(n) => if n in vals then Ok(s + [vals[n]]) else Err(UnboundVariable(n))
    case OperatorToken(op) =>
      if |s| < op.numOperands then Err(NotEnoughOperands(op.symbol))
      else Ok(Reduce(s, op.numOperands, op.apply))
    case FunctionToken(f) =>
      if |s| < f.numArguments then Err(NotEnoughArguments(f.name))
      else Ok(Reduce(s, f.numArguments, f.apply))
    case OtherToken => Ok(s)
  }

  /**
   * Runs the tokens in order from stack `s`, stopping at the first token whose
   * step fails.
   */
  function Run(ts: seq<Token>, s: seq<real>, vals: map<string, real>): (r: Result<seq<real>, EvalError>)
    ensures r.Ok? ==> |r.value| <= |s| + |ts|
    ensures r.Err? ==> r.error.UnboundVariable? || r.error.NotEnoughOperands? || r.error.NotEnoughArguments?
    decreases |ts|
  {
    if |ts| == 0 then Ok(s)
    else
      match Step(ts[0], s, vals)
      case Err(e) => Err(e)
      case Ok(s') => Run(ts[1..], s', vals)
  }

  /** Evaluation from an empty stack: the result is the one value left. */
  function Evaluate(ts: seq<Token>, vals: map<string, real>): (r: Result<real, EvalError>)
    ensures r.Ok? <==> Run(ts, [], vals).Ok? && |Run(ts, [], vals).value| == 1
    ensures r.Ok? ==> Run(ts, [], vals).value == [r.value]
    ensures r == Err(TooManyItems) <==> Run(ts, [], vals).Ok? && |Run(ts, [], vals).value| > 1
    ensures r == Err(EmptyStack) <==> Run(ts, [], vals) == Ok([])
  {
    match Run(ts, [], vals)
    case Err(e) => Err(e)
    case Ok(s) =>
      if |s| > 1 then Err(TooManyItems)
      else if |s| == 0 then Err(EmptyStack)
      else Ok(s[0])
  }

  /** A run of a concatenation is the run of the second part from where the first left off. */
  lemma {:induction false} RunAppend(ts1: seq<Token>, ts2: seq<Token>, s: seq<real>, vals: map<string, real>)
    ensures Run(ts1 + ts2, s, vals) ==
            match Run(ts1, s, vals)
            case Err(e) => Err(e)
            case Ok(s') => Run(ts2, s', vals)
    decreases |ts1|
  {
    if |ts1| > 0 {
      assert (ts1 + ts2)[0] == ts1[0];
      assert (ts1 + ts2)[1..] == ts1[1..] + ts2;
      match Step(ts1[0], s, vals)
      case Err(e) =>
      case Ok(s') => RunAppend(ts1[1..], ts2, s', vals);
    } else {
      assert ts1 + ts2 == ts2;
    }
  }

  /** A single number evaluates to itself. */
  lemma NumberEvaluatesToItself(n: real, vals: map<string, real>)
    ensures Evaluate([NumberToken(n)], vals) == Ok(n)
  {
    var ts := [NumberToken(n)];
    assert ts[1..] == [];
    assert Run(ts, [], vals) == Run([], [n], vals);
  }

  /** A binary operator sees its operands in their original left-to-right order. */
  lemma BinaryOperandOrder(a: real, b: real, op: Operator, vals: map<string, real>)
    requires op.numOperands == 2
    ensures Evaluate([NumberToken(a), NumberToken(b), OperatorToken(op)], vals) == Ok(op.apply([a, b]))
  {
    var ts := [NumberToken(a), NumberToken(b), OperatorToken(op)];
    assert ts[1..] == [NumberToken(b), OperatorToken(op)];
    assert ts[1..][1..] == [OperatorToken(op)];
    assert [OperatorToken(op)][1..] == [];
    var s := [a, b];
    assert Run(ts, [], vals) == Run(ts[1..], [a], vals);
    assert [a] + [b] == s;
    assert Run(ts[1..], [a], vals) == Run([OperatorToken(op)], s, vals);
    assert s[..0] == [] && s[0..] == [a, b];
    assert Run([OperatorToken(op)], s, vals) == Run([], [op.apply([a, b])], vals);
  }
}
