/**
 * Two token sequences on which the source's validator and evaluator disagree,
 * and the corrected counter rule that agrees with the evaluator on them.
 */
module Findings {
  import opened Wrappers
  import opened Tokens
  import opened Evaluation
  import opened Validation

  /**
   * A number followed by a zero-argument function: the source's counter
   * leaves the count at one and reports success, while evaluation ends with
   * two values on the stack. The corrected rule reports the extra operand.
   */
  lemma ZeroArgumentFunctionPassesValidation(v: real, f: Function)
    requires f.numArguments == 0
    ensures var ts := [NumberToken(v), FunctionToken(f)];
            && Validate(AsWritten, ts, {}, false) == Success
            && Evaluate(ts, map[]) == Err(TooManyItems)
            && Validate(Corrected, ts, {}, false) == Failure([TooManyOperands])
  {
    var ts := [NumberToken(v), FunctionToken(f)];
    var rest := [FunctionToken(f)];
    assert ts[1..] == rest && rest[1..] == [];
    var none: seq<ValidationError> := [];
    assert none + none == none;
    assert CountStep(AsWritten, FunctionToken(f), 1) == (none, 1);
    assert Scan(AsWritten, ts, 0, none) == Scan(AsWritten, rest, 1, none);
    assert Scan(AsWritten, rest, 1, none) == Scan(AsWritten, [], 1, none);
    assert CountStep(Corrected, FunctionToken(f), 1) == (none, 2);
    assert Scan(Corrected, ts, 0, none) == Scan(Corrected, rest, 1, none);
    assert Scan(Corrected, rest, 1, none) == Scan(Corrected, [], 2, none);
    var s := [v];
    assert s[..|s| - 0] == s && s[|s| - 0..] == [];
    assert Step(FunctionToken(f), s, map[]) == Ok(s + [f.apply([])]);
    assert Run(ts, [], map[]) == Run(rest, s, map[]);
    assert Run(rest, s, map[]) == Run([], s + [f.apply([])], map[]);
  }

  /**
   * The empty token sequence passes validation, with or without the variable
   * check, yet evaluating it pops an empty stack. The corrected rule rejects it.
   */
  lemma EmptyTokensPassValidation(bound: set<string>, checkVariablesSet: bool, vals: map<string, real>)
    ensures Validate(AsWritten, [], bound, checkVariablesSet) == Success
    ensures Evaluate([], vals) == Err(EmptyStack)
    ensures Validate(Corrected, [], bound, checkVariablesSet) == Failure([TooManyOperators])
  {
  }
}
