/**
 * What `Expression.validate` computes: an optional pass that reports unset
 * variables, then a counter of the values available on the stack.
 */
module Validation {
  import opened Tokens

  /** One reported problem, in the order the validator appends them. */
  datatype ValidationError =
    | VariableNotSet(variable: string)
    | ArgumentsMissing(functionName: string)
    | TooManyOperators
    | TooManyOperands

  datatype ValidationResult = Success | Failure(errors: seq<ValidationError>)

  /** The error list a result carries; the success result carries none. */
  function ErrorsOf(r: ValidationResult): seq<ValidationError>
  {
    match r
    case Success => []
    case Failure(errors) => errors
  }

  /** Every Variable token names a bound variable. */
  predicate AllVariablesBound(ts: seq<Token>, bound: set<string>)
  {
    forall i :: 0 <= i < |ts| && ts[i].VariableToken? ==> ts[i].name in bound
  }

  /** The report for one token: one error for a variable that is not bound, none otherwise. */
  function UnsetAt(t: Token, bound: set<string>): (r: seq<ValidationError>)
    ensures r != [] <==> t.VariableToken? && t.name !in bound
    ensures r != [] ==> r == [VariableNotSet(t.name)]
  {
    if t.VariableToken? && t.name !in bound then [VariableNotSet(t.name)] else []
  }

  /** One error per occurrence of an unbound variable, in token order. */
  function UnsetVariables(ts: seq<Token>, bound: set<string>): (r: seq<ValidationError>)
    ensures |r| <= |ts|
    ensures forall e <- r :: e.VariableNotSet? && e.variable !in bound
    decreases |ts|
  {
    if |ts| == 0 then []
    else UnsetVariables(ts[..|ts| - 1], bound) + UnsetAt(ts[|ts| - 1], bound)
  }

  /**
   * The counter rule. `AsWritten` is the rule of the source; `Corrected`
   * counts every function by its net effect (a zero-argument function adds one
   * value) and also rejects a token sequence that leaves no value at all.
   */
  datatype CounterRule = AsWritten | Corrected

  /**
   * The errors a token appends and the new count. The count moves with the
   * evaluator's stack depth for every token except an operator that is neither
   * unary nor binary and, under the source's rule, a zero-argument function,
   * which the count misses by one. The only error a step records is a function
   * asking for more arguments than are counted.
   */
  function CountStep(rule: CounterRule, t: Token, count: int): (r: (seq<ValidationError>, int))
    ensures (t.OperatorToken? ==> t.op.numOperands == 1 || t.op.numOperands == 2) &&
            (rule == AsWritten && t.FunctionToken? ==> t.func.numArguments >= 1)
            ==> r.1 == count + Effect(t)
    ensures rule == AsWritten && t.FunctionToken? && t.func.numArguments == 0 ==> r.1 == count + Effect(t) - 1
    ensures r.0 != [] <==> t.FunctionToken? && t.func.numArguments > count
    ensures r.0 != [] ==> r.0 == [ArgumentsMissing(t.func.name)]
  {
    match t
    case NumberToken(_) => ([], count + 1)
    case VariableToken(_) => ([], count + 1)
    case FunctionToken(f) =>
      (if f.numArguments > count then [ArgumentsMissing(f.name)] else [],
       if rule == Corrected then count + 1 - f.numArguments
       else if f.numArguments > 1 then count - (f.numArguments - 1)
       else count)
    case OperatorToken(op) => ([], if op.numOperands == 2 then count - 1 else count)
    case OtherToken => ([], count)
  }

  /** The state of the counting loop: the count, the errors so far and whether it returned early. */
  datatype Counter = Counter(count: int, errors: seq<ValidationError>, stopped: bool)

  /** The counting loop from `count` and `errors` over the tokens `ts`. */
  function Scan(rule: CounterRule, ts: seq<Token>, count: int, errors: seq<ValidationError>): (r: Counter)
    ensures r.stopped ==> r.count < 1 && |r.errors| > 0
    ensures !r.stopped && |ts| > 0 ==> r.count >= 1
    ensures !r.stopped && |ts| == 0 ==> r == Counter(count, errors, false)
    decreases |ts|
  {
    if |ts| == 0 then Counter(count, errors, false)
    else
      var (errs, c) := CountStep(rule, ts[0], count);
      if c < 1 then Counter(c, errors + errs + [TooManyOperators], true)
      else Scan(rule, ts[1..], c, errors + errs)
  }

  /** The counting loop only ever appends to the errors it is given. */
  lemma {:induction false} ScanKeepsErrors(rule: CounterRule, ts: seq<Token>, count: int, errors: seq<ValidationError>)
    ensures errors <= Scan(rule, ts, count, errors).errors
    decreases |ts|
  {
    if |ts| > 0 {
      var (errs, c) := CountStep(rule, ts[0], count);
      if c >= 1 {
        ScanKeepsErrors(rule, ts[1..], c, errors + errs);
      }
    }
  }

  /**
   * The check after the last token: a count of exactly one passes; above one
   * there are too many operands; below one passes under the source's rule and
   * means too many operators under the corrected rule.
   */
  function FinalErrors(rule: CounterRule, count: int): (r: seq<ValidationError>)
    ensures r == [] <==> count == 1 || (rule.AsWritten? && count < 1)
    ensures count > 1 ==> r == [TooManyOperands]
    ensures rule == Corrected && count < 1 ==> r == [TooManyOperators]
  {
    if count > 1 then [TooManyOperands]
    else if rule == Corrected && count < 1 then [TooManyOperators]
    else []
  }

  /** The result of `validate(checkVariablesSet)` over `ts` with the variables `bound`. */
  function Validate(rule: CounterRule, ts: seq<Token>, bound: set<string>, checkVariablesSet: bool)
    : (r: ValidationResult)
    ensures r.Failure? ==> r.errors != []
    ensures checkVariablesSet ==> UnsetVariables(ts, bound) <= ErrorsOf(r)
  {
    var pre := if checkVariablesSet then UnsetVariables(ts, bound) else [];
    var c := Scan(rule, ts, 0, pre);
    ScanKeepsErrors(rule, ts, 0, pre);
    var errors := if c.stopped then c.errors else c.errors + FinalErrors(rule, c.count);
    if |errors| == 0 then Success else Failure(errors)
  }

  /** Unset-variable errors are reported for the whole sequence exactly when some variable is unbound. */
  lemma {:induction false} UnsetVariablesEmptyIff(ts: seq<Token>, bound: set<string>)
    ensures UnsetVariables(ts, bound) == [] <==> AllVariablesBound(ts, bound)
    decreases |ts|
  {
    if |ts| > 0 {
      var init := ts[..|ts| - 1];
      UnsetVariablesEmptyIff(init, bound);
      assert forall i :: 0 <= i < |init| ==> init[i] == ts[i];
      if AllVariablesBound(init, bound) && !AllVariablesBound(ts, bound) {
        assert ts[|ts| - 1].VariableToken? && ts[|ts| - 1].name !in bound;
      }
    }
  }

  /** One more token at the end adds that token's report at the end. */
  lemma UnsetVariablesSnoc(ts: seq<Token>, t: Token, bound: set<string>)
    ensures UnsetVariables(ts + [t], bound) == UnsetVariables(ts, bound) + UnsetAt(t, bound)
  {
    assert (ts + [t])[..|ts|] == ts;
  }

  /** The unset-variable pass reports each part of a sequence in order, repeats included. */
  lemma {:induction false} UnsetVariablesAppend(ts1: seq<Token>, ts2: seq<Token>, bound: set<string>)
    ensures UnsetVariables(ts1 + ts2, bound) == UnsetVariables(ts1, bound) + UnsetVariables(ts2, bound)
    decreases |ts2|
  {
    if |ts2| == 0 {
      assert ts1 + ts2 == ts1;
    } else {
      var init, last := ts2[..|ts2| - 1], ts2[|ts2| - 1];
      assert ts2 == init + [last];
      assert ts1 + ts2 == (ts1 + init) + [last];
      UnsetVariablesSnoc(ts1 + init, last, bound);
      UnsetVariablesSnoc(init, last, bound);
      UnsetVariablesAppend(ts1, init, bound);
      var u1, ui, ul := UnsetVariables(ts1, bound), UnsetVariables(init, bound), UnsetAt(last, bound);
      assert (u1 + ui) + ul == u1 + (ui + ul);
    }
  }

  /** Errors already collected are carried through the counting loop unchanged. */
  lemma {:induction false} ScanShift(rule: CounterRule, ts: seq<Token>, count: int, pre: seq<ValidationError>, errors: seq<ValidationError>)
    ensures var r := Scan(rule, ts, count, errors);
            Scan(rule, ts, count, pre + errors) == Counter(r.count, pre + r.errors, r.stopped)
    decreases |ts|
  {
    if |ts| > 0 {
      var (errs, c) := CountStep(rule, ts[0], count);
      assert pre + errors + errs == pre + (errors + errs);
      assert pre + errors + errs + [TooManyOperators] == pre + (errors + errs + [TooManyOperators]);
      if c >= 1 {
        ScanShift(rule, ts[1..], c, pre, errors + errs);
      }
    }
  }

  /**
   * Once the counter drops below one the loop returns: the tokens after that
   * point are never inspected.
   */
  lemma {:induction false} ScanStopsEarly(rule: CounterRule, ts: seq<Token>, rest: seq<Token>, count: int, errors: seq<ValidationError>)
    requires Scan(rule, ts, count, errors).stopped
    ensures Scan(rule, ts + rest, count, errors) == Scan(rule, ts, count, errors)
    decreases |ts|
  {
    assert (ts + rest)[0] == ts[0];
    var (errs, c) := CountStep(rule, ts[0], count);
    if c >= 1 {
      assert (ts + rest)[1..] == ts[1..] + rest;
      ScanStopsEarly(rule, ts[1..], rest, c, errors + errs);
    }
  }

  /**
   * `validate(true)` reports the unset variables first and then exactly what
   * `validate(false)` reports.
   */
  lemma VariableErrorsFirst(rule: CounterRule, ts: seq<Token>, bound: set<string>)
    ensures ErrorsOf(Validate(rule, ts, bound, true)) == UnsetVariables(ts, bound) + ErrorsOf(Validate(rule, ts, bound, false))
  {
    var pre := UnsetVariables(ts, bound);
    ScanShift(rule, ts, 0, pre, []);
    assert pre + [] == pre;
    var r := Scan(rule, ts, 0, []);
    assert pre + r.errors + FinalErrors(rule, r.count) == pre + (r.errors + FinalErrors(rule, r.count));
  }

  /** `validate(true)` succeeds exactly when every variable is bound and `validate(false)` succeeds. */
  lemma CheckedSuccessIff(rule: CounterRule, ts: seq<Token>, bound: set<string>)
    ensures Validate(rule, ts, bound, true) == Success <==>
            AllVariablesBound(ts, bound) && Validate(rule, ts, bound, false) == Success
  {
    VariableErrorsFirst(rule, ts, bound);
    UnsetVariablesEmptyIff(ts, bound);
  }
}
