/**
 * The validator's counter against the evaluator's stack: when every operator
 * is unary or binary, an error-free count after each token is the stack depth
 * after that token.
 */
module Agreement {
  import opened Wrappers
  import opened Tokens
  import opened Evaluation
  import opened Validation

  predicate OperatorsUnaryOrBinary(ts: seq<Token>)
  {
    forall i :: 0 <= i < |ts| && ts[i].OperatorToken? ==> ts[i].op.numOperands == 1 || ts[i].op.numOperands == 2
  }

  predicate FunctionsTakeArguments(ts: seq<Token>)
  {
    forall i :: 0 <= i < |ts| && ts[i].FunctionToken? ==> ts[i].func.numArguments >= 1
  }

  predicate NoOtherTokens(ts: seq<Token>)
  {
    forall i :: 0 <= i < |ts| ==> !ts[i].OtherToken?
  }

  /** Without zero-argument functions the two counter rules agree. */
  lemma {:induction false} RulesAgree(ts: seq<Token>, count: int, errors: seq<ValidationError>)
    requires FunctionsTakeArguments(ts)
    ensures Scan(AsWritten, ts, count, errors) == Scan(Corrected, ts, count, errors)
    decreases |ts|
  {
    if |ts| > 0 {
      assert CountStep(AsWritten, ts[0], count) == CountStep(Corrected, ts[0], count);
      var (errs, c) := CountStep(AsWritten, ts[0], count);
      assert forall i :: 0 <= i < |ts[1..]| ==> ts[1..][i] == ts[i + 1];
      RulesAgree(ts[1..], c, errors + errs);
    }
  }

  /**
   * Starting with the count equal to the stack depth, a corrected count that
   * neither stops nor records an error stays equal to the depth; evaluation can
   * then fail only on an unbound variable.
   */
  lemma {:induction false} CounterTracksStack(ts: seq<Token>, s: seq<real>, errors: seq<ValidationError>, vals: map<string, real>)
    requires OperatorsUnaryOrBinary(ts)
    requires !Scan(Corrected, ts, |s|, errors).stopped && Scan(Corrected, ts, |s|, errors).errors == errors
    ensures Run(ts, s, vals).Ok? ==> |Run(ts, s, vals).value| == Scan(Corrected, ts, |s|, errors).count
    ensures Run(ts, s, vals).Err? ==> Run(ts, s, vals).error.UnboundVariable? && Run(ts, s, vals).error.variable !in vals
    ensures AllVariablesBound(ts, vals.Keys) ==> Run(ts, s, vals).Ok?
    decreases |ts|
  {
    if |ts| > 0 {
      var t := ts[0];
      var (errs, c) := CountStep(Corrected, t, |s|);
      assert c >= 1;
      assert Scan(Corrected, ts, |s|, errors) == Scan(Corrected, ts[1..], c, errors + errs);
      assert errs == [] by {
        ScanKeepsErrors(Corrected, ts[1..], c, errors + errs);
      }
      assert errors + errs == errors;
      assert t.OperatorToken? ==> t.op.numOperands == 1 || t.op.numOperands == 2;
      assert AllVariablesBound(ts, vals.Keys) ==> (t.VariableToken? ==> t.name in vals);
      match Step(t, s, vals)
      case Err(e) =>
      case Ok(s') =>
        assert |s'| == c;
        assert forall i :: 0 <= i < |ts[1..]| ==> ts[1..][i] == ts[i + 1];
        CounterTracksStack(ts[1..], s', errors, vals);
    }
  }

  /**
   * A successful `validate(false)` on a non-empty sequence without
   * zero-argument functions: evaluation raises no arity or leftover error and
   * ends with exactly one value, unless a variable is unbound.
   */
  lemma ValidatedEvaluates(ts: seq<Token>, bound: set<string>, vals: map<string, real>)
    requires OperatorsUnaryOrBinary(ts) && FunctionsTakeArguments(ts) && |ts| > 0
    requires Validate(AsWritten, ts, bound, false) == Success
    ensures Evaluate(ts, vals).Ok? || (Evaluate(ts, vals).error.UnboundVariable? && Evaluate(ts, vals).error.variable !in vals)
  {
    var c := Scan(AsWritten, ts, 0, []);
    assert !c.stopped && c.errors == [] && c.count == 1;
    RulesAgree(ts, 0, []);
    CounterTracksStack(ts, [], [], vals);
    assert Run(ts, [], vals).Ok? ==> |Run(ts, [], vals).value| == 1;
  }

  /** With the variables checked as well, the evaluation succeeds. */
  lemma FullyValidatedEvaluates(ts: seq<Token>, vals: map<string, real>)
    requires OperatorsUnaryOrBinary(ts) && FunctionsTakeArguments(ts) && |ts| > 0
    requires Validate(AsWritten, ts, vals.Keys, true) == Success
    ensures Evaluate(ts, vals).Ok?
  {
    CheckedSuccessIff(AsWritten, ts, vals.Keys);
    RulesAgree(ts, 0, []);
    CounterTracksStack(ts, [], [], vals);
  }

  /** The corrected validator is sound for functions of every arity and for the empty sequence. */
  lemma CorrectedValidationSound(ts: seq<Token>, vals: map<string, real>)
    requires OperatorsUnaryOrBinary(ts)
    requires Validate(Corrected, ts, vals.Keys, true) == Success
    ensures Evaluate(ts, vals).Ok?
  {
    CheckedSuccessIff(Corrected, ts, vals.Keys);
    CounterTracksStack(ts, [], [], vals);
  }

  /**
   * Conversely, a run that succeeds over tokens that are all evaluated is
   * counted without error by the corrected rule, and every variable in it is bound.
   */
  lemma {:induction false} StackTracksCounter(ts: seq<Token>, s: seq<real>, errors: seq<ValidationError>, vals: map<string, real>)
    requires OperatorsUnaryOrBinary(ts) && NoOtherTokens(ts)
    requires Run(ts, s, vals).Ok?
    ensures Scan(Corrected, ts, |s|, errors) == Counter(|Run(ts, s, vals).value|, errors, false)
    ensures AllVariablesBound(ts, vals.Keys)
    decreases |ts|
  {
    if |ts| > 0 {
      var t := ts[0];
      assert !t.OtherToken?;
      assert t.OperatorToken? ==> t.op.numOperands == 1 || t.op.numOperands == 2;
      var s' := Step(t, s, vals).value;
      var (errs, c) := CountStep(Corrected, t, |s|);
      assert errs == [] && c == |s'| && c >= 1;
      assert errors + errs == errors;
      assert forall i :: 0 <= i < |ts[1..]| ==> ts[1..][i] == ts[i + 1];
      StackTracksCounter(ts[1..], s', errors, vals);
      assert t.VariableToken? ==> t.name in vals;
      forall i | 0 <= i < |ts| && ts[i].VariableToken?
        ensures ts[i].name in vals.Keys
      {
        if i > 0 { assert ts[i] == ts[1..][i - 1]; }
      }
    }
  }

  /**
   * For sequences without skipped tokens and with unary or binary operators,
   * the corrected `validate(true)` succeeds exactly when evaluation does.
   */
  lemma CorrectedValidationExact(ts: seq<Token>, vals: map<string, real>)
    requires OperatorsUnaryOrBinary(ts) && NoOtherTokens(ts)
    ensures Validate(Corrected, ts, vals.Keys, true) == Success <==> Evaluate(ts, vals).Ok?
  {
    if Evaluate(ts, vals).Ok? {
      StackTracksCounter(ts, [], [], vals);
      CheckedSuccessIff(Corrected, ts, vals.Keys);
    }
    if Validate(Corrected, ts, vals.Keys, true) == Success {
      CorrectedValidationSound(ts, vals);
    }
  }
}
