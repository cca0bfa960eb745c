# exp4j `Expression` in Dafny

This project models the expression object of exp4j (`net.objecthunter.exp4j.Expression`). The object holds a fixed array of tokens in postfix order and a map from variable names to mutable value cells. It also holds the user function names, an operand stack and a cache of small argument buffers. Three operations are modelled:

- **`evaluate`** is a stack machine. It clears the stack and walks the tokens:
  - a number is pushed as it is;
  - a variable's current value is pushed;
  - an operator or function of arity k moves the top k values into a buffer of length k, deepest first, and its result replaces them;
  - after the last token, exactly one value must remain.
- **`validate`** checks the balance of arity without evaluating. An optional pass reports unbound variables. Then a counter runs over the tokens and may report "not enough arguments", "too many operators" (which returns at once) or "too many operands".
- **Bindings**: `setVariable` overwrites a bound name's cell or gives an unbound name a new cell, and refuses a function name. `setVariables` applies a batch in order. The constructors pre-bind the builtin constants. The copy constructor copies the token array and the name set, but its map points at the same cells as the original's.

Layout:

- Values are `real`. Operators and functions are records that carry their symbol or name, their arity and an `apply` function on the sequence of arguments.
- `tokens.dfy` defines the token datatype.
- `evaluation.dfy` and `validation.dfy` give the meaning of `evaluate` and `validate` as functions on token sequences.
- `bindings.dfy` describes batches of assignments as values.
- `agreement.dfy` relates the validator's counter to the evaluator's stack.
- `expression.dfy` holds the `Expression` class: its field updates, loops and buffers, each method proved against those functions.
- `array_stack.dfy` is the operand stack, backed by a sequence.
- `findings.dfy` holds the inputs on which the validator and the evaluator disagree.

The validator's counter is defined twice, as a `CounterRule`:

- `AsWritten` is the source's rule, and it is the one the class uses.
- `Corrected` counts a function of arity k as `1 - k` and rejects a sequence that leaves nothing on the stack.

The copy behaviour follows the code. Setting a name that was bound before the copy changes the original's value too. The presumed intent is a copy that holds its bindings by value. The comment at Expression.java:223-225 says the cell class exists only to avoid allocating `Double` objects, so the sharing looks like a side effect of that optimisation. `Expression.DetachedCopy` is the by-value copy, stated next to it.

## Model

| member | source | states |
|---|---|---|
| Evaluation.Reduce | src/main/java/net/objecthunter/exp4j/Expression.java:189-194 | one application replaces the top k values by one: the values below them are kept and the new top is the result of applying to the popped values, deepest first; the same holds for a function at lines 202-207 |
| Evaluation.Step | src/main/java/net/objecthunter/exp4j/Expression.java:172-208 | one token fails exactly on an unbound variable or an arity above the stack size; otherwise the depth changes by 1 - k and the values below the popped ones are untouched |
| Evaluation.Run | src/main/java/net/objecthunter/exp4j/Expression.java:171-208 | the token walk stops at the first failing token, which can only be an unbound variable or too few operands or arguments; the final depth is at most the start depth plus the number of tokens |
| Evaluation.Evaluate | src/main/java/net/objecthunter/exp4j/Expression.java:169-213 | the result is the sole value left by the walk from an empty stack; more than one value gives the leftover error and none gives the empty-pop error, each case stated as an if and only if |
| Evaluation.RunAppend | src/main/java/net/objecthunter/exp4j/Expression.java:171-208 | walking a concatenation is walking the second part from the stack the first part leaves, and an error in the first part is final |
| Evaluation.NumberEvaluatesToItself | src/main/java/net/objecthunter/exp4j/Expression.java:173-174 | a single number token evaluates to its literal |
| Evaluation.BinaryOperandOrder | src/main/java/net/objecthunter/exp4j/Expression.java:189-194 | a binary operator receives its operands in left-to-right order: the deeper value first |
| Validation.UnsetAt | src/main/java/net/objecthunter/exp4j/Expression.java:105-109 | a token reports an error if and only if it is a variable that is not bound, and that error names the variable |
| Validation.UnsetVariables | src/main/java/net/objecthunter/exp4j/Expression.java:102-112 | at most one error per token, each naming a variable that is not bound |
| Validation.UnsetVariablesAppend | src/main/java/net/objecthunter/exp4j/Expression.java:104-111 | the variable pass reports each occurrence in token order, so repeated names repeat |
| Validation.UnsetVariablesEmptyIff | src/main/java/net/objecthunter/exp4j/Expression.java:104-111 | the variable pass reports nothing exactly when every variable token is bound |
| Validation.CountStep | src/main/java/net/objecthunter/exp4j/Expression.java:122-143 | a token moves the count by its effect on the stack, except a zero-argument function under the source's rule, which misses by one; an error is recorded exactly when a function asks for more arguments than are counted, and that error names the function |
| Validation.Scan | src/main/java/net/objecthunter/exp4j/Expression.java:120-148 | a scan that returns early has a count below one and at least one error; a full scan over a non-empty sequence ends with a count of at least one; the empty scan changes nothing |
| Validation.FinalErrors | src/main/java/net/objecthunter/exp4j/Expression.java:149-151 | a final count of exactly one passes and a count above one gives "too many operands"; a count below one passes under the source's rule and gives "too many operators" under the corrected rule |
| Validation.ScanKeepsErrors | src/main/java/net/objecthunter/exp4j/Expression.java:121-148 | the counting loop only appends to the errors it is given |
| Validation.ScanShift | src/main/java/net/objecthunter/exp4j/Expression.java:120-148 | errors collected before the loop are carried through it unchanged, ahead of the loop's own |
| Validation.ScanStopsEarly | src/main/java/net/objecthunter/exp4j/Expression.java:144-147 | once the count drops below one the loop returns, and tokens after that point are never inspected |
| Validation.Validate | src/main/java/net/objecthunter/exp4j/Expression.java:100-154 | a failure always carries errors; with the variable check, the unset-variable errors come first |
| Validation.VariableErrorsFirst | src/main/java/net/objecthunter/exp4j/Expression.java:100-152 | `validate(true)` reports the unset variables, then exactly what `validate(false)` reports |
| Validation.CheckedSuccessIff | src/main/java/net/objecthunter/exp4j/Expression.java:100-152 | `validate(true)` succeeds if and only if every variable is bound and `validate(false)` succeeds |
| Agreement.RulesAgree | src/main/java/net/objecthunter/exp4j/Expression.java:127-136 | without zero-argument functions, the source's counter rule and the corrected rule compute the same scan |
| Agreement.CounterTracksStack | src/main/java/net/objecthunter/exp4j/Expression.java:114-148 | when operators are unary or binary and the corrected count neither stops nor records an error, the count after the tokens is the evaluator's stack depth, and evaluation can fail only on an unbound variable |
| Agreement.ValidatedEvaluates | src/main/java/net/objecthunter/exp4j/Expression.java:114-154 | a successful `validate(false)` on a non-empty sequence without zero-argument functions means evaluation raises no arity or leftover error: it yields one value unless a variable is unbound |
| Agreement.FullyValidatedEvaluates | src/main/java/net/objecthunter/exp4j/Expression.java:100-213 | a successful `validate(true)` under the same conditions means evaluation yields a value |
| Agreement.StackTracksCounter | src/main/java/net/objecthunter/exp4j/Expression.java:171-208 | conversely, a successful walk over evaluated tokens is counted without error by the corrected rule, with the count equal to the depth, and binds every variable it meets |
| Agreement.CorrectedValidationSound | src/main/java/net/objecthunter/exp4j/Expression.java:114-119 | the corrected `validate(true)` guarantees a value for functions of every arity and for the empty sequence |
| Agreement.CorrectedValidationExact | src/main/java/net/objecthunter/exp4j/Expression.java:114-119 | the corrected `validate(true)` succeeds if and only if evaluation yields a value, for sequences with unary or binary operators and no skipped tokens |
| Bindings.Assign | src/main/java/net/objecthunter/exp4j/Expression.java:93-98 | the names bound after a batch are the old names plus the batch's names |
| Bindings.AssignLastWins | src/main/java/net/objecthunter/exp4j/Expression.java:94-96 | the last entry for a name decides its value |
| Bindings.AssignUntouched | src/main/java/net/objecthunter/exp4j/Expression.java:94-96 | names the batch does not mention keep their value |
| Bindings.BindablePrefix | src/main/java/net/objecthunter/exp4j/Expression.java:94-96 | the entries before the returned position carry no reserved name, and the entry at it, if any, does |
| Bindings.AssignSnoc | src/main/java/net/objecthunter/exp4j/Expression.java:94-96 | one more entry is one more assignment after the others |
| ArrayStacks.ArrayStack.constructor | src/main/java/net/objecthunter/exp4j/Expression.java:37 | a new stack is empty |
| ArrayStacks.ArrayStack.Push | src/main/java/net/objecthunter/exp4j/Expression.java:174 | the value goes on top |
| ArrayStacks.ArrayStack.Pop | src/main/java/net/objecthunter/exp4j/Expression.java:192 | the top value is removed and returned; popping an empty stack is an error, as at line 213 |
| ArrayStacks.ArrayStack.Size | src/main/java/net/objecthunter/exp4j/Expression.java:186 | the number of stacked values |
| ArrayStacks.ArrayStack.Reset | src/main/java/net/objecthunter/exp4j/Expression.java:170 | reset empties the stack |
| Expressions.VariableValue.constructor | src/main/java/net/objecthunter/exp4j/Expression.java:226-228 | a new cell holds zero |
| Expressions.Expression.NewBuffers | src/main/java/net/objecthunter/exp4j/Expression.java:41-47 | four fresh buffers, the one at position i having length i |
| Expressions.Expression.FromTokens | src/main/java/net/objecthunter/exp4j/Expression.java:60-64 | the tokens are kept, there are no user functions, the constants are bound in order up to the first clashing one, all of them when none clashes, and the stack and buffers are new |
| Expressions.Expression.WithFunctions | src/main/java/net/objecthunter/exp4j/Expression.java:66-70 | the same, with the given user function names reserved |
| Expressions.Expression.Copy | src/main/java/net/objecthunter/exp4j/Expression.java:54-58 | a new token array with the same tokens, the same function names, a map of its own with the same names bound to the same cells, and a stack and buffers of its own |
| Expressions.Expression.DetachedCopy | src/main/java/net/objecthunter/exp4j/Expression.java:49-58 | the by-value copy: the same tokens, names and values, held in new cells only this copy owns |
| Expressions.Expression.BindValuesOf | src/main/java/net/objecthunter/exp4j/Expression.java:57 | binds every name another expression binds to a new cell holding that expression's current value, and leaves the other expression as it was |
| Expressions.Expression.CheckVariableName | src/main/java/net/objecthunter/exp4j/Expression.java:87-91 | a name is refused if and only if it is a user or builtin function name |
| Expressions.Expression.SetVariable | src/main/java/net/objecthunter/exp4j/Expression.java:72-81 | a refused name changes nothing; otherwise the name's value becomes the given one and every other value stays the same; a bound name keeps its cell, and an unbound name gets a fresh cell |
| Expressions.Expression.SetVariables | src/main/java/net/objecthunter/exp4j/Expression.java:93-98 | the entries are applied in order up to the first refused name, which is the error reported; the earlier entries stay applied; every name bound before keeps its cell, and every newly bound name gets a fresh cell |
| Expressions.Expression.UnsetVariableErrors | src/main/java/net/objecthunter/exp4j/Expression.java:102-112 | the loop yields the variable pass's errors over the token array and the bound names |
| Expressions.Expression.CountToken | src/main/java/net/objecthunter/exp4j/Expression.java:122-143 | the switch computes the source rule's step for one token |
| Expressions.Expression.CountOperands | src/main/java/net/objecthunter/exp4j/Expression.java:120-148 | the counting loop, including its early return, yields the source rule's scan over the token array |
| Expressions.Expression.Validate | src/main/java/net/objecthunter/exp4j/Expression.java:100-154 | `validate(checkVariablesSet)` returns the source rule's validation of the tokens against the bound names and changes nothing |
| Expressions.Expression.ValidateDefault | src/main/java/net/objecthunter/exp4j/Expression.java:156-158 | `validate()` is `validate(true)` |
| Expressions.Expression.GetArray | src/main/java/net/objecthunter/exp4j/Expression.java:216-221 | a buffer of the requested length: the cached one below four, a fresh one otherwise |
| Expressions.Expression.PopInto | src/main/java/net/objecthunter/exp4j/Expression.java:191-193 | the downward loop fills the whole buffer with the top values, deepest first, and removes exactly those from the stack |
| Expressions.Expression.PopArguments | src/main/java/net/objecthunter/exp4j/Expression.java:189-193 | the buffer holds the top k values, deepest first, and the stack loses exactly those values; the cached buffers of the other lengths keep their contents |
| Expressions.Expression.Execute | src/main/java/net/objecthunter/exp4j/Expression.java:172-208 | one pass of the loop body is one evaluation step from the old stack under the current values; the cells are untouched, and so are the cached buffers of lengths other than the token's arity |
| Expressions.Expression.ExecuteAll | src/main/java/net/objecthunter/exp4j/Expression.java:170-209 | after the reset, the loop is the walk from an empty stack, and it stops at the first error |
| Expressions.Expression.Evaluate | src/main/java/net/objecthunter/exp4j/Expression.java:169-213 | `evaluate()` returns the evaluation of the tokens under the current values and leaves the tokens and bindings unchanged |
| Expressions.SetSharedOnCopy | src/main/java/net/objecthunter/exp4j/Expression.java:54-58 | setting, on a copy, a name bound at copy time changes the original's value too, since both maps hold the same cell |
| Expressions.SetBatchOnCopy | src/main/java/net/objecthunter/exp4j/Expression.java:54-58 | a batch applied on a copy leaves the original's names bound to the same cells, so the original's value for each of its names is the copy's value after the batch |
| Expressions.SetNewOnCopy | src/main/java/net/objecthunter/exp4j/Expression.java:74-78 | a name first bound on a copy gets a cell of its own and does not appear in the original |
| Expressions.SetOnDetachedCopy | src/main/java/net/objecthunter/exp4j/Expression.java:49-58 | on a by-value copy, setting any name leaves the original's bindings and values as they were |
| Expressions.EvaluateCopy | src/main/java/net/objecthunter/exp4j/Expression.java:37-58 | evaluating a copy gives the original's evaluation and leaves the original, its stack and every one of its cached buffers untouched, because the instance initializer gives each instance its own |
| Expressions.EvaluateTwice | src/main/java/net/objecthunter/exp4j/Expression.java:169-170 | because the stack is reset first, evaluating twice in a row gives the same result |
| Findings.ZeroArgumentFunctionPassesValidation | src/main/java/net/objecthunter/exp4j/Expression.java:127-136 | a number followed by a zero-argument function passes the source's validation, yet evaluation ends with two values; the corrected rule reports the extra operand |
| Findings.EmptyTokensPassValidation | src/main/java/net/objecthunter/exp4j/Expression.java:149-152 | the empty token sequence passes the source's validation, yet evaluation pops an empty stack; the corrected rule rejects it |

## Left out

- `evaluateAsync` (Expression.java:160-167) only submits `evaluate` to an executor. It is concurrency and is not modelled.
- Values are reals, not IEEE-754 doubles: NaN, infinities and rounding are not modelled.
- The `setVariable(String, Double)` overload (Expression.java:83-85) differs only in Java's unboxing of a null reference. It is not modelled.
- The tokenizer, the token classes, `ArrayStack`, `Functions.getBuiltinFunction`, `Constants.getBuiltinConstants` and the bodies of operators and functions are not part of this model:
  - the builtin function names are a set passed to the constructors;
  - the builtin constants are a sequence of entries passed to them;
  - each operator and function carries an uninterpreted `apply`;
  - the stack is a sequence-backed class with the stack contract.
- `setVariables` takes its entries as a sequence, standing for one iteration order of the Java map. The order of a `HashMap` is not modelled.
- Exceptions are modelled as returned error values. Error messages are modelled as tagged error kinds, kept in the order the source reports them.
- Expressions.Expression.FromTokens: a builtin constant whose name is a function name makes the source's constructor throw. The model instead returns an expression with the constants before it bound.
- Expressions.Expression.WithFunctions: likewise.
- The validator's counter ignores operators that are neither unary nor binary. Operators registered with exp4j have one or two operands, and the agreement lemmas assume that.
- The helper method `SetEntry` is one step of `setVariables`, split out for the proof. It has no row of its own.

## Findings

| source | as written | input that shows it | evidently intended | confidence | as-written member | corrected member |
|---|---|---|---|---|---|---|
| src/main/java/net/objecthunter/exp4j/Expression.java:133-135 | a function of arity 0 or 1 leaves the counter unchanged | a number followed by a zero-argument function: validation succeeds, `evaluate` finds two values left and throws | a function of arity k changes the count by 1 - k, as the comment at lines 114-119 describes | high, not executed | Findings.ZeroArgumentFunctionPassesValidation | Agreement.CorrectedValidationExact |
| src/main/java/net/objecthunter/exp4j/Expression.java:149-152 | only a final count above one is reported | the empty token array: validation succeeds, `evaluate` pops an empty stack | the count is exactly one after all tokens (line 118), so zero is an error too | medium, not executed | Findings.EmptyTokensPassValidation | Agreement.CorrectedValidationSound |
| src/main/java/net/objecthunter/exp4j/Expression.java:57 | `putAll` copies the references to the value cells | copy an expression binding `x`, call `setVariable("x", 2)` on the copy: the original's `x` is 2 as well | a copy holds its bindings by value, independent of the original | medium, not executed | Expressions.SetSharedOnCopy | Expressions.SetOnDetachedCopy |
