/**
 * The expression object: a fixed token array, variable bindings held in
 * mutable cells, the reserved function names, an operand stack and a cache of
 * argument buffers.
 */
module Expressions {
  import opened Wrappers
  import opened Tokens
  import opened ArrayStacks
  import Evaluation
  import Validation
  import Bindings

  /** A variable name is refused because a function has that name. */
  datatype BindingError = InvalidName(name: string)

  /** The mutable cell that holds one variable's value. */
  class VariableValue {
    var value: real

    constructor ()
      ensures value == 0.0
    {
      value := 0.0;
    }
  }

  /** Every name bound in `before` is still bound, to the same cell, in `after`. */
  ghost predicate KeepsCells(before: map<string, VariableValue>, after: map<string, VariableValue>)
  {
    forall n :: n in before ==> n in after && after[n] == before[n]
  }

  /** The number of cached argument buffers, one for each size below it. */
  const CachedBuffers := 4

  class Expression {
    const tokens: array<Token>
    var variables: map<string, VariableValue>
    /** The cells the bindings use; a copy shares them with its original. */
    ghost var Repr: set<VariableValue>
    const userFunctionNames: set<string>
    /** The names of the builtin function registry, which this model takes as given. */
    const builtinFunctionNames: set<string>
    const stack: ArrayStack
    /** `arrays[i]` is the cached buffer of length `i`. */
    const arrays: array<array<real>>

    /** The names a variable may not take. */
    function FunctionNames(): set<string>
    {
      userFunctionNames + builtinFunctionNames
    }

    ghost predicate Valid()
      reads this, arrays
    {
      && arrays.Length == CachedBuffers
      && (forall i :: 0 <= i < CachedBuffers ==> arrays[i].Length == i)
      && variables.Keys !! FunctionNames()
      && CellsOwned()
      && (forall a, b :: a in variables && b in variables && a != b ==> variables[a] != variables[b])
    }

    /** Every binding's cell is one of `Repr`. */
    ghost predicate CellsOwned()
      reads this
    {
      forall n :: n in variables ==> variables[n] in Repr
    }

    /** The current value of every bound variable. */
    ghost function Values(): (vals: map<string, real>)
      requires CellsOwned()
      reads this, Repr
      ensures vals.Keys == variables.Keys
    {
      map n | n in variables :: variables[n].value
    }

    /** Allocates the cached buffers, one of each length below `CachedBuffers`. */
    static method NewBuffers() returns (a: array<array<real>>)
      ensures fresh(a) && a.Length == CachedBuffers
      ensures forall i :: 0 <= i < CachedBuffers ==> fresh(a[i]) && a[i].Length == i
    {
      var empty := new real[0];
      a := new array<real>[CachedBuffers](_ => empty);
      var i := 0;
      while i < CachedBuffers
        invariant 0 <= i <= CachedBuffers
        invariant forall j :: 0 <= j < i ==> fresh(a[j]) && a[j].Length == j
      {
        a[i] := new real[i];
        i := i + 1;
      }
    }

    /**
     * An expression over `tokens` with no user functions, the builtin constants
     * bound up to the first one that is a function name, where the source throws.
     */
    constructor FromTokens(tokens: array<Token>, builtinFunctionNames: set<string>, builtinConstants: seq<(string, real)>)
      ensures Valid()
      ensures this.tokens == tokens && userFunctionNames == {} && this.builtinFunctionNames == builtinFunctionNames
      ensures fresh(stack) && fresh(arrays) && forall i :: 0 <= i < CachedBuffers ==> fresh(arrays[i])
      ensures var p := Bindings.BindablePrefix(builtinConstants, FunctionNames());
              Values() == Bindings.Assign(map[], builtinConstants[..p])
      ensures (forall i :: 0 <= i < |builtinConstants| ==> builtinConstants[i].0 !in FunctionNames()) ==>
                Values() == Bindings.Assign(map[], builtinConstants)
      ensures fresh(Repr)
    {
      this.tokens := tokens;
      this.userFunctionNames := {};
      this.builtinFunctionNames := builtinFunctionNames;
      this.variables := map[];
      this.Repr := {};
      this.stack := new ArrayStack();
      var buffers := Expression.NewBuffers();
      this.arrays := buffers;
      new;
      var r := SetVariables(builtinConstants);
      assert builtinConstants[..|builtinConstants|] == builtinConstants;
    }

    /**
     * An expression over `tokens` with the user functions named, the builtin
     * constants bound up to the first one that is a function name, where the
     * source throws.
     */
    constructor WithFunctions(tokens: array<Token>, userFunctionNames: set<string>, builtinFunctionNames: set<string>,
                              builtinConstants: seq<(string, real)>)
      ensures Valid()
      ensures this.tokens == tokens && this.userFunctionNames == userFunctionNames
      ensures this.builtinFunctionNames == builtinFunctionNames
      ensures fresh(stack) && fresh(arrays) && forall i :: 0 <= i < CachedBuffers ==> fresh(arrays[i])
      ensures var p := Bindings.BindablePrefix(builtinConstants, FunctionNames());
              Values() == Bindings.Assign(map[], builtinConstants[..p])
      ensures (forall i :: 0 <= i < |builtinConstants| ==> builtinConstants[i].0 !in FunctionNames()) ==>
                Values() == Bindings.Assign(map[], builtinConstants)
      ensures fresh(Repr)
    {
      this.tokens := tokens;
      this.userFunctionNames := userFunctionNames;
      this.builtinFunctionNames := builtinFunctionNames;
      this.variables := map[];
      this.Repr := {};
      this.stack := new ArrayStack();
      var buffers := Expression.NewBuffers();
      this.arrays := buffers;
      new;
      var r := SetVariables(builtinConstants);
      assert builtinConstants[..|builtinConstants|] == builtinConstants;
    }

    /**
     * A copy of `existing`: an equal token array of its own, the same function
     * names, and a map of the same names to the very same cells.
     */
    constructor Copy(existing: Expression)
      requires existing.Valid()
      ensures Valid()
      ensures fresh(tokens) && tokens[..] == existing.tokens[..]
      ensures userFunctionNames == existing.userFunctionNames
      ensures builtinFunctionNames == existing.builtinFunctionNames
      ensures variables == existing.variables && Repr == existing.Repr
      ensures fresh(stack) && fresh(arrays) && forall i :: 0 <= i < CachedBuffers ==> fresh(arrays[i])
    {
      var ts := existing.tokens[..];
      this.tokens := new Token[|ts|](i requires 0 <= i < |ts| => ts[i]);
      this.userFunctionNames := existing.userFunctionNames;
      this.builtinFunctionNames := existing.builtinFunctionNames;
      this.variables := existing.variables;
      this.Repr := existing.Repr;
      this.stack := new ArrayStack();
      var buffers := Expression.NewBuffers();
      this.arrays := buffers;
    }

    /**
     * A copy that holds the bindings by value: an equal token array of its
     * own, the same function names, and a new cell for every bound name holding
     * the value the original's cell holds now.
     */
    constructor DetachedCopy(existing: Expression)
      requires existing.Valid()
      ensures Valid()
      ensures fresh(tokens) && tokens[..] == existing.tokens[..]
      ensures userFunctionNames == existing.userFunctionNames
      ensures builtinFunctionNames == existing.builtinFunctionNames
      ensures Values() == existing.Values()
      ensures fresh(Repr) && fresh(stack) && fresh(arrays)
      ensures forall i :: 0 <= i < CachedBuffers ==> fresh(arrays[i])
    {
      var ts := existing.tokens[..];
      this.tokens := new Token[|ts|](i requires 0 <= i < |ts| => ts[i]);
      this.userFunctionNames := existing.userFunctionNames;
      this.builtinFunctionNames := existing.builtinFunctionNames;
      this.variables := map[];
      this.Repr := {};
      this.stack := new ArrayStack();
      var buffers := Expression.NewBuffers();
      this.arrays := buffers;
      new;
      BindValuesOf(existing);
    }

    /**
     * Binds every name `existing` binds, each to a new cell holding the value
     * the original's cell holds now; the original is not changed.
     */
    method BindValuesOf(existing: Expression)
      requires Valid() && existing.Valid() && variables == map[]
      requires existing.FunctionNames() == FunctionNames()
      modifies this
      ensures Valid() && Values() == existing.Values()
      ensures old(Repr) <= Repr && fresh(Repr - old(Repr))
    {
      ghost var target := existing.Values();
      var names := existing.variables.Keys;
      while names != {}
        invariant Valid() && old(Repr) <= Repr && fresh(Repr - old(Repr))
        invariant names <= target.Keys && variables.Keys == target.Keys - names
        invariant existing.Values() == target
        invariant forall n :: n in variables ==> Values()[n] == target[n]
      {
        var name :| name in names;
        var r := SetVariable(name, existing.variables[name].value);
        assert r.Pass?;
        names := names - {name};
      }
      assert Values().Keys == target.Keys;
      assert forall n :: n in target ==> Values()[n] == target[n];
    }

    /** Refuses a name that is a user or builtin function name. */
    function CheckVariableName(name: string): (r: Outcome<BindingError>)
      ensures r.Fail? <==> name in userFunctionNames || name in builtinFunctionNames
      ensures r.Fail? ==> r.error == InvalidName(name)
    {
      if name in userFunctionNames || name in builtinFunctionNames then Fail(InvalidName(name)) else Pass
    }

    /**
     * Binds `name` to `value`: the name's existing cell is overwritten, an
     * unbound name gets a new cell. A function name is refused and nothing changes.
     */
    method SetVariable(name: string, value: real) returns (r: Outcome<BindingError>)
      requires Valid()
      modifies this, if name in variables then {variables[name]} else {}
      ensures Valid()
      ensures r == CheckVariableName(name)
      ensures r.Fail? ==> variables == old(variables) && Values() == old(Values())
      ensures r.Pass? ==> name in variables && Values() == old(Values())[name := value]
      ensures r.Pass? && name in old(variables) ==> variables == old(variables)
      ensures r.Pass? && name !in old(variables) ==>
                fresh(variables[name]) && variables == old(variables)[name := variables[name]]
      ensures old(Repr) <= Repr && fresh(Repr - old(Repr))
    {
      r := CheckVariableName(name);
      if r.Fail? {
        return;
      }
      var cell: VariableValue;
      if name in variables {
        cell := variables[name];
      } else {
        cell := new VariableValue();
        variables := variables[name := cell];
        Repr := Repr + {cell};
      }
      cell.value := value;
      assert forall n :: n in variables && n != name ==> variables[n] != cell;
    }

    /**
     * Binds entry `i` of `entries`, the entries before it being bound already:
     * one step of `SetVariables`.
     */
    method SetEntry(entries: seq<(string, real)>, i: nat, ghost vals0: map<string, real>) returns (r: Outcome<BindingError>)
      requires Valid() && i < |entries|
      requires Values() == Bindings.Assign(vals0, entries[..i])
      modifies this, if entries[i].0 in variables then {variables[entries[i].0]} else {}
      ensures Valid()
      ensures r.Pass? <==> entries[i].0 !in FunctionNames()
      ensures r.Fail? ==> r.error == InvalidName(entries[i].0)
      ensures r.Pass? ==> Values() == Bindings.Assign(vals0, entries[..i + 1])
      ensures r.Fail? ==> Values() == old(Values())
      ensures old(Repr) <= Repr && fresh(Repr - old(Repr))
      ensures KeepsCells(old(variables), variables)
      ensures forall n :: n in variables && n !in old(variables) ==> fresh(variables[n])
    {
      r := SetVariable(entries[i].0, entries[i].1);
      if r.Pass? {
        Bindings.AssignSnoc(vals0, entries, i);
      }
    }

    /**
     * Binds the entries in order and stops at the first refused name; the
     * entries before it stay bound.
     */
    method SetVariables(entries: seq<(string, real)>) returns (r: Outcome<BindingError>)
      requires Valid()
      modifies this, Repr
      ensures Valid()
      ensures old(Repr) <= Repr && fresh(Repr - old(Repr))
      ensures var p := Bindings.BindablePrefix(entries, FunctionNames());
              && Values() == Bindings.Assign(old(Values()), entries[..p])
              && (r.Pass? <==> p == |entries|)
              && (r.Fail? ==> r.error == InvalidName(entries[p].0))
    ensures KeepsCells(old(variables), variables)
    ensures forall n :: n in variables && n !in old(variables) ==> fresh(variables[n])
    {
      r := Pass;
      ghost var vals0 := Values();
      var i := 0;
      while i < |entries|
        invariant 0 <= i <= |entries|
        invariant Valid()
        invariant Bindings.BindablePrefix(entries, FunctionNames()) >= i
        invariant Values() == Bindings.Assign(vals0, entries[..i])
        invariant r == Pass
        invariant old(Repr) <= Repr && fresh(Repr - old(Repr))
        invariant KeepsCells(old(variables), variables)
        invariant forall n :: n in variables && n !in old(variables) ==> fresh(variables[n])
      {
        r := SetEntry(entries, i, vals0);
        if r.Fail? {
          break;
        }
        i := i + 1;
      }
      if i == |entries| {
        assert entries[..i] == entries;
      }
      assert Bindings.BindablePrefix(entries, FunctionNames()) == i;
    }

    /** One "has not been set" error per Variable token whose name is unbound, in token order. */
    method UnsetVariableErrors() returns (errors: seq<Validation.ValidationError>)
      ensures errors == Validation.UnsetVariables(tokens[..], variables.Keys)
    {
      ghost var ts := tokens[..];
      errors := [];
      var i := 0;
      while i < tokens.Length
        invariant 0 <= i <= tokens.Length
        invariant errors == Validation.UnsetVariables(ts[..i], variables.Keys)
      {
        var t := tokens[i];
        if t.VariableToken? && t.name !in variables {
          errors := errors + [Validation.VariableNotSet(t.name)];
        }
        assert ts[..i + 1][..i] == ts[..i];
        i := i + 1;
      }
      assert ts[..i] == ts;
    }

    /**
     * The `switch` statement of the counting loop, kept as a statement so that
     * the loop reads like the source; it is proved to compute the source rule's
     * `CountStep`, which is where the counter step is defined.
     */
    static method CountToken(t: Token, count: int) returns (errors: seq<Validation.ValidationError>, next: int)
      ensures (errors, next) == Validation.CountStep(Validation.AsWritten, t, count)
    {
      errors := [];
      next := count;
      match t {
        case NumberToken(_) =>
          next := count + 1;
        case VariableToken(_) =>
          next := count + 1;
        case FunctionToken(f) =>
          if f.numArguments > count {
            errors := [Validation.ArgumentsMissing(f.name)];
          }
          if f.numArguments > 1 {
            next := count - (f.numArguments - 1);
          }
        case OperatorToken(op) =>
          if op.numOperands == 2 {
            next := count - 1;
          }
        case OtherToken =>
      }
    }

    /**
     * The counting loop of `validate`: from a count of zero, adds each token's
     * effect and stops with a "too many operators" error as soon as the count
     * drops below one.
     */
    method CountOperands(errors0: seq<Validation.ValidationError>)
      returns (errors: seq<Validation.ValidationError>, count: int, stopped: bool)
      ensures Validation.Counter(count, errors, stopped) == Validation.Scan(Validation.AsWritten, tokens[..], 0, errors0)
    {
      ghost var ts := tokens[..];
      errors, count, stopped := errors0, 0, false;
      var i := 0;
      while i < tokens.Length
        invariant 0 <= i <= tokens.Length
        invariant Validation.Scan(Validation.AsWritten, ts, 0, errors0) == Validation.Scan(Validation.AsWritten, ts[i..], count, errors)
      {
        assert ts[i..][1..] == ts[i + 1..];
        var errs;
        errs, count := CountToken(tokens[i], count);
        errors := errors + errs;
        if count < 1 {
          errors := errors + [Validation.TooManyOperators];
          stopped := true;
          return;
        }
        i := i + 1;
      }
    }

    /** The result `validate(checkVariablesSet)` returns; nothing is changed. */
    method Validate(checkVariablesSet: bool) returns (r: Validation.ValidationResult)
      ensures r == Validation.Validate(Validation.AsWritten, tokens[..], variables.Keys, checkVariablesSet)
    {
      var errors: seq<Validation.ValidationError> := [];
      if checkVariablesSet {
        errors := UnsetVariableErrors();
      }
      var count, stopped;
      errors, count, stopped := CountOperands(errors);
      if stopped {
        return Validation.Failure(errors);
      }
      if count > 1 {
        errors := errors + [Validation.TooManyOperands];
      }
      r := if |errors| == 0 then Validation.Success else Validation.Failure(errors);
    }

    /** `validate()` checks the variables too. */
    method ValidateDefault() returns (r: Validation.ValidationResult)
      ensures r == Validation.Validate(Validation.AsWritten, tokens[..], variables.Keys, true)
    {
      r := Validate(true);
    }

    /** The cached buffer of length `size` when there is one, otherwise a new buffer. */
    method GetArray(size: nat) returns (buf: array<real>)
      requires Valid()
      ensures buf.Length == size
      ensures size < CachedBuffers ==> buf == arrays[size]
      ensures CachedBuffers <= size ==> fresh(buf)
    {
      if size < arrays.Length {
        buf := arrays[size];
      } else {
        buf := new real[size];
      }
    }

    /**
     * Pops the top `k` values into a buffer of length `k`, deepest value
     * first; the cached buffers of the other lengths are not touched.
     */
    method PopArguments(k: nat) returns (args: array<real>)
      requires Valid() && k <= |stack.data|
      modifies stack, arrays[..]
      ensures args.Length == k
      ensures args[..] == old(stack.data)[|old(stack.data)| - k..]
      ensures stack.data == old(stack.data)[..|old(stack.data)| - k]
      ensures k < CachedBuffers ==> args == arrays[k]
      ensures CachedBuffers <= k ==> fresh(args)
      ensures forall j :: 0 <= j < CachedBuffers && j != k ==> arrays[j][..] == old(arrays[j][..])
    {
      args := GetArray(k);
      PopInto(args);
    }

    /**
     * The downward filling loop: pops as many values as `args` holds, writing
     * them from the last position down, so that the deepest value comes first.
     */
    method PopInto(args: array<real>)
      requires args.Length <= |stack.data|
      modifies stack, args
      ensures args[..] == old(stack.data)[|old(stack.data)| - args.Length..]
      ensures stack.data == old(stack.data)[..|old(stack.data)| - args.Length]
    {
      ghost var s := stack.data;
      var k := args.Length;
      var j: int := k - 1;
      while j >= 0
        invariant -1 <= j < k
        invariant stack.data == s[..|s| - k + j + 1]
        invariant forall m :: j < m < k ==> args[m] == s[|s| - k + m]
      {
        var v := stack.Pop();
        args[j] := v.value;
        j := j - 1;
      }
      assert args[..] == s[|s| - k..];
    }

    /**
     * Executes one token against the stack: a number or a variable's value is
     * pushed, an operator or function replaces its operands by its result,
     * other tokens are skipped.
     */
    method Execute(t: Token) returns (err: Option<Evaluation.EvalError>)
      requires Valid()
      modifies stack, arrays[..]
      ensures unchanged(Repr)
      ensures forall j :: 0 <= j < CachedBuffers && j != Arity(t) ==> arrays[j][..] == old(arrays[j][..])
      ensures Evaluation.Step(t, old(stack.data), Values()) ==
              if err.Some? then Err(err.value) else Ok(stack.data)
    {
      err := None;
      match t {
        case NumberToken(v) =>
          stack.Push(v);
        case VariableToken(name) =>
          if name !in variables {
            return Some(Evaluation.UnboundVariable(name));
          }
          stack.Push(variables[name].value);
        case OperatorToken(op) =>
          var size := stack.Size();
          if size < op.numOperands {
            return Some(Evaluation.NotEnoughOperands(op.symbol));
          }
          var ops := PopArguments(op.numOperands);
          stack.Push(op.apply(ops[..]));
        case FunctionToken(f) =>
          var size := stack.Size();
          if size < f.numArguments {
            return Some(Evaluation.NotEnoughArguments(f.name));
          }
          var args := PopArguments(f.numArguments);
          stack.Push(f.apply(args[..]));
        case OtherToken =>
      }
    }

    /**
     * Executes the tokens in order from an empty stack and stops at the first
     * error; what is left on the stack is what the run leaves.
     */
    method ExecuteAll() returns (err: Option<Evaluation.EvalError>)
      requires Valid()
      modifies stack, arrays[..]
      ensures unchanged(Repr)
      ensures Evaluation.Run(tokens[..], [], Values()) == if err.Some? then Err(err.value) else Ok(stack.data)
    {
      ghost var ts := tokens[..];
      ghost var vals := Values();
      stack.Reset();
      var i := 0;
      while i < tokens.Length
        invariant 0 <= i <= tokens.Length
        invariant unchanged(Repr)
        invariant Evaluation.Run(ts, [], vals) == Evaluation.Run(ts[i..], stack.data, vals)
      {
        assert ts[i..][1..] == ts[i + 1..];
        err := Execute(tokens[i]);
        if err.Some? {
          return;
        }
        i := i + 1;
      }
      err := None;
    }

    /**
     * Evaluates the tokens against the current bindings from an empty stack.
     * Tokens and bindings are left as they are.
     */
    method Evaluate() returns (r: Result<real, Evaluation.EvalError>)
      requires Valid()
      modifies stack, arrays[..]
      ensures unchanged(this) && unchanged(Repr)
      ensures r == Evaluation.Evaluate(tokens[..], Values())
      ensures r.Ok? ==> stack.data == []
    {
      ghost var vals := Values();
      var err := ExecuteAll();
      if err.Some? {
        r := Err(err.value);
      } else {
        var size := stack.Size();
        if size > 1 {
          r := Err(Evaluation.TooManyItems);
        } else {
          var top := stack.Pop();
          r := if top.Some? then Ok(top.value) else Err(Evaluation.EmptyStack);
        }
      }
      assert r == Evaluation.Evaluate(tokens[..], vals);
    }
  }

  /**
   * Copies `original` and binds a name the original already binds on the
   * copy: both share that cell, so the original sees the new value too.
   */
  method SetSharedOnCopy(original: Expression, name: string, value: real) returns (copy: Expression)
    requires original.Valid() && name in original.variables
    modifies original.variables[name]
    ensures fresh(copy) && copy.Valid()
    ensures copy.variables == original.variables == old(original.variables)
    ensures original.Values() == old(original.Values())[name := value]
  {
    copy := new Expression.Copy(original);
    var r := copy.SetVariable(name, value);
    assert original.Values() == copy.Values();
  }

  /**
   * Copies `original` and applies a batch on the copy: every name the original
   * binds still shares its cell, so the original sees the batch's values for
   * its own names.
   */
  method SetBatchOnCopy(original: Expression, entries: seq<(string, real)>)
    returns (copy: Expression, r: Outcome<BindingError>)
    requires original.Valid()
    modifies original.Repr
    ensures fresh(copy) && copy.Valid()
    ensures var p := Bindings.BindablePrefix(entries, original.FunctionNames());
            copy.Values() == Bindings.Assign(old(original.Values()), entries[..p])
    ensures original.variables == old(original.variables) && original.CellsOwned()
    ensures forall n :: n in original.variables ==> n in copy.variables && copy.variables[n] == original.variables[n]
    ensures forall n :: n in original.variables ==> original.Values()[n] == copy.Values()[n]
  {
    copy := new Expression.Copy(original);
    ghost var shared := copy.variables;
    assert copy.Values() == original.Values();
    r := copy.SetVariables(entries);
    assert forall n :: n in shared ==> n in copy.variables && copy.variables[n] == shared[n];
  }

  /**
   * Copies `original` and binds a name the original does not bind on the
   * copy: the copy gets a cell of its own and the original is unaffected.
   */
  method SetNewOnCopy(original: Expression, name: string, value: real) returns (copy: Expression, r: Outcome<BindingError>)
    requires original.Valid() && name !in original.variables
    ensures fresh(copy) && copy.Valid()
    ensures r == original.CheckVariableName(name)
    ensures r.Pass? ==> copy.Values() == old(original.Values())[name := value]
    ensures unchanged(original) && name !in original.variables
  {
    copy := new Expression.Copy(original);
    r := copy.SetVariable(name, value);
  }

  /**
   * Copies `original` by value and binds any name on the copy: the original's
   * bindings and values stay as they were, whether or not it binds the name.
   */
  method SetOnDetachedCopy(original: Expression, name: string, value: real)
    returns (copy: Expression, r: Outcome<BindingError>)
    requires original.Valid()
    ensures fresh(copy) && copy.Valid()
    ensures r == original.CheckVariableName(name)
    ensures r.Pass? ==> copy.Values() == old(original.Values())[name := value]
    ensures unchanged(original) && unchanged(original.Repr)
  {
    copy := new Expression.DetachedCopy(original);
    r := copy.SetVariable(name, value);
  }

  /**
   * Copies `original` and evaluates the copy: the result is the original's
   * evaluation, and the original's stack and cached buffers are not touched,
   * because the copy has its own.
   */
  method EvaluateCopy(original: Expression) returns (copy: Expression, r: Result<real, Evaluation.EvalError>)
    requires original.Valid()
    ensures fresh(copy)
    ensures r == Evaluation.Evaluate(original.tokens[..], original.Values())
    ensures unchanged(original, original.stack, original.arrays) && unchanged(original.Repr)
    ensures forall i :: 0 <= i < CachedBuffers ==> unchanged(original.arrays[i])
  {
    copy := new Expression.Copy(original);
    assert copy.Values() == original.Values();
    r := copy.Evaluate();
  }

  /** Evaluating twice with nothing changed in between gives the same result. */
  method EvaluateTwice(e: Expression) returns (first: Result<real, Evaluation.EvalError>, second: Result<real, Evaluation.EvalError>)
    requires e.Valid()
    modifies e.stack, e.arrays[..]
    ensures first == second
  {
    first := e.Evaluate();
    second := e.Evaluate();
  }
}
