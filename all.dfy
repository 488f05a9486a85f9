/** All and its alias Every (all.go): does every element satisfy a predicate? */
module AllOp {
  import opened Reflect
  import opened Errors

  /** A function of one parameter and one result of bool kind. */
  predicate IsBoolPredicate(fn: Arg) {
    fn.Typed? && fn.ty.Func? && |fn.ty.ins| == 1 && |fn.ty.outs| == 1 && KindOf(fn.ty.outs[0]) == BoolKind
  }

  /** Everything All checks before its loop, in source order: is the
      predicate a function, one parameter, one result, a bool result, is
      the input a slice, and is the predicate's parameter type exactly the
      element type. */
  function AllCheck(input: Arg, fn: Arg): (r: Option<Error>)
    ensures r.None? <==>
      && fn.Typed? && fn.ty.Func? && |fn.ty.ins| == 1 && |fn.ty.outs| == 1 && fn.ty.outs[0] == Bool
      && input.Typed? && input.ty.Slice? && fn.ty.ins[0] == input.ty.elem
    // the first failing step decides the error
    ensures ArgKind(fn) != FuncKind ==> r == Some(PredicateNotFunction)
    ensures fn.Typed? && fn.ty.Func? ==>
      && (|fn.ty.ins| != 1 ==> r == Some(PredicateArgCount))
      && (|fn.ty.ins| == 1 && |fn.ty.outs| != 1 ==> r == Some(PredicateResultCount))
      && (|fn.ty.ins| == 1 && |fn.ty.outs| == 1 && KindOf(fn.ty.outs[0]) != BoolKind ==> r == Some(PredicateNotBool))
    ensures IsBoolPredicate(fn) && ArgKind(input) != SliceKind ==> r == Some(NotImplementedFor(ArgKind(input)))
    ensures IsBoolPredicate(fn) && input.Typed? && input.ty.Slice? && input.ty.elem != fn.ty.ins[0] ==>
      r == Some(PredicateArgType(fn.ty.ins[0], input.ty.elem))
  {
    if ArgKind(fn) != FuncKind then Some(PredicateNotFunction)
    else if |fn.ty.ins| != 1 then Some(PredicateArgCount)
    else if |fn.ty.outs| != 1 then Some(PredicateResultCount)
    else if KindOf(fn.ty.outs[0]) != BoolKind then Some(PredicateNotBool)
    else if ArgKind(input) == SliceKind then
      if input.ty.elem != fn.ty.ins[0] then Some(PredicateArgType(fn.ty.ins[0], input.ty.elem))
      else None
    else Some(NotImplementedFor(ArgKind(input)))
  }

  /** All: true exactly when the checks pass and every element satisfies
      the predicate; false on every error. The predicate is evaluated on a
      prefix of the slice that ends at the first element failing it
      (calls counts the evaluations), and on nothing when a check fails. */
  method All<T>(input: Arg, xs: seq<T>, fn: Arg, p: T -> bool)
    returns (ok: bool, err: Option<Error>, ghost calls: nat)
    ensures err == AllCheck(input, fn)
    ensures ok <==> err.None? && forall i | 0 <= i < |xs| :: p(xs[i])
    ensures err.Some? ==> calls == 0
    ensures err.None? && ok ==> calls == |xs|
    ensures err.None? && !ok ==>
      0 < calls <= |xs| && !p(xs[calls - 1]) && forall i | 0 <= i < calls - 1 :: p(xs[i])
  {
    ok, calls := false, 0;
    err := AllCheck(input, fn);
    if err.Some? {
      return;
    }
    var i := 0;
    while i < |xs|
      invariant 0 <= i <= |xs|
      invariant calls == i
      invariant forall j | 0 <= j < i :: p(xs[j])
    {
      calls := calls + 1;
      if !p(xs[i]) {
        return false, None, calls;
      }
      i := i + 1;
    }
    ok := true;
  }

  /** Every: All under another name. */
  method Every<T>(input: Arg, xs: seq<T>, fn: Arg, p: T -> bool)
    returns (ok: bool, err: Option<Error>, ghost calls: nat)
    ensures err == AllCheck(input, fn)
    ensures ok <==> err.None? && forall i | 0 <= i < |xs| :: p(xs[i])
    ensures err.Some? ==> calls == 0
    ensures err.None? && ok ==> calls == |xs|
    ensures err.None? && !ok ==>
      0 < calls <= |xs| && !p(xs[calls - 1]) && forall i | 0 <= i < calls - 1 :: p(xs[i])
  {
    ok, err, calls := All(input, xs, fn, p);
  }

  /** The predicate is validated before the input is looked at: a valid
      predicate on a non-slice reports the input's kind. */
  lemma PredicateCheckedBeforeInput(input: Arg, fn: Arg)
    requires fn.Typed? && fn.ty.Func? && |fn.ty.ins| == 1 && |fn.ty.outs| == 1 && fn.ty.outs[0] == Bool
    requires ArgKind(input) != SliceKind
    ensures AllCheck(input, fn) == Some(NotImplementedFor(ArgKind(input)))
  {
  }

  /** The parameter type is compared exactly: a struct of another name is
      refused even though its kind matches. */
  lemma ParameterComparedExactly()
    ensures AllCheck(Typed(Slice(Struct("A"))), Typed(Func([Struct("B")], [Bool])))
         == Some(PredicateArgType(Struct("B"), Struct("A")))
  {
  }
}
