/** Any (any.go): does some element satisfy a predicate? */
module AnyOp {
  import opened Reflect
  import opened Errors
  import AllOp

  /** Everything Any checks before its loop; any.go repeats all.go's
      chain step for step. */
  function AnyCheck(input: Arg, fn: Arg): (r: Option<Error>)
    ensures r.None? <==>
      && fn.Typed? && fn.ty.Func? && |fn.ty.ins| == 1 && |fn.ty.outs| == 1 && fn.ty.outs[0] == Bool
      && input.Typed? && input.ty.Slice? && fn.ty.ins[0] == input.ty.elem
    // the first failing step decides the error
    ensures ArgKind(fn) != FuncKind ==> r == Some(PredicateNotFunction)
    ensures fn.Typed? && fn.ty.Func? ==>
      && (|fn.ty.ins| != 1 ==> r == Some(PredicateArgCount))
      && (|fn.ty.ins| == 1 && |fn.ty.outs| != 1 ==> r == Some(PredicateResultCount))
      && (|fn.ty.ins| == 1 && |fn.ty.outs| == 1 && KindOf(fn.ty.outs[0]) != BoolKind ==> r == Some(PredicateNotBool))
    ensures AllOp.IsBoolPredicate(fn) && ArgKind(input) != SliceKind ==> r == Some(NotImplementedFor(ArgKind(input)))
    ensures AllOp.IsBoolPredicate(fn) && input.Typed? && input.ty.Slice? && input.ty.elem != fn.ty.ins[0] ==>
      r == Some(PredicateArgType(fn.ty.ins[0], input.ty.elem))
  {
    AllOp.AllCheck(input, fn)
  }

  /** Any: true exactly when the checks pass and some element satisfies
      the predicate; false on every error. The predicate is evaluated on a
      prefix of the slice that ends at the first element satisfying it
      (calls counts the evaluations), and on nothing when a check fails. */
  method Any<T>(input: Arg, xs: seq<T>, fn: Arg, p: T -> bool)
    returns (ok: bool, err: Option<Error>, ghost calls: nat)
    ensures err == AnyCheck(input, fn)
    ensures ok <==> err.None? && exists i | 0 <= i < |xs| :: p(xs[i])
    ensures err.Some? ==> calls == 0
    ensures err.None? && !ok ==> calls == |xs|
    ensures err.None? && ok ==>
      0 < calls <= |xs| && p(xs[calls - 1]) && forall i | 0 <= i < calls - 1 :: !p(xs[i])
  {
    ok, calls := false, 0;
    err := AnyCheck(input, fn);
    if err.Some? {
      return;
    }
    var i := 0;
    while i < |xs|
      invariant 0 <= i <= |xs|
      invariant calls == i
      invariant forall j | 0 <= j < i :: !p(xs[j])
    {
      calls := calls + 1;
      if p(xs[i]) {
        return true, None, calls;
      }
      i := i + 1;
    }
  }
}
