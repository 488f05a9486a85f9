/** Find (find.go): the first element of a slice that satisfies a predicate. */
module FindOp {
  import opened Reflect
  import opened Errors

  /** The check chain does not panic: Find calls input.Type().Elem() and
      output.Elem().Type() without checking either (the input must have an
      element type, the output must be a non-nil pointer), and NumOut and
      In(0) without checking that the predicate is a function with a
      parameter. */
  predicate FindCheckDefined(input: Arg, out: OutArg, fn: Arg) {
    && input.Typed? && HasElem(input.ty)
    && out.Out? && out.ty.Ptr? && !out.isNil
    && (Elem(input.ty) == out.ty.elem ==>
          && fn.Typed? && fn.ty.Func?
          && (|fn.ty.outs| == 1 && KindOf(fn.ty.outs[0]) == BoolKind && input.ty.Slice? ==> |fn.ty.ins| >= 1))
  }

  /** Everything Find checks before its loop, in source order: the input's
      element type against the output's pointee type (exactly), the
      predicate's result, the input's kind, then the element kind against
      the predicate's parameter kind. */
  function FindCheck(input: Arg, out: OutArg, fn: Arg): (r: Option<Error>)
    requires FindCheckDefined(input, out, fn)
    ensures r.None? <==>
      && input.ty.Slice? && input.ty.elem == out.ty.elem
      && fn.ty.Func? && |fn.ty.outs| == 1 && fn.ty.outs[0] == Bool
      && |fn.ty.ins| >= 1 && KindOf(input.ty.elem) == KindOf(fn.ty.ins[0])
    // the first failing step decides the error
    ensures Elem(input.ty) != out.ty.elem ==> r == Some(FindTypeMismatch(Elem(input.ty), out.ty.elem))
    ensures Elem(input.ty) == out.ty.elem ==>
      && (|fn.ty.outs| != 1 ==> r == Some(PredicateNotOneBool))
      && (|fn.ty.outs| == 1 && KindOf(fn.ty.outs[0]) != BoolKind ==> r == Some(PredicateReturnKind(KindOf(fn.ty.outs[0]))))
      && (|fn.ty.outs| == 1 && KindOf(fn.ty.outs[0]) == BoolKind ==>
            && (!input.ty.Slice? ==> r == Some(NotImplemented))
            && (input.ty.Slice? && KindOf(input.ty.elem) != KindOf(fn.ty.ins[0]) ==>
                  r == Some(PredicateFirstArg(input.ty.elem, fn.ty.ins[0]))))
  {
    var elem := Elem(input.ty);
    if elem != out.ty.elem then Some(FindTypeMismatch(elem, out.ty.elem))
    else if |fn.ty.outs| != 1 then Some(PredicateNotOneBool)
    else if KindOf(fn.ty.outs[0]) != BoolKind then Some(PredicateReturnKind(KindOf(fn.ty.outs[0])))
    else if ArgKind(input) == SliceKind then
      if KindOf(elem) != KindOf(fn.ty.ins[0]) then Some(PredicateFirstArg(elem, fn.ty.ins[0]))
      else None
    else Some(NotImplemented)
  }

  /** Find does not panic: when the slice is not empty, Call needs a
      predicate of exactly one parameter of exactly the element type, and
      Set needs a settable pointee. */
  predicate FindDefined(input: Arg, out: OutArg, fn: Arg, nonEmpty: bool) {
    && FindCheckDefined(input, out, fn)
    && (FindCheck(input, out, fn).None? && nonEmpty ==>
          |fn.ty.ins| == 1 && fn.ty.ins[0] == input.ty.elem && out.canSetElem)
  }

  /** Find: on success the pointee becomes the first element that
      satisfies the predicate, and the predicate was evaluated on that
      element and the ones before it only (calls counts the evaluations);
      with no match the result is "element not found". On every error the
      pointee is untouched. */
  method Find<T>(input: Arg, xs: seq<T>, out: OutArg, cell: Cell<T>, fn: Arg, p: T -> bool)
    returns (err: Option<Error>, ghost calls: nat)
    requires FindDefined(input, out, fn, |xs| > 0)
    modifies cell
    ensures FindCheck(input, out, fn).Some? ==>
      err == FindCheck(input, out, fn) && calls == 0 && cell.value == old(cell.value)
    ensures FindCheck(input, out, fn).None? ==>
      (err.None? <==> exists i | 0 <= i < |xs| :: p(xs[i]))
    ensures FindCheck(input, out, fn).None? && err.None? ==>
      && 0 < calls <= |xs| && p(xs[calls - 1]) && cell.value == xs[calls - 1]
      && forall j | 0 <= j < calls - 1 :: !p(xs[j])
    ensures FindCheck(input, out, fn).None? && err.Some? ==>
      err == Some(ElementNotFound) && calls == |xs| && cell.value == old(cell.value)
  {
    calls := 0;
    err := FindCheck(input, out, fn);
    if err.Some? {
      return;
    }
    var i := 0;
    while i < |xs|
      invariant 0 <= i <= |xs|
      invariant calls == i
      invariant forall j | 0 <= j < i :: !p(xs[j])
    {
      calls := calls + 1;
      if p(xs[i]) {
        cell.value := xs[i];
        return None, calls;
      }
      i := i + 1;
    }
    err := Some(ElementNotFound);
  }

  /** Find checks the output's type before anything about the predicate. */
  lemma OutputTypeCheckedFirst(input: Arg, out: OutArg, fn: Arg)
    requires FindCheckDefined(input, out, fn) && Elem(input.ty) != out.ty.elem
    ensures FindCheck(input, out, fn) == Some(FindTypeMismatch(Elem(input.ty), out.ty.elem))
  {
  }

  /** A map whose value type is the output's type passes the type checks
      and is then "not implemented". */
  lemma MapInputNotImplemented(k: GoType, v: GoType)
    ensures FindCheck(Typed(Map(k, v)), Out(Ptr(v), false, true), Typed(Func([v], [Bool]))) == Some(NotImplemented)
  {
  }
}
