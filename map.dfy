/** Map (map.go): apply a mapper to every element of a slice. */
module MapOp {
  import opened Reflect
  import opened Errors
  import opened Common

  /** validateMapperFunction: a function of exactly one parameter and
      exactly one result. */
  function ValidateMapperFunction(fn: Arg): (r: Option<Error>)
    ensures r.None? <==> fn.Typed? && fn.ty.Func? && |fn.ty.ins| == 1 && |fn.ty.outs| == 1
    ensures ArgKind(fn) != FuncKind ==> r == Some(MapperNotFunction)
    ensures fn.Typed? && fn.ty.Func? && |fn.ty.ins| != 1 ==> r == Some(MapperArgCount)
    ensures fn.Typed? && fn.ty.Func? && |fn.ty.ins| == 1 && |fn.ty.outs| != 1 ==> r == Some(MapperResultCount)
  {
    if ArgKind(fn) != FuncKind then Some(MapperNotFunction)
    else if |fn.ty.ins| != 1 then Some(MapperArgCount)
    else if |fn.ty.outs| != 1 then Some(MapperResultCount)
    else None
  }

  /** Everything Map checks before its loop, in source order: the output,
      the mapper, the input's kind, then the element kind against the
      mapper's parameter kind. None means the loop runs. */
  function MapCheck(input: Arg, out: OutArg, fn: Arg): (r: Option<Error>)
    requires ValidateOutDefined(out)
    ensures r.None? <==>
      && out.Out? && out.ty.Ptr? && !out.isNil && out.canSetElem
      && fn.Typed? && fn.ty.Func? && |fn.ty.ins| == 1 && |fn.ty.outs| == 1
      && input.Typed? && input.ty.Slice?
      && KindOf(input.ty.elem) == KindOf(fn.ty.ins[0])
  {
    var outErr := ValidateOut(out);
    if outErr.Some? then outErr
    else
      var fnErr := ValidateMapperFunction(fn);
      if fnErr.Some? then fnErr
      else if ArgKind(input) == SliceKind then
        if KindOf(input.ty.elem) != KindOf(fn.ty.ins[0]) then Some(MapperArgKind) else None
      else Some(NotImplemented)
  }

  /** Map does not panic: MakeSlice needs a slice pointee, and when the
      slice is not empty, Call needs the element type to be the mapper's
      parameter type and Append needs the mapper's result type to be the
      output's element type (the check compared kinds only). */
  predicate MapDefined(input: Arg, out: OutArg, fn: Arg, nonEmpty: bool) {
    && ValidateOutDefined(out)
    && (MapCheck(input, out, fn).None? ==>
          && Elem(out.ty).Slice?
          && (nonEmpty ==> input.ty.elem == fn.ty.ins[0] && fn.ty.outs[0] == Elem(out.ty).elem))
  }

  /** Map: on success the pointee is replaced by a fresh slice holding the
      mapper's result for each element, in input order; on error it is
      left untouched. */
  method Map<T, U>(input: Arg, xs: seq<T>, out: OutArg, cell: Cell<seq<U>>, fn: Arg, f: T -> U)
    returns (err: Option<Error>)
    requires MapDefined(input, out, fn, |xs| > 0)
    modifies cell
    ensures err == MapCheck(input, out, fn)
    ensures err.Some? ==> cell.value == old(cell.value)
    ensures err.None? ==> |cell.value| == |xs| && forall i | 0 <= i < |xs| :: cell.value[i] == f(xs[i])
  {
    err := MapCheck(input, out, fn);
    if err.Some? {
      return;
    }
    var result: seq<U> := [];
    for i := 0 to |xs|
      invariant |result| == i
      invariant forall j | 0 <= j < i :: result[j] == f(xs[j])
    {
      result := result + [f(xs[i])];
    }
    cell.value := result;
  }

  /** The output is validated first: an invalid output is reported whatever
      the mapper is. */
  lemma OutputCheckedBeforeMapper(input: Arg, out: OutArg, fn: Arg)
    requires ValidateOutDefined(out) && ValidateOut(out).Some?
    ensures MapCheck(input, out, fn) == ValidateOut(out)
  {
  }

  /** With a valid output, an invalid mapper is reported before anything
      about the input. */
  lemma MapperCheckedBeforeInput(input: Arg, out: OutArg, fn: Arg)
    requires ValidateOutDefined(out) && ValidateOut(out).None?
    requires ValidateMapperFunction(fn).Some?
    ensures MapCheck(input, out, fn) == ValidateMapperFunction(fn)
  {
  }

  /** A valid call on anything other than a slice is "not implemented". */
  lemma NonSliceNotImplemented(input: Arg, out: OutArg, fn: Arg)
    requires ValidateOutDefined(out) && ValidateOut(out).None?
    requires ValidateMapperFunction(fn).None?
    requires ArgKind(input) != SliceKind
    ensures MapCheck(input, out, fn) == Some(NotImplemented)
  {
  }

  /** The element and the mapper's parameter are compared by kind only:
      two different struct types pass. */
  lemma ParameterComparedByKind()
    ensures MapCheck(Typed(Slice(Struct("A"))), Out(Ptr(Slice(Int)), false, true), Typed(Func([Struct("B")], [Int]))).None?
    ensures MapCheck(Typed(Slice(Int)), Out(Ptr(Slice(Int)), false, true), Typed(Func([String], [Int]))) == Some(MapperArgKind)
  {
  }
}
