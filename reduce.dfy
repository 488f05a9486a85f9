/** Reduce (reduce.go): a left fold of a slice into the output variable. */
module ReduceOp {
  import opened Reflect
  import opened Errors

  /** isReferenceType: Reduce's own output check accepts any pointer,
      nil or not, and does not ask whether the pointee is settable. */
  function IsReferenceType(out: OutArg): (r: Option<Error>)
    ensures r.None? <==> out.Out? && out.ty.Ptr?
    ensures r == Some(OutputNil) <==> out.NilOut?
    ensures r == Some(CannotSetOut) <==> out.Out? && !out.ty.Ptr?
  {
    if out.NilOut? then Some(OutputNil)
    else if KindOf(out.ty) != PtrKind then Some(CannotSetOut)
    else None
  }

  /** validateReducer: a function of exactly two parameters and one result;
      each message carries the offending kind or count. The reducer must
      not be the untyped nil (Type() panics on it). */
  function ValidateReducer(fn: Arg): (r: Option<Error>)
    requires fn.Typed?
    ensures r.None? <==> fn.ty.Func? && |fn.ty.ins| == 2 && |fn.ty.outs| == 1
    ensures !fn.ty.Func? ==> r == Some(ReducerNotFunction(KindOf(fn.ty)))
    ensures fn.ty.Func? && |fn.ty.ins| != 2 ==> r == Some(ReducerArgCount(|fn.ty.ins|))
    ensures fn.ty.Func? && |fn.ty.ins| == 2 && |fn.ty.outs| != 1 ==> r == Some(ReducerResultCount(|fn.ty.outs|))
  {
    if KindOf(fn.ty) != FuncKind then Some(ReducerNotFunction(KindOf(fn.ty)))
    else if |fn.ty.ins| != 2 then Some(ReducerArgCount(|fn.ty.ins|))
    else if |fn.ty.outs| != 1 then Some(ReducerResultCount(|fn.ty.outs|))
    else None
  }

  /** output.Elem().Kind(): the Elem of a nil pointer is the zero Value. */
  function OutputKind(out: OutArg): (k: Kind)
    requires out.Out? && out.ty.Ptr?
    ensures k == InvalidKind <==> out.isNil
    ensures !out.isNil ==> k == KindOf(out.ty.elem)
  {
    if out.isNil then InvalidKind else KindOf(out.ty.elem)
  }

  /** The check chain does not panic: once the output is a pointer, the
      reducer is not the untyped nil. */
  predicate ReduceCheckDefined(out: OutArg, fn: Arg) {
    IsReferenceType(out).None? ==> fn.Typed?
  }

  /** Everything Reduce checks before its loop, in source order: the
      output, the reducer, the input's kind, then three kind comparisons. */
  function ReduceCheck(input: Arg, out: OutArg, fn: Arg): (r: Option<Error>)
    requires ReduceCheckDefined(out, fn)
    ensures r.None? <==>
      && out.Out? && out.ty.Ptr? && !out.isNil
      && fn.Typed? && fn.ty.Func? && |fn.ty.ins| == 2 && |fn.ty.outs| == 1
      && input.Typed? && input.ty.Slice?
      && KindOf(fn.ty.ins[0]) == KindOf(out.ty.elem) == KindOf(fn.ty.outs[0])
      && KindOf(fn.ty.ins[1]) == KindOf(input.ty.elem)
    // the first failing step decides the error
    ensures IsReferenceType(out).Some? ==> r == IsReferenceType(out)
    ensures IsReferenceType(out).None? && ValidateReducer(fn).Some? ==> r == ValidateReducer(fn)
    ensures IsReferenceType(out).None? && ValidateReducer(fn).None? && ArgKind(input) != SliceKind ==>
      r == Some(NotImplemented)
    ensures IsReferenceType(out).None? && ValidateReducer(fn).None? && ArgKind(input) == SliceKind ==>
      var (acc, elem, ret) := (KindOf(fn.ty.ins[0]), KindOf(fn.ty.ins[1]), KindOf(fn.ty.outs[0]));
      && (OutputKind(out) != acc ==> r == Some(ReducerAccKind(acc, OutputKind(out))))
      && (OutputKind(out) == acc && KindOf(input.ty.elem) != elem ==>
            r == Some(ReducerElemKind(elem, KindOf(input.ty.elem))))
      && (OutputKind(out) == acc && KindOf(input.ty.elem) == elem && OutputKind(out) != ret ==>
            r == Some(ReducerReturnKind(ret, OutputKind(out))))
  {
    var outErr := IsReferenceType(out);
    if outErr.Some? then outErr
    else
      var fnErr := ValidateReducer(fn);
      if fnErr.Some? then fnErr
      else if ArgKind(input) == SliceKind then
        var outKind := OutputKind(out);
        var t := fn.ty;
        if outKind != KindOf(t.ins[0]) then Some(ReducerAccKind(KindOf(t.ins[0]), outKind))
        else if KindOf(input.ty.elem) != KindOf(t.ins[1]) then Some(ReducerElemKind(KindOf(t.ins[1]), KindOf(input.ty.elem)))
        else if outKind != KindOf(t.outs[0]) then Some(ReducerReturnKind(KindOf(t.outs[0]), outKind))
        else None
      else Some(NotImplemented)
  }

  /** Reduce does not panic: Set needs a settable pointee and, when the
      slice is not empty, Call needs the accumulator, the elements and the
      reducer's result to have exactly the reducer's parameter types (the
      check compared kinds only). */
  predicate ReduceDefined(input: Arg, out: OutArg, fn: Arg, nonEmpty: bool) {
    && ReduceCheckDefined(out, fn)
    && (ReduceCheck(input, out, fn).None? ==>
          && out.canSetElem
          && (nonEmpty ==>
                && out.ty.elem == fn.ty.ins[0]
                && input.ty.elem == fn.ty.ins[1]
                && fn.ty.outs[0] == out.ty.elem))
  }

  /** The left fold f(...f(f(acc, xs[0]), xs[1])..., xs[n-1]). */
  function FoldLeft<A, T>(f: (A, T) -> A, acc: A, xs: seq<T>): A
    decreases |xs|
  {
    if xs == [] then acc else f(FoldLeft(f, acc, xs[..|xs| - 1]), xs[|xs| - 1])
  }

  /** Reduce: on success the pointee becomes the left fold of the slice
      starting from the pointee's initial value; on error it is untouched. */
  method Reduce<A, T>(input: Arg, xs: seq<T>, out: OutArg, cell: Cell<A>, fn: Arg, f: (A, T) -> A)
    returns (err: Option<Error>)
    requires ReduceDefined(input, out, fn, |xs| > 0)
    modifies cell
    ensures err == ReduceCheck(input, out, fn)
    ensures err.Some? ==> cell.value == old(cell.value)
    ensures err.None? ==> cell.value == FoldLeft(f, old(cell.value), xs)
  {
    err := ReduceCheck(input, out, fn);
    if err.Some? {
      return;
    }
    var result := cell.value;
    for i := 0 to |xs|
      invariant result == FoldLeft(f, cell.value, xs[..i])
    {
      assert xs[..i + 1][..i] == xs[..i];
      result := f(result, xs[i]);
    }
    assert xs[..|xs|] == xs;
    cell.value := result;
  }

  /** An empty slice leaves the accumulator as it was. */
  lemma FoldLeftEmpty<A, T>(f: (A, T) -> A, acc: A)
    ensures FoldLeft(f, acc, []) == acc
  {
  }

  /** Folding a concatenation folds the second part from the first part's
      result. */
  lemma {:induction false} FoldLeftAppend<A, T>(f: (A, T) -> A, acc: A, xs: seq<T>, ys: seq<T>)
    ensures FoldLeft(f, acc, xs + ys) == FoldLeft(f, FoldLeft(f, acc, xs), ys)
    decreases |ys|
  {
    if ys == [] {
      assert xs + ys == xs;
    } else {
      var zs := xs + ys;
      assert zs[..|zs| - 1] == xs + ys[..|ys| - 1];
      FoldLeftAppend(f, acc, xs, ys[..|ys| - 1]);
    }
  }

  /** Reduction runs from the left: the first element is combined with the
      initial accumulator first. */
  lemma FoldLeftFirst<A, T>(f: (A, T) -> A, acc: A, x: T, xs: seq<T>)
    ensures FoldLeft(f, acc, [x] + xs) == FoldLeft(f, f(acc, x), xs)
  {
    FoldLeftAppend(f, acc, [x], xs);
    assert [x][..0] == [];
  }

  /** The reducer is called with the accumulator's exact kind first: a nil
      pointer output (whose pointee has the invalid kind) is reported as a
      mismatch of the first parameter. */
  lemma NilPointerReportedAsKindMismatch(elem: GoType, canSet: bool)
    ensures ReduceCheck(Typed(Slice(Int)), Out(Ptr(elem), true, canSet), Typed(Func([Int, Int], [Int])))
         == Some(ReducerAccKind(IntKind, InvalidKind))
  {
  }

  /** The output is checked before the reducer, and the reducer before the
      input. */
  lemma OutputCheckedFirst(input: Arg, out: OutArg, fn: Arg)
    requires IsReferenceType(out).Some?
    ensures ReduceCheck(input, out, fn) == IsReferenceType(out)
  {
  }

  lemma ReducerCheckedBeforeInput(input: Arg, out: OutArg, fn: Arg)
    requires IsReferenceType(out).None? && fn.Typed? && ValidateReducer(fn).Some?
    ensures ReduceCheck(input, out, fn) == ValidateReducer(fn)
  {
  }

  /** With a pointer output and a valid reducer, any non-slice input is
      "not implemented". */
  lemma NonSliceNotImplemented(input: Arg, out: OutArg, fn: Arg)
    requires out.Out? && out.ty.Ptr? && fn.Typed? && ValidateReducer(fn).None?
    requires ArgKind(input) != SliceKind
    ensures ReduceCheck(input, out, fn) == Some(NotImplemented)
  {
  }
}
