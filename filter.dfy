/** Filter (filter.go): keep the elements of a slice that satisfy a predicate. */
module FilterOp {
  import opened Reflect
  import opened Errors
  import opened Common

  /** The check chain does not panic: Type() of the input needs a typed
      input, NumOut needs a function, and In(0) needs a parameter. Filter
      never asks whether the predicate is a function or how many
      parameters it takes. */
  predicate FilterCheckDefined(input: Arg, out: OutArg, fn: Arg) {
    && ValidateOutDefined(out)
    && (ValidateOut(out).None? ==>
          && input.Typed?
          && (input.ty == out.ty.elem ==>
                && fn.Typed? && fn.ty.Func?
                && (|fn.ty.outs| == 1 && KindOf(fn.ty.outs[0]) == BoolKind && input.ty.Slice? ==> |fn.ty.ins| >= 1)))
  }

  /** Everything Filter checks before its loop, in source order: the
      output, the input type against the output's pointee type (exactly),
      the predicate's result, the input's kind, then the element kind
      against the predicate's parameter kind. */
  function FilterCheck(input: Arg, out: OutArg, fn: Arg): (r: Option<Error>)
    requires FilterCheckDefined(input, out, fn)
    ensures r.None? <==>
      && out.Out? && out.ty.Ptr? && !out.isNil && out.canSetElem
      && input.Typed? && input.ty.Slice? && input.ty == out.ty.elem
      && fn.Typed? && fn.ty.Func? && |fn.ty.outs| == 1 && fn.ty.outs[0] == Bool
      && |fn.ty.ins| >= 1 && KindOf(input.ty.elem) == KindOf(fn.ty.ins[0])
    // the first failing step decides the error
    ensures ValidateOut(out).Some? ==> r == ValidateOut(out)
    ensures ValidateOut(out).None? && input.ty != out.ty.elem ==> r == Some(FilterTypeMismatch(input.ty, out.ty.elem))
    ensures ValidateOut(out).None? && input.ty == out.ty.elem ==>
      && (|fn.ty.outs| != 1 ==> r == Some(PredicateNotOneBool))
      && (|fn.ty.outs| == 1 && KindOf(fn.ty.outs[0]) != BoolKind ==> r == Some(PredicateReturnKind(KindOf(fn.ty.outs[0]))))
      && (|fn.ty.outs| == 1 && KindOf(fn.ty.outs[0]) == BoolKind ==>
            && (!input.ty.Slice? ==> r == Some(NotImplemented))
            && (input.ty.Slice? && KindOf(input.ty.elem) != KindOf(fn.ty.ins[0]) ==>
                  r == Some(PredicateFirstArg(input.ty.elem, fn.ty.ins[0]))))
  {
    var outErr := ValidateOut(out);
    if outErr.Some? then outErr
    else if input.ty != out.ty.elem then Some(FilterTypeMismatch(input.ty, out.ty.elem))
    else if |fn.ty.outs| != 1 then Some(PredicateNotOneBool)
    else if KindOf(fn.ty.outs[0]) != BoolKind then Some(PredicateReturnKind(KindOf(fn.ty.outs[0])))
    else if ArgKind(input) == SliceKind then
      if KindOf(input.ty.elem) != KindOf(fn.ty.ins[0]) then Some(PredicateFirstArg(input.ty.elem, fn.ty.ins[0]))
      else None
    else Some(NotImplemented)
  }

  /** Filter does not panic: when the slice is not empty, Call needs a
      predicate of exactly one parameter of exactly the element type. */
  predicate FilterDefined(input: Arg, out: OutArg, fn: Arg, nonEmpty: bool) {
    && FilterCheckDefined(input, out, fn)
    && (FilterCheck(input, out, fn).None? && nonEmpty ==>
          |fn.ty.ins| == 1 && fn.ty.ins[0] == input.ty.elem)
  }

  /** The elements of xs that satisfy p, in their order in xs. */
  function Filtered<T>(xs: seq<T>, p: T -> bool): seq<T>
    decreases |xs|
  {
    if xs == [] then []
    else Filtered(xs[..|xs| - 1], p) + (if p(xs[|xs| - 1]) then [xs[|xs| - 1]] else [])
  }

  /** Filter: on success the pointee is replaced by a fresh slice of the
      elements that satisfy the predicate, in input order; on error it is
      untouched. */
  method Filter<T>(input: Arg, xs: seq<T>, out: OutArg, cell: Cell<seq<T>>, fn: Arg, p: T -> bool)
    returns (err: Option<Error>)
    requires FilterDefined(input, out, fn, |xs| > 0)
    modifies cell
    ensures err == FilterCheck(input, out, fn)
    ensures err.Some? ==> cell.value == old(cell.value)
    ensures err.None? ==> cell.value == Filtered(xs, p)
  {
    err := FilterCheck(input, out, fn);
    if err.Some? {
      return;
    }
    var result: seq<T> := [];
    for i := 0 to |xs|
      invariant result == Filtered(xs[..i], p)
    {
      assert xs[..i + 1][..i] == xs[..i];
      if p(xs[i]) {
        result := result + [xs[i]];
      }
    }
    assert xs[..|xs|] == xs;
    cell.value := result;
  }

  /** Filtering distributes over concatenation, so the relative order of
      the kept elements is their order in the input. */
  lemma {:induction false} FilteredAppend<T>(xs: seq<T>, ys: seq<T>, p: T -> bool)
    ensures Filtered(xs + ys, p) == Filtered(xs, p) + Filtered(ys, p)
    decreases |ys|
  {
    if ys != [] {
      var zs := xs + ys;
      assert zs[..|zs| - 1] == xs + ys[..|ys| - 1];
      FilteredAppend(xs, ys[..|ys| - 1], p);
    } else {
      assert xs + ys == xs;
    }
  }

  /** Every kept element satisfies the predicate, and nothing is added. */
  lemma {:induction false} FilteredSatisfies<T>(xs: seq<T>, p: T -> bool)
    ensures |Filtered(xs, p)| <= |xs|
    ensures forall i | 0 <= i < |Filtered(xs, p)| :: p(Filtered(xs, p)[i])
    decreases |xs|
  {
    if xs != [] {
      FilteredSatisfies(xs[..|xs| - 1], p);
    }
  }

  /** Each value is kept as often as it occurs in the input when it
      satisfies the predicate, and never otherwise. */
  lemma {:induction false} FilteredCounts<T>(xs: seq<T>, p: T -> bool)
    ensures forall x :: multiset(Filtered(xs, p))[x] == if p(x) then multiset(xs)[x] else 0
    decreases |xs|
  {
    if xs != [] {
      var init := xs[..|xs| - 1];
      FilteredCounts(init, p);
      assert xs == init + [xs[|xs| - 1]];
    }
  }

  /** The input is kept whole exactly when every element satisfies the
      predicate. */
  lemma {:induction false} FilteredAllKept<T>(xs: seq<T>, p: T -> bool)
    ensures Filtered(xs, p) == xs <==> forall i | 0 <= i < |xs| :: p(xs[i])
    decreases |xs|
  {
    if xs != [] {
      var init := xs[..|xs| - 1];
      FilteredAllKept(init, p);
      FilteredSatisfies(init, p);
      if Filtered(xs, p) == xs {
        FilteredSatisfies(xs, p);
        assert p(xs[|xs| - 1]) by {
          assert xs[|xs| - 1] == Filtered(xs, p)[|xs| - 1];
        }
        assert Filtered(init, p) == init by {
          assert Filtered(xs, p) == Filtered(init, p) + [xs[|xs| - 1]];
          assert xs == init + [xs[|xs| - 1]];
        }
      }
      if forall i | 0 <= i < |xs| :: p(xs[i]) {
        assert forall i | 0 <= i < |init| :: p(init[i]) by {
          forall i | 0 <= i < |init| ensures p(init[i]) { assert init[i] == xs[i]; }
        }
        assert xs == init + [xs[|xs| - 1]];
      }
    }
  }

  /** Filtering a filtered slice again with the same predicate changes
      nothing. */
  lemma FilteredIdempotent<T>(xs: seq<T>, p: T -> bool)
    ensures Filtered(Filtered(xs, p), p) == Filtered(xs, p)
  {
    FilteredSatisfies(xs, p);
    FilteredAllKept(Filtered(xs, p), p);
  }

  /** The input's type is compared with the output's exactly, but the
      element with the predicate's parameter by kind only. */
  lemma TypeExactParameterByKind()
    ensures FilterCheck(Typed(Slice(Int)), Out(Ptr(Slice(String)), false, true), Typed(Func([Int], [Bool])))
         == Some(FilterTypeMismatch(Slice(Int), Slice(String)))
    ensures FilterCheck(Typed(Slice(Struct("A"))), Out(Ptr(Slice(Struct("A"))), false, true), Typed(Func([Struct("B")], [Bool]))).None?
  {
  }

  /** The output is checked first: an invalid output is reported whatever
      the input and the predicate are. */
  lemma OutputCheckedFirst(input: Arg, out: OutArg, fn: Arg)
    requires FilterCheckDefined(input, out, fn) && ValidateOut(out).Some?
    ensures FilterCheck(input, out, fn) == ValidateOut(out)
  {
  }

  /** A non-slice input of the pointee's type with a predicate returning one
      bool is "not implemented". */
  lemma NonSliceNotImplemented(input: Arg, out: OutArg, fn: Arg)
    requires FilterCheckDefined(input, out, fn) && ValidateOut(out).None?
    requires input.ty == out.ty.elem && |fn.ty.outs| == 1 && KindOf(fn.ty.outs[0]) == BoolKind
    requires ArgKind(input) != SliceKind
    ensures FilterCheck(input, out, fn) == Some(NotImplemented)
  {
  }
}
