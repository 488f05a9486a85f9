/** The output check shared by Map and Filter (common.go). */
module Common {
  import opened Reflect
  import opened Errors

  /** validateOut neither panics in IsNil (the kind must be nillable) nor in
      Elem (a non-nil output must be a pointer). */
  predicate ValidateOutDefined(out: OutArg) {
    out.NilOut? || (Nillable(KindOf(out.ty)) && (out.isNil || out.ty.Ptr?))
  }

  /** validateOut: the output must be present, non-nil, and its pointee
      settable; the first failing step decides the error. */
  function ValidateOut(out: OutArg): (r: Option<Error>)
    requires ValidateOutDefined(out)
    ensures r.None? <==> out.Out? && !out.isNil && out.canSetElem
    ensures r.None? ==> out.ty.Ptr?
    ensures r == Some(OutputNil) <==> out.NilOut? || out.isNil
    ensures r == Some(CannotSetOut) <==> out.Out? && !out.isNil && !out.canSetElem
  {
    if out.NilOut? then Some(OutputNil)
    else if out.isNil then Some(OutputNil)
    else if !out.canSetElem then Some(CannotSetOut)
    else None
  }

  /** A nil slice passed by value and a nil pointer are reported alike. */
  lemma NilSliceAndNilPointerAlike(elem: GoType, canSet: bool)
    ensures ValidateOut(Out(Slice(elem), true, canSet)) == ValidateOut(Out(Ptr(Slice(elem)), true, canSet))
    ensures ValidateOut(Out(Slice(elem), true, canSet)) == ValidateOut(NilOut) == Some(OutputNil)
  {
  }
}
