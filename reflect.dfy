/**
  The part of Go's runtime reflection that the collection operators consult:
  type descriptors (reflect.Type), their kinds (reflect.Kind), what
  reflect.ValueOf reveals about an argument, and the variable an output
  pointer refers to.
 */
module Reflect {

  /** reflect.Kind, restricted to the kinds the operators distinguish.
      InvalidKind is the kind of the zero reflect.Value (an untyped nil). */
  datatype Kind =
    | InvalidKind
    | BoolKind
    | IntKind
    | StringKind
    | StructKind
    | SliceKind
    | MapKind
    | PtrKind
    | FuncKind

  /** reflect.Type. Struct types are compared by name; every other type
      constructor is structural. */
  datatype GoType =
    | Bool
    | Int
    | String
    | Struct(name: string)
    | Slice(elem: GoType)
    | Map(key: GoType, value: GoType)
    | Ptr(elem: GoType)
    | Func(ins: seq<GoType>, outs: seq<GoType>)

  /** Type.Kind(): a real type never has the invalid kind. */
  function KindOf(t: GoType): (k: Kind)
    ensures k != InvalidKind
    ensures k == SliceKind <==> t.Slice?
    ensures k == MapKind <==> t.Map?
    ensures k == PtrKind <==> t.Ptr?
    ensures k == FuncKind <==> t.Func?
  {
    match t
    case Bool => BoolKind
    case Int => IntKind
    case String => StringKind
    case Struct(_) => StructKind
    case Slice(_) => SliceKind
    case Map(_, _) => MapKind
    case Ptr(_) => PtrKind
    case Func(_, _) => FuncKind
  }

  /** The kinds whose values IsNil accepts (it panics on the others). */
  predicate Nillable(k: Kind) {
    k == SliceKind || k == MapKind || k == PtrKind || k == FuncKind
  }

  /** The types on which Type.Elem() does not panic. */
  predicate HasElem(t: GoType) {
    t.Slice? || t.Map? || t.Ptr?
  }

  /** Type.Elem(): the element type of a slice, the value type of a map,
      the pointee type of a pointer. */
  function Elem(t: GoType): GoType
    requires HasElem(t)
  {
    match t
    case Slice(e) => e
    case Map(_, v) => v
    case Ptr(e) => e
  }

  /** reflect.ValueOf(x) for an input or a function argument: NilArg when x
      is the untyped nil, otherwise the dynamic type of x. */
  datatype Arg = NilArg | Typed(ty: GoType)

  /** Value.Kind(). */
  function ArgKind(a: Arg): (k: Kind)
    ensures k == InvalidKind <==> a.NilArg?
  {
    if a.NilArg? then InvalidKind else KindOf(a.ty)
  }

  /** reflect.ValueOf(out) for the output argument: NilOut when out is the
      untyped nil; otherwise its dynamic type, what IsNil() answers (for the
      nillable kinds) and what Elem().CanSet() answers (for a non-nil
      pointer). */
  datatype OutArg = NilOut | Out(ty: GoType, isNil: bool, canSetElem: bool)

  /** The variable a non-nil output pointer refers to: output.Elem().Set
      overwrites its value. */
  class Cell<V> {
    var value: V

    constructor (v: V)
      ensures value == v
    {
      value := v;
    }
  }
}
