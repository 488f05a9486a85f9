/**
  The errors the operators return, one constructor per distinct message,
  and their rendering as the text Go's fmt.Errorf produces.
 */
module Errors {
  import opened Reflect

  datatype Option<+T> = None | Some(value: T)

  datatype Error =
      // common.go and reduce.go
    | OutputNil                         // "output is nil. Pass a reference to set output"
    | CannotSetOut                      // "cannot set out. Pass a reference to set output"
      // map.go
    | MapperNotFunction
    | MapperArgCount
    | MapperResultCount
    | MapperArgKind
      // map.go, reduce.go, filter.go, find.go
    | NotImplemented
      // reduce.go
    | ReducerNotFunction(kind: Kind)
    | ReducerArgCount(numIn: nat)
    | ReducerResultCount(numOut: nat)
    | ReducerAccKind(argKind: Kind, outKind: Kind)
    | ReducerElemKind(argKind: Kind, elemKind: Kind)
    | ReducerReturnKind(retKind: Kind, outKind: Kind)
      // filter.go and find.go
    | FilterTypeMismatch(input: GoType, output: GoType)
    | FindTypeMismatch(elem: GoType, output: GoType)
    | PredicateNotOneBool
    | PredicateReturnKind(kind: Kind)
    | PredicateFirstArg(expected: GoType, actual: GoType)
    | ElementNotFound
      // all.go and any.go
    | PredicateNotFunction
    | PredicateArgCount
    | PredicateResultCount
    | PredicateNotBool
    | PredicateArgType(arg: GoType, elem: GoType)
      // all.go, any.go, groupBy.go
    | NotImplementedFor(kind: Kind)
      // groupBy.go
    | GroupNotFunction(kind: Kind)
    | GroupArgCount
    | GroupResultCount
    | OutputNotMap
    | GroupKeyKind
    | ValueNotSlice
    | ValueElemMismatch
    | GroupArgType(arg: GoType, elem: GoType)

  /** Kind.String(). */
  function KindName(k: Kind): string {
    match k
    case InvalidKind => "invalid"
    case BoolKind => "bool"
    case IntKind => "int"
    case StringKind => "string"
    case StructKind => "struct"
    case SliceKind => "slice"
    case MapKind => "map"
    case PtrKind => "ptr"
    case FuncKind => "func"
  }

  /** Distinct kinds print as distinct names, so a message names the kind
      it was given. */
  lemma KindNamesDistinct(a: Kind, b: Kind)
    requires KindName(a) == KindName(b)
    ensures a == b
  {
  }

  /** Type.String(); a struct's name is taken to be already qualified by
      its package. */
  function TypeName(t: GoType): string
    decreases t, 1
  {
    match t
    case Bool => "bool"
    case Int => "int"
    case String => "string"
    case Struct(n) => n
    case Slice(e) => "[]" + TypeName(e)
    case Map(k, v) => "map[" + TypeName(k) + "]" + TypeName(v)
    case Ptr(e) => "*" + TypeName(e)
    case Func(ins, outs) =>
      "func(" + TypeList(t, ins) + ")"
      + (if |outs| == 0 then ""
         else if |outs| == 1 then " " + TypeName(outs[0])
         else " (" + TypeList(t, outs) + ")")
  }

  /** The names of ts separated by ", "; every member of ts is a component
      of the function type parent. */
  function TypeList(parent: GoType, ts: seq<GoType>): string
    requires forall i | 0 <= i < |ts| :: ts[i] < parent
    decreases parent, 0, |ts|
  {
    if ts == [] then ""
    else if |ts| == 1 then TypeName(ts[0])
    else TypeName(ts[0]) + ", " + TypeList(parent, ts[1..])
  }

  /** The number a string of decimal digits denotes. */
  function DigitsValue(s: string): nat
    requires forall i | 0 <= i < |s| :: '0' <= s[i] <= '9'
    decreases |s|
  {
    if s == [] then 0 else DigitsValue(s[..|s| - 1]) * 10 + (s[|s| - 1] as int - '0' as int)
  }

  /** The decimal digits of n, as %d prints them: they denote n, and only
      zero itself starts with the digit 0. */
  function DecimalString(n: nat): (s: string)
    ensures |s| > 0
    ensures forall i | 0 <= i < |s| :: '0' <= s[i] <= '9'
    ensures DigitsValue(s) == n
    ensures s[0] == '0' ==> n == 0 && s == "0"
  {
    var digit := ('0' as int + n % 10) as char;
    if n < 10 then [digit]
    else
      var s := DecimalString(n / 10) + [digit];
      assert s[..|s| - 1] == DecimalString(n / 10);
      s
  }

  /** The text of the error, as the operators' fmt.Errorf calls format it. */
  function Message(e: Error): string {
    match e
    case OutputNil => "output is nil. Pass a reference to set output"
    case CannotSetOut => "cannot set out. Pass a reference to set output"
    case MapperNotFunction => "mapperFn has to be a function"
    case MapperArgCount => "mapper function has to take only one argument"
    case MapperResultCount => "mapper function should return only one return value"
    case MapperArgKind => "mapper function's first argument has to be the type of element of input slice"
    case NotImplemented => "not implemented"
    case ReducerNotFunction(k) => "reduceFn has to be a (func) and not (" + KindName(k) + ")"
    case ReducerArgCount(n) => "reduceFn has to take exactly 2 arguments and not " + DecimalString(n) + " argument(s)"
    case ReducerResultCount(n) => "reduceFn should have only one return value and not " + DecimalString(n) + " return type(s)"
    case ReducerAccKind(a, o) =>
      "reduceFn's first argument's type(" + KindName(a) + ") has to be the type of out(" + KindName(o) + ")"
    case ReducerElemKind(a, el) =>
      "reduceFn's second argument's type(" + KindName(a) + ") has to be the type of element of input slice(" + KindName(el) + ")"
    case ReducerReturnKind(r, o) =>
      "reduceFn's return type(" + KindName(r) + ") has to be the type of out(" + KindName(o) + ")"
    case FilterTypeMismatch(i, o) =>
      "input(" + TypeName(i) + ") and output(" + TypeName(o) + ") should be of the same Type"
    case FindTypeMismatch(el, o) =>
      "input slice (" + TypeName(el) + ") and output (" + TypeName(o) + ") should be of the same Type"
    case PredicateNotOneBool => "predicate function should return only one return value - a boolean"
    case PredicateReturnKind(k) => "predicate function should return only a (boolean) and not a (" + KindName(k) + ")"
    case PredicateFirstArg(x, a) =>
      "predicate function's first argument has to be the type (" + TypeName(x) + ") instead of (" + TypeName(a) + ")"
    case ElementNotFound => "element not found"
    case PredicateNotFunction => "predicateFn has to be a function"
    case PredicateArgCount => "predicate function has to take only one argument"
    case PredicateResultCount => "predicate function should return only one return value"
    case PredicateNotBool => "predicate function should return a boolean value"
    case PredicateArgType(a, el) =>
      "predicate function's argument (" + TypeName(a) + ") has to be (" + TypeName(el) + ")"
    case NotImplementedFor(k) => "not implemented for (" + KindName(k) + ")"
    case GroupNotFunction(k) => "groupFn (" + KindName(k) + ") has to be a function"
    case GroupArgCount => "group function has to take only one argument"
    case GroupResultCount => "group function should return only one return value"
    case OutputNotMap => "output has to be a map"
    case GroupKeyKind => "group function should return the type of key's output"
    case ValueNotSlice => "The type of value's output should be a slice"
    case ValueElemMismatch => "The type of element of value's slice has to be a same the type of input"
    case GroupArgType(a, el) =>
      "group function's argument (" + TypeName(a) + ") has to be (" + TypeName(el) + ")"
  }
}
