# godash collection operators in Dafny

godash is a small Go library of lodash-style operators that work on any slice through runtime reflection:

- `Map` applies a mapper to every element.
- `Filter` keeps the elements a predicate accepts.
- `Find` stores the first element a predicate accepts.
- `Reduce` folds the slice from the left into an accumulator.
- `All` (and its alias `Every`) and `Any` evaluate a predicate with early exit.
- `GroupBy` builds a map from keys to slices of elements.

Each operator validates its arguments through `reflect` before it loops. On the first failing validation it returns an `error` and leaves the output untouched.

This project models those operators and what they rely on:

- the shared output check `validateOut`;
- `validateMapperFunction`, `validateReducer` and `isReferenceType`.

It then proves what each operator computes and how the checks behave.

How the model is built:

- **Reflection.** It becomes data (module `Reflect`):
  - a `GoType` describes a Go type;
  - `KindOf` gives its reflect kind;
  - an `Arg` is what `reflect.ValueOf` reveals about an argument (the untyped nil or a typed value);
  - an `OutArg` also records what `IsNil()` and `Elem().CanSet()` answer for the output argument;
  - the variable an output pointer refers to is a `Cell` object, which the operators overwrite in place, as `output.Elem().Set` does.
- **Errors.** Each `fmt.Errorf` message is one constructor of `Errors.Error`. `Errors.Message` renders it as the Go source formats it (`%s` of a kind or a type, `%d` of a count).
- **Validation chain.** For every operator, a function `XCheck` gives the chain in source order: the first failing step decides the error, and `None` means the loop runs. Comparisons by kind (`Kind()`) and comparisons of exact types (`Type()`) are kept apart, exactly as each file does them.
- **Panics.** Go panics on some inputs the checks let through, for example:
  - a nil pointer passed to `Find` or `GroupBy`;
  - a reducer whose parameter types have the right kinds but the wrong types;
  - a non-slice pointee passed to `Map`.

  These inputs are excluded by the `XDefined` precondition predicates. Everything the code answers with an `error` is modelled as an error.
- **Loops.** Each operator is an imperative method whose loop is proved against a specification function:
  - `Filtered` for `Filter`;
  - `FoldLeft` for `Reduce`;
  - `Grouped` for `GroupBy`;
  - pointwise equations for `Map`;
  - quantified statements for `Find`, `All` and `Any`.

  The properties the library promises are lemmas about those functions. For `Find`, `All` and `Any`, a ghost out-parameter `calls` counts the predicate evaluations, so the early exit is part of each contract.
- **Scenarios.** Module `Scenarios` restates cases of the repository's tests against the model: the reported error and its text, and the results of successful runs.

Where the repository's tests and its code disagree, the model follows the code:

- `map_test.go:65-71` expects an error for an `*int` output. The code reaches `reflect.MakeSlice` on a non-slice type and panics, so `MapOp.MapDefined` excludes that input.
- `map_test.go:114-135` expects messages that `map.go` never produces. `map.go` compares only the kinds of the element and the parameter, with one fixed message, and does not check the result type at all (`MapOp.ParameterComparedByKind`).
- `map_test.go:144-300` exercises `Map` over maps, mostly with two-parameter mappers such as `func(key string, value int) int`. `map.go` validates the mapper before it looks at the input, so those calls get "mapper function has to take only one argument" (`MapOp.MapperCheckedBeforeInput`). Only a one-parameter mapper over a map reaches "not implemented" (`MapOp.NonSliceNotImplemented`). `Scenarios.MapOverMaps` shows both cases.

## Model

| member | source | states |
|---|---|---|
| Errors.Message | reduce.go:41-84 | the text of each error, as the fmt.Errorf calls of all eight source files format it (common.go:12-20, map.go:23-53, reduce.go:41-84, filter.go:30-67, find.go:27-60, all.go:24-59, any.go:24-59, groupBy.go:31-98), with each kind, type and count in its place |
| Errors.KindName | reduce.go:67 | Kind.String() of each modelled kind |
| Errors.KindNamesDistinct | reduce.go:41-47 | distinct kinds print as distinct names |
| Errors.TypeName | filter.go:30 | Type.String() of the modelled types: []T, map[K]V, *T and func(...) with its results |
| Errors.DecimalString | reduce.go:70-73 | the %d rendering of a count: the digits denote the count, and only zero starts with 0 |
| Common.ValidateOut | common.go:9-24 | passes exactly for a present, non-nil output with a settable pointee, and then the output is a pointer; "output is nil" exactly for the untyped nil or a nil value; "cannot set out" exactly for a non-nil output whose pointee is not settable |
| Common.ValidateOutDefined | common.go:15-19 | the outputs the model admits: IsNil is asked only of a nillable kind, and Elem only of a pointer |
| Common.NilSliceAndNilPointerAlike | common.go:11-17 | a nil slice passed by value, a nil pointer and the untyped nil all give "output is nil" |
| MapOp.ValidateMapperFunction | map.go:42-57 | passes exactly for a function of one parameter and one result; a non-function is "mapperFn has to be a function", then a parameter count other than one is the argument error, then a result count other than one is the return-value error |
| MapOp.MapCheck | map.go:9-24 | passes exactly for a settable non-nil pointer output, a one-in one-out mapper, a slice input and equal kinds of element and parameter |
| MapOp.MapDefined | map.go:26-34 | the inputs the model admits to the loop: a slice pointee for MakeSlice, and for a non-empty slice exact types for Call and Append |
| MapOp.Map | map.go:9-39 | the error is the check's; on error the pointee keeps its value; on success it holds exactly one mapped value per element, in input order |
| MapOp.OutputCheckedBeforeMapper | map.go:11-14 | an invalid output is reported whatever the mapper is |
| MapOp.MapperCheckedBeforeInput | map.go:16-19 | with a valid output, a bad mapper is reported whatever the input is |
| MapOp.NonSliceNotImplemented | map.go:21-38 | with a valid output and mapper, any non-slice input is "not implemented" |
| MapOp.ParameterComparedByKind | map.go:22-24 | two different struct types of the same kind pass; an int element against a string parameter is refused |
| ReduceOp.IsReferenceType | reduce.go:78-87 | passes exactly for a pointer; "output is nil" exactly for the untyped nil; "cannot set out" exactly for a non-pointer; a nil pointer passes |
| ReduceOp.ValidateReducer | reduce.go:64-76 | passes exactly for a function of two parameters and one result; the errors carry the offending kind, parameter count or result count |
| ReduceOp.ReduceCheck | reduce.go:25-61 | passes exactly for a non-nil pointer output, a two-in one-out reducer, a slice input, and accumulator, first parameter and result of one kind, element and second parameter of one kind; otherwise the first failing step decides the error: the output, the reducer, "not implemented" for a non-slice, then the accumulator, element and return kind errors in that order, each carrying the two kinds it prints |
| ReduceOp.Reduce | reduce.go:25-62 | the error is the check's; on error the pointee keeps its value; on success it becomes the left fold of the slice from its initial value |
| ReduceOp.FoldLeftEmpty | reduce.go:50-57 | an empty slice leaves the accumulator as it was |
| ReduceOp.FoldLeftAppend | reduce.go:15-16 | folding a concatenation folds the second part from the first part's result |
| ReduceOp.FoldLeftFirst | reduce.go:16 | reduction runs from the left: the first element meets the initial accumulator first |
| ReduceOp.NilPointerReportedAsKindMismatch | reduce.go:38-42 | a nil pointer output passes the reference check and is reported as a first-argument mismatch against the invalid kind |
| ReduceOp.OutputCheckedFirst | reduce.go:28-30 | an output error is reported whatever the reducer and the input are |
| ReduceOp.ReducerCheckedBeforeInput | reduce.go:32-35 | with a pointer output, a reducer error is reported whatever the input is |
| ReduceOp.NonSliceNotImplemented | reduce.go:37-61 | with a pointer output and a valid reducer, any non-slice input is "not implemented" |
| ReduceOp.OutputKind | reduce.go:38 | the pointee's kind is the invalid kind exactly for a nil pointer, and otherwise the kind of the pointee type |
| ReduceOp.ReduceCheckDefined | reduce.go:64-65 | the inputs the model admits to the check: once the output is a pointer, the reducer is not the untyped nil, on which Type() panics |
| ReduceOp.ReduceDefined | reduce.go:50-57 | the inputs the model admits to the loop: a settable pointee, and for a non-empty slice exact types for Call and Set |
| FilterOp.FilterCheck | filter.go:22-67 | passes exactly for a settable non-nil pointer output whose pointee type is exactly the input's slice type, a single bool result, and element and parameter of one kind; otherwise the first failing step decides the error: the output error, the type mismatch naming both types, the result count, the result kind, "not implemented" for a non-slice, then the parameter error naming both types |
| FilterOp.Filter | filter.go:22-68 | the error is the check's; on error the pointee keeps its value; on success it is the filtered slice |
| FilterOp.FilteredAppend | filter.go:53-62 | filtering distributes over concatenation, so the kept elements keep their input order |
| FilterOp.FilteredSatisfies | filter.go:56-61 | the result is no longer than the input, and every kept element satisfies the predicate |
| FilterOp.FilteredCounts | filter.go:56-61 | a value that satisfies the predicate is kept as often as it occurs in the input; any other value is never kept |
| FilterOp.FilteredAllKept | filter.go:56-61 | the input comes back whole exactly when every element satisfies the predicate |
| FilterOp.FilteredIdempotent | filter.go:53-62 | filtering a filtered slice again changes nothing |
| FilterOp.OutputCheckedFirst | filter.go:26-28 | an invalid output is reported whatever the input and the predicate are |
| FilterOp.NonSliceNotImplemented | filter.go:41-67 | a non-slice input of the pointee's type with a one-bool predicate is "not implemented" |
| FilterOp.FilterCheckDefined | filter.go:29-43 | the inputs the model admits to the check: a typed input, a function predicate wherever NumOut and Out(0) are called, and a parameter wherever In(0) is called |
| FilterOp.FilterDefined | filter.go:52-63 | the inputs the model admits to the loop: for a non-empty slice, a predicate of exactly one parameter of exactly the element type |
| FilterOp.TypeExactParameterByKind | filter.go:29-49 | the input and output types are compared exactly, but the element and parameter only by kind |
| FindOp.FindCheckDefined | find.go:25-39 | the inputs the model admits to the check: an input type with an element type, a non-nil pointer output, and a function predicate wherever NumOut, Out(0) and In(0) are called |
| FindOp.FindDefined | find.go:47-55 | the inputs the model admits to the loop: for a non-empty slice, a predicate of exactly one parameter of exactly the element type and a settable pointee |
| FindOp.FindCheck | find.go:22-60 | passes exactly for a slice input whose element type is exactly the pointee type, a single bool result, and element and parameter of one kind; otherwise the first failing step decides the error: the type mismatch, the result count, the result kind, "not implemented" for a non-slice, then the parameter error naming both types |
| FindOp.Find | find.go:22-61 | the error is the check's when it fails; no error exactly when some element satisfies the predicate; on success the pointee is the first such element and the predicate saw only it and the elements before it; otherwise "element not found" after seeing every element, with the pointee untouched |
| FindOp.OutputTypeCheckedFirst | find.go:25-28 | a type mismatch of element and output is reported before anything about the predicate |
| FindOp.MapInputNotImplemented | find.go:25-60 | a map whose value type is the output's type passes the type checks and is "not implemented" |
| AllOp.AllCheck | all.go:18-59 | passes exactly for a one-in one-out predicate with a bool result over a slice whose element type is exactly its parameter type; otherwise the first failing step decides the error: not a function, the parameter count, the result count, the result kind, "not implemented for" the input's kind, then the argument type error |
| AllOp.All | all.go:18-60 | the error is the check's; true exactly when the checks pass and every element satisfies the predicate; the predicate sees nothing on error, every element when the result is true, and otherwise stops at the first failing element |
| AllOp.Every | all.go:62-65 | the same contract as All |
| AllOp.PredicateCheckedBeforeInput | all.go:23-59 | a valid predicate with a non-slice input reports the input's kind |
| AllOp.ParameterComparedExactly | all.go:42-45 | two struct types of the same kind but different names are refused |
| AnyOp.AnyCheck | any.go:18-59 | any.go repeats all.go's chain step for step, so it is AllCheck, with the same pass condition and the same error for each failing step |
| AnyOp.Any | any.go:18-60 | the error is the check's; true exactly when the checks pass and some element satisfies the predicate; the predicate stops at the first satisfying element, or sees every element when the result is false |
| GroupByOp.GroupCheck | groupBy.go:24-98 | passes exactly for a one-in one-out function whose result has the key's kind, a map pointee with slice values, and a slice input whose element type is exactly the value slices' element type and the function's parameter type; otherwise the first failing step decides the error, one per step in source order, the "has to be a function" and "not implemented for" errors carrying the kind and the argument error both types |
| GroupByOp.GroupCheckDefined | groupBy.go:44-45 | the inputs the model admits to the check: once the function checks pass, output.Elem().Type() needs a non-nil pointer output |
| GroupByOp.GroupByDefined | groupBy.go:76-94 | the inputs the model admits to the loop: a settable pointee, and for a non-empty slice a function result of exactly the key type for MapIndex |
| GroupByOp.NonSliceNotImplemented | groupBy.go:62-98 | once the function and output checks pass, any non-slice input is "not implemented for" its kind |
| GroupByOp.GroupBy | groupBy.go:24-99 | the error is the check's; on error the pointee keeps its value; on success it is replaced by the groups of the slice |
| GroupByOp.GroupedKeys | groupBy.go:78-93 | the keys are exactly the function's values on the elements |
| GroupByOp.GroupIsFiltered | groupBy.go:8-12 | the group of a key holds the elements with that key in input order, and a key no element has has no group |
| GroupByOp.GroupedByKey | groupBy.go:8-12 | each group is the input filtered by its key |
| GroupByOp.GroupedPartition | groupBy.go:78-93 | every element is in the group of its own key; every group is non-empty and holds only elements with its key |
| GroupByOp.GroupSizesSum | groupBy.go:78-93 | the group sizes, summed over the keys in any order, add up to the input's length |
| GroupByOp.ValueElementComparedExactly | groupBy.go:68-70 | differently named structs as input element and value element are refused |
| GroupByOp.KeyComparedByKind | groupBy.go:51-53 | a function returning one struct type passes for a map keyed by another struct type; a string result for an int key is refused |
| Scenarios.MapNilOutput | map_test.go:48-62 | a nil slice passed by value gives "output is nil" |
| Scenarios.MapNotAFunction | map_test.go:74-81 | a number as mapper gives "mapperFn has to be a function" |
| Scenarios.MapTwoParameters | map_test.go:83-96 | a two-parameter mapper gives "mapper function has to take only one argument" |
| Scenarios.MapOverMaps | map_test.go:144-300 | over a map, a two-parameter mapper gives the argument-count error and a one-parameter mapper "not implemented" |
| Scenarios.ReduceOutputByValue | reduce_test.go:63-71 | an int passed by value gives "cannot set out" |
| Scenarios.ReduceNotAFunction | reduce_test.go:80-87 | a number as reducer gives "reduceFn has to be a (func) and not (int)" |
| Scenarios.ReduceNoParameters | reduce_test.go:89-96 | a parameterless reducer gives "... and not 0 argument(s)" |
| Scenarios.ReduceTwoResults | reduce_test.go:104-116 | a two-result reducer gives "... and not 2 return type(s)" |
| Scenarios.CountMessages | reduce_test.go:89-116 | the counts 0 and 2 appear in the reducer messages as %d prints them |
| Scenarios.ReduceAccumulatorKind | reduce_test.go:119-126 | a string accumulator for an int output is a first-argument kind error |
| Scenarios.ReduceElementKind | reduce_test.go:134-141 | a string element parameter over an int slice is a second-argument kind error |
| Scenarios.ReduceReturnKind | reduce_test.go:149-156 | an int result for a string output is a return kind error |
| Scenarios.FilterParameterType | filter_test.go:47-57 | a string predicate over an int slice is a first-argument error naming both types |
| Scenarios.FilterResultKind | filter_test.go:59-68 | an int-valued predicate gives "... and not a (int)" |
| Scenarios.FilterOutputType | filter_test.go:77-86 | a []string output for an []int input is a type mismatch |
| Scenarios.FilterNilOutputs | filter_test.go:88-101 | a nil slice by value and the untyped nil both give "output is nil" |
| Scenarios.FindOutputType | find_test.go:75-84 | a string output for an []int input is a type mismatch |
| Scenarios.AllNotAFunction | all_test.go:18-24 | a string as predicate gives "predicateFn has to be a function" |
| Scenarios.AllNotASlice | all_test.go:65-71 | a number as input gives "not implemented for (int)" |
| Scenarios.AllParameterType | all_test.go:73-79 | an int predicate over a string slice is an argument type error |
| Scenarios.FuncTypeName | filter.go:30 | a function type renders as Go's Type.String() does, with its parameters and its parenthesised results |
| Scenarios.MapTypeName | filter.go:30 | a map type with slice values renders as Go's Type.String() does |
| Scenarios.MapSquares | map_test.go:11-22 | squaring [1, 2, 3] gives [1, 4, 9] |
| Scenarios.ReduceSum | reduce_test.go:11-23 | summing [1, 2, 3] from 0 gives 6 |
| Scenarios.ReduceWrongReducer | reduce.go:40-42 | a rejected reducer leaves the accumulator as it was |
| Scenarios.FilterEvens | filter_test.go:11-22 | keeping the even numbers of 1..8 gives [2, 4, 6, 8] |
| Scenarios.GroupByAge | groupBy_test.go:13-45 | grouping John 25, Doe 30, Wick 25 by age gives two groups, with John before Wick |
| Scenarios.FindOne | find_test.go:13-23 | the first element equal to 1 is found after one evaluation |
| Scenarios.AllOdd | all_test.go:81-88 | all of [1, 3, ..., 13] are odd |
| Scenarios.AllNotOdd | all_test.go:90-97 | [1, 2, 5, ...] is not all odd, and the predicate stops at the second element |
| Scenarios.AnyMultipleOfFive | any_test.go:75-82 | some element is a multiple of 5, found at the fifth element |
| Scenarios.AnyMultipleOfSix | any_test.go:84-91 | no element is a multiple of 6, after every element was tested |

## Left out

- Reflection internals: `reflect.Value`, `reflect.Type` and `Kind` are reduced to the descriptors in module `Reflect`. Struct types are identified by their name; interface, channel, array and the numeric kinds other than int are not modelled.
- Panics are stated as preconditions (`XDefined`) instead of being modelled as outcomes:
  - `Type()` on an untyped nil;
  - `IsNil` on a non-nillable kind;
  - `Elem` on a non-pointer or nil pointer output;
  - `In(0)` of a parameterless predicate;
  - `NumOut` and `Out(0)` of a predicate that is not a function, which `Filter` and `Find` never check (`filter.go:34-37`, `find.go:31-34`);
  - `Type().Elem()` of a `Find` input type that has no element type (`find.go:25`);
  - `Set` on a pointee that is not settable, which `Reduce`, `Find` and `GroupBy` never check (`reduce.go:57`, `find.go:54`, `groupBy.go:94`);
  - `MakeSlice` of a non-slice type;
  - `Call`, `Append`, `MapIndex` and `Set` with mismatched types.
- Go's assignability rules for `Call`, `Append`, `SetMapIndex` and `Set` are modelled as type equality.
- Typed nil function values are not modelled: they have the right kind and reflect would panic when calling them.
- `CanSet` of the output's pointee is a flag of the output argument rather than being derived from addressability. Through `reflect.ValueOf`, the pointee of a non-nil pointer is always settable. So `validateOut`'s "cannot set out" branch (`common.go:19-21`) cannot be reached through the operators, although the free flag lets the model reach it. For the same reason, the settable-pointee conditions of `FindDefined`, `ReduceDefined` and `GroupByDefined` exclude no input a Go caller can pass.
- The user's mapper, predicate, reducer and group function are pure Dafny functions. Side effects and panics inside them are not modelled; the number of calls is recorded only for `Find`, `All` and `Any`.
- `GroupBy`'s map is a Dafny `map`, so Go's random map iteration order plays no part. The value slices' capacity (`MakeSlice(..., 0, input.Len())`) is not modelled either.
- `Scenarios`: messages that insert two kinds or two type names are checked through the error constructor only. Their text follows from `Errors.Message` by definition.
- `Errors.TypeName` renders a struct as its stored name. Go prints a package-qualified name, which the model leaves to whoever builds the descriptor.
- The `Example*` functions of the test files print to standard output; only `ExampleGroupBy`'s data is restated (`Scenarios.GroupByAge`).
