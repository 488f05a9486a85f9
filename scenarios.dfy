/**
  Cases from the repository's tests, restated against the model: the
  error each validation chain reports, with its message text, and client
  runs of the operators whose results follow from their contracts alone.
 */
module Scenarios {
  import opened Reflect
  import opened Errors
  import opened Common
  import opened MapOp
  import opened ReduceOp
  import opened FilterOp
  import opened FindOp
  import opened AllOp
  import opened AnyOp
  import opened GroupByOp

  /** A pointer to a settable variable of type t. */
  function PtrTo(t: GoType): OutArg {
    Out(Ptr(t), false, true)
  }

  /** map_test.go: a nil slice passed by value. */
  lemma MapNilOutput()
    ensures MapCheck(Typed(Slice(Int)), Out(Slice(Int), true, false), Typed(Func([Int], [Int]))) == Some(OutputNil)
    ensures Message(OutputNil) == "output is nil. Pass a reference to set output"
  {
  }

  /** map_test.go: a number as the mapper. */
  lemma MapNotAFunction()
    ensures MapCheck(Typed(Slice(Int)), PtrTo(Slice(Int)), Typed(Int)) == Some(MapperNotFunction)
    ensures Message(MapperNotFunction) == "mapperFn has to be a function"
  {
  }

  /** map_test.go: a mapper of two parameters. */
  lemma MapTwoParameters()
    ensures MapCheck(Typed(Slice(Int)), PtrTo(Slice(Int)), Typed(Func([Int, Int], [Int]))) == Some(MapperArgCount)
    ensures Message(MapperArgCount) == "mapper function has to take only one argument"
  {
  }

  /** map_test.go's runs over maps: a two-parameter mapper fails the mapper
      check before the input is looked at, and only a one-parameter mapper
      reaches "not implemented". */
  lemma MapOverMaps()
    ensures MapCheck(Typed(Map(String, Int)), PtrTo(Slice(Int)), Typed(Func([String, Int], [Int]))) == Some(MapperArgCount)
    ensures MapCheck(Typed(Map(String, Int)), PtrTo(Slice(Int)), Typed(Func([Int], [Int]))) == Some(NotImplemented)
  {
  }

  /** reduce_test.go: the output passed by value. */
  lemma ReduceOutputByValue()
    ensures ReduceCheck(Typed(Slice(Int)), Out(Int, false, false), Typed(Func([Int, Int], [Int]))) == Some(CannotSetOut)
    ensures Message(CannotSetOut) == "cannot set out. Pass a reference to set output"
  {
  }

  /** reduce_test.go: a number as the reducer. */
  lemma ReduceNotAFunction()
    ensures ReduceCheck(Typed(Slice(Int)), PtrTo(Int), Typed(Int)) == Some(ReducerNotFunction(IntKind))
    ensures Message(ReducerNotFunction(IntKind)) == "reduceFn has to be a (func) and not (int)"
  {
  }

  /** reduce_test.go: a reducer without parameters. */
  lemma ReduceNoParameters()
    ensures ReduceCheck(Typed(Slice(Int)), PtrTo(Int), Typed(Func([], [Int]))) == Some(ReducerArgCount(0))
    ensures Message(ReducerArgCount(0)) == "reduceFn has to take exactly 2 arguments and not 0 argument(s)"
  {
    CountMessages();
  }

  /** reduce_test.go: a reducer with two results. */
  lemma ReduceTwoResults()
    ensures ReduceCheck(Typed(Slice(Int)), PtrTo(Int), Typed(Func([Int, Int], [Int, Int]))) == Some(ReducerResultCount(2))
    ensures Message(ReducerResultCount(2)) == "reduceFn should have only one return value and not 2 return type(s)"
  {
    CountMessages();
  }

  /** The counts of reduce_test.go's messages print as %d does. */
  lemma CountMessages()
    ensures Message(ReducerArgCount(0)) == "reduceFn has to take exactly 2 arguments and not 0 argument(s)"
    ensures Message(ReducerResultCount(2)) == "reduceFn should have only one return value and not 2 return type(s)"
  {
  }

  /** reduce_test.go: a string accumulator parameter for an int output. */
  lemma ReduceAccumulatorKind()
    ensures ReduceCheck(Typed(Slice(Int)), PtrTo(Int), Typed(Func([String, Int], [Int]))) == Some(ReducerAccKind(StringKind, IntKind))
  {
  }

  /** reduce_test.go: a string element parameter for an int slice. */
  lemma ReduceElementKind()
    ensures ReduceCheck(Typed(Slice(Int)), PtrTo(String), Typed(Func([String, String], [String]))) == Some(ReducerElemKind(StringKind, IntKind))
  {
  }

  /** reduce_test.go: an int result for a string output. */
  lemma ReduceReturnKind()
    ensures ReduceCheck(Typed(Slice(Int)), PtrTo(String), Typed(Func([String, Int], [Int]))) == Some(ReducerReturnKind(IntKind, StringKind))
  {
  }

  /** filter_test.go: a string predicate over an int slice. */
  lemma FilterParameterType()
    ensures FilterCheck(Typed(Slice(Int)), PtrTo(Slice(Int)), Typed(Func([String], [Bool]))) == Some(PredicateFirstArg(Int, String))
  {
  }

  /** filter_test.go: an int-valued predicate. */
  lemma FilterResultKind()
    ensures FilterCheck(Typed(Slice(Int)), PtrTo(Slice(Int)), Typed(Func([Int], [Int]))) == Some(PredicateReturnKind(IntKind))
    ensures Message(PredicateReturnKind(IntKind)) == "predicate function should return only a (boolean) and not a (int)"
  {
  }

  /** filter_test.go: a []string output for an []int input. */
  lemma FilterOutputType()
    ensures FilterCheck(Typed(Slice(Int)), PtrTo(Slice(String)), Typed(Func([Int], [Bool]))) == Some(FilterTypeMismatch(Slice(Int), Slice(String)))
  {
  }

  /** find_test.go: a string output for an []int input. */
  lemma FindOutputType()
    ensures FindCheck(Typed(Slice(Int)), PtrTo(String), Typed(Func([Int], [Bool]))) == Some(FindTypeMismatch(Int, String))
  {
  }

  /** all_test.go: a string as the predicate. */
  lemma AllNotAFunction()
    ensures AllCheck(Typed(Slice(Int)), Typed(String)) == Some(PredicateNotFunction)
    ensures Message(PredicateNotFunction) == "predicateFn has to be a function"
  {
  }

  /** all_test.go: a number as the input. */
  lemma AllNotASlice()
    ensures AllCheck(Typed(Int), Typed(Func([Int], [Bool]))) == Some(NotImplementedFor(IntKind))
    ensures Message(NotImplementedFor(IntKind)) == "not implemented for (int)"
  {
  }

  /** all_test.go: an int predicate over a string slice. */
  lemma AllParameterType()
    ensures AllCheck(Typed(Slice(String)), Typed(Func([Int], [Bool]))) == Some(PredicateArgType(Int, String))
  {
  }

  lemma FilterNilOutputs()
    ensures FilterCheck(Typed(Slice(Int)), Out(Slice(Int), true, false), Typed(Func([Int], [Bool])))
         == FilterCheck(Typed(Slice(Int)), NilOut, Typed(Func([Int], [Bool])))
         == Some(OutputNil)
  {
  }

  lemma FuncTypeName()
    ensures TypeName(Func([Int, Int], [Int, Bool])) == "func(int, int) (int, bool)"
  {
    var t := Func([Int, Int], [Int, Bool]);
    assert TypeList(t, [Int, Int]) == "int, int";
    assert TypeList(t, [Int, Bool]) == "int, bool";
  }

  lemma MapTypeName()
    ensures TypeName(Map(Int, Slice(Struct("main.Person")))) == "map[int][]main.Person"
  {
    assert TypeName(Slice(Struct("main.Person"))) == "[]main.Person";
  }

  /** map_test.go: squaring [1, 2, 3] gives [1, 4, 9]. */
  method MapSquares() returns (err: Option<Error>, out: seq<int>)
    ensures err.None? && out == [1, 4, 9]
  {
    var cell := new Cell<seq<int>>([]);
    err := MapOp.Map(Typed(Slice(Int)), [1, 2, 3], PtrTo(Slice(Int)), cell, Typed(Func([Int], [Int])), x => x * x);
    out := cell.value;
  }

  /** reduce_test.go: summing [1, 2, 3] into a zero int gives 6. */
  method ReduceSum() returns (err: Option<Error>, out: int)
    ensures err.None? && out == 6
  {
    var cell := new Cell<int>(0);
    var xs, f := [1, 2, 3], (acc: int, x: int) => acc + x;
    err := Reduce(Typed(Slice(Int)), xs, PtrTo(Int), cell, Typed(Func([Int, Int], [Int])), f);
    assert xs[..2] == [1, 2] && [1, 2][..1] == [1] && [1][..0] == [];
    assert FoldLeft(f, 0, [1]) == 1;
    assert FoldLeft(f, 0, [1, 2]) == 3;
    out := cell.value;
  }

  /** A failing check leaves the output as it was. */
  method ReduceWrongReducer() returns (err: Option<Error>, out: int)
    ensures err == Some(ReducerAccKind(StringKind, IntKind)) && out == 5
  {
    var cell := new Cell<int>(5);
    err := Reduce(Typed(Slice(Int)), [1, 2, 3], PtrTo(Int), cell, Typed(Func([String, Int], [Int])), (acc, x) => acc + x);
    out := cell.value;
  }

  /** filter_test.go: keeping the even elements of [1, ..., 8] gives
      [2, 4, 6, 8]. */
  method FilterEvens() returns (err: Option<Error>, out: seq<int>)
    ensures err.None? && out == [2, 4, 6, 8]
  {
    var cell := new Cell<seq<int>>([]);
    var p := (x: int) => x % 2 == 0;
    err := Filter(Typed(Slice(Int)), [1, 2, 3, 4, 5, 6, 7, 8], PtrTo(Slice(Int)), cell, Typed(Func([Int], [Bool])), p);
    EvensUpToEight(p);
    out := cell.value;
  }

  /** Of an odd number and its successor, keeping the even ones keeps the
      successor. */
  lemma OddEvenPair(n: int, p: int -> bool)
    requires n % 2 == 1 && forall x :: p(x) == (x % 2 == 0)
    ensures Filtered([n, n + 1], p) == [n + 1]
  {
    assert [n, n + 1][..1] == [n] && [n][..0] == [];
    assert !p(n) && p(n + 1);
    assert Filtered([n], p) == [];
  }

  lemma EvensUpToEight(p: int -> bool)
    requires forall x :: p(x) == (x % 2 == 0)
    ensures Filtered([1, 2, 3, 4, 5, 6, 7, 8], p) == [2, 4, 6, 8]
  {
    var a, b, c, d := [1, 2], [3, 4], [5, 6], [7, 8];
    OddEvenPair(1, p);
    OddEvenPair(3, p);
    OddEvenPair(5, p);
    OddEvenPair(7, p);
    FilteredAppend(a, b, p);
    FilteredAppend(a + b, c, p);
    FilteredAppend(a + b + c, d, p);
    assert a + b + c + d == [1, 2, 3, 4, 5, 6, 7, 8];
  }

  /** A person of groupBy_test.go's example. */
  datatype Person = Person(name: string, age: int)

  /** groupBy_test.go: grouping John (25), Doe (30) and Wick (25) by age
      gives two groups, John and Wick in input order under 25. */
  method GroupByAge() returns (err: Option<Error>, out: map<int, seq<Person>>)
    ensures err.None?
    ensures out == map[25 := [Person("John", 25), Person("Wick", 25)], 30 := [Person("Doe", 30)]]
  {
    var john, doe, wick := Person("John", 25), Person("Doe", 30), Person("Wick", 25);
    var xs, f := [john, doe, wick], (p: Person) => p.age;
    var person := Struct("godash_test.Person");
    var cell := new Cell<map<int, seq<Person>>>(map[]);
    err := GroupBy(Typed(Slice(person)), xs, PtrTo(Map(Int, Slice(person))), cell, Typed(Func([person], [Int])), f);
    assert xs[..2] == [john, doe] && [john, doe][..1] == [john] && [john][..0] == [];
    assert Grouped([john], f) == map[25 := [john]];
    assert Grouped([john, doe], f) == map[25 := [john], 30 := [doe]];
    assert [john] + [wick] == [john, wick];
    assert Grouped(xs, f) == map[25 := [john, wick], 30 := [doe]];
    out := cell.value;
  }

  /** find_test.go: the first element equal to 1 is found, and it is the
      only element the predicate sees. */
  method FindOne() returns (err: Option<Error>, out: int, ghost calls: nat)
    ensures err.None? && out == 1 && calls == 1
  {
    var cell := new Cell<int>(0);
    var xs, p := [1, 2, 3, 4, 5, 6, 7, 8], x => x == 1;
    err, calls := Find(Typed(Slice(Int)), xs, PtrTo(Int), cell, Typed(Func([Int], [Bool])), p);
    assert p(xs[0]);
    out := cell.value;
  }

  /** all_test.go: every element of [1, 3, ..., 13] is odd. */
  method AllOdd() returns (ok: bool, err: Option<Error>)
    ensures err.None? && ok
  {
    var xs, p := [1, 3, 5, 7, 9, 11, 13], x => x % 2 == 1;
    ghost var calls;
    ok, err, calls := All(Typed(Slice(Int)), xs, Typed(Func([Int], [Bool])), p);
  }

  /** all_test.go: one even element makes All false, and the predicate
      stops at it. */
  method AllNotOdd() returns (ok: bool, err: Option<Error>, ghost calls: nat)
    ensures err.None? && !ok && calls == 2
  {
    var xs, p := [1, 2, 5, 7, 9, 11, 13], x => x % 2 == 1;
    ok, err, calls := All(Typed(Slice(Int)), xs, Typed(Func([Int], [Bool])), p);
    assert p(xs[0]) && !p(xs[1]);
  }

  /** any_test.go: 5 is the first multiple of 5 in [1, 1, 2, 3, 5, 8, 13],
      and the predicate stops at it. */
  method AnyMultipleOfFive() returns (ok: bool, err: Option<Error>, ghost calls: nat)
    ensures err.None? && ok && calls == 5
  {
    var xs, p := [1, 1, 2, 3, 5, 8, 13], x => x % 5 == 0;
    ok, err, calls := Any(Typed(Slice(Int)), xs, Typed(Func([Int], [Bool])), p);
    assert p(xs[4]);
    assert !p(xs[0]) && !p(xs[1]) && !p(xs[2]) && !p(xs[3]);
  }

  /** any_test.go: no element of [1, 1, 2, 3, 5, 8, 13] is a multiple of 6,
      and every element was tested. */
  method AnyMultipleOfSix() returns (ok: bool, err: Option<Error>, ghost calls: nat)
    ensures err.None? && !ok && calls == 7
  {
    var xs, p := [1, 1, 2, 3, 5, 8, 13], x => x % 6 == 0;
    ok, err, calls := Any(Typed(Slice(Int)), xs, Typed(Func([Int], [Bool])), p);
  }
}
