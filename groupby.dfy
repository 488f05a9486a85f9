/** GroupBy (groupBy.go): split a slice into groups keyed by a function. */
module GroupByOp {
  import opened Reflect
  import opened Errors
  import opened FilterOp

  /** The check chain does not panic: after the function checks GroupBy
      calls output.Elem().Type() without checking that the output is a
      non-nil pointer. */
  predicate GroupCheckDefined(out: OutArg, fn: Arg) {
    fn.Typed? && fn.ty.Func? && |fn.ty.ins| == 1 && |fn.ty.outs| == 1 ==>
      out.Out? && out.ty.Ptr? && !out.isNil
  }

  /** Everything GroupBy checks before its loop, in source order: is the
      group function a function, one parameter, one result; is the
      output's pointee a map, is its key kind the function's result kind,
      is its value a slice; is the input a slice, is its element type
      exactly the value slice's element type and then exactly the
      function's parameter type. */
  function GroupCheck(input: Arg, out: OutArg, fn: Arg): (r: Option<Error>)
    requires GroupCheckDefined(out, fn)
    ensures r.None? <==>
      && fn.Typed? && fn.ty.Func? && |fn.ty.ins| == 1 && |fn.ty.outs| == 1
      && out.ty.elem.Map? && KindOf(fn.ty.outs[0]) == KindOf(out.ty.elem.key)
      && out.ty.elem.value.Slice?
      && input.Typed? && input.ty.Slice?
      && input.ty.elem == out.ty.elem.value.elem && input.ty.elem == fn.ty.ins[0]
    // the first failing step decides the error
    ensures ArgKind(fn) != FuncKind ==> r == Some(GroupNotFunction(ArgKind(fn)))
    ensures fn.Typed? && fn.ty.Func? ==>
      && (|fn.ty.ins| != 1 ==> r == Some(GroupArgCount))
      && (|fn.ty.ins| == 1 && |fn.ty.outs| != 1 ==> r == Some(GroupResultCount))
    ensures fn.Typed? && fn.ty.Func? && |fn.ty.ins| == 1 && |fn.ty.outs| == 1 ==>
      var outType := out.ty.elem;
      && (!outType.Map? ==> r == Some(OutputNotMap))
      && (outType.Map? && KindOf(fn.ty.outs[0]) != KindOf(outType.key) ==> r == Some(GroupKeyKind))
      && (outType.Map? && KindOf(fn.ty.outs[0]) == KindOf(outType.key) ==>
            && (!outType.value.Slice? ==> r == Some(ValueNotSlice))
            && (outType.value.Slice? && ArgKind(input) != SliceKind ==> r == Some(NotImplementedFor(ArgKind(input))))
            && (outType.value.Slice? && input.Typed? && input.ty.Slice? ==>
                  && (input.ty.elem != outType.value.elem ==> r == Some(ValueElemMismatch))
                  && (input.ty.elem == outType.value.elem && input.ty.elem != fn.ty.ins[0] ==>
                        r == Some(GroupArgType(fn.ty.ins[0], input.ty.elem)))))
  {
    if ArgKind(fn) != FuncKind then Some(GroupNotFunction(ArgKind(fn)))
    else if |fn.ty.ins| != 1 then Some(GroupArgCount)
    else if |fn.ty.outs| != 1 then Some(GroupResultCount)
    else
      var outType := out.ty.elem;
      if !outType.Map? then Some(OutputNotMap)
      else if KindOf(fn.ty.outs[0]) != KindOf(outType.key) then Some(GroupKeyKind)
      else if KindOf(outType.value) != SliceKind then Some(ValueNotSlice)
      else if ArgKind(input) == SliceKind then
        if input.ty.elem != outType.value.elem then Some(ValueElemMismatch)
        else if input.ty.elem != fn.ty.ins[0] then Some(GroupArgType(fn.ty.ins[0], input.ty.elem))
        else None
      else Some(NotImplementedFor(ArgKind(input)))
  }

  /** GroupBy does not panic: Set needs a settable pointee and, when the
      slice is not empty, MapIndex needs the function's result type to be
      exactly the map's key type (the check compared kinds only). */
  predicate GroupByDefined(input: Arg, out: OutArg, fn: Arg, nonEmpty: bool) {
    && GroupCheckDefined(out, fn)
    && (GroupCheck(input, out, fn).None? ==>
          out.canSetElem && (nonEmpty ==> fn.ty.outs[0] == out.ty.elem.key))
  }

  /** The groups built by scanning xs from left to right: each element is
      appended to the group of its key, which is created when first met. */
  function Grouped<T, K(==)>(xs: seq<T>, f: T -> K): map<K, seq<T>>
    decreases |xs|
  {
    if xs == [] then map[]
    else
      var groups := Grouped(xs[..|xs| - 1], f);
      var x := xs[|xs| - 1];
      var k := f(x);
      if k in groups then groups[k := groups[k] + [x]] else groups[k := [x]]
  }

  /** GroupBy: on success the pointee is replaced by a freshly built map of
      the groups, so earlier entries are discarded; on error it is
      untouched. */
  method GroupBy<T, K(==)>(input: Arg, xs: seq<T>, out: OutArg, cell: Cell<map<K, seq<T>>>, fn: Arg, f: T -> K)
    returns (err: Option<Error>)
    requires GroupByDefined(input, out, fn, |xs| > 0)
    modifies cell
    ensures err == GroupCheck(input, out, fn)
    ensures err.Some? ==> cell.value == old(cell.value)
    ensures err.None? ==> cell.value == Grouped(xs, f)
  {
    err := GroupCheck(input, out, fn);
    if err.Some? {
      return;
    }
    var result: map<K, seq<T>> := map[];
    for i := 0 to |xs|
      invariant result == Grouped(xs[..i], f)
    {
      assert xs[..i + 1][..i] == xs[..i];
      var key := f(xs[i]);
      if key in result {
        result := result[key := result[key] + [xs[i]]];
      } else {
        result := result[key := [xs[i]]];
      }
    }
    assert xs[..|xs|] == xs;
    cell.value := result;
  }

  /** The keys are exactly the images of the elements; in particular an
      empty slice gives an empty map. */
  lemma {:induction false} GroupedKeys<T, K>(xs: seq<T>, f: T -> K)
    ensures Grouped(xs, f).Keys == set x | x in xs :: f(x)
    decreases |xs|
  {
    if xs != [] {
      var init := xs[..|xs| - 1];
      GroupedKeys(init, f);
      assert xs == init + [xs[|xs| - 1]];
    }
  }

  /** The group of key k holds the elements whose key is k (those p
      accepts), in input order; a key that no element has has no group. */
  lemma {:induction false} GroupIsFiltered<T, K>(xs: seq<T>, f: T -> K, k: K, p: T -> bool)
    requires forall x :: p(x) == (f(x) == k)
    ensures k in Grouped(xs, f) ==> Grouped(xs, f)[k] == Filtered(xs, p)
    ensures k !in Grouped(xs, f) ==> Filtered(xs, p) == []
    decreases |xs|
  {
    if xs != [] {
      GroupIsFiltered(xs[..|xs| - 1], f, k, p);
    }
  }

  /** Each group is the subsequence of the input with that key. */
  lemma GroupedByKey<T, K>(xs: seq<T>, f: T -> K, k: K)
    requires k in Grouped(xs, f)
    ensures Grouped(xs, f)[k] == Filtered(xs, x => f(x) == k)
  {
    GroupIsFiltered(xs, f, k, x => f(x) == k);
  }

  /** Every element lies in the group of its own key and in no other:
      every member of a group has that group's key, and the group is never
      empty. */
  lemma GroupedPartition<T, K>(xs: seq<T>, f: T -> K)
    ensures forall i | 0 <= i < |xs| :: f(xs[i]) in Grouped(xs, f) && xs[i] in Grouped(xs, f)[f(xs[i])]
    ensures forall k | k in Grouped(xs, f) ::
      |Grouped(xs, f)[k]| > 0 && forall y | y in Grouped(xs, f)[k] :: f(y) == k
  {
    var groups := Grouped(xs, f);
    GroupedKeys(xs, f);
    forall k | k in groups
      ensures |groups[k]| > 0 && forall y | y in groups[k] :: f(y) == k
    {
      var p := x => f(x) == k;
      GroupIsFiltered(xs, f, k, p);
      FilteredSatisfies(xs, p);
      FilteredCounts(xs, p);
      var x :| x in xs && f(x) == k;
      assert multiset(groups[k])[x] == multiset(xs)[x] > 0;
    }
    forall i | 0 <= i < |xs|
      ensures f(xs[i]) in groups && xs[i] in groups[f(xs[i])]
    {
      var k := f(xs[i]);
      assert k in groups;
      var p := x => f(x) == k;
      GroupIsFiltered(xs, f, k, p);
      FilteredCounts(xs, p);
      assert multiset(groups[k])[xs[i]] == multiset(xs)[xs[i]] > 0;
    }
  }

  /** ks lists every key of groups exactly once. */
  ghost predicate EnumeratesKeys<T, K>(ks: seq<K>, groups: map<K, seq<T>>) {
    && (forall i, j | 0 <= i < j < |ks| :: ks[i] != ks[j])
    && (forall i | 0 <= i < |ks| :: ks[i] in groups)
    && (forall k | k in groups :: k in ks)
  }

  /** The total size of the groups of the keys ks. */
  ghost function SizeSum<T, K>(groups: map<K, seq<T>>, ks: seq<K>): nat
    requires forall i | 0 <= i < |ks| :: ks[i] in groups
  {
    if ks == [] then 0 else |groups[ks[0]]| + SizeSum(groups, ks[1..])
  }

  lemma {:induction false} SizeSumAppend<T, K>(groups: map<K, seq<T>>, a: seq<K>, b: seq<K>)
    requires forall i | 0 <= i < |a| :: a[i] in groups
    requires forall i | 0 <= i < |b| :: b[i] in groups
    ensures SizeSum(groups, a + b) == SizeSum(groups, a) + SizeSum(groups, b)
    decreases |a|
  {
    if a == [] {
      assert a + b == b;
    } else {
      assert (a + b)[1..] == a[1..] + b;
      SizeSumAppend(groups, a[1..], b);
    }
  }

  /** Two maps whose groups have the same sizes on ks give the same sum. */
  lemma {:induction false} SizeSumAgree<T, K>(g1: map<K, seq<T>>, g2: map<K, seq<T>>, ks: seq<K>)
    requires forall i | 0 <= i < |ks| :: ks[i] in g1 && ks[i] in g2 && |g1[ks[i]]| == |g2[ks[i]]|
    ensures SizeSum(g1, ks) == SizeSum(g2, ks)
    decreases |ks|
  {
    if ks != [] {
      SizeSumAgree(g1, g2, ks[1..]);
    }
  }

  /** The sum split around the key at position j. */
  lemma SizeSumSplit<T, K>(groups: map<K, seq<T>>, ks: seq<K>, j: nat)
    requires j < |ks|
    requires forall i | 0 <= i < |ks| :: ks[i] in groups
    ensures SizeSum(groups, ks) == SizeSum(groups, ks[..j]) + |groups[ks[j]]| + SizeSum(groups, ks[j + 1..])
  {
    assert ks == ks[..j] + ([ks[j]] + ks[j + 1..]);
    SizeSumAppend(groups, ks[..j], [ks[j]] + ks[j + 1..]);
    SizeSumAppend(groups, [ks[j]], ks[j + 1..]);
    assert ([ks[j]] + ks[j + 1..])[1..] == ks[j + 1..];
  }

  /** Replacing the group of a key that ks lists already: the sum changes
      by the difference in the group's size. */
  lemma SizeSumReplace<T, K>(groups: map<K, seq<T>>, key: K, v: seq<T>, ks: seq<K>, j: nat)
    requires key in groups && j < |ks| && ks[j] == key
    requires EnumeratesKeys(ks, groups)
    ensures EnumeratesKeys(ks, groups[key := v])
    ensures SizeSum(groups[key := v], ks) + |groups[key]| == SizeSum(groups, ks) + |v|
  {
    var updated := groups[key := v];
    var left, right := ks[..j], ks[j + 1..];
    assert forall i | 0 <= i < |left| :: left[i] == ks[i] && left[i] != key;
    assert forall i | 0 <= i < |right| :: right[i] == ks[j + 1 + i] && right[i] != key;
    SizeSumSplit(groups, ks, j);
    SizeSumSplit(updated, ks, j);
    SizeSumAgree(groups, updated, left);
    SizeSumAgree(groups, updated, right);
  }

  /** Dropping from ks a key that groups lacks leaves an enumeration of
      groups. */
  lemma EnumerationWithout<T, K>(groups: map<K, seq<T>>, key: K, v: seq<T>, ks: seq<K>, j: nat)
    requires key !in groups && j < |ks| && ks[j] == key
    requires EnumeratesKeys(ks, groups[key := v])
    ensures EnumeratesKeys(ks[..j] + ks[j + 1..], groups)
  {
    var updated := groups[key := v];
    var rest := ks[..j] + ks[j + 1..];
    assert |rest| == |ks| - 1;
    assert forall i | 0 <= i < |rest| :: rest[i] == ks[if i < j then i else i + 1];
    forall a, b | 0 <= a < b < |rest| ensures rest[a] != rest[b] {
      var ia, ib := if a < j then a else a + 1, if b < j then b else b + 1;
      assert ia < ib && rest[a] == ks[ia] && rest[b] == ks[ib];
    }
    forall i | 0 <= i < |rest| ensures rest[i] in groups {
      var ii := if i < j then i else i + 1;
      assert rest[i] == ks[ii] && ii != j;
      assert ks[ii] != key && ks[ii] in updated;
    }
    forall k | k in groups ensures k in rest {
      assert k in updated && k in ks;
      var i :| 0 <= i < |ks| && ks[i] == k;
      if i < j { assert rest[i] == k; } else { assert rest[i - 1] == k; }
    }
  }

  /** Adding the group of a key that ks lists but groups lacks: the sum
      grows by the new group's size over the other keys. */
  lemma SizeSumInsert<T, K>(groups: map<K, seq<T>>, key: K, v: seq<T>, ks: seq<K>, j: nat)
    requires key !in groups && j < |ks| && ks[j] == key
    requires EnumeratesKeys(ks, groups[key := v])
    ensures EnumeratesKeys(ks[..j] + ks[j + 1..], groups)
    ensures SizeSum(groups[key := v], ks) == SizeSum(groups, ks[..j] + ks[j + 1..]) + |v|
  {
    EnumerationWithout(groups, key, v, ks, j);
    var updated := groups[key := v];
    var left, right := ks[..j], ks[j + 1..];
    assert forall i | 0 <= i < |left| :: left[i] == ks[i] && left[i] != key;
    assert forall i | 0 <= i < |right| :: right[i] == ks[j + 1 + i] && right[i] != key;
    SizeSumSplit(updated, ks, j);
    SizeSumAgree(groups, updated, left);
    SizeSumAgree(groups, updated, right);
    SizeSumAppend(groups, left, right);
  }

  /** The group sizes, summed over the keys in any order, add up to the
      length of the input: no element is lost or counted twice. */
  lemma {:induction false} GroupSizesSum<T, K>(xs: seq<T>, f: T -> K, ks: seq<K>)
    requires EnumeratesKeys(ks, Grouped(xs, f))
    ensures SizeSum(Grouped(xs, f), ks) == |xs|
    decreases |xs|
  {
    var groups := Grouped(xs, f);
    if xs == [] {
      assert groups == map[];
    } else {
      var init, x := xs[..|xs| - 1], xs[|xs| - 1];
      var before := Grouped(init, f);
      var key := f(x);
      assert key in groups && key in ks;
      var j :| 0 <= j < |ks| && ks[j] == key;
      if key in before {
        assert groups == before[key := before[key] + [x]];
        assert EnumeratesKeys(ks, before);
        SizeSumReplace(before, key, before[key] + [x], ks, j);
        GroupSizesSum(init, f, ks);
      } else {
        assert groups == before[key := [x]];
        SizeSumInsert(before, key, [x], ks, j);
        GroupSizesSum(init, f, ks[..j] + ks[j + 1..]);
      }
    }
  }

  /** The input's element type is compared exactly with the element type of
      the map's value slices: two differently named structs are refused. */
  lemma ValueElementComparedExactly()
    ensures GroupCheck(Typed(Slice(Struct("A"))), Out(Ptr(Map(Int, Slice(Struct("B")))), false, true),
                       Typed(Func([Struct("A")], [Int])))
         == Some(ValueElemMismatch)
  {
  }

  /** The function's result is compared with the map's key by kind only:
      a function returning one struct type passes the checks for a map keyed
      by another struct type. */
  lemma KeyComparedByKind()
    ensures GroupCheck(Typed(Slice(Int)), Out(Ptr(Map(Struct("K1"), Slice(Int))), false, true),
                       Typed(Func([Int], [Struct("K2")])))
         == None
    ensures GroupCheck(Typed(Slice(Int)), Out(Ptr(Map(Int, Slice(Int))), false, true),
                       Typed(Func([Int], [String])))
         == Some(GroupKeyKind)
  {
  }

  /** Once the function and the output pass their six checks, any non-slice
      input is "not implemented for" its kind. */
  lemma NonSliceNotImplemented(input: Arg, out: OutArg, fn: Arg)
    requires fn.Typed? && fn.ty.Func? && |fn.ty.ins| == 1 && |fn.ty.outs| == 1
    requires out.Out? && out.ty.Ptr? && !out.isNil
    requires out.ty.elem.Map? && KindOf(fn.ty.outs[0]) == KindOf(out.ty.elem.key) && out.ty.elem.value.Slice?
    requires ArgKind(input) != SliceKind
    ensures GroupCheck(input, out, fn) == Some(NotImplementedFor(ArgKind(input)))
  {
  }
}
