/**
 * `union(arr1, arr2)` of Union_ES6/union.js: after checking its arguments it walks
 * the concatenation of the two arrays once and appends every item that is not a
 * duplicate of an item already in the result. Primitives are looked up in a set
 * kept beside the result; objects and arrays are compared with `deepEqual`
 * against every item of the result, the item already there as first argument.
 *
 * `Kept` is the specification of that walk; the methods `IsDuplicate`,
 * `AddToResult` and `Union` follow the source step by step and are proved to
 * compute it, and the lemmas state what the result is: no item is deep-equal to
 * a later one (on plain inputs, none to any other), it is a subsequence of the
 * input that begins with what survives of `arr1`, and it is complete, in that
 * every input item has a deep-equal item in the result.
 */
module Union {
  import opened JsValues
  import opened DeepEquality

  /** One argument of a JavaScript call: `undefined` or a value. */
  datatype Argument = Undefined | Defined(v: Value)

  datatype Error = TypeError(message: string)

  datatype Result<T> = Success(value: T) | Failure(error: Error)

  const ArityMessage := "union function expects exactly two arguments."
  const ArrayMessage := "Both arguments must be arrays."

  /** `Array.isArray(a)` */
  predicate IsArray(a: Argument) {
    a.Defined? && a.v.Arr?
  }

  // ---------------------------------------------------------------------------
  // Specification of the walk.
  // ---------------------------------------------------------------------------

  /** Some item already in `result` is deep-equal to `item`. */
  predicate Seen(result: seq<Value>, item: Value) {
    exists j | 0 <= j < |result| :: DeepEqual(result[j], item)
  }

  /** What one call of `addToResult` does to the result. */
  function Step(result: seq<Value>, item: Value): seq<Value> {
    if Seen(result, item) then result else result + [item]
  }

  /** The result after `addToResult` has been called on every item of `xs` in order. */
  function Kept(xs: seq<Value>): (r: seq<Value>)
    ensures |r| <= |xs|
  {
    if xs == [] then [] else Step(Kept(xs[..|xs| - 1]), xs[|xs| - 1])
  }

  /** What `union` returns or throws when called with `args`. */
  function UnionSpec(args: seq<Argument>): Result<seq<Value>> {
    if |args| != 2 then Failure(TypeError(ArityMessage))
    else if !IsArray(args[0]) || !IsArray(args[1]) then Failure(TypeError(ArrayMessage))
    else Success(Kept(args[0].v.elems + args[1].v.elems))
  }

  /** The primitives among the items of `result`: what `primitiveSet` holds. */
  function PrimitivesOf(result: seq<Value>): (ps: set<Primitive>)
    ensures forall p :: p in ps <==> Prim(p) in result
  {
    set j | 0 <= j < |result| && result[j].Prim? :: result[j].p
  }

  /** No item of `ys` is deep-equal to an item after it. */
  predicate NoDuplicates(ys: seq<Value>) {
    forall i, j | 0 <= i < j < |ys| :: !DeepEqual(ys[i], ys[j])
  }

  /** No item of `ys` is deep-equal to any other item, before or after it. */
  predicate NoDuplicatesEitherWay(ys: seq<Value>) {
    forall i, j | 0 <= i < |ys| && 0 <= j < |ys| && i != j :: !DeepEqual(ys[i], ys[j])
  }

  // ---------------------------------------------------------------------------
  // The source's steps.
  // ---------------------------------------------------------------------------

  /** For a primitive `item`, membership in `primitiveSet` answers the same as `some`. */
  lemma PrimitiveLookup(result: seq<Value>, p: Primitive)
    ensures Seen(result, Prim(p)) <==> p in PrimitivesOf(result)
  {
    if Prim(p) in result {
      var j :| 0 <= j < |result| && result[j] == Prim(p);
      assert DeepEqual(result[j], Prim(p));
    }
  }

  /** `result.some(existingItem => deepEqual(existingItem, item))` */
  method SomeDeepEqual(result: seq<Value>, item: Value) returns (found: bool)
    ensures found <==> Seen(result, item)
  {
    var i := 0;
    while i < |result|
      invariant 0 <= i <= |result|
      invariant forall j | 0 <= j < i :: !DeepEqual(result[j], item)
    {
      if DeepEqual(result[i], item) {
        return true;
      }
      i := i + 1;
    }
    return false;
  }

  /** `isDuplicate(item)` against the current `result` and `primitiveSet`. */
  method IsDuplicate(result: seq<Value>, primitiveSet: set<Primitive>, item: Value) returns (dup: bool)
    requires primitiveSet == PrimitivesOf(result)
    ensures dup <==> Seen(result, item)
  {
    if !item.IsObject() {
      PrimitiveLookup(result, item.p);
      return item.p in primitiveSet;
    }
    dup := SomeDeepEqual(result, item);
  }

  lemma PrimitivesOfAppend(result: seq<Value>, item: Value)
    ensures PrimitivesOf(result + [item])
         == PrimitivesOf(result) + (if item.Prim? then {item.p} else {})
  {
  }

  /** `addToResult(item)`: the new `result` and `primitiveSet`. */
  method AddToResult(result: seq<Value>, primitiveSet: set<Primitive>, item: Value)
    returns (result': seq<Value>, primitiveSet': set<Primitive>)
    requires primitiveSet == PrimitivesOf(result)
    ensures result' == Step(result, item)
    ensures primitiveSet' == PrimitivesOf(result')
  {
    result', primitiveSet' := result, primitiveSet;
    var dup := IsDuplicate(result, primitiveSet, item);
    if !dup {
      if !item.IsObject() {
        primitiveSet' := primitiveSet + {item.p};
      }
      result' := result + [item];
      PrimitivesOfAppend(result, item);
    }
  }

  /** `union(...args)` */
  method Union(args: seq<Argument>) returns (r: Result<seq<Value>>)
    ensures r == UnionSpec(args)
    ensures |args| != 2 ==> r == Failure(TypeError(ArityMessage))
    ensures |args| == 2 && !(IsArray(args[0]) && IsArray(args[1])) ==> r == Failure(TypeError(ArrayMessage))
    ensures |args| == 2 && IsArray(args[0]) && IsArray(args[1]) ==>
      var items := args[0].v.elems + args[1].v.elems;
      && r.Success?
      && NoDuplicates(r.value)
      && Kept(args[0].v.elems) <= r.value
      && (forall j | 0 <= j < |items| :: Seen(r.value, items[j]))
      && (forall k | 0 <= k < |r.value| :: r.value[k] in items)
      && (AllPlain(items) ==> NoDuplicatesEitherWay(r.value))
      && (AllPlain(items) ==> r.value == FirstOccurrences(items))
  {
    if |args| != 2 {
      return Failure(TypeError(ArityMessage));
    }
    if !IsArray(args[0]) || !IsArray(args[1]) {
      return Failure(TypeError(ArrayMessage));
    }
    var items := args[0].v.elems + args[1].v.elems;
    var primitiveSet: set<Primitive> := {};
    var result: seq<Value> := [];
    for i := 0 to |items|
      invariant result == Kept(items[..i])
      invariant primitiveSet == PrimitivesOf(result)
    {
      assert items[..i + 1][..i] == items[..i];
      result, primitiveSet := AddToResult(result, primitiveSet, items[i]);
    }
    assert items[..|items|] == items;
    KeptNoDuplicates(items);
    KeptExtendsKeptOfPrefix(args[0].v.elems, args[1].v.elems);
    KeptComplete(items);
    KeptFromInput(items);
    if AllPlain(items) {
      NoDuplicatesBothWaysOnPlain(items);
      KeptIsFirstOccurrences(items);
    }
    return Success(result);
  }

  // ---------------------------------------------------------------------------
  // What the result is.
  // ---------------------------------------------------------------------------

  /** The result never loses an item: each step appends at most one. */
  lemma {:induction false} KeptPrefix(xs: seq<Value>, n: nat)
    requires n <= |xs|
    ensures Kept(xs[..n]) <= Kept(xs)
    decreases |xs|
  {
    if n < |xs| {
      var init := xs[..|xs| - 1];
      assert init[..n] == xs[..n];
      KeptPrefix(init, n);
    } else {
      assert xs[..n] == xs;
    }
  }

  /** The survivors of `arr1` come first, in their own order. */
  lemma KeptExtendsKeptOfPrefix(a: seq<Value>, b: seq<Value>)
    ensures Kept(a) <= Kept(a + b)
  {
    assert (a + b)[..|a|] == a;
    KeptPrefix(a + b, |a|);
  }

  /** No item of the result is deep-equal to a later one, so none occurs twice. */
  lemma {:induction false} KeptNoDuplicates(xs: seq<Value>)
    ensures NoDuplicates(Kept(xs))
    ensures forall i, j | 0 <= i < j < |Kept(xs)| :: Kept(xs)[i] != Kept(xs)[j]
  {
    if xs != [] {
      KeptNoDuplicates(xs[..|xs| - 1]);
    }
    var out := Kept(xs);
    forall i, j | 0 <= i < j < |out| ensures out[i] != out[j] {
      DeepEqualReflexive(out[i]);
    }
  }

  /**
   * The positions in `xs` of the items of `Kept(xs)`: the result is a
   * subsequence of the input.
   */
  function Origins(xs: seq<Value>): (idx: seq<nat>)
    ensures |idx| == |Kept(xs)|
    ensures forall k | 0 <= k < |idx| :: idx[k] < |xs| && Kept(xs)[k] == xs[idx[k]]
    ensures forall k, l | 0 <= k < l < |idx| :: idx[k] < idx[l]
  {
    if xs == [] then []
    else
      var init := xs[..|xs| - 1];
      if Seen(Kept(init), xs[|xs| - 1]) then Origins(init) else Origins(init) + [|xs| - 1]
  }

  /** Every item of the result is an item of the input. */
  lemma KeptFromInput(xs: seq<Value>)
    ensures forall k | 0 <= k < |Kept(xs)| :: Kept(xs)[k] in xs
  {
    var idx := Origins(xs);
    forall k | 0 <= k < |Kept(xs)| ensures Kept(xs)[k] in xs {
      assert Kept(xs)[k] == xs[idx[k]];
    }
  }

  /**
   * On plain inputs no item of the result is deep-equal to any other. Elsewhere a
   * later item can be deep-equal to an earlier one (see `ReverseDuplicate` among
   * the examples), because `deepEqual` is then not symmetric.
   */
  lemma NoDuplicatesBothWaysOnPlain(xs: seq<Value>)
    requires AllPlain(xs)
    ensures NoDuplicatesEitherWay(Kept(xs))
  {
    var out := Kept(xs);
    KeptNoDuplicates(xs);
    KeptFromInput(xs);
    forall i, j | 0 <= i < |out| && 0 <= j < |out| && i != j
      ensures !DeepEqual(out[i], out[j])
    {
      if j < i && DeepEqual(out[i], out[j]) {
        assert Plain(out[i]) && Plain(out[j]);
        DeepEqualSymmetricOnPlain(out[i], out[j]);
        assert false;
      }
    }
  }

  /** Every item of the input has a deep-equal item in the result. */
  lemma {:induction false} KeptComplete(xs: seq<Value>)
    ensures forall j | 0 <= j < |xs| :: Seen(Kept(xs), xs[j])
  {
    if xs != [] {
      var init, last := xs[..|xs| - 1], xs[|xs| - 1];
      KeptComplete(init);
      var out := Kept(xs);
      assert Kept(init) <= out;
      forall j | 0 <= j < |xs| ensures Seen(out, xs[j]) {
        if j < |init| {
          assert Seen(Kept(init), init[j]);
          var k :| 0 <= k < |Kept(init)| && DeepEqual(Kept(init)[k], init[j]);
          assert DeepEqual(out[k], xs[j]);
        } else if !Seen(Kept(init), last) {
          DeepEqualReflexive(last);
          assert DeepEqual(out[|out| - 1], last);
        } else {
          var k :| 0 <= k < |Kept(init)| && DeepEqual(Kept(init)[k], last);
          assert DeepEqual(out[k], last);
        }
      }
    }
  }

  /** A sequence without duplicates passes through unchanged. */
  lemma {:induction false} KeptOfNoDuplicates(ys: seq<Value>)
    requires NoDuplicates(ys)
    ensures Kept(ys) == ys
  {
    if ys != [] {
      var init := ys[..|ys| - 1];
      KeptOfNoDuplicates(init);
      assert !Seen(init, ys[|ys| - 1]);
      assert init + [ys[|ys| - 1]] == ys;
    }
  }

  /** Taking the union of a result with nothing returns that result. */
  lemma KeptIdempotent(xs: seq<Value>)
    ensures Kept(Kept(xs)) == Kept(xs)
  {
    KeptNoDuplicates(xs);
    KeptOfNoDuplicates(Kept(xs));
  }

  /** With one side empty, `union` deduplicates the other side. */
  lemma UnionWithEmpty(a: seq<Value>)
    ensures UnionSpec([Defined(Arr(a)), Defined(Arr([]))]) == Success(Kept(a))
    ensures UnionSpec([Defined(Arr([])), Defined(Arr(a))]) == Success(Kept(a))
  {
    var empty: seq<Value> := [];
    assert a + empty == a && empty + a == a;
  }

  /** With one side empty, `union` returns the other side when it has no duplicates. */
  lemma UnionWithEmptySide(a: seq<Value>)
    requires NoDuplicates(a)
    ensures UnionSpec([Defined(Arr(a)), Defined(Arr([]))]) == Success(a)
    ensures UnionSpec([Defined(Arr([])), Defined(Arr(a))]) == Success(a)
  {
    UnionWithEmpty(a);
    KeptOfNoDuplicates(a);
  }

  /** Items that already have a deep-equal item in the result add nothing. */
  lemma {:induction false} KeptAbsorbs(a: seq<Value>, b: seq<Value>)
    requires forall j | 0 <= j < |b| :: Seen(Kept(a), b[j])
    ensures Kept(a + b) == Kept(a)
  {
    if b == [] {
      assert a + b == a;
    } else {
      var init := b[..|b| - 1];
      KeptAbsorbs(a, init);
      assert (a + b)[..|a + b| - 1] == a + init;
      assert Seen(Kept(a), b[|b| - 1]);
    }
  }

  /** `union(arr, arr)` is `union(arr, [])`. */
  lemma KeptSelfUnion(a: seq<Value>)
    ensures Kept(a + a) == Kept(a)
  {
    KeptComplete(a);
    KeptAbsorbs(a, a);
  }

  // ---------------------------------------------------------------------------
  // On values where `deepEqual` is an equivalence (see `Plain`), the result is
  // exactly the first occurrence of each class in the input.
  // ---------------------------------------------------------------------------

  /** The items of `xs` that no earlier item is deep-equal to. */
  function FirstOccurrences(xs: seq<Value>): seq<Value> {
    if xs == [] then []
    else
      var init, last := xs[..|xs| - 1], xs[|xs| - 1];
      FirstOccurrences(init)
        + (if exists m | 0 <= m < |init| :: DeepEqual(init[m], last) then [] else [last])
  }

  ghost predicate AllPlain(xs: seq<Value>) {
    forall i | 0 <= i < |xs| :: Plain(xs[i])
  }

  /** An item the result has a deep-equal item for matches some earlier input. */
  lemma SeenOnlyFromInput(xs: seq<Value>, x: Value)
    requires Seen(Kept(xs), x)
    ensures exists m | 0 <= m < |xs| :: DeepEqual(xs[m], x)
  {
    var out, idx := Kept(xs), Origins(xs);
    var j :| 0 <= j < |out| && DeepEqual(out[j], x);
    assert DeepEqual(xs[idx[j]], x);
  }

  /** On plain values, an item that matches some earlier input is a duplicate. */
  lemma SeenFromEarlierMatch(xs: seq<Value>, m: nat, x: Value)
    requires AllPlain(xs) && Plain(x)
    requires m < |xs| && DeepEqual(xs[m], x)
    ensures Seen(Kept(xs), x)
  {
    var out, idx := Kept(xs), Origins(xs);
    KeptComplete(xs);
    assert Seen(out, xs[m]);
    var j :| 0 <= j < |out| && DeepEqual(out[j], xs[m]);
    assert out[j] == xs[idx[j]];
    DeepEqualTransitiveOnPlain(out[j], xs[m], x);
  }

  lemma {:induction false} KeptIsFirstOccurrences(xs: seq<Value>)
    requires AllPlain(xs)
    ensures Kept(xs) == FirstOccurrences(xs)
  {
    if xs != [] {
      var init, last := xs[..|xs| - 1], xs[|xs| - 1];
      assert AllPlain(init);
      KeptIsFirstOccurrences(init);
      if Seen(Kept(init), last) {
        SeenOnlyFromInput(init, last);
      }
      if exists m | 0 <= m < |init| :: DeepEqual(init[m], last) {
        var m :| 0 <= m < |init| && DeepEqual(init[m], last);
        SeenFromEarlierMatch(init, m, last);
      }
    }
  }
}
