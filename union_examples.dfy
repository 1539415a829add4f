/**
 * The scenarios of Union_ES6/union.test.js, as facts about `UnionSpec`.
 */
module UnionExamples {
  import opened JsValues
  import opened DeepEquality
  import opened Union

  function N(n: int): Value {
    Prim(Num(n))
  }

  function S(s: string): Value {
    Prim(Str(s))
  }

  function Array(xs: seq<Value>): Argument {
    Defined(Arr(xs))
  }

  /** One call of `addToResult` on an item that nothing in the result is deep-equal to. */
  lemma Appends(xs: seq<Value>, out: seq<Value>, x: Value)
    requires Kept(xs) == out
    requires forall j | 0 <= j < |out| :: !DeepEqual(out[j], x)
    ensures Kept(xs + [x]) == out + [x]
  {
    assert (xs + [x])[..|xs|] == xs;
  }

  /** One call of `addToResult` on an item that the result already has. */
  lemma Skips(xs: seq<Value>, out: seq<Value>, j: nat, x: Value)
    requires Kept(xs) == out
    requires j < |out| && DeepEqual(out[j], x)
    ensures Kept(xs + [x]) == out
  {
    assert (xs + [x])[..|xs|] == xs;
  }

  // The shapes of the inputs in the scenarios, over values that are pairwise
  // not deep-equal.

  lemma KeptOne(x: Value)
    ensures Kept([x]) == [x]
  {
    Appends([], [], x);
    assert [] + [x] == [x];
  }

  lemma KeptTwo(x: Value, y: Value)
    requires !DeepEqual(x, y)
    ensures Kept([x, y]) == [x, y]
  {
    KeptOne(x);
    Appends([x], [x], y);
    assert [x] + [y] == [x, y];
  }

  lemma KeptThree(x: Value, y: Value, z: Value)
    requires !DeepEqual(x, y) && !DeepEqual(x, z) && !DeepEqual(y, z)
    ensures Kept([x, y, z]) == [x, y, z]
  {
    KeptTwo(x, y);
    Appends([x, y], [x, y], z);
    assert [x, y] + [z] == [x, y, z];
  }

  lemma KeptThreeThenMiddle(w: Value, x: Value, y: Value)
    requires !DeepEqual(w, x) && !DeepEqual(w, y) && !DeepEqual(x, y)
    ensures Kept([w, x, y, x, y]) == [w, x, y]
  {
    var a := [w, x, y];
    KeptThree(w, x, y);
    DeepEqualReflexive(x);
    DeepEqualReflexive(y);
    Skips(a, a, 1, x);
    Skips(a + [x], a, 2, y);
    assert a + [x] + [y] == [w, x, y, x, y];
  }

  /** `[w, x, y]` then `[x, y, z]` */
  lemma KeptOverlapOfTwo(w: Value, x: Value, y: Value, z: Value)
    requires !DeepEqual(w, x) && !DeepEqual(w, y) && !DeepEqual(x, y)
    requires !DeepEqual(w, z) && !DeepEqual(x, z) && !DeepEqual(y, z)
    ensures Kept([w, x, y, x, y, z]) == [w, x, y, z]
  {
    KeptThreeThenMiddle(w, x, y);
    Appends([w, x, y, x, y], [w, x, y], z);
    assert [w, x, y, x, y] + [z] == [w, x, y, x, y, z];
    assert [w, x, y] + [z] == [w, x, y, z];
  }

  lemma KeptThreeThenLast(a: Value, b: Value, c: Value)
    requires !DeepEqual(a, b) && !DeepEqual(a, c) && !DeepEqual(b, c)
    ensures Kept([a, b, c, c]) == [a, b, c]
  {
    KeptThree(a, b, c);
    DeepEqualReflexive(c);
    Skips([a, b, c], [a, b, c], 2, c);
    assert [a, b, c] + [c] == [a, b, c, c];
  }

  /** `[a, b, c]` then `[c, d, e]` */
  lemma KeptOverlapOfOne(a: Value, b: Value, c: Value, d: Value, e: Value)
    requires !DeepEqual(a, b) && !DeepEqual(a, c) && !DeepEqual(b, c)
    requires !DeepEqual(a, d) && !DeepEqual(b, d) && !DeepEqual(c, d)
    requires !DeepEqual(a, e) && !DeepEqual(b, e) && !DeepEqual(c, e) && !DeepEqual(d, e)
    ensures Kept([a, b, c, c, d, e]) == [a, b, c, d, e]
  {
    var s, t := [a, b, c, c], [a, b, c];
    KeptThreeThenLast(a, b, c);
    Appends(s, t, d);
    assert t + [d] == [a, b, c, d];
    Appends(s + [d], [a, b, c, d], e);
    assert s + [d] + [e] == [a, b, c, c, d, e];
    assert [a, b, c, d] + [e] == [a, b, c, d, e];
  }

  /** `[x]` then `[x, y]` */
  lemma KeptRepeatOfFirst(x: Value, y: Value)
    requires !DeepEqual(x, y)
    ensures Kept([x, x, y]) == [x, y]
  {
    KeptOne(x);
    DeepEqualReflexive(x);
    Skips([x], [x], 0, x);
    Appends([x] + [x], [x], y);
    assert [x] + [x] + [y] == [x, x, y];
    assert [x] + [y] == [x, y];
  }

  /** `[x, y]` then `[x, z]` */
  lemma KeptRepeatOfPair(x: Value, y: Value, z: Value)
    requires !DeepEqual(x, y) && !DeepEqual(x, z) && !DeepEqual(y, z)
    ensures Kept([x, y, x, z]) == [x, y, z]
  {
    KeptTwo(x, y);
    DeepEqualReflexive(x);
    Skips([x, y], [x, y], 0, x);
    Appends([x, y] + [x], [x, y], z);
    assert [x, y] + [x] + [z] == [x, y, x, z];
    assert [x, y] + [z] == [x, y, z];
  }

  /** `union([x], [x, y])` */
  lemma UnionOfRepeatThenOther(x: Value, y: Value)
    requires !DeepEqual(x, y)
    ensures UnionSpec([Array([x]), Array([x, y])]) == Success([x, y])
  {
    KeptRepeatOfFirst(x, y);
    assert [x] + [x, y] == [x, x, y];
  }

  // The scenarios.

  lemma UnionOfNumbers()
    ensures UnionSpec([Array([N(1), N(2), N(3)]), Array([N(2), N(3), N(4)])])
         == Success([N(1), N(2), N(3), N(4)])
  {
    KeptOverlapOfTwo(N(1), N(2), N(3), N(4));
    assert [N(1), N(2), N(3)] + [N(2), N(3), N(4)] == [N(1), N(2), N(3), N(2), N(3), N(4)];
  }

  lemma UnionOfStringsKeepsOrder()
    ensures UnionSpec([Array([S("a"), S("b"), S("c")]), Array([S("c"), S("d"), S("e")])])
         == Success([S("a"), S("b"), S("c"), S("d"), S("e")])
  {
    KeptOverlapOfOne(S("a"), S("b"), S("c"), S("d"), S("e"));
    assert [S("a"), S("b"), S("c")] + [S("c"), S("d"), S("e")]
        == [S("a"), S("b"), S("c"), S("c"), S("d"), S("e")];
  }

  const A: Key := Name("a")
  const B: Key := Name("b")
  const C: Key := Name("c")
  const D: Key := Name("d")

  /** `{a: 1, b: 2}` and `{a: 3}` differ in their number of keys. */
  lemma DifferentKeyCounts()
    ensures !DeepEqual(Obj(map[A := N(1), B := N(2)]), Obj(map[A := N(3)]))
  {
    assert |map[A := N(1), B := N(2)]| == 2;
  }

  lemma UnionOfObjects()
    ensures UnionSpec([
              Array([Obj(map[A := N(1), B := N(2)])]),
              Array([Obj(map[A := N(1), B := N(2)]), Obj(map[A := N(3)])])])
         == Success([Obj(map[A := N(1), B := N(2)]), Obj(map[A := N(3)])])
  {
    DifferentKeyCounts();
    UnionOfRepeatThenOther(Obj(map[A := N(1), B := N(2)]), Obj(map[A := N(3)]));
  }

  /** Two arrays of primitives whose first elements differ are not deep-equal. */
  lemma FirstElementsDiffer(s: seq<Value>, t: seq<Value>)
    requires |s| >= 1 && |t| >= 1 && s[0].Prim? && t[0].Prim? && s[0] != t[0]
    ensures !DeepEqual(Arr(s), Arr(t))
  {
    assert Get(Arr(t), Index(0)) == Some(t[0]);
  }

  lemma UnionOfArrays()
    ensures UnionSpec([
              Array([Arr([N(1), N(2)]), Arr([N(3), N(4)])]),
              Array([Arr([N(1), N(2)]), Arr([N(5), N(6)])])])
         == Success([Arr([N(1), N(2)]), Arr([N(3), N(4)]), Arr([N(5), N(6)])])
  {
    var x, y, z := Arr([N(1), N(2)]), Arr([N(3), N(4)]), Arr([N(5), N(6)]);
    FirstElementsDiffer(x.elems, y.elems);
    FirstElementsDiffer(x.elems, z.elems);
    FirstElementsDiffer(y.elems, z.elems);
    KeptRepeatOfPair(x, y, z);
    assert [x, y] + [x, z] == [x, y, x, z];
  }

  /** `{a: {b: {c: 3}}}` and `{a: {b: {d: 4}}}` differ two levels down. */
  lemma NestedObjectsDiffer()
    ensures !DeepEqual(Obj(map[A := Obj(map[B := Obj(map[C := N(3)])])]),
                       Obj(map[A := Obj(map[B := Obj(map[D := N(4)])])]))
  {
    var c, d := Obj(map[C := N(3)]), Obj(map[D := N(4)]);
    assert !DeepEqual(c, d) by {
      assert Get(d, C) == None;
    }
    assert !DeepEqual(Obj(map[B := c]), Obj(map[B := d])) by {
      assert Get(Obj(map[B := d]), B) == Some(d);
    }
    assert Get(Obj(map[A := Obj(map[B := d])]), A) == Some(Obj(map[B := d]));
  }

  lemma UnionOfNestedObjects()
    ensures UnionSpec([
              Array([Obj(map[A := Obj(map[B := Obj(map[C := N(3)])])])]),
              Array([Obj(map[A := Obj(map[B := Obj(map[C := N(3)])])]),
                     Obj(map[A := Obj(map[B := Obj(map[D := N(4)])])])])])
         == Success([Obj(map[A := Obj(map[B := Obj(map[C := N(3)])])]),
                     Obj(map[A := Obj(map[B := Obj(map[D := N(4)])])])])
  {
    NestedObjectsDiffer();
    UnionOfRepeatThenOther(Obj(map[A := Obj(map[B := Obj(map[C := N(3)])])]),
                           Obj(map[A := Obj(map[B := Obj(map[D := N(4)])])]));
  }

  /**
   * `union([[v]], [{length: 1}])` keeps both items, yet the later one is
   * deep-equal to the earlier: `[v].length` is 1, while `{length: 1}` has no key "0".
   */
  lemma ReverseDuplicate(v: Value)
    ensures UnionSpec([Array([Arr([v])]), Array([Obj(map[LengthKey := N(1)])])])
         == Success([Arr([v]), Obj(map[LengthKey := N(1)])])
    ensures DeepEqual(Obj(map[LengthKey := N(1)]), Arr([v]))
  {
    var o := Obj(map[LengthKey := N(1)]);
    LengthMakesDeepEqualAsymmetric(v);
    KeptTwo(Arr([v]), o);
    assert [Arr([v])] + [o] == [Arr([v]), o];
  }

  lemma UnionOfEmptyArrays()
    ensures UnionSpec([Array([]), Array([])]) == Success([])
  {
    var empty: seq<Value> := [];
    assert empty + empty == empty;
  }

  lemma UnionWithEmptySecond()
    ensures UnionSpec([Array([N(1), N(2), N(3)]), Array([])]) == Success([N(1), N(2), N(3)])
  {
    KeptThree(N(1), N(2), N(3));
    assert [N(1), N(2), N(3)] + [] == [N(1), N(2), N(3)];
  }

  lemma UnionWithEmptyFirst()
    ensures UnionSpec([Array([]), Array([N(1), N(2), N(3)])]) == Success([N(1), N(2), N(3)])
  {
    KeptThree(N(1), N(2), N(3));
    assert [] + [N(1), N(2), N(3)] == [N(1), N(2), N(3)];
  }

  lemma NonArrayArgumentsThrow()
    ensures UnionSpec([Defined(Prim(Null)), Array([N(1), N(2), N(3)])]) == Failure(TypeError(ArrayMessage))
    ensures UnionSpec([Undefined, Array([N(1), N(2), N(3)])]) == Failure(TypeError(ArrayMessage))
    ensures UnionSpec([Defined(N(123)), Array([N(1), N(2), N(3)])]) == Failure(TypeError(ArrayMessage))
    ensures UnionSpec([Defined(S("string")), Array([N(1), N(2), N(3)])]) == Failure(TypeError(ArrayMessage))
    ensures UnionSpec([Defined(Obj(map[])), Array([N(1), N(2), N(3)])]) == Failure(TypeError(ArrayMessage))
  {
  }

  lemma WrongArgumentCountThrows()
    ensures UnionSpec([Array([N(1), N(2), N(3)])]) == Failure(TypeError(ArityMessage))
    ensures UnionSpec([]) == Failure(TypeError(ArityMessage))
    ensures UnionSpec([Array([N(1), N(2)]), Array([N(3), N(4)]), Array([N(5), N(6)])])
         == Failure(TypeError(ArityMessage))
  {
  }
}
