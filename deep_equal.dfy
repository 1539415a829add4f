/**
 * `deepEqual` of Union_ES6/union.js: a recursive comparison of two values that
 * walks the own enumerable keys of the first one and looks each of them up in the
 * second. Arrays and plain objects are told apart by neither the comparison nor
 * the lookup, and the lookup `obj2[key]` also reaches an array's `length` and the
 * inherited `__proto__`; the lemmas of this module state what that means.
 */
module DeepEquality {
  import opened JsValues

  /**
   * `x === y` between two values. On objects and arrays `===` is identity, which a
   * model of values cannot observe; no two of them count as identical here, and
   * `DeepEqualReflexive` shows that the structural comparison then reaches the
   * answer the identity shortcut would have given.
   */
  predicate StrictEquals(x: Value, y: Value) {
    x.Prim? && y.Prim? && x == y
  }

  function DeepEqual(x: Value, y: Value): (r: bool)
    decreases x
    ensures !x.IsObject() || !y.IsObject() ==> (r <==> x == y)
    ensures r && x.IsObject() ==> y.IsObject() && KeyCount(x) == KeyCount(y)
  {
    if StrictEquals(x, y) then true
    else if !x.IsObject() || !y.IsObject() then false
    else if KeyCount(x) != KeyCount(y) then false
    else
      match x
      case Obj(m) =>
        forall key | key in m :: Get(y, key).Some? && DeepEqual(m[key], Get(y, key).value)
      case Arr(s) =>
        forall i | 0 <= i < |s| :: Get(y, Index(i)).Some? && DeepEqual(s[i], Get(y, Index(i)).value)
  }

  /** Every value is deep-equal to itself, so the `===` shortcut changes no answer. */
  lemma {:induction false} DeepEqualReflexive(x: Value)
    ensures DeepEqual(x, x)
    decreases x
  {
    match x
    case Prim(_) =>
    case Obj(m) =>
      forall key | key in m
        ensures Get(x, key).Some? && DeepEqual(m[key], Get(x, key).value)
      {
        DeepEqualReflexive(m[key]);
      }
    case Arr(s) =>
      forall i | 0 <= i < |s|
        ensures Get(x, Index(i)).Some? && DeepEqual(s[i], Get(x, Index(i)).value)
      {
        DeepEqualReflexive(s[i]);
      }
  }

  // ---------------------------------------------------------------------------
  // Arrays and objects are not told apart.
  // ---------------------------------------------------------------------------

  /** The plain object with the same own properties as the array `s`. */
  function IndexedObject(s: seq<Value>): (o: Value)
    ensures o.Obj? && o.fields.Keys == IndexKeys(|s|)
    ensures forall i | 0 <= i < |s| :: o.fields[Index(i)] == s[i]
  {
    Obj(map key | key in IndexKeys(|s|) && key.Index? && key.i < |s| :: s[key.i])
  }

  /** An array and the object with the same index keys are deep-equal, either way round. */
  lemma ArrayEqualsIndexedObject(s: seq<Value>)
    ensures DeepEqual(Arr(s), IndexedObject(s))
    ensures DeepEqual(IndexedObject(s), Arr(s))
  {
    var o := IndexedObject(s);
    IndexKeysCount(|s|);
    assert |o.fields| == |o.fields.Keys|;
    forall i | 0 <= i < |s|
      ensures Get(o, Index(i)).Some? && DeepEqual(s[i], Get(o, Index(i)).value)
    {
      DeepEqualReflexive(s[i]);
    }
    forall key | key in o.fields
      ensures Get(Arr(s), key).Some? && DeepEqual(o.fields[key], Get(Arr(s), key).value)
    {
      DeepEqualReflexive(s[key.i]);
    }
  }

  // ---------------------------------------------------------------------------
  // The lookup `obj2[key]` answers keys that the second value does not own.
  // ---------------------------------------------------------------------------

  /**
   * An object whose only key is "length" is deep-equal to every one-element array,
   * because `[v]["length"]` is 1; the other way round, the array's key "0" finds
   * nothing in the object. So `deepEqual` is not symmetric.
   */
  lemma LengthMakesDeepEqualAsymmetric(v: Value)
    ensures DeepEqual(Obj(map[LengthKey := Prim(Num(1))]), Arr([v]))
    ensures !DeepEqual(Arr([v]), Obj(map[LengthKey := Prim(Num(1))]))
  {
    var o := Obj(map[LengthKey := Prim(Num(1))]);
    assert Get(Arr([v]), LengthKey) == Some(Prim(Num(1)));
    assert Get(o, Index(0)) == None;
  }

  /**
   * An object whose only key is "__proto__", holding an object without keys, is
   * deep-equal to every object with one key: `obj2.__proto__` is the prototype,
   * which has no enumerable keys either. The other way round it is not.
   */
  lemma ProtoMakesDeepEqualAsymmetric(key: Key, v: Value)
    requires key != ProtoKey
    ensures DeepEqual(Obj(map[ProtoKey := Obj(map[])]), Obj(map[key := v]))
    ensures !DeepEqual(Obj(map[key := v]), Obj(map[ProtoKey := Obj(map[])]))
  {
    var o := Obj(map[ProtoKey := Obj(map[])]);
    assert Get(Obj(map[key := v]), ProtoKey) == Some(Obj(map[]));
    assert DeepEqual(Obj(map[]), Obj(map[]));
    assert Get(o, key) == None;
  }

  // ---------------------------------------------------------------------------
  // Away from those two keys `deepEqual` is equality of a canonical form in which
  // every array is replaced by its indexed object.
  // ---------------------------------------------------------------------------

  /** No object anywhere inside `v` owns the key "length" or "__proto__". */
  ghost predicate Plain(v: Value)
    decreases v
  {
    match v
    case Prim(_) => true
    case Obj(m) => LengthKey !in m && ProtoKey !in m && forall key | key in m :: Plain(m[key])
    case Arr(s) => forall i | 0 <= i < |s| :: Plain(s[i])
  }

  /** `v` with every array, at every depth, replaced by the object of its index keys. */
  ghost function Canon(v: Value): (c: Value)
    decreases v
    ensures c.Prim? <==> v.Prim?
    ensures v.Prim? ==> c == v
  {
    match v
    case Prim(_) => v
    case Obj(m) => Obj(map key | key in m :: Canon(m[key]))
    case Arr(s) => Obj(map key | key in IndexKeys(|s|) && key.Index? && key.i < |s| :: Canon(s[key.i]))
  }

  lemma SubsetOfSameSize(a: set<Key>, b: set<Key>)
    requires a <= b && |a| == |b|
    ensures a == b
  {
    assert b == a + (b - a);
    assert a * (b - a) == {};
  }

  /** For values without the two special keys, `deepEqual` compares canonical forms. */
  lemma {:induction false} DeepEqualIsCanonEquality(x: Value, y: Value)
    requires Plain(x) && Plain(y)
    ensures DeepEqual(x, y) <==> Canon(x) == Canon(y)
    decreases x, 1
  {
    if x.IsObject() && y.IsObject() {
      if DeepEqual(x, y) {
        match x
        case Obj(m) =>
          if y.Obj? { ObjectsEqualCanon(m, y.fields); } else { ObjectArrayEqualCanon(m, y.elems); }
        case Arr(t) =>
          if y.Obj? { ArrayObjectEqualCanon(t, y.fields); } else { ArraysEqualCanon(t, y.elems); }
      }
      if Canon(x) == Canon(y) {
        match x
        case Obj(m) =>
          if y.Obj? { CanonObjectsEqual(m, y.fields); } else { CanonObjectArrayEqual(m, y.elems); }
        case Arr(t) =>
          if y.Obj? { CanonArrayObjectEqual(t, y.fields); } else { CanonArraysEqual(t, y.elems); }
      }
    }
  }

  lemma {:induction false} ObjectsEqualCanon(m: map<Key, Value>, n: map<Key, Value>)
    requires Plain(Obj(m)) && Plain(Obj(n)) && DeepEqual(Obj(m), Obj(n))
    ensures Canon(Obj(m)) == Canon(Obj(n))
    decreases Obj(m), 0
  {
    assert |m| == |m.Keys| && |n| == |n.Keys|;
    forall key | key in m
      ensures key in n && Canon(m[key]) == Canon(n[key])
    {
      assert Get(Obj(n), key).Some?;
      DeepEqualIsCanonEquality(m[key], n[key]);
    }
    SubsetOfSameSize(m.Keys, n.Keys);
  }

  lemma {:induction false} CanonObjectsEqual(m: map<Key, Value>, n: map<Key, Value>)
    requires Plain(Obj(m)) && Plain(Obj(n)) && Canon(Obj(m)) == Canon(Obj(n))
    ensures DeepEqual(Obj(m), Obj(n))
    decreases Obj(m), 0
  {
    var cm, cn := Canon(Obj(m)).fields, Canon(Obj(n)).fields;
    assert m.Keys == cm.Keys == cn.Keys == n.Keys;
    assert |m| == |m.Keys| && |n| == |n.Keys|;
    forall key | key in m
      ensures Get(Obj(n), key).Some? && DeepEqual(m[key], Get(Obj(n), key).value)
    {
      assert cm[key] == cn[key];
      DeepEqualIsCanonEquality(m[key], n[key]);
    }
  }

  lemma {:induction false} ObjectArrayEqualCanon(m: map<Key, Value>, s: seq<Value>)
    requires Plain(Obj(m)) && Plain(Arr(s)) && DeepEqual(Obj(m), Arr(s))
    ensures Canon(Obj(m)) == Canon(Arr(s))
    decreases Obj(m), 0
  {
    var cm, cs := Canon(Obj(m)).fields, Canon(Arr(s)).fields;
    IndexKeysCount(|s|);
    assert |m| == |m.Keys|;
    assert cs.Keys == IndexKeys(|s|);
    forall key | key in m
      ensures key in IndexKeys(|s|) && cm[key] == cs[key]
    {
      assert Get(Arr(s), key).Some?;
      DeepEqualIsCanonEquality(m[key], s[key.i]);
    }
    SubsetOfSameSize(m.Keys, IndexKeys(|s|));
  }

  lemma {:induction false} CanonObjectArrayEqual(m: map<Key, Value>, s: seq<Value>)
    requires Plain(Obj(m)) && Plain(Arr(s)) && Canon(Obj(m)) == Canon(Arr(s))
    ensures DeepEqual(Obj(m), Arr(s))
    decreases Obj(m), 0
  {
    var cm, cs := Canon(Obj(m)).fields, Canon(Arr(s)).fields;
    IndexKeysCount(|s|);
    assert |m| == |m.Keys|;
    assert m.Keys == cm.Keys == cs.Keys == IndexKeys(|s|);
    assert KeyCount(Obj(m)) == KeyCount(Arr(s));
    forall key | key in m
      ensures Get(Arr(s), key).Some? && DeepEqual(m[key], Get(Arr(s), key).value)
    {
      assert key in IndexKeys(|s|) && cm[key] == cs[key];
      DeepEqualIsCanonEquality(m[key], s[key.i]);
    }
  }

  lemma {:induction false} ArrayObjectEqualCanon(t: seq<Value>, n: map<Key, Value>)
    requires Plain(Arr(t)) && Plain(Obj(n)) && DeepEqual(Arr(t), Obj(n))
    ensures Canon(Arr(t)) == Canon(Obj(n))
    decreases Arr(t), 0
  {
    var ct, cn := Canon(Arr(t)).fields, Canon(Obj(n)).fields;
    IndexKeysCount(|t|);
    assert |n| == |n.Keys|;
    assert ct.Keys == IndexKeys(|t|);
    forall key | key in IndexKeys(|t|)
      ensures key in n && ct[key] == cn[key]
    {
      assert Get(Obj(n), Index(key.i)).Some?;
      DeepEqualIsCanonEquality(t[key.i], n[key]);
    }
    SubsetOfSameSize(IndexKeys(|t|), n.Keys);
  }

  lemma {:induction false} CanonArrayObjectEqual(t: seq<Value>, n: map<Key, Value>)
    requires Plain(Arr(t)) && Plain(Obj(n)) && Canon(Arr(t)) == Canon(Obj(n))
    ensures DeepEqual(Arr(t), Obj(n))
    decreases Arr(t), 0
  {
    var ct, cn := Canon(Arr(t)).fields, Canon(Obj(n)).fields;
    IndexKeysCount(|t|);
    assert |n| == |n.Keys|;
    assert n.Keys == cn.Keys == ct.Keys == IndexKeys(|t|);
    assert KeyCount(Arr(t)) == KeyCount(Obj(n));
    forall i | 0 <= i < |t|
      ensures Get(Obj(n), Index(i)).Some? && DeepEqual(t[i], Get(Obj(n), Index(i)).value)
    {
      assert Index(i) in IndexKeys(|t|) && ct[Index(i)] == cn[Index(i)];
      DeepEqualIsCanonEquality(t[i], n[Index(i)]);
    }
  }

  lemma {:induction false} ArraysEqualCanon(t: seq<Value>, s: seq<Value>)
    requires Plain(Arr(t)) && Plain(Arr(s)) && DeepEqual(Arr(t), Arr(s))
    ensures Canon(Arr(t)) == Canon(Arr(s))
    decreases Arr(t), 0
  {
    var ct, cs := Canon(Arr(t)).fields, Canon(Arr(s)).fields;
    assert ct.Keys == IndexKeys(|t|) && cs.Keys == IndexKeys(|s|);
    forall i | 0 <= i < |t|
      ensures ct[Index(i)] == cs[Index(i)]
    {
      DeepEqualIsCanonEquality(t[i], s[i]);
    }
  }

  lemma {:induction false} CanonArraysEqual(t: seq<Value>, s: seq<Value>)
    requires Plain(Arr(t)) && Plain(Arr(s)) && Canon(Arr(t)) == Canon(Arr(s))
    ensures DeepEqual(Arr(t), Arr(s))
    decreases Arr(t), 0
  {
    var ct, cs := Canon(Arr(t)).fields, Canon(Arr(s)).fields;
    assert ct.Keys == IndexKeys(|t|) && cs.Keys == IndexKeys(|s|);
    IndexKeysCount(|t|);
    IndexKeysCount(|s|);
    assert |t| == |s|;
    forall i | 0 <= i < |t|
      ensures Get(Arr(s), Index(i)).Some? && DeepEqual(t[i], Get(Arr(s), Index(i)).value)
    {
      assert Index(i) in IndexKeys(|t|) && ct[Index(i)] == cs[Index(i)];
      DeepEqualIsCanonEquality(t[i], s[i]);
    }
  }

  lemma DeepEqualSymmetricOnPlain(x: Value, y: Value)
    requires Plain(x) && Plain(y) && DeepEqual(x, y)
    ensures DeepEqual(y, x)
  {
    DeepEqualIsCanonEquality(x, y);
    DeepEqualIsCanonEquality(y, x);
  }

  lemma DeepEqualTransitiveOnPlain(x: Value, y: Value, z: Value)
    requires Plain(x) && Plain(y) && Plain(z)
    requires DeepEqual(x, y) && DeepEqual(y, z)
    ensures DeepEqual(x, z)
  {
    DeepEqualIsCanonEquality(x, y);
    DeepEqualIsCanonEquality(y, z);
    DeepEqualIsCanonEquality(x, z);
  }
}
