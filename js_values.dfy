/**
 * The JavaScript values that `union` and `deepEqual` in Union_ES6/union.js work on,
 * and the JavaScript property lookup `v[key]` that `deepEqual` relies on.
 *
 * A value is a primitive (an integral number, a string, a boolean or null), a plain
 * object (a finite map from property keys to values) or an array (a sequence of
 * values). `undefined`, functions, symbols, cyclic structures and non-integral
 * numbers are not values of this model.
 *
 * A property name is either an array index (the decimal numeral of a natural
 * number, as "7") or any other string. The model keeps the two kinds apart in
 * `Key`, so that `{"0": 1}` and `[1]` own the same key `Index(0)`; `KeyOfName` and
 * `NameOfKey` convert between names and keys and are inverse to each other.
 */
module JsValues {

  datatype Option<T> = None | Some(value: T)

  datatype Primitive = Num(n: int) | Str(s: string) | Bool(b: bool) | Null

  datatype PropertyKey = Index(i: nat) | Name(name: string)

  /** A property key in its one representation: a `Name` is never an index numeral. */
  type Key = k: PropertyKey | k.Name? ==> !IsCanonicalIndex(k.name) witness Index(0)

  datatype Value = Prim(p: Primitive) | Obj(fields: map<Key, Value>) | Arr(elems: seq<Value>)
  {
    /** `typeof v === 'object' && v !== null`: true of arrays and plain objects alike. */
    predicate IsObject() {
      !Prim?
    }
  }

  const LengthKey: Key := Name("length")
  const ProtoKey: Key := Name("__proto__")

  // ---------------------------------------------------------------------------
  // Array index keys. An array's own enumerable property names are the decimal
  // numerals of its indices, and a property name denotes an index only when it is
  // such a numeral exactly ("7", never "07" or "+7").
  // ---------------------------------------------------------------------------

  predicate IsDigit(c: char) {
    '0' <= c <= '9'
  }

  predicate IsDigits(k: string) {
    k == [] || (IsDigits(k[..|k| - 1]) && IsDigit(k[|k| - 1]))
  }

  /** A decimal numeral without a redundant leading zero. */
  predicate IsCanonicalIndex(k: string) {
    |k| >= 1 && IsDigits(k) && (k[0] == '0' ==> |k| == 1)
  }

  function DigitChar(d: nat): (c: char)
    requires d < 10
    ensures IsDigit(c)
  {
    ('0' as int + d) as char
  }

  function DigitValue(c: char): (d: nat)
    requires IsDigit(c)
    ensures d < 10 && DigitChar(d) == c
  {
    c as int - '0' as int
  }

  /** The property name under which an array stores its element at index `i`. */
  function IndexName(i: nat): (k: string)
    ensures IsCanonicalIndex(k)
    ensures i >= 10 ==> |k| >= 2
  {
    if i < 10 then [DigitChar(i)] else IndexName(i / 10) + [DigitChar(i % 10)]
  }

  function DecimalValue(k: string): nat
    requires IsDigits(k)
  {
    if k == [] then 0 else DecimalValue(k[..|k| - 1]) * 10 + DigitValue(k[|k| - 1])
  }

  lemma {:induction false} DecimalValueOfIndexName(i: nat)
    ensures DecimalValue(IndexName(i)) == i
  {
    if i >= 10 {
      var k := IndexName(i);
      assert k[..|k| - 1] == IndexName(i / 10);
      DecimalValueOfIndexName(i / 10);
    }
  }

  lemma {:induction false} FirstIsDigit(k: string)
    requires |k| >= 1 && IsDigits(k)
    ensures IsDigit(k[0])
  {
    if |k| >= 2 {
      var p := k[..|k| - 1];
      assert p[0] == k[0];
      FirstIsDigit(p);
    }
  }

  lemma {:induction false} DecimalValueAtLeastTen(k: string)
    requires |k| >= 2 && IsDigits(k) && '1' <= k[0] <= '9'
    ensures DecimalValue(k) >= 10
  {
    var p := k[..|k| - 1];
    assert p[0] == k[0];
    if |p| == 1 {
      assert p[..0] == [];
      assert DecimalValue(p) == DecimalValue(p[..0]) * 10 + DigitValue(p[0]);
    } else {
      DecimalValueAtLeastTen(p);
    }
  }

  /** Every property name that denotes an index is that index's key. */
  lemma {:induction false} IndexNameOfNumeral(k: string)
    requires IsCanonicalIndex(k)
    ensures IndexName(DecimalValue(k)) == k
  {
    var i := DecimalValue(k);
    if |k| == 1 {
      assert k[..0] == [] && DecimalValue([]) == 0;
      assert DecimalValue(k) == DecimalValue(k[..0]) * 10 + DigitValue(k[0]);
      assert IndexName(i) == [DigitChar(DigitValue(k[0]))] == k;
    } else {
      var p := k[..|k| - 1];
      assert p[0] == k[0];
      assert IsCanonicalIndex(p);
      FirstIsDigit(k);
      DecimalValueAtLeastTen(k);
      assert i / 10 == DecimalValue(p) && i % 10 == DigitValue(k[|k| - 1]);
      IndexNameOfNumeral(p);
      assert k == p + [k[|k| - 1]];
    }
  }

  // `Object.keys` yields property names as strings, and `obj2[key]` reads such a
  // name back as a key. The two lemmas below show that names and keys are in
  // one-to-one correspondence, which justifies working with `Key` throughout.

  /** How a property name is read as a key. */
  function KeyOfName(name: string): Key {
    if IsCanonicalIndex(name) then Index(DecimalValue(name)) else Name(name)
  }

  /** The property name a key stands for. */
  function NameOfKey(k: Key): string {
    match k
    case Index(i) => IndexName(i)
    case Name(name) => name
  }

  lemma KeyOfNameOfKey(k: Key)
    ensures KeyOfName(NameOfKey(k)) == k
  {
    if k.Index? {
      DecimalValueOfIndexName(k.i);
    }
  }

  lemma NameOfKeyOfName(name: string)
    ensures NameOfKey(KeyOfName(name)) == name
  {
    if IsCanonicalIndex(name) {
      IndexNameOfNumeral(name);
    }
  }

  /** `Object.keys` of an array of length `n`, as a set. */
  function IndexKeys(n: nat): set<Key> {
    set i | 0 <= i < n :: Index(i)
  }

  lemma {:induction false} IndexKeysCount(n: nat)
    ensures |IndexKeys(n)| == n
  {
    if n > 0 {
      IndexKeysCount(n - 1);
      assert IndexKeys(n) == IndexKeys(n - 1) + {Index(n - 1)};
    }
  }

  // ---------------------------------------------------------------------------
  // Property lookup `v[key]` and `Object.keys(v).length` on an object or array.
  // ---------------------------------------------------------------------------

  /** `Object.keys(v)` of an object or array, as a set. */
  function OwnKeys(v: Value): set<Key>
    requires v.IsObject()
  {
    match v
    case Obj(m) => m.Keys
    case Arr(s) => IndexKeys(|s|)
  }

  /** `Object.keys(v).length` */
  function KeyCount(v: Value): (n: nat)
    requires v.IsObject()
    ensures n == |OwnKeys(v)|
  {
    match v
    case Obj(m) => assert |m| == |m.Keys|; |m|
    case Arr(s) => IndexKeysCount(|s|); |s|
  }

  /**
   * `v[key]` for a key that is not an own property of `v`. The one inherited
   * property whose value is not a function is `__proto__`, the prototype, which
   * has no enumerable keys and so compares like an empty object. `None` stands
   * for `undefined` and for functions: neither is ever deep-equal to a value.
   */
  function Inherited(key: Key): Option<Value> {
    if key == ProtoKey then Some(Obj(map[])) else None
  }

  /**
   * `v[key]` on an object or array `v`. Every key that `Object.keys(v)` lists is
   * found with its value; beyond those, only an array's (non-enumerable) "length" and the
   * inherited "__proto__" give a value.
   */
  function Get(v: Value, key: Key): (r: Option<Value>)
    requires v.IsObject()
    ensures key in OwnKeys(v) ==> r.Some?
    ensures v.Obj? && key in v.fields ==> r == Some(v.fields[key])
    ensures v.Arr? && key.Index? && key.i < |v.elems| ==> r == Some(v.elems[key.i])
    ensures v.Arr? && key == LengthKey ==> r == Some(Prim(Num(|v.elems|)))
    ensures r.Some? && key !in OwnKeys(v) ==> (v.Arr? && key == LengthKey) || key == ProtoKey
    ensures key == ProtoKey && key !in OwnKeys(v) ==> r == Some(Obj(map[]))
  {
    match v
    case Obj(m) => if key in m then Some(m[key]) else Inherited(key)
    case Arr(s) =>
      if key.Index? && key.i < |s| then Some(s[key.i])
      else if key == LengthKey then Some(Prim(Num(|s|)))
      else Inherited(key)
  }
}
