# union: an order-preserving, deduplicating union of two JavaScript arrays

This project models `union(arr1, arr2)` and `deepEqual(obj1, obj2)` from
`Union_ES6/union.js` in Dafny and proves what the result of `union` is.

`union` works in four steps:
- It throws a `TypeError` unless it gets exactly two arguments.
- It throws a `TypeError` unless both arguments are arrays.
- It walks `[...arr1, ...arr2]` once. Each item that is not a duplicate of an item already in `result` is appended there.
- It returns `result`.

Duplicates are detected in two ways:
- A primitive item is looked up in `primitiveSet`, which holds the primitives already kept.
- An object or array item is compared with `deepEqual(existingItem, item)` against every item of `result`.

`deepEqual` walks the own enumerable keys of its first argument and looks up each one in the second with `obj2[key]`.

The modules follow the code:

- `JsValues` (`js_values.dfy`) defines the values: integral numbers, strings, booleans, `null`, plain objects and arrays. It also defines property keys and the lookup `v[key]`.
  - A property name that is the decimal numeral of an index is the key `Index(i)`. Any other name is `Name(s)`. `KeyOfName` and `NameOfKey` convert between the two forms and are proved inverse.
  - `Get` is JavaScript's lookup on an object or array. It finds:
    - an own key;
    - an array element;
    - an array's `length`, which the array owns but does not list among its enumerable keys;
    - the inherited `__proto__`, the prototype, which has no enumerable keys and so compares like `{}`.
    
    Any other key gives `undefined` or an inherited function. Neither is deep-equal to any value of the model, so both are `None`.
- `DeepEquality` (`deep_equal.dfy`) defines `DeepEqual`, the recursive function for `deepEqual`.
  - Its lemmas prove that `DeepEqual` is reflexive and that on primitives it is `===`.
  - It does not tell arrays from objects with the same index keys.
  - It is not symmetric: `obj2[key]` answers `length` and `__proto__` even when `obj2` does not list them among its enumerable keys.
  - On values that own neither of those two keys anywhere, it is equality of a canonical form. There it is symmetric and transitive.
- `Union` (`union.dfy`) has `IsDuplicate`, `AddToResult` and `Union`. These are methods that follow the source statement by statement, and each is proved against the specification functions `Seen`, `Step`, `Kept` and `UnionSpec`.
  - The local state the source's closures share (`result`, `primitiveSet`) is passed in and returned explicitly.
  - The loop in `Union` keeps two invariants: `result` is `Kept` of the items walked so far, and `primitiveSet` is exactly the set of primitives in `result`.
  - The lemmas prove that the result:
    - has no item deep-equal to a later one, and on plain inputs none deep-equal to any other;
    - is a subsequence of the input;
    - starts with what survives of `arr1`;
    - is complete;
    - is idempotent.
    
    On plain inputs (no own `length` or `__proto__` key at any depth), they also prove that the result is exactly the first occurrence of each class.
- `UnionExamples` (`union_examples.dfy`) proves the scenarios of `Union_ES6/union.test.js` as facts about `UnionSpec`.

Three facts about the code shape the model:
- `deepEqual` compares only `Object.keys`, so it does not tell `[1, 2]` from `{"0": 1, "1": 2}` (`ArrayEqualsIndexedObject`).
- `obj2[key]` reaches values that `obj2` does not list among its keys: an array's `length` and the inherited `__proto__`. This makes `deepEqual` asymmetric (`LengthMakesDeepEqualAsymmetric`, `ProtoMakesDeepEqualAsymmetric`), and `union` then can keep an item that is deep-equal to an earlier one (`ReverseDuplicate`).
- Both errors are `TypeError`s, and the model keeps their two messages.

## Model

| member | source | states |
|---|---|---|
| `JsValues.KeyCount` | Union_ES6/union.js:73-76 | `Object.keys(v).length` is the number of own enumerable keys: the object's keys, or an array's indices |
| `JsValues.Get` | Union_ES6/union.js:78 | `obj2[key]`: every own enumerable key gives its value (an object's own value, an array's element at that index); the only other keys that give a value are an array's `length` (its length) and the inherited `__proto__` (the prototype, which compares like `{}`); every other key gives `undefined` or a function, `None` |
| `JsValues.KeyOfNameOfKey` | Union_ES6/union.js:73-78 | reading the property name of a key gives that key back |
| `JsValues.NameOfKeyOfName` | Union_ES6/union.js:73-78 | every property name is the name of the key it is read as, so keys and names are interchangeable |
| `DeepEquality.DeepEqual` | Union_ES6/union.js:67-79 | with a primitive on either side, the result is true exactly when the two values are the same primitive (`===`); when it is true of an object, the other value is an object with the same number of own keys |
| `DeepEquality.DeepEqualReflexive` | Union_ES6/union.js:68 | every value is deep-equal to itself, so the `===` shortcut never changes an answer |
| `DeepEquality.ArrayEqualsIndexedObject` | Union_ES6/union.js:73-78 | an array and the plain object with the same index keys and values are deep-equal in both directions |
| `DeepEquality.LengthMakesDeepEqualAsymmetric` | Union_ES6/union.js:78 | `{length: 1}` is deep-equal to every one-element array, but no one-element array is deep-equal to it |
| `DeepEquality.ProtoMakesDeepEqualAsymmetric` | Union_ES6/union.js:78 | an object that owns the key `"__proto__"` holding `{}` (as `JSON.parse('{"__proto__": {}}')` gives; the literal `{__proto__: {}}` instead sets the prototype) is deep-equal to every object with one other key, but not the other way round |
| `DeepEquality.DeepEqualIsCanonEquality` | Union_ES6/union.js:67-79 | on values that own no `length` or `__proto__` key at any depth, deepEqual holds exactly when the canonical forms are equal (arrays read as index-keyed objects) |
| `DeepEquality.DeepEqualSymmetricOnPlain` | Union_ES6/union.js:67-79 | on such values deepEqual is symmetric |
| `DeepEquality.DeepEqualTransitiveOnPlain` | Union_ES6/union.js:67-79 | on such values deepEqual is transitive |
| `Union.PrimitivesOf` | Union_ES6/union.js:47-49 | a primitive is in the set exactly when it is an item of `result` |
| `Union.PrimitiveLookup` | Union_ES6/union.js:32-35 | for a primitive item, membership in `primitiveSet` gives the same answer as scanning `result` with deepEqual |
| `Union.SomeDeepEqual` | Union_ES6/union.js:35 | returns true exactly when some item already in `result` is deep-equal to the new item (existing item first) |
| `Union.IsDuplicate` | Union_ES6/union.js:31-36 | when `primitiveSet` holds the primitives of `result`, returns true exactly when some item of `result` is deep-equal to `item`, for primitives and composites alike |
| `Union.AddToResult` | Union_ES6/union.js:45-52 | appends `item` exactly when it is not a duplicate and otherwise leaves `result` alone; `primitiveSet` remains the set of primitives of the new `result` |
| `Union.Union` | Union_ES6/union.js:12-57 | wrong arity throws the arity TypeError; two arguments that are not both arrays throw the array TypeError; otherwise no item of the result is deep-equal to a later one (on plain inputs, none to any other), the result starts with the survivors of `arr1`, has a deep-equal item for every input item, holds only input items, and on plain inputs is exactly the first occurrences |
| `Union.Kept` | Union_ES6/union.js:54 | the specification of `[...arr1, ...arr2].forEach(addToResult)`: one `Step` per item, in input order; the result is never longer than the input |
| `Union.KeptPrefix` | Union_ES6/union.js:45-54 | the result after a prefix of the input is a prefix of the final result: `result` only grows by appending |
| `Union.KeptExtendsKeptOfPrefix` | Union_ES6/union.js:54 | the result of `arr1` alone is a prefix of the union, so `arr1`'s survivors come first in their own order |
| `Union.KeptNoDuplicates` | Union_ES6/union.js:31-52 | no item of the result is deep-equal to a later one, and no two items are equal |
| `Union.NoDuplicatesBothWaysOnPlain` | Union_ES6/union.js:31-52 | on plain inputs no item of the result is deep-equal to any other item, earlier or later |
| `Union.Origins` | Union_ES6/union.js:45-54 | the result is a subsequence of the input: strictly increasing input positions hold its items |
| `Union.KeptFromInput` | Union_ES6/union.js:45-54 | every item of the result is an item of the input |
| `Union.KeptComplete` | Union_ES6/union.js:45-54 | every input item has a deep-equal item in the result |
| `Union.KeptOfNoDuplicates` | Union_ES6/union.js:45-54 | an input without duplicates comes out unchanged |
| `Union.KeptIdempotent` | Union_ES6/union.js:45-54 | deduplicating a result again changes nothing |
| `Union.UnionWithEmpty` | Union_ES6/union.js:12-57 | with one empty argument, the union is the other argument deduplicated |
| `Union.UnionWithEmptySide` | Union_ES6/union.js:12-57 | with one empty argument, an argument without duplicates is returned unchanged |
| `Union.KeptAbsorbs` | Union_ES6/union.js:45-54 | appending items that already have a deep-equal item in the result leaves the result unchanged |
| `Union.KeptSelfUnion` | Union_ES6/union.js:54 | the union of an array with itself equals its union with nothing |
| `Union.KeptIsFirstOccurrences` | Union_ES6/union.js:45-54 | on plain inputs, the result is exactly the items that no earlier input item is deep-equal to, in input order |
| `UnionExamples.UnionOfNumbers` | Union_ES6/union.test.js:4-6 | `union([1,2,3], [2,3,4])` is `[1,2,3,4]` |
| `UnionExamples.UnionOfStringsKeepsOrder` | Union_ES6/union.test.js:8-10 | `union(["a","b","c"], ["c","d","e"])` is `["a","b","c","d","e"]` |
| `UnionExamples.UnionOfObjects` | Union_ES6/union.test.js:12-18 | equal objects are merged and a different one is kept |
| `UnionExamples.UnionOfArrays` | Union_ES6/union.test.js:20-22 | equal nested arrays are merged and different ones are kept in order |
| `UnionExamples.UnionOfNestedObjects` | Union_ES6/union.test.js:24-30 | objects equal two levels down are merged, and ones that differ there are kept |
| `UnionExamples.ReverseDuplicate` | Union_ES6/union.js:35 | `union([[v]], [{length: 1}])` keeps both items although `deepEqual({length: 1}, [v])` holds: the reverse comparison is never made |
| `UnionExamples.UnionOfEmptyArrays` | Union_ES6/union.test.js:32-34 | `union([], [])` is `[]` |
| `UnionExamples.UnionWithEmptySecond` | Union_ES6/union.test.js:36-38 | `union([1,2,3], [])` is `[1,2,3]` |
| `UnionExamples.UnionWithEmptyFirst` | Union_ES6/union.test.js:40-42 | `union([], [1,2,3])` is `[1,2,3]` |
| `UnionExamples.NonArrayArgumentsThrow` | Union_ES6/union.test.js:44-50 | `null`, `undefined`, a number, a string or an object as the first argument throws the array TypeError |
| `UnionExamples.WrongArgumentCountThrows` | Union_ES6/union.test.js:52-56 | one, zero or three arguments throw the arity TypeError |

## Left out

- Numbers are integers. NaN, `+0`/`-0` and non-integral numbers are not modelled. On integers, `===` and the `Set`'s SameValueZero agree.
- Object identity is not modelled. `===` on two objects or arrays is identity, which values cannot observe, so `StrictEquals` is true only of equal primitives. `DeepEqualReflexive` shows that this changes no answer. Which of several deep-equal instances makes it into the result is also not modelled.
- The model has no `undefined` values, functions, symbols, holes in sparse arrays, arrays with extra own enumerable named properties (`a.x = 1`, which `Object.keys` would list) or cyclic structures. `deepEqual` does not terminate on cyclic input.
- Inherited properties other than `__proto__` are functions (an array's `length` is its own, non-enumerable property), so `Get` answers `None` for them. In JavaScript, an array index must be below 2^32 - 1; the model has no such bound, and no JavaScript array is long enough for that to matter.
- Strings are sequences of Unicode scalar values. JavaScript strings are sequences of UTF-16 code units, so a string holding a lone surrogate cannot be expressed.
- The order in which `Object.keys` lists keys is not modelled. `every` has no side effects, so the order does not affect the answer.
- A thrown `TypeError` is modelled as a `Failure` value that carries its message.
- The non-mutation of the inputs by the spread copy is not stated. The inputs are immutable sequences, so it holds trivially.
- The closures `isDuplicate` and `addToResult` capture `result` and `primitiveSet`. In the model those two are method parameters and results instead.
- `Telegram_Bot/src/bot.js` and `Telegram_Bot/src/commands.js` are not part of this model. They are process and chat I/O, HTTP calls and process spawning.
- `Union.KeptIsFirstOccurrences` is stated only for plain inputs, meaning no own `length` or `__proto__` key at any depth. Elsewhere deepEqual is not an equivalence (see `LengthMakesDeepEqualAsymmetric`), so "the first occurrence of each class" has no meaning there. For all inputs, `Kept`, `KeptNoDuplicates`, `KeptComplete` and `Origins` state what the result is.
- `DeepEquality.DeepEqualSymmetricOnPlain` and `DeepEquality.DeepEqualTransitiveOnPlain` are restricted to plain values. On other values deepEqual is provably not symmetric.
