# obby — record toolkit, modelled in Dafny

`obby` is a small TypeScript utility class (`src/obby.ts`). It has two parts:

- **Property classification.** `getParts` takes an object's own property
  descriptors and sorts each key into at most one of four dictionaries:
  `fields` (data properties whose value is not a function), `methods` (data
  properties holding a function), `getters` and `setters` (accessor
  properties). An accessor with neither a getter nor a setter is recorded
  nowhere.
  `getPartsDescriptors` does the same pass but stores the raw descriptor.
- **Record combinators.** `filter`, `split`, `map`, `pick` and `omit` each
  fold over `Object.keys(input)` and write into a fresh result object.

A thin wrapper class holds one object and exposes these operations as
instance methods that return new wrappers.

## How the model is built

- `records.dfy` (`Records`): an object is a `Record<V>`, the sequence of its
  `(key, value)` entries in enumeration order. Keys are unique
  (`WellFormed`); the operations that need this require it of their input,
  because every JavaScript object has this property. `Lookup` is the
  property read `o[k]`. `Assign` is the property write `o[k] = v`: an
  existing key keeps its position, and a new key goes last. JavaScript puts
  a new integer-like key elsewhere; see "Left out".
- `descriptors.dfy` (`Descriptors`): a descriptor is a tagged union. A data
  descriptor holds a `Value`, which is either a function or a non-function.
  An accessor descriptor holds an optional getter and an optional setter.
  The five predicates of `src/obby.ts:31-35` are functions over it.
  `BucketOf` is the `if / else if` chain of `getParts`.
- `parts.dfy` (`Parts`): `GetParts` and `GetPartsDescriptors` are methods
  with the source's loop. Each is proved equal to a specification
  (`PartsOf`, `PartsDescriptorsOf`) built from `Collect`, which keeps, in
  order, what each entry contributes to a bucket. The classification laws
  are lemmas about that specification.
- `combinators.dfy` (`Combinators`): `Filter`, `Split`, `Map`, `Pick`, `Omit`
  are methods with the fold's loop. Each is proved equal to `Filtered` or
  `Mapped`. The lemmas state the subset, order, partition and last-write-wins
  laws.
- `wrapper.dfy` (`Wrapper`): class `Obby` with a `const input` field that
  nothing changes. Its instance methods call the static ones. The pair
  returned by `split` is a JavaScript array, so the wrapper built around it
  holds a record with keys `"0"` and `"1"`.

An accessor with both a getter and a setter is recorded **only under
`getters`**, because the setter test is an `else if` (src/obby.ts:45-48); it
is not also recorded under `setters`. `omit` is modelled as written: it keeps
the listed keys. See Findings.

## Model

| member | source | states |
|---|---|---|
| `Descriptors.IsMethodProperty` | src/obby.ts:31 | a data descriptor whose value is a function |
| `Descriptors.IsDataProperty` | src/obby.ts:32 | a data descriptor whose value is not a function |
| `Descriptors.IsAccessorProperty` | src/obby.ts:33 | a descriptor with a getter function or a setter function |
| `Descriptors.IsGetterProperty` | src/obby.ts:34 | a descriptor with a getter function |
| `Descriptors.IsSetterProperty` | src/obby.ts:35 | a descriptor with a setter function |
| `Descriptors.DataOrMethod` | src/obby.ts:31-32 | a descriptor is never both a data property and a method; a data descriptor is exactly one of the two; an accessor is neither |
| `Descriptors.AccessorIsGetterOrSetter` | src/obby.ts:33-35 | `isAccessorProperty` holds exactly when `isGetterProperty` or `isSetterProperty` holds |
| `Descriptors.BucketOf` | src/obby.ts:40-49 | the chain sends a descriptor to fields iff it is data, methods iff method, getters iff it has a getter, setters iff it has a setter but no getter, and nowhere iff it is none of data, method or accessor |
| `Records.Lookup` | src/obby.ts:73-74 | the read `input[key]`: it finds nothing exactly when the key is not an own key, and what it finds is stored under that key |
| `Records.Assign` | src/obby.ts:90 | the write `result[K] = V`: afterwards K holds V, every other entry is kept, an existing key keeps its place, a new key is appended (for a non-integer-like key this is where JavaScript puts it), and keys stay unique |
| `Records.LookupMember` | src/obby.ts:73-74 | on an object, reading `input[key]` gives `v` exactly when `(key, v)` is one of its entries |
| `Parts.GetParts` | src/obby.ts:37-52 | the loop builds exactly `PartsOf(own)`: each bucket holds, in input order, what each own property contributes to it |
| `Parts.GetPartsDescriptors` | src/obby.ts:54-69 | the loop builds exactly `PartsDescriptorsOf(own)`: each bucket holds, in input order, the descriptors the chain sends there |
| `Parts.PartsClassifyOwnKey` | src/obby.ts:40-49 | an own property is in fields iff it is data, in methods iff it is a method, in getters iff it has a getter, in setters iff it has a setter and no getter; it is stored with its `value`, `get` or `set` |
| `Parts.PartsOnlyOwnKeys` | src/obby.ts:39-48 | every key of every bucket is an own key of the input |
| `Parts.PartsAtMostOneBucket` | src/obby.ts:40-49 | no key is in two buckets |
| `Parts.PartsGetterAndSetter` | src/obby.ts:45-48 | an accessor with both a getter and a setter is in `getters` (with its getter) and in no other bucket, `setters` included |
| `Parts.PartsEmptyAccessor` | src/obby.ts:40-49 | an accessor with neither getter nor setter is in no bucket |
| `Parts.PartsDescriptorsMatchParts` | src/obby.ts:57-66 | `getPartsDescriptors` has the same keys, in the same order, per bucket as `getParts`; each entry is the own descriptor itself, of the bucket's kind |
| `Parts.CollectLookup` | src/obby.ts:40-49 | reading key k from a bucket gives what k's own descriptor contributes to that bucket |
| `Combinators.Filter` | src/obby.ts:71-78 | the `reduce` loop computes `Filtered(input, filterFn)` |
| `Combinators.Filtered` | src/obby.ts:71-78 | the filtered record is no longer than the input |
| `Combinators.FilteredMembers` | src/obby.ts:72-75 | an entry is in the result exactly when it is an entry of the input that satisfies the predicate (values unchanged) |
| `Combinators.FilteredKeepsOrder` | src/obby.ts:72-77 | the result is a subsequence of the input: input order is kept |
| `Combinators.FilteredWellFormed` | src/obby.ts:72-77 | the result of filtering an object has unique keys |
| `Combinators.FilterAll` | src/obby.ts:71-78 | an always-true predicate returns the input |
| `Combinators.FilterNone` | src/obby.ts:71-78 | an always-false predicate returns the empty record |
| `Combinators.Split` | src/obby.ts:80-85 | the loop's first record is `filter(input, filterFn)` and its second is `filter` with the negated predicate |
| `Combinators.SplitPartition` | src/obby.ts:80-85 | every input entry is in one of the two records, both hold only input entries, no key is in both, and their sizes add up to the input's |
| `Combinators.SplitSizes` | src/obby.ts:81-84 | the two records of `split` together are as long as the input |
| `Combinators.Map` | src/obby.ts:87-93 | the `reduce` loop computes `Mapped(input, mapFn)` |
| `Combinators.Mapped` | src/obby.ts:87-93 | the result of `map` has unique keys, whatever keys `mapFn` produces |
| `Combinators.MappedLastWriteWins` | src/obby.ts:88-92 | `(k, w)` is in the result exactly when some entry maps to `(k, w)` and no later entry maps to key `k` |
| `Combinators.MappedKeys` | src/obby.ts:88-92 | the result's keys are exactly the keys `mapFn` produces |
| `Combinators.MappedIdentity` | src/obby.ts:87-93 | a `mapFn` that returns every entry unchanged gives back the input |
| `Combinators.Pick` | src/obby.ts:95-97 | the result keeps exactly the input entries whose key is listed |
| `Combinators.PickExample` | src/obby.ts:95-97 | `pick({a: 1, b: 2, c: 3}, "a", "b")` is `{a: 1, b: 2}` |
| `Combinators.Omit` | src/obby.ts:99-101 | as written, `omit` is the same `filter` call as `pick`: it keeps exactly the listed keys |
| `Combinators.OmitKeepsListedKey` | src/obby.ts:99-101 | an input key listed for omission is still a key of `omit`'s result as written, and is not a key of the intended result |
| `Combinators.OmitExample` | src/obby.ts:99-101 | `omit({a: 1, b: 2}, "a")` as written returns `{a: 1}`, where the intended result is `{b: 2}` |
| `Combinators.OmitIntended` | src/obby.ts:99-101 | corrected `omit`: the result keeps exactly the input entries whose key is not listed |
| `Wrapper.Obby.constructor` | src/obby.ts:117 | the wrapper holds the given object |
| `Wrapper.Obby.ValueOf` | src/obby.ts:119 | `valueOf()` returns the held object |
| `Wrapper.Obby.GetParts` | src/obby.ts:121 | on the held plain record: non-function values become fields, functions become methods, and there are no getters or setters |
| `Wrapper.Obby.GetPartsDescriptors` | src/obby.ts:122 | the descriptor parts of the held record's data properties |
| `Wrapper.Obby.Filter` | src/obby.ts:123 | a fresh wrapper around `filter(input, filterFn)` |
| `Wrapper.Obby.Split` | src/obby.ts:124 | a fresh wrapper around the array `[pass, fail]` of `split`, whose keys are "0" and "1" |
| `Wrapper.Obby.Map` | src/obby.ts:125 | a fresh wrapper around `map(input, mapFn)` |
| `Wrapper.Obby.Pick` | src/obby.ts:126 | a fresh wrapper around `pick(input, ...keys)` |
| `Wrapper.Obby.Omit` | src/obby.ts:127 | as written, a fresh wrapper around the same `filter` call `pick` makes |

## Left out

- `race` and `await` (src/obby.ts:103-111) and their instance methods
  (src/obby.ts:128-129). They combine Promises with `Promise.race` and
  `Promise.all`, which are asynchronous and have no sequential contract here.
- The type-level aliases (src/obby.ts:5-25) and the casts. They have no
  runtime behaviour.
- The commented-out `asyncYield` (src/obby.ts:113-115) and the unused
  `isFunction` import (src/obby.ts:1).
- The instance `split` takes an `input` parameter that it never uses
  (src/obby.ts:124). The model's `Obby.Split` omits it.
- JavaScript reflection. The own property table of `getParts` is given as a
  record of descriptors rather than computed by
  `Object.getOwnPropertyDescriptors`, and `typeof v === "function"` is the
  tag of `Value`. Symbol keys are not modelled. An input record is taken
  to be in `Object.keys` order already; for the results the model builds,
  see the `Records.Assign` line below.
- Passing `null` or `undefined` to `getParts` or `getPartsDescriptors`
  throws in JavaScript. So does passing it to `filter`, `split` and `map`
  (`Object.keys` at src/obby.ts:72, 81, 88), and through `filter` to `pick`
  and `omit`. The source's `I extends {}` bound rules such calls out for
  typed callers. The model always receives an object, so that error path
  does not exist in it.
- Reading an accessor property in `filter`, `split` and `map` (`input[key]`)
  runs its getter. The combinators' records hold plain values, so no getter
  runs.
- `filterFn` and `mapFn` are pure, total Dafny functions. Side effects they
  might have in JavaScript are not modelled.
- `Wrapper.Obby.GetParts` and `Wrapper.Obby.GetPartsDescriptors`: the
  wrapper holds a plain record, so its own properties are all writable,
  enumerable, configurable data properties. A wrapped object with accessors
  or non-enumerable properties is not modelled. The same goes for the
  array's non-enumerable `length` property, which both would report on the
  `split` wrapper.
- `Records.Assign`: the key `"__proto__"` is treated like any other key.
  Every accumulator in the source starts as `{}` (src/obby.ts:38, 55, 77,
  84, 92). On such an object, `o["__proto__"] = v` runs the inherited
  `__proto__` setter and creates no own property. An input with an own
  `"__proto__"` key (as `JSON.parse` can build) therefore loses that key in
  `getParts`, `getPartsDescriptors`, `filter`, `split` and `map`. The model
  keeps it, and so `FilterAll`, `MappedIdentity` and `PartsClassifyOwnKey`
  state that such a key is kept.
- `Records.Assign`: a new key is placed last. JavaScript lists integer-like
  keys (array indices) first, in ascending order, before all string keys.
  `getParts`, `getPartsDescriptors`, `filter` and `split` write a part of
  an input that is already in that order, so they are unaffected. `map` is
  affected, because `mapFn` chooses the keys. For example, with `{a: 1,
  b: 2}` and a `mapFn` that renames `a` to `x` and `b` to `0`, the source
  lists `0, x` and `Mapped` gives `[("x", 1), ("0", 2)]`. So when `mapFn`
  yields integer-like keys, the order of `Mapped` is write order, not
  `Object.keys` order. `MappedLastWriteWins` and `MappedKeys` do not depend
  on order and still hold.
- `Combinators.Pick` and `Combinators.Omit` (and `Wrapper.Obby.Pick`,
  `Wrapper.Obby.Omit`): the listed keys are strings. The source's type
  `K extends keyof I` (src/obby.ts:95, 99) also allows a number, such as `1`
  for `{1: "x"}` or `0` for an array. `keys.includes(K)` compares that
  number with the string keys of `Object.keys` and never matches, so such a
  call picks nothing. The model cannot express that call.

## Findings

| source | as written | input that shows it | evidently intended | confidence | as-written member | corrected member |
|---|---|---|---|---|---|---|
| src/obby.ts:99-101 | `omit` passes the same `keys.includes(K)` predicate to `filter` as `pick` does, so it keeps the listed keys. The instance `omit` at src/obby.ts:127 repeats this. | `omit({a: 1, b: 2}, "a")` returns `{a: 1}` | return the entries whose key is not listed, `{b: 2}` | high (the two bodies are identical); not executed | `Combinators.OmitKeepsListedKey` | `Combinators.OmitIntended` |

The static `Combinators.Omit` and the instance `Wrapper.Obby.Omit` model the
code as written. `Combinators.OmitIntended` is the corrected operation.
