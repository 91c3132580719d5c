# Value equality, hashing and an immutable value object

A Dafny model of the three Java classes that carry the logic of this
collection of Java teaching examples:

- `Equal` (package `Equals`): a helper with one `equal` overload per kind of
  field (`boolean`, `long`, `char`, `Object`), and a `main` that compares
  seven `Alien`s.
- `Alien` (package `Equals`): a value object with five fields. Its
  `equals` is structural: an identity short-circuit, an `instanceof` test,
  then a field-by-field conjunction through `Equal.equal` and `Arrays.equals`.
  Its `hashCode` folds the same five fields into the seed 3 with the
  multiplier 17, in 32-bit `int` arithmetic.
- `ImmutableAlien` (package `Immutable`): a value object whose fields are
  fixed at construction. It copies its `Date` on the way in and on the way
  out, and caches its hash code lazily in a field where 0 means "not
  computed".

Files and modules:

- `java_int.dfy`, module `JavaInt`: Java's integer types and `int`
  wrap-around. `Wrap32(x)` is the one `int` congruent to `x` modulo 2^32.
  `HashStepExact` proves that each `int` step `result = m * result + term`
  is the exact step reduced modulo 2^32.
- `jdk.dfy`, module `Jdk`: the platform pieces the source calls: nullable
  references (`Option`), thrown exceptions (`Result`), `String.equals`,
  `Arrays.equals` and a `Date` class with a mutable time, plus
  `Arrays.hashCode`, which the source does not call but the corrected
  `Alien.HashCodeByContent` uses.
  The library hash codes are not given a definition. They are passed in as a
  `JdkHashes` record: `String.hashCode` as a function of the content,
  `Date.hashCode` as a function of `getTime()`, and the identity hash of an
  array as a function of its reference. Every lemma and method holds for
  every choice of these functions, except `IdentityHashBreaksContract`,
  which builds one choice as a counterexample.
- `equal.dfy`, module `Equal`: the overloads, as `EqualBool`, `EqualLong`,
  `EqualChar` and `EqualObject`. `EqualObject` takes the first argument's
  `equals` as a function.
- `alien.dfy`, module `Aliens`: class `Alien`. Its fields are mutable, as in
  Java, and the constructor stores the caller's array reference.
  `Equals` takes a `JObject`: `null`, an `Alien`, or an object of another
  class. `SameVariety` states structural equality on values. `HashValue`
  gives the hash in closed form. `HashCode` is the five-step method.
- `equal_main.dfy`, module `EqualMain`: the `main` scenario, with the six
  expected results as postconditions.
- `immutable_alien.dfy`, module `Immutable`: class `ImmutableAlien`. Its
  fields are `const` and its cache is a `var`. `Valid(h)` says the cache
  holds 0 or the hash of the fields.

Where the code departs from what the source itself states, the model
follows the code:

- The comment at src/Equals/Equal.java:8-9 requires equal objects to have
  equal hash codes, and `Alien.equals` compares `legLengths` by content
  (src/Equals/Alien.java:46), yet src/Equals/Alien.java:65 hashes the array
  by identity. This is kept in `Alien.HashCode` and reported under Findings.
- The comment at src/Immutable/ImmutableAlien.java:60 says the hash is
  "only ever calculated once", but a hash of 0 is never told apart from
  "not computed" (src/Immutable/ImmutableAlien.java:64), so it is
  recomputed on every call. The cache therefore moves from 0 to a non-zero
  value at most once, and never back.

Points where the code's behaviour is easy to miss:

- `colour` is a plain `String` field in both classes
  (src/Equals/Alien.java:13, src/Immutable/ImmutableAlien.java:27), so it
  may be `null`; both hash codes give it the term 0
  (src/Equals/Alien.java:61, src/Immutable/ImmutableAlien.java:69).
- `numberOfEyes` is an `Integer` in `ImmutableAlien`
  (src/Immutable/ImmutableAlien.java:28). `getNumberOfEyes` returns it as an
  `int` (src/Immutable/ImmutableAlien.java:55-57) and `hashCode` adds it to
  an `int` (src/Immutable/ImmutableAlien.java:70); both unbox it, so both
  throw `NullPointerException` when it is `null`.

## Model

| member | source | states |
|---|---|---|
| `Equal.EqualBool` | src/Equals/Equal.java:16-18 | `equal(boolean, boolean)`; what it means is stated by `Equal.PrimitiveEqualities` |
| `Equal.EqualLong` | src/Equals/Equal.java:21-23 | `equal(long, long)`; what it means is stated by `Equal.PrimitiveEqualities` and `Equal.WideningKeepsEquality` |
| `Equal.EqualChar` | src/Equals/Equal.java:26-28 | `equal(char, char)` on UTF-16 code units; what it means is stated by `Equal.PrimitiveEqualities` |
| `Equal.EqualObject` | src/Equals/Equal.java:39-41 | `equal(Object, Object)` with the first argument's `equals` as a parameter; what it means is stated by `Equal.EqualObjectNulls`, `Equal.EqualObjectDelegates` and `Equal.EqualObjectOnStrings` |
| `Equal.PrimitiveEqualities` | src/Equals/Equal.java:16-28 | `equal(boolean, boolean)`, `equal(long, long)` and `equal(char, char)` each hold exactly when the two values are the same; each is reflexive and symmetric |
| `Equal.WideningKeepsEquality` | src/Equals/Equal.java:20-23 | `int`, `short` and `byte` values widened to `long` are equal under `equal(long, long)` exactly when the narrow values are equal |
| `Equal.EqualObjectNulls` | src/Equals/Equal.java:36-41 | `equal(Object, Object)` is true for two nulls and false for a null first argument with a non-null second, for any `equals` |
| `Equal.EqualObjectDelegates` | src/Equals/Equal.java:39-41 | with a non-null first argument, `equal(Object, Object)` is exactly the first argument's `equals` applied to the second |
| `Equal.EqualObjectOnStrings` | src/Equals/Equal.java:39-41 | on `String`s, `equal(Object, Object)` is null-aware content equality, and so it is symmetric |
| `EqualMain.EqualityScenario` | src/Equals/Equal.java:44-63 | in the seven-alien scenario, alien one equals alien two; aliens three to seven each differ in one field and are not equal to it |
| `Aliens.Alien.constructor` | src/Equals/Alien.java:19-25 | every field holds its argument; `legLengths` is the caller's own array reference, not a copy |
| `Aliens.SharedLegsScenario` | src/Equals/Alien.java:19-25 | two aliens are equal; then the caller writes to the array it passed to one of them, and the same `equals` call becomes false |
| `Aliens.Alien.Equals` | src/Equals/Alien.java:30-47 | an alien equals itself; `null` and objects of other classes are never equal; for another alien, `equals` holds iff colour, spot colour, eye count and origin match and the leg arrays are both null or have the same elements |
| `Aliens.EqualsSymmetric` | src/Equals/Alien.java:33-38 | between aliens, `a.equals(b)` iff `b.equals(a)` |
| `Aliens.EqualsTransitive` | src/Equals/Alien.java:45-46 | between aliens, `equals` is transitive |
| `Aliens.FoldOfFive` | src/Equals/Alien.java:59-66 | five `int` steps `result = 17 * result + term` from the seed 3 equal `3*17^5 + t1*17^4 + t2*17^3 + t3*17^2 + t4*17 + t5` modulo 2^32 |
| `Aliens.Alien.HashCode` | src/Equals/Alien.java:58-67 | returns `HashValue`: the fold above over the colour hash (0 if null), the spot colour hash (0 if null), the eye count, 0 or 7 for `fromZorb` true or false, and the identity hash of the leg array (0 if null) |
| `Aliens.EqualAliensShareHash` | src/Equals/Alien.java:58-67 | equal aliens whose leg arrays are the same reference, or both null, have equal hash codes |
| `Aliens.IdentityHashBreaksContract` | src/Equals/Alien.java:65 | two equal aliens with distinct leg arrays of the same content have different hash codes under an identity hash that tells the arrays apart |
| `Aliens.IdentityHashAlwaysBreaks` | src/Equals/Alien.java:65 | for every choice of library hashes, equal aliens whose non-null leg arrays have different identity hashes get different hash codes |
| `Jdk.ArraysHashCode` | src/Equals/Alien.java:65 | `Arrays.hashCode(int[])`, the replacement for the identity hash at this line: 0 for `null`, otherwise the left fold `31 * h + e` from 1 over the elements (`SeqHash`), so it depends only on the content |
| `Aliens.Alien.HashCodeByContent` | src/Equals/Alien.java:58-67 | the same five-step fold with `Arrays.hashCode(legLengths)` as the last term returns `ContentHashValue` |
| `Aliens.EqualAliensShareContentHash` | src/Equals/Equal.java:8-9 | with the content hash, any two equal aliens have equal hash codes |
| `Immutable.ImmutableAlien.constructor` | src/Immutable/ImmutableAlien.java:34-39 | the stored date is a fresh object with the argument's time; colour and eye count are stored as given; the cache starts at 0 |
| `Immutable.ImmutableAlien.GetDateOfDiscovery` | src/Immutable/ImmutableAlien.java:45-47 | returns a freshly allocated `Date` whose time is the stored time |
| `Immutable.ImmutableAlien.GetColour` | src/Immutable/ImmutableAlien.java:50-52 | `getColour` returns the stored reference; that it is the constructor's argument is stated by `Immutable.DefensiveCopies` |
| `Immutable.ImmutableAlien.GetNumberOfEyes` | src/Immutable/ImmutableAlien.java:55-57 | unboxing the stored `Integer` throws `NullPointerException` exactly when it is `null`; otherwise the result is the boxed value |
| `Immutable.DefensiveCopies` | src/Immutable/ImmutableAlien.java:34-57 | changing the caller's date after construction, or a date the getter returned, does not change the time the object reports; two getter calls return distinct dates; `getColour` returns the colour given, and `getNumberOfEyes` returns the eye count given or throws `NullPointerException` if it is null |
| `Immutable.FoldOfThree` | src/Immutable/ImmutableAlien.java:66-70 | three `int` steps from the seed 3 with multiplier 17 equal `3*17^3 + t1*17^2 + t2*17 + t3` modulo 2^32 |
| `Immutable.ImmutableAlien.HashCode` | src/Immutable/ImmutableAlien.java:62-73 | always returns the hash of the fields, `17*(17*(17*3 + dateHash) + colourHash) + eyes` modulo 2^32, or throws on a null eye count; a non-zero cache is returned and left as it is; from 0 the cache becomes the computed hash; the cache invariant is kept |
| `Immutable.HashTwice` | src/Immutable/ImmutableAlien.java:62-73 | two successive `hashCode` calls return the same result, a non-zero result is left in the cache, and the cache invariant still holds |
| `Immutable.SameFieldsSameHash` | src/Immutable/ImmutableAlien.java:68-70 | objects with equal date times, equal colours and equal eye counts have the same hash |
| `Immutable.SameInputsSameHash` | src/Immutable/ImmutableAlien.java:34-73 | two objects built from two distinct `Date`s with the same time, and the same colour and eye count, return the same `hashCode`; it throws exactly when the eye count is null |

## Findings

| source | as written | input that shows it | evidently intended | confidence | as-written member | corrected member |
|---|---|---|---|---|---|---|
| src/Equals/Alien.java:65 | the last hash term is `legLengths.hashCode()`, the identity hash of the array | two `Alien("purple", null, 6, true, legs)` built from two distinct arrays `{2, 1, 2}`: `equals` is true, and the hash codes differ whenever the identity hashes of the two arrays differ (`Aliens.IdentityHashAlwaysBreaks` proves this for every choice of hashes) | `Arrays.hashCode(legLengths)`, so that equal aliens get equal hash codes, as the comment at src/Equals/Equal.java:8-9 requires and as `equals` compares the arrays by content | high; not executed | `Aliens.IdentityHashBreaksContract` | `Aliens.Alien.HashCodeByContent` |

`Aliens.Alien.HashCode` keeps the code as written, because that is the
behaviour of the source. `Aliens.Alien.HashCodeByContent` gives the
corrected hash, and `Aliens.EqualAliensShareContentHash` proves it
consistent with `equals`.

## Left out

- `equal(double, double)` (src/Equals/Equal.java:32-34): it compares IEEE-754 bit patterns through `Double.doubleToLongBits`, and floating point is not modelled.
- `System.out.println` in `main`: console output. The six printed booleans are postconditions of `EqualMain.EqualityScenario` instead.
- The `volatile` modifier on the `ImmutableAlien` hash cache, and visibility between threads: the model is sequential.
- The JDK definitions of `String.hashCode`, `Date.hashCode` and the identity hash: they are parameters (`Jdk.JdkHashes`), so the results hold for any definition of them. Of `Date`'s mutators only `setTime` is modelled, as the model of a caller changing a date.
- src/BigO/BigO.java and src/AbstractClassVsInterface/JavaInterface.java: prose and constant-returning illustrations with no logic of the core.
- Java `String` is modelled by its content as a Dafny `string`, not as UTF-16 code units, because only content equality and a hash of the content are used. `char` itself is a UTF-16 code unit (`Char16`).
- `Equal.EqualObject`: both arguments have the same static type, and the first argument's `equals` is passed as a total function. Java's dynamic dispatch over any class is not modelled.
- `Aliens.Alien.Equals`: subclasses of `Alien` are not modelled. `Alien` is not `final`, and with a subclass `instanceof` can break symmetry, as the source's comment warns. An argument is `null`, an `Alien`, or an object of an unrelated class.
- `Immutable.ImmutableAlien.constructor`: its date parameter has a non-null type. Java would throw `NullPointerException` at the copy; here no caller can pass `null`.
- `Immutable.ImmutableAlien.HashCode`: the cache invariant `Valid(h)` is stated for one fixed choice of library hashes `h`, and every call must pass that same `h`.
- Java's `private` access is not modelled. The facts that never sharing the stored `Date` gives (it is fresh at construction and never returned) are stated as postconditions.
- An `equals` for `ImmutableAlien`: the source does not define one, so there is none here.
