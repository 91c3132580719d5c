/** The `Equal` helper of package `Equals`: one total, side-effect-free
    comparison per kind of field, used to write structural `equals` methods.
    Java picks the overload by the static type of the arguments; here each
    overload has its own name. */
module Equal {
  import opened JavaInt
  import opened Jdk

  /** `equal(boolean, boolean)`. */
  function EqualBool(thisBoolean: bool, thatBoolean: bool): (r: bool)
  {
    thisBoolean == thatBoolean
  }

  /** `equal(long, long)`; `int`, `short` and `byte` arguments reach it by
      widening, which keeps their value (`Int8`, `Int16` and `Int32` are
      subsets of `Int64`). */
  function EqualLong(thisNum: Int64, thatNum: Int64): (r: bool)
  {
    thisNum == thatNum
  }

  /** `equal(char, char)`: the two UTF-16 code units are identical. */
  function EqualChar(thisChar: Char16, thatChar: Char16): (r: bool)
  {
    thisChar == thatChar
  }

  /** `equal(Object, Object)`: two nulls are equal, a null first argument is
      equal to nothing else, and otherwise the first argument's own `equals`
      decides, given here as the function `equals`. */
  function EqualObject<T>(thisObj: Option<T>, thatObj: Option<T>,
                          equals: (T, Option<T>) -> bool): (r: bool)
  {
    if thisObj.None? then thatObj.None? else equals(thisObj.value, thatObj)
  }

  /** The primitive overloads are reflexive and symmetric, and each holds
      exactly when its arguments are the same value. */
  lemma PrimitiveEqualities(b1: bool, b2: bool, n1: Int64, n2: Int64,
                            c1: Char16, c2: Char16)
    ensures EqualBool(b1, b1) && EqualLong(n1, n1) && EqualChar(c1, c1)
    ensures EqualBool(b1, b2) == EqualBool(b2, b1)
    ensures EqualLong(n1, n2) == EqualLong(n2, n1)
    ensures EqualChar(c1, c2) == EqualChar(c2, c1)
    ensures EqualBool(b1, b2) <==> b1 == b2
    ensures EqualLong(n1, n2) <==> n1 == n2
    ensures EqualChar(c1, c2) <==> c1 == c2
  {
  }

  /** Widening an `int`, `short` or `byte` to `long` is lossless, so
      `equal(long, long)` on widened values is equality of the narrow ones. */
  lemma WideningKeepsEquality(i1: Int32, i2: Int32, s1: Int16, s2: Int16,
                              y1: Int8, y2: Int8)
    ensures EqualLong(i1, i2) <==> i1 == i2
    ensures EqualLong(s1, s2) <==> s1 == s2
    ensures EqualLong(y1, y2) <==> y1 == y2
  {
  }

  /** The null cases of `equal(Object, Object)`, whatever `equals` is. */
  lemma EqualObjectNulls<T>(that: T, equals: (T, Option<T>) -> bool)
    ensures EqualObject(None, None, equals)
    ensures !EqualObject(None, Some(that), equals)
  {
  }

  /** With a non-null first argument, `equal(Object, Object)` is exactly the
      first argument's `equals`, whatever that is. */
  lemma EqualObjectDelegates<T>(thisObj: T, thatObj: Option<T>,
                                equals: (T, Option<T>) -> bool)
    ensures EqualObject(Some(thisObj), thatObj, equals) == equals(thisObj, thatObj)
  {
  }

  /** On `String`s, `equal(Object, Object)` is null-aware content equality,
      hence reflexive, symmetric and transitive. */
  lemma EqualObjectOnStrings(a: Option<JString>, b: Option<JString>)
    ensures EqualObject(a, b, StringEquals) <==> a == b
    ensures EqualObject(a, b, StringEquals) == EqualObject(b, a, StringEquals)
  {
  }
}
