/** The pieces of the Java platform that the source calls: nullable references
    to immutable values, `String.equals`, `Arrays.equals`, the mutable
    `java.util.Date`, and the library hash codes, which are not given a
    definition here but are passed in as functions. Also `Arrays.hashCode`,
    which the source does not call but the corrected `Alien.HashCodeByContent`
    uses. */
module Jdk {
  import opened JavaInt

  /** A nullable reference to a value of an immutable class (`String`,
      `Integer`): `None` is Java's `null`. */
  datatype Option<+T> = None | Some(value: T)

  /** The unchecked exceptions the source can raise. */
  datatype Exception = NullPointerException

  /** The outcome of a Java call that either returns or throws. */
  datatype Result<+T> = Ok(value: T) | Throws(exception: Exception)

  /** A Java `String`. Strings are immutable, so a reference to one is
      modelled by its content; only content equality and the library hash of
      the content are used, so the characters are Dafny's. */
  type JString = string

  /** `String.equals(Object)` with a `String` (or `null`) argument: content
      equality, false for `null`. */
  predicate StringEquals(s: JString, other: Option<JString>) {
    other.Some? && other.value == s
  }

  /** The library hash codes the source relies on. Their JDK definitions are
      not part of this model, so every result proved here holds for any
      choice of them: `String.hashCode` is a function of the content,
      `Date.hashCode` of `getTime()`, and the `hashCode` an array inherits
      from `Object` of the array reference alone. */
  datatype JdkHashes = JdkHashes(
    stringHash: JString -> Int32,
    dateHash: Int64 -> Int32,
    identityHash: array<Int32> -> Int32)

  /** The hash term of a nullable `String` field: 0 for `null`. */
  function NullableStringHash(h: JdkHashes, s: Option<JString>): (r: Int32) {
    if s.None? then 0 else h.stringHash(s.value)
  }

  /** `Arrays.equals(int[], int[])`: the same reference, or both non-null
      with the same length and the same elements in order. */
  predicate ArraysEquals(a: array?<Int32>, b: array?<Int32>)
    reads a, b
  {
    a == b || (a != null && b != null && a[..] == b[..])
  }

  /** The content hash that `Arrays.hashCode(int[])` documents:
      `31 * h + e` over the elements from the left, starting from 1. */
  function SeqHash(s: seq<Int32>): (r: Int32)
  {
    if s == [] then 1 else HashStep(31, SeqHash(s[..|s| - 1]), s[|s| - 1])
  }

  /** `Arrays.hashCode(int[])`: 0 for `null`, otherwise the content hash,
      computed by the documented loop over the elements. */
  method ArraysHashCode(a: array?<Int32>) returns (r: Int32)
    ensures a == null ==> r == 0
    ensures a != null ==> r == SeqHash(a[..])
  {
    if a == null {
      return 0;
    }
    r := 1;
    var i := 0;
    while i < a.Length
      invariant 0 <= i <= a.Length
      invariant r == SeqHash(a[..i])
    {
      assert a[..i + 1][..i] == a[..i];
      r := HashStep(31, r, a[i]);
      i := i + 1;
    }
    assert a[..a.Length] == a[..];
  }

  /** `java.util.Date`: a mutable holder of a millisecond time. Of its API
      the model keeps what the source uses (construction from a time and
      `getTime`) and one mutator, `setTime`, as the way callers change a
      `Date` they hold. */
  class Date {
    var time: Int64

    constructor (time: Int64)
      ensures this.time == time
    {
      this.time := time;
    }

    function GetTime(): Int64
      reads this
    {
      time
    }

    method SetTime(time: Int64)
      modifies this
      ensures this.time == time
    {
      this.time := time;
    }
  }
}
