/** Java's fixed-width integer types and the wrap-around arithmetic of `int`.
    Every Java integral type is a subset of the mathematical integers; `int`
    arithmetic keeps only the 32-bit two's-complement value congruent to the
    exact result, which is what `Wrap32` computes. */
module JavaInt {

  const TWO_31: int := 0x8000_0000
  const TWO_32: int := 0x1_0000_0000

  type Int8 = x: int | -0x80 <= x < 0x80
  type Int16 = x: int | -0x8000 <= x < 0x8000
  type Int32 = x: int | -0x8000_0000 <= x < 0x8000_0000
  type Int64 = x: int | -0x8000_0000_0000_0000 <= x < 0x8000_0000_0000_0000

  /** Java's `char`: one UTF-16 code unit. */
  type Char16 = c: int | 0 <= c < 0x1_0000

  /** The only `Int32` congruent to `x` modulo 2^32: what a Java `int`
      operation keeps of the exact result `x`. */
  function Wrap32(x: int): (r: Int32)
    ensures (x - r) % TWO_32 == 0
    ensures -TWO_31 <= x < TWO_31 ==> r == x
  {
    (x + TWO_31) % TWO_32 - TWO_31
  }

  /** Java `a * b` on two `int`s. */
  function Mul32(a: Int32, b: Int32): (r: Int32) {
    Wrap32(a * b)
  }

  /** Java `a + b` on two `int`s. */
  function Add32(a: Int32, b: Int32): (r: Int32) {
    Wrap32(a + b)
  }

  /** One step of the hash folds in the source and in the JDK:
      `result = multiplier * result + term` in `int` arithmetic. */
  function HashStep(multiplier: Int32, result: Int32, term: Int32): (r: Int32) {
    Add32(Mul32(multiplier, result), term)
  }

  /** Subtracting a multiple of 2^32 does not change what an `int` keeps. */
  lemma WrapShift(z: int, j: int)
    ensures Wrap32(z - TWO_32 * j) == Wrap32(z)
  {
  }

  /** Wrapping an intermediate result of `multiplier * r + term` changes
      nothing: each `int` step of a hash fold is the exact step taken
      modulo 2^32. */
  lemma HashStepExact(multiplier: Int32, e: int, term: Int32)
    ensures HashStep(multiplier, Wrap32(e), term) == Wrap32(multiplier * e + term)
  {
    var r := Wrap32(e);
    var k := (e - r) / TWO_32;
    assert e - r == TWO_32 * k;
    var p := multiplier * r;
    assert multiplier * e == p + TWO_32 * (multiplier * k) by {
      assert multiplier * e == multiplier * (r + TWO_32 * k);
    }
    var m := Wrap32(p);
    var k2 := (p - m) / TWO_32;
    assert p - m == TWO_32 * k2;
    calc {
      HashStep(multiplier, r, term);
      Wrap32(m + term);
      { WrapShift(p + term, k2); }
      Wrap32(p + term);
      { WrapShift(multiplier * e + term, multiplier * k); }
      Wrap32(multiplier * e + term);
    }
  }
}
