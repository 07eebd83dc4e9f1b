/** The few Kotlin/JVM primitives the sampler relies on: nullable results,
    64-bit `Long` arithmetic with two's-complement wrap-around, and
    `String.equals(other, ignoreCase = true)` restricted to ASCII letters. */
module Jvm {

  /** A Kotlin nullable value (`T?`), also used as a parse result. */
  datatype Option<+T> = None | Some(value: T) {

    predicate IsFailure() {
      None?
    }

    function PropagateFailure<U>(): Option<U>
      requires None?
    {
      None
    }

    function Extract(): T
      requires Some?
    {
      value
    }
  }

  const LONG_MIN: int := -0x8000_0000_0000_0000
  const LONG_MAX: int := 0x7FFF_FFFF_FFFF_FFFF
  const LONG_MODULUS: int := 0x1_0000_0000_0000_0000

  /** Values a Kotlin `Long` can hold. */
  type Long = x: int | -0x8000_0000_0000_0000 <= x <= 0x7FFF_FFFF_FFFF_FFFF

  /** The Long that JVM arithmetic yields for the exact result `x`. */
  function WrapLong(x: int): (r: Long)
    ensures LONG_MIN <= x <= LONG_MAX ==> r == x
    ensures (x - r) % LONG_MODULUS == 0
  {
    var k := (x - LONG_MIN) / LONG_MODULUS;
    assert x - LONG_MIN == k * LONG_MODULUS + (x - LONG_MIN) % LONG_MODULUS;
    (x - LONG_MIN) % LONG_MODULUS + LONG_MIN
  }

  /** `a - b` on Kotlin Longs. */
  function SubLong(a: Long, b: Long): Long {
    WrapLong(a - b)
  }

  /** `a * b` on Kotlin Longs. */
  function MulLong(a: Long, b: Long): Long {
    WrapLong(a * b)
  }

  /** Lower-casing of one character; only ASCII letters are folded. */
  function Lower(c: char): char {
    if 'A' <= c <= 'Z' then (c as int + 32) as char else c
  }

  /** `a.equals(b, ignoreCase = true)`: same length, and the characters agree
      position by position once folded. */
  predicate EqualsIgnoreCase(a: string, b: string) {
    |a| == |b| && forall i :: 0 <= i < |a| ==> Lower(a[i]) == Lower(b[i])
  }
}
