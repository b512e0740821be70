/**
 * Go's fixed-width integers. A Go `int` is 64 bits wide on the platforms the
 * program targets; its arithmetic wraps around in two's complement, and the
 * conversion `uint64(x)` of a negative `int` reinterprets its bits.
 */
module GoInt {

  const TWO_63: int := 0x8000_0000_0000_0000
  const TWO_64: int := 0x1_0000_0000_0000_0000

  /** Go's `int` (64-bit). */
  newtype int64 = x: int | -0x8000_0000_0000_0000 <= x < 0x8000_0000_0000_0000

  /** Go's `uint64`. */
  newtype uint64 = x: int | 0 <= x < 0x1_0000_0000_0000_0000

  /** The `int` that Go's two's-complement arithmetic yields for the exact result `x`. */
  function WrapInt64(x: int): (r: int64)
    ensures (r as int - x) % TWO_64 == 0
    ensures -TWO_63 <= x < TWO_63 ==> r as int == x
  {
    var m := (x + TWO_63) % TWO_64;
    (m - TWO_63) as int64
  }

  /** Go's conversion `uint64(x)` of an `int`: the same 64 bits read as unsigned. */
  function ToUint64(x: int64): (r: uint64)
    ensures (r as int - x as int) % TWO_64 == 0
    ensures x >= 0 <==> r as int == x as int
  {
    if x < 0 then (x as int + TWO_64) as uint64 else x as uint64
  }

  /** Agreement modulo 2^64 is transitive: two wrap-arounds in a row still agree with the exact value. */
  lemma CongruentTrans(a: int, b: int, c: int)
    requires (a - b) % TWO_64 == 0 && (b - c) % TWO_64 == 0
    ensures (a - c) % TWO_64 == 0
  {
    var k, l := (a - b) / TWO_64, (b - c) / TWO_64;
    assert a - b == k * TWO_64;
    assert b - c == l * TWO_64;
    assert a - c == (k + l) * TWO_64;
  }
}
