/**
  The C-level vocabulary of the sketch: the byte a serial read delivers,
  the 8-bit signed tensor element, the 32-bit `int` of the target board,
  the ASCII codes the sketch and the C library compare against, and
  C's truncating division.
*/
module CTypes {

  /** One byte as `Serial.read()` delivers it and as the sketch stores it in a `char` buffer. */
  type byte = x: int | 0 <= x < 256

  /** `int8_t`, the element type of the model's input and output tensors. */
  type int8 = x: int | -128 <= x < 128

  const IntMin: int := -0x8000_0000
  const IntMax: int := 0x7FFF_FFFF

  /** `int` on the 32-bit board the sketch targets. */
  type cint = x: int | IntMin <= x <= IntMax

  predicate FitsInt(x: int) {
    IntMin <= x <= IntMax
  }

  predicate FitsInt8(x: int) {
    -128 <= x < 128
  }

  // ASCII codes that the sketch and the C library functions compare against.
  const Nul: byte := 0
  const CR: byte := 13
  const Space: byte := 32
  const Plus: byte := 43
  const Comma: byte := 44
  const Minus: byte := 45
  const Digit0: byte := 48
  const Digit9: byte := 57

  datatype Option<+T> = None | Some(value: T)

  function Abs(x: int): nat {
    if x < 0 then -x else x
  }

  /**
    Integer division rounding toward zero, which is what C's `/` on
    integers and a float-to-integer conversion both do. Dafny's own `/`
    rounds toward negative infinity for a negative dividend.
  */
  function DivTrunc(a: int, d: int): (q: int)
    requires d > 0
    ensures Abs(a) - d < Abs(q) * d <= Abs(a)
    ensures q == 0 || (q > 0 <==> a > 0)
  {
    var m := Abs(a) / d;
    DivisionBounds(Abs(a), d, m);
    if a >= 0 then m else -m
  }

  lemma DivisionBounds(n: nat, d: int, m: int)
    requires d > 0 && m == n / d
    ensures m >= 0 && n - d < m * d <= n
  {
    assert n == m * d + n % d;
  }
}
