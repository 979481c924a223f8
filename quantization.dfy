/**
  The two integer-exact conversions of `run_inference`.

  Input: `(int8_t)((x - 0.0f) * (255.0f / 6.0f) - 128.0f)`. The quotient
  255/6 is 42.5, which a float holds exactly, and for the small integers
  this is defined for every step is exact too, so the value before the cast
  is the rational (85·x − 256)/2; the cast to `int8_t` truncates toward zero
  and is defined only when the truncated value fits `int8_t`, which is the
  case exactly for x in 0..6.

  Output: `result = result / 32.0f` with `result` an `int8_t`; the quotient
  is exact in a float and assigning it back to `int8_t` truncates toward zero.
*/
module Quantization {
  import opened CTypes

  /** The largest raw input the cast at the input tensor is defined for. */
  const InputMax: int := 6

  /** The value the input conversion produces before the cast, doubled: 2·(42.5·x − 128). */
  function Doubled(x: int): int {
    85 * x - 256
  }

  /** The byte written to the input tensor for raw value `x`: 42.5·x − 128, truncated toward zero. */
  function Quantize(x: int): (q: int8)
    requires 0 <= x <= InputMax
    ensures Abs(Doubled(x) - 2 * q) <= 1
    ensures Abs(2 * q) <= Abs(Doubled(x))
  {
    DivTrunc(Doubled(x), 2)
  }

  /** The truncated value fits `int8_t` exactly on 0..6, so the cast is defined exactly there. */
  lemma QuantizeDefinedExactlyOnDomain(x: int)
    ensures FitsInt8(DivTrunc(Doubled(x), 2)) <==> 0 <= x <= InputMax
  {
    var q := DivTrunc(Doubled(x), 2);
    if x < 0 {
      assert Doubled(x) <= -341;
      assert q <= -170;
    } else if x > InputMax {
      assert Doubled(x) >= 339;
      assert q >= 169;
    }
  }

  lemma QuantizeEndpoints()
    ensures Quantize(0) == -128 && Quantize(InputMax) == 127
  {
  }

  /** Distinct inputs give distinct tensor bytes, in the same order. */
  lemma {:induction false} QuantizeStrictlyIncreasing(x: int, y: int)
    requires 0 <= x < y <= InputMax
    ensures Quantize(x) < Quantize(y)
  {
    assert Doubled(y) - Doubled(x) >= 85;
  }

  /** Reads a raw input back from its tensor byte: the nearest x with 42.5·x − 128 close to `q`. */
  function Unquantize(q: int8): int {
    (2 * (q + 128) + 42) / 85
  }

  /** On its domain the input conversion loses nothing: `Unquantize` inverts it. */
  lemma UnquantizeInverts(x: int)
    requires 0 <= x <= InputMax
    ensures Unquantize(Quantize(x)) == x
  {
    var q := Quantize(x);
    assert -1 <= Doubled(x) - 2 * q <= 1;
    assert 85 * x - 1 <= 2 * (q + 128) <= 85 * x + 1;
    assert 85 * x <= 2 * (q + 128) + 42 < 85 * (x + 1);
  }

  /** The printed prediction: the output byte divided by 32, truncated toward zero. */
  function Prediction(out: int8): (p: int8)
    ensures -4 <= p <= 3
    ensures Abs(out) - 32 < Abs(32 * p) <= Abs(out)
    ensures p == 0 || (p > 0 <==> out > 0)
  {
    DivTrunc(out, 32)
  }

  lemma PredictionMonotone(a: int8, b: int8)
    requires a <= b
    ensures Prediction(a) <= Prediction(b)
  {
  }
}
