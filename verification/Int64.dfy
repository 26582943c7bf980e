/**
  Go's signed 64-bit integers: arithmetic wraps modulo 2^64. Sums and differences of the model are
  unbounded integers, and are wrapped where the source computes them in an int64 and its value can leave
  the range; the lemmas say when a wrapped sum of wrapped parts is the wrapped sum.
*/
module Int64 {

  const MAX_INT64 := 0x7FFF_FFFF_FFFF_FFFF
  const MIN_INT64 := -0x8000_0000_0000_0000
  const TWO_64 := 0x1_0000_0000_0000_0000

  /** The int64 value that `x` wraps to. */
  function Wrap64(x: int): (r: int)
    ensures MIN_INT64 <= r <= MAX_INT64
    ensures MIN_INT64 <= x <= MAX_INT64 ==> r == x
  {
    (x - MIN_INT64) % TWO_64 + MIN_INT64
  }

  /** Wrapping an operand first does not change a wrapped sum. */
  lemma WrapSum(x: int, y: int)
    ensures Wrap64(Wrap64(x) + y) == Wrap64(x + y)
  {
    var a := x - MIN_INT64;
    var q := a / TWO_64;
    assert a == q * TWO_64 + a % TWO_64;
    ModShift(a % TWO_64 + y, q);
  }

  lemma ModShift(b: int, q: int)
    ensures (b + q * TWO_64) % TWO_64 == b % TWO_64
  {
    var lhs, rhs := (b + q * TWO_64) % TWO_64, b % TWO_64;
    var u, v := (b + q * TWO_64) / TWO_64, b / TWO_64;
    assert lhs - rhs == (v + q - u) * TWO_64;
  }
}
