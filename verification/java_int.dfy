/** Java's 32-bit two's-complement `int`, as far as the model needs it. */
module JavaInt {

  const MinInt: int := -0x8000_0000
  const MaxInt: int := 0x7fff_ffff
  const Modulus: int := 0x1_0000_0000

  /** The values a Java `int` can hold. */
  predicate InRange(x: int) {
    MinInt <= x <= MaxInt
  }

  type Int32 = x: int | MinInt <= x <= MaxInt

  /** The 32-bit value a non-negative mathematical count wraps to. */
  function Wrap(n: nat): (r: Int32)
    ensures n <= MaxInt ==> r == n
    ensures (r - n) % Modulus == 0
  {
    var m := n % Modulus;
    if m <= MaxInt then m else m - Modulus
  }

  /** Java's `x++` on an `int`: adds one, wrapping from MaxInt to MinInt. */
  function Inc(x: Int32): (r: Int32)
    ensures x < MaxInt ==> r == x + 1
    ensures x == MaxInt ==> r == MinInt
  {
    if x == MaxInt then MinInt else x + 1
  }

  /** Counting up from zero with `Inc` agrees with wrapping the count. */
  lemma IncWrap(n: nat)
    ensures Inc(Wrap(n)) == Wrap(n + 1)
  {
  }
}
