/** Machine words: the program's `uint64_t` and the `int64_t` reading of a difference. */
module Words {

  const TWO_63: int := 0x8000_0000_0000_0000
  const TWO_64: int := 0x1_0000_0000_0000_0000

  type U64 = x: int | 0 <= x < TWO_64

  /** Conventional option, for "a block was closed" results and for partial writes. */
  datatype Option<+T> = None | Some(value: T)

  // Words are reduced modulo 2^64 written out, so that the divisor is a literal to the solver.

  /** Unsigned 64-bit addition. */
  function Add64(a: U64, b: U64): U64 {
    (a + b) % 0x1_0000_0000_0000_0000
  }

  /** Unsigned 64-bit subtraction. */
  function Sub64(a: U64, b: U64): U64 {
    (a - b) % 0x1_0000_0000_0000_0000
  }

  /** Any integer truncated to 64 bits. */
  function Trunc64(a: int): U64 {
    a % 0x1_0000_0000_0000_0000
  }

  /** The two's complement reading of a 64-bit word. */
  function Signed64(a: U64): int {
    if a < TWO_63 then a else a - TWO_64
  }

  /** The unsigned difference read as a signed number is the true distance exactly when that fits. */
  lemma SignedDistance(a: U64, b: U64)
    ensures Signed64(Sub64(a, b)) == a - b <==> -TWO_63 <= a - b < TWO_63
  {
  }

  lemma SmallTrunc(a: int)
    requires 0 <= a < TWO_64
    ensures Trunc64(a) == a
  {
  }

  lemma SmallSum(a: U64, b: U64)
    requires a + b < TWO_64
    ensures Add64(a, b) == a + b
  {
  }

  /** Counting down commutes with truncation. */
  lemma TruncPredecessor(a: int)
    ensures Trunc64(a - 1) == Sub64(Trunc64(a), 1)
  {
  }
}
