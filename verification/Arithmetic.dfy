/** 32-bit integers, and facts about products. */
module Arithmetic {

  const INT_LIMIT := 0x8000_0000

  /** The 32-bit int that a wider value is converted to. */
  function ToInt(x: int): (r: int)
    ensures -INT_LIMIT <= r < INT_LIMIT
    ensures (x - r) % (2 * INT_LIMIT) == 0
    ensures -INT_LIMIT <= x < INT_LIMIT ==> r == x
  {
    var y := x % (2 * INT_LIMIT);
    if y < INT_LIMIT then y else y - 2 * INT_LIMIT
  }

  lemma {:induction false} MulGrows(a: int, b: int, c: nat)
    requires a <= b
    ensures a * c <= b * c
  {}

  lemma {:induction false} MulAdd(a: int, b: int, c: int)
    ensures (a + b) * c == a * c + b * c
  {}
}
