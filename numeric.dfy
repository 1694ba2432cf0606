/** Unsigned 32-bit arithmetic and small integer helpers shared by the model. */
module Numeric {

  /** Number of values of a U32. */
  const U32_LIMIT: int := 0x1_0000_0000

  /** The value a C++ conversion to U32 produces: reduction modulo 2^32. */
  function AsU32(x: int): (r: nat)
    ensures r < U32_LIMIT
    ensures 0 <= x < U32_LIMIT ==> r == x
    ensures -U32_LIMIT <= x < 0 ==> r == x + U32_LIMIT
  {
    x % U32_LIMIT
  }

  function Min(a: int, b: int): (m: int)
    ensures m <= a && m <= b && (m == a || m == b)
  {
    if a <= b then a else b
  }

  function Max(a: int, b: int): (m: int)
    ensures a <= m && b <= m && (m == a || m == b)
  {
    if a <= b then b else a
  }
}
