/** 64-bit signed integers as the source's machine computes them. */
module Int64 {
  const LIMIT: int := 0x8000_0000_0000_0000

  predicate IsInt64(x: int) {
    -LIMIT <= x < LIMIT
  }

  /** Two's complement wrap-around of a 64-bit result. */
  function Wrap64(x: int): (r: int)
    ensures IsInt64(r) && (IsInt64(x) ==> r == x)
  {
    (x + LIMIT) % (2 * LIMIT) - LIMIT
  }

  /** Integer division that truncates toward zero. */
  function Quotient(a: int, b: int): int
    requires b > 0
  {
    if a >= 0 then a / b else -((-a) / b)
  }
}
