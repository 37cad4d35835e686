/** Go's integers, where they differ from the mathematical ones. */
module GoInt {
  const MAX_INT := 0x7fff_ffff_ffff_ffff
  const MIN_INT := -0x8000_0000_0000_0000

  /** Division truncates towards zero. */
  function Div(a: int, b: int): int
    requires b > 0
  {
    if a >= 0 then a / b else -((-a) / b)
  }

  /** The remainder has the sign of the dividend. */
  function Mod(a: int, b: int): int
    requires b > 0
  {
    a - Div(a, b) * b
  }

  /** What is left of a number in 64 bits. */
  function Wrap(a: int): int {
    (a - MIN_INT) % 0x1_0000_0000_0000_0000 + MIN_INT
  }

  function Min(a: int, b: int): int { if a < b then a else b }

  function Max(a: int, b: int): int { if a < b then b else a }
}
