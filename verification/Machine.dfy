/** Fixed-width integers the source converts to. */
module Machine {
  const TWO_TO_THE_32 := 0x1_0000_0000
  const TWO_TO_THE_64 := 0x1_0000_0000_0000_0000

  /** Go's `int32(n)`: the low 32 bits, read as a signed number. */
  function Int32(n: int): (r: int)
    ensures -0x8000_0000 <= r < 0x8000_0000
    ensures -0x8000_0000 <= n < 0x8000_0000 ==> r == n
  {
    (n + 0x8000_0000) % TWO_TO_THE_32 - 0x8000_0000
  }
}
