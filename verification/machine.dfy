/** Machine integers. */
module Machine {
  const MAX_INT64: int := 0x7FFF_FFFF_FFFF_FFFF
  const TWO_64: int := 0x1_0000_0000_0000_0000

  /** A machine integer: 64 bits, two's complement. */
  function Int64(n: int): (r: int)
    ensures -MAX_INT64 - 1 <= r <= MAX_INT64
    ensures -MAX_INT64 - 1 <= n <= MAX_INT64 ==> r == n
  {
    (n + MAX_INT64 + 1) % TWO_64 - MAX_INT64 - 1
  }

  lemma Int64Succ(n: int)
    ensures Int64(Int64(n) + 1) == Int64(n + 1)
  {}
}
