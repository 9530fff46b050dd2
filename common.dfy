/** Value types shared by every module: optional values, error results and the
    fixed-width unsigned integers of the emulator's C++ code. */
module Common {

  /** The conventional Some/None datatype, standing in for `std::optional`. */
  datatype Option<+T> = None | Some(value: T)

  /** The result of an operation that may throw an exception instead of returning. */
  datatype Result<+T> = Ok(value: T) | Err(message: string)

  const U8_LIMIT: int := 0x100
  const U16_LIMIT: int := 0x1_0000
  const U32_LIMIT: int := 0x1_0000_0000
  const U64_LIMIT: int := 0x1_0000_0000_0000_0000

  type u8 = x: int | 0 <= x < U8_LIMIT
  type u16 = x: int | 0 <= x < U16_LIMIT
  type u32 = x: int | 0 <= x < U32_LIMIT
  type u64 = x: int | 0 <= x < U64_LIMIT

  /** 2 to the power `n`. */
  function Pow2(n: nat): (r: nat)
    ensures r >= 1
  {
    if n == 0 then 1 else 2 * Pow2(n - 1)
  }

  /** Powers of two grow with the exponent. */
  lemma {:induction false} Pow2Monotone(n: nat, m: nat)
    requires n <= m
    ensures Pow2(n) <= Pow2(m)
    decreases m
  {
    if n < m {
      Pow2Monotone(n, m - 1);
    }
  }
}
