/** Vocabulary shared by every component: an optional value and the 64-bit
    unsigned arithmetic that deadlines and wake times are computed in. */
module Prelude {

  datatype Option<+T> = None | Some(value: T)

  const TWO_TO_THE_64: int := 0x1_0000_0000_0000_0000

  type u64 = x: int | 0 <= x < 0x1_0000_0000_0000_0000

  /** `a + b` as the machine computes it. */
  function Add64(a: u64, b: u64): u64 {
    if a + b < TWO_TO_THE_64 then a + b else a + b - TWO_TO_THE_64
  }

  /** `a - b` as the machine computes it. */
  function Sub64(a: u64, b: u64): u64 {
    if b <= a then a - b else a - b + TWO_TO_THE_64
  }

  /** Both wrap around at 2 to the 64. */
  lemma WrapsAround(a: u64, b: u64)
    ensures Add64(a, b) == (a + b) % 18446744073709551616
    ensures Sub64(a, b) == (a - b) % 18446744073709551616
    ensures Sub64(Add64(a, b), b) == a
  {
  }
}
