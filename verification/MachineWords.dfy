/** The machine's bytes and 64-bit words. */
module MachineWords {

  newtype byte = x: int | 0 <= x < 256

  const TWO_TO_64: nat := 0x1_0000_0000_0000_0000
  const U64_MAX: nat := TWO_TO_64 - 1

  type u64 = n: nat | n < TWO_TO_64
}
