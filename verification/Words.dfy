/** Machine words of the datapath. Values are mathematical integers in range;
    the operations below are the C operators on unsigned 64- and 32-bit words,
    wrap-around included. */
module Words {
  const TWO32: int := 0x1_0000_0000
  const TWO63: int := 0x8000_0000_0000_0000
  const TWO64: int := 0x1_0000_0000_0000_0000

  type u4 = x: int | 0 <= x < 16
  type u8 = x: int | 0 <= x < 256
  type u16 = x: int | 0 <= x < 0x1_0000
  type u32 = x: int | 0 <= x < TWO32
  type u64 = x: int | 0 <= x < TWO64

  function Add64(a: u64, b: u64): u64 {
    if a + b < TWO64 then a + b else a + b - TWO64
  }

  function Sub64(a: u64, b: u64): u64 {
    if b <= a then a - b else a - b + TWO64
  }

  function Mul64(a: u64, b: u64): u64 {
    if 0 <= a * b < TWO64 then a * b else (a * b) % TWO64
  }

  function Inc32(a: u32): u32 {
    if a + 1 < TWO32 then a + 1 else 0
  }
}
