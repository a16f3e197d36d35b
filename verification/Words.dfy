// Machine words and sizes.
module Words {
  // The values of size_t, and of uint32_t.
  const SIZE_MOD := 0x1_0000_0000_0000_0000
  const WORD := 0x1_0000_0000

  const PAGE_SIZE: nat := 4096

  // The signed 32-bit reading of a value.
  function Wrap32(x: int): int { (x + 0x8000_0000) % 0x1_0000_0000 - 0x8000_0000 }

  function AtLeastOne(n: nat): nat { if n == 0 then 1 else n }
}
