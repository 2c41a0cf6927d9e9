/** 32-bit words as integers. */
module Word32 {
  const WORD := 0x1_0000_0000

  /** v converted to a signed 32-bit integer. */
  function Sword(v: int): int {
    if v % WORD >= 0x8000_0000 then v % WORD - WORD else v % WORD
  }

  lemma SwordExact(v: int)
    requires -0x8000_0000 <= v < 0x8000_0000
    ensures Sword(v) == v
  {
  }
}
