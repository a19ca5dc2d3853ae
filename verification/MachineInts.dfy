/** The unsigned machine integers of the server. */
module MachineInts {

  const UINT32: nat := 0x1_0000_0000
  const WORD: nat := 0x1_0000_0000_0000_0000

  /** A 32-bit unsigned number. */
  type Uint32 = n: nat | n < UINT32

  /** A 64-bit unsigned number. */
  type Word = w: nat | w < WORD
}
