/** The unsigned machine integers the compressor stores. */
module MachineInts {
  type Byte = x: nat | x < 0x100
  type UInt16 = x: nat | x < 0x1_0000
  type UInt32 = x: nat | x < 0x1_0000_0000
}
