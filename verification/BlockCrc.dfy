/** The checksum of a block: a 32-bit register fed with bytes, most significant bit first. */
module BlockCrc {
  import opened MachineInts

  /** One bit of polynomial division. */
  function CrcStep(c: bv32): bv32 {
    if c & 0x8000_0000 != 0 then (c << 1) ^ 0x04c1_1db7 else c << 1
  }

  function CrcSteps(c: bv32, n: nat): bv32
    decreases n
  {
    if n == 0 then c else CrcSteps(CrcStep(c), n - 1)
  }

  /** The table entry of a byte value: that value divided out over eight bits. */
  function CrcTable(i: bv32): bv32 {
    CrcSteps(i << 24, 8)
  }

  function UpdateCrc(crc: bv32, c: Byte): bv32 {
    (crc << 8) ^ CrcTable((crc >> 24) ^ (c as bv32))
  }

  const CRC_START: bv32 := 0xffff_ffff

  /** The register after a stretch of bytes. */
  ghost function CrcOf(s: seq<Byte>): bv32 {
    if s == [] then CRC_START else UpdateCrc(CrcOf(s[..|s| - 1]), s[|s| - 1])
  }

  lemma CrcPush(s: seq<Byte>, c: Byte)
    ensures CrcOf(s + [c]) == UpdateCrc(CrcOf(s), c) && CrcOf([]) == CRC_START
  {
    assert (s + [c])[..|s|] == s;
  }

  function FinalCrc(crc: bv32): bv32 {
    !crc
  }

  /** How the checksum of a block enters that of the stream. */
  function FoldCrc(combined: bv32, crc: bv32): bv32 {
    ((combined << 1) | (combined >> 31)) ^ crc
  }

  /** The checksum of a stream of blocks. */
  ghost function Combined(blocks: seq<seq<Byte>>): bv32 {
    if blocks == [] then 0 else FoldCrc(Combined(blocks[..|blocks| - 1]), FinalCrc(CrcOf(blocks[|blocks| - 1])))
  }

  lemma {:induction false} CombinedPush(blocks: seq<seq<Byte>>, b: seq<Byte>)
    ensures Combined(blocks + [b]) == FoldCrc(Combined(blocks), FinalCrc(CrcOf(b))) && Combined([]) == 0
  {
    assert (blocks + [b])[..|blocks|] == blocks;
  }

  /** The checksum as a number. */
  function CrcNumber(crc: bv32): (n: nat)
    ensures n < 0x1_0000_0000
  {
    crc as nat
  }

  lemma CrcNumberIs(crc: bv32)
    ensures CrcNumber(crc) == crc as nat
  {
  }
}
