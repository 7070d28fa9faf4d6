/** The constants of the Shox96 text codec.

    The compressor looks a character up in C_95 / L_95 (a left-justified 16-bit code and
    its length; laid out here in rows of eight).  The decompressor never sees those two:
    it walks VCODE and HCODE, whose entry at a code value holds length + 8 * index, and
    then picks a character out of SETS.  That the two sides agree is proved in ShoxCodes. */
module ShoxTables {

  const C_95: seq<seq<nat>> := [
    [16384, 16256, 15744, 16192, 15328, 15344, 15360, 16064],
    [15264, 15296, 15712, 15200, 14976, 15040, 14848, 15104],
    [14528, 14592, 14656, 14688, 14720, 14752, 14784, 14816],
    [14832, 14464, 15552, 15488, 15616, 15168, 15680, 16000],
    [15872, 10752, 8576, 8192, 8320, 9728, 8672, 8608],
    [8384, 11264, 9024, 8992, 12160, 8544, 11520, 11008],
    [8512, 9008, 12032, 11776, 10240, 8448, 8960, 8640],
    [9040, 8688, 9048, 15840, 16288, 15856, 16128, 16224],
    [16368, 40960, 6144, 0, 2048, 24576, 7680, 6656],
    [3072, 49152, 13312, 12800, 63488, 5632, 53248, 45056],
    [5120, 13056, 61440, 57344, 32768, 4096, 12288, 7168],
    [13568, 7936, 13696, 15776, 16320, 15808, 16352]]

  const L_95: seq<seq<nat>> := [
    [3, 11, 11, 11, 12, 12, 9, 10],
    [11, 11, 11, 11, 10, 10, 9, 10],
    [10, 10, 11, 11, 11, 11, 11, 12],
    [12, 10, 10, 10, 10, 11, 11, 10],
    [9, 8, 11, 9, 10, 7, 12, 11],
    [10, 8, 12, 12, 9, 11, 8, 8],
    [11, 12, 9, 8, 7, 10, 11, 11],
    [13, 12, 13, 12, 11, 12, 10, 11],
    [12, 4, 7, 5, 6, 3, 8, 7],
    [6, 4, 8, 8, 5, 7, 4, 4],
    [7, 8, 5, 4, 3, 6, 7, 7],
    [9, 8, 9, 11, 11, 11, 12]]

  function C95(i: nat): nat
    requires i < 95
  {
    C_95[i / 8][i % 8]
  }

  function L95(i: nat): (len: nat)
    requires i < 95
    ensures 0 < len <= 13
  {
    L_95[i / 8][i % 8]
  }

  /** The characters that may stay in the digit mode: the source searches only the first
      42 places of a 43-character string, so '`' is not one of them. */
  const SET2_STR: string := "9012345678" + ".,-/=+ ()$%" + "&;:<>*\"{}[]" + "@?'^#_!\\|~"

  predicate InSet2(c: char) {
    c in SET2_STR
  }

  const VCODE: seq<nat> :=
    [2, 27, 11, 52, 0, 36, 19, 68]
    + [0, 0, 0, 60, 0, 44, 0, 77]
    + [0, 0, 0, 0, 0, 0, 0, 0]
    + [0, 0, 0, 0, 0, 0, 0, 85]

  const HCODE: seq<nat> :=
    [9, 2, 0, 19, 0, 0, 0, 29]
    + [0, 0, 0, 0, 0, 0, 0, 45]
    + [0, 0, 0, 0, 0, 0, 0, 37]
    + [0, 0, 0, 0, 0, 0, 0, 53]

  const SET1: nat := 0
  const SET1B: nat := 2
  const SET2: nat := 3

  const SETS: seq<string> := [
    "  etaoinsrl", "cdhupmbgwfy", "vkqjxz     ", " 9012345678",
    ".,-/=+ ()$%", "&;:<>*\"{}[]", "@?'^#_!\\|~`"]

  /** MASK[b - 1] keeps the b topmost digits of a 16-bit code. */
  const MASK: seq<nat> := [0x8000, 0xC000, 0xE000, 0xF000, 0xF800, 0xFC00, 0xFE00, 0xFF00]

  // Count prefixes: the compressor's classes in order of size ...
  const COUNT_CODE: seq<nat> := [0x01, 0x82, 0xC3, 0xE5, 0xED, 0xF5]
  const COUNT_BITS: seq<nat> := [2, 5, 7, 9, 12, 16]
  const COUNT_BASE: seq<nat> := [0, 4, 36, 164, 676, 4772]

  // ... and the decompressor's, in order of the HCODE index of the prefix.
  const READ_BITS: seq<nat> := [5, 2, 7, 9, 12, 16, 17]
  const READ_BASE: seq<nat> := [4, 0, 36, 164, 676, 4772, 0]

  /** The sum of 2^b over COUNT_BITS: counts from here on have no code. */
  const COUNT_LIMIT: nat := 70308

  const NICE_LEN_FOR_PRIOR: nat := 7
}
