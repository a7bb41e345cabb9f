/** Capacities of the forty symbol versions at error-correction level M. */
module Versions {

  const MIN_VERSION := 1
  const MAX_VERSION := 40

  type Version = version: nat | MIN_VERSION <= version <= MAX_VERSION witness MIN_VERSION

  const ECC_CODEWORDS_PER_BLOCK: seq<int> := [
    -1, 10, 16, 26, 18, 24, 16, 18, 22, 22, 26, 30, 22, 22, 24, 24, 28, 28, 26, 26, 26, 26, 28, 28,
    28, 28, 28, 28, 28, 28, 28, 28, 28, 28, 28, 28, 28, 28, 28, 28, 28
  ]

  const ECC_BLOCKS: seq<int> := [
    -1, 1, 1, 1, 2, 2, 4, 4, 4, 5, 5, 5, 8, 9, 9, 10, 10, 11, 13, 14, 16, 17, 17, 18, 20, 21, 23, 25,
    26, 28, 29, 31, 33, 35, 37, 38, 40, 43, 45, 47, 49
  ]

  function EccLength(version: Version): int { ECC_CODEWORDS_PER_BLOCK[version] }

  function BlockCount(version: Version): int { ECC_BLOCKS[version] }

  function CharacterCountBits(version: Version): nat {
    if version <= 9 then 8 else 16
  }

  /** Modules left to the data once every function pattern has its share. */
  function RawModuleCount(version: Version): int {
    var modules := (16 * version + 128) * version + 64;
    if version < 2 then modules
    else
      var alignments := version / 7 + 2;
      modules - ((25 * alignments - 10) * alignments - 55) - if version >= 7 then 36 else 0
  }

  function RawCodewordCount(version: Version): int {
    RawModuleCount(version) / 8
  }

  function DataCodewordCount(version: Version): int {
    RawCodewordCount(version) - EccLength(version) * BlockCount(version)
  }

  predicate Fits(version: Version, byteLength: nat) {
    4 + CharacterCountBits(version) + byteLength * 8 <= DataCodewordCount(version) * 8
  }

  /** What every row of the two tables has in common. */
  predicate WellShaped(raw: int, blocks: int, ecc: int) {
    && 0 < blocks && 0 < ecc <= 30
    && ecc < raw / blocks
    && 0 < raw - ecc * blocks <= 2334
  }

  lemma BlockShape(version: Version)
    ensures WellShaped(RawCodewordCount(version), BlockCount(version), EccLength(version))
  {
    hide RawModuleCount;
    RawTable(version);
    if version <= 10 {
      SmallBlockShape(version);
    } else if version <= 20 {
      MediumBlockShape(version);
    } else {
      LargeBlockShape(version);
    }
  }

  lemma SmallBlockShape(version: Version)
    requires version <= 10
    ensures WellShaped(RAW_MODULES[version] / 8, ECC_BLOCKS[version], ECC_CODEWORDS_PER_BLOCK[version])
  {}

  lemma MediumBlockShape(version: Version)
    requires 10 < version <= 20
    ensures WellShaped(RAW_MODULES[version] / 8, ECC_BLOCKS[version], ECC_CODEWORDS_PER_BLOCK[version])
  {}

  lemma LargeBlockShape(version: Version)
    requires 20 < version
    ensures WellShaped(RAW_MODULES[version] / 8, ECC_BLOCKS[version], ECC_CODEWORDS_PER_BLOCK[version])
  {}

  /** RawModuleCount, version by version. */
  const RAW_MODULES: seq<int> := [
    0, 208, 359, 567, 807, 1079, 1383, 1568, 1936, 2336, 2768, 3232, 3728, 4256, 4651, 5243, 5867, 6523,
    7211, 7931, 8683, 9252, 10068, 10916, 11796, 12708, 13652, 14628, 15371, 16411, 17483, 18587,
    19723, 20891, 22091, 23008, 24272, 25568, 26896, 28256, 29648
  ]

  lemma RawTable(version: Version)
    ensures RawModuleCount(version) == RAW_MODULES[version]
  {
  }

  /** The first version whose data capacity holds the payload, or none. */
  method SmallestVersion(byteLength: nat) returns (found: bool, version: Version)
    ensures found ==> Fits(version, byteLength)
    ensures found ==> forall smaller: Version :: smaller < version ==> !Fits(smaller, byteLength)
    ensures !found ==> forall any: Version :: !Fits(any, byteLength)
  {
    var candidate := MIN_VERSION;
    while candidate <= MAX_VERSION
      invariant MIN_VERSION <= candidate <= MAX_VERSION + 1
      invariant forall smaller: Version :: smaller < candidate ==> !Fits(smaller, byteLength)
    {
      var capacity := DataCodewordCount(candidate) * 8;
      if 4 + CharacterCountBits(candidate) + byteLength * 8 <= capacity {
        return true, candidate;
      }
      candidate := candidate + 1;
    }
    return false, MAX_VERSION;
  }
}
