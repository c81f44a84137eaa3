/**
 The column flag bits of the fake MySQL client header and the macros that
 test them.
 */
module Flags {

  // Column flag bits.
  const NOT_NULL_FLAG: bv32 := 1
  const PRI_KEY_FLAG: bv32 := 2
  const UNIQUE_KEY_FLAG: bv32 := 4
  const MULTIPLE_KEY_FLAG: bv32 := 8
  const BLOB_FLAG: bv32 := 16
  const UNSIGNED_FLAG: bv32 := 32
  const ZEROFILL_FLAG: bv32 := 64
  const BINARY_FLAG: bv32 := 128
  const ENUM_FLAG: bv32 := 256
  const AUTO_INCREMENT_FLAG: bv32 := 512
  const TIMESTAMP_FLAG: bv32 := 1024
  const SET_FLAG: bv32 := 2048
  const NUM_FLAG: bv32 := 32768
  const PART_KEY_FLAG: bv32 := 16384
  const GROUP_FLAG: bv32 := 32768
  const UNIQUE_FLAG: bv32 := 65536

  predicate IsPriKey(n: bv32) { n & PRI_KEY_FLAG != 0 }
  predicate IsNotNull(n: bv32) { n & NOT_NULL_FLAG != 0 }
  predicate IsBlob(n: bv32) { n & BLOB_FLAG != 0 }

  /** Each flag test reads its own bit: setting that bit makes the test
      true and clearing it makes the test false. */
  lemma FlagTestsFollowTheirBit(n: bv32)
    ensures IsNotNull(n | NOT_NULL_FLAG) && !IsNotNull(n & !NOT_NULL_FLAG)
    ensures IsPriKey(n | PRI_KEY_FLAG) && !IsPriKey(n & !PRI_KEY_FLAG)
    ensures IsBlob(n | BLOB_FLAG) && !IsBlob(n & !BLOB_FLAG)
  {
  }

  /** Setting bits other than its own leaves each test unchanged. */
  lemma NotNullIgnoresOtherBits(n: bv32, m: bv32)
    requires m & NOT_NULL_FLAG == 0
    ensures IsNotNull(n | m) == IsNotNull(n)
  {
  }

  lemma PriKeyIgnoresOtherBits(n: bv32, m: bv32)
    requires m & PRI_KEY_FLAG == 0
    ensures IsPriKey(n | m) == IsPriKey(n)
  {
  }

  lemma BlobIgnoresOtherBits(n: bv32, m: bv32)
    requires m & BLOB_FLAG == 0
    ensures IsBlob(n | m) == IsBlob(n)
  {
  }
}
