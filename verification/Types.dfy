/** Shared vocabulary: addresses, 32-byte words, optional results and zero-default mappings. */
module Types {

  /** Account address; 0 is the zero address, which is also the token id of the native coin. */
  type Address = nat

  /** A bytes32 value; hashes are treated as injective keys. */
  type Word = nat

  const NATIVE: Address := 0
  const MAX_U64: nat := 0xFFFF_FFFF_FFFF_FFFF
  const MAX_U128: nat := 0xFFFF_FFFF_FFFF_FFFF_FFFF_FFFF_FFFF_FFFF
  const MAX_U256: nat := 0xFFFF_FFFF_FFFF_FFFF_FFFF_FFFF_FFFF_FFFF_FFFF_FFFF_FFFF_FFFF_FFFF_FFFF_FFFF_FFFF
  const MINUTES_15: nat := 900
  const DAYS_7: nat := 604800
  const DAYS_14: nat := 1209600

  datatype Option<+T> = None | Some(value: T)

  /** Reading a Solidity mapping: an absent key reads as zero. */
  function Get<K>(m: map<K, int>, k: K): int {
    if k in m then m[k] else 0
  }

  function Min(a: int, b: int): int {
    if a < b then a else b
  }

  function Max(a: int, b: int): int {
    if a < b then b else a
  }
}
