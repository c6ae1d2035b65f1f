/** Vocabulary shared by every part of the model. */
module Vocabulary {
  datatype Option<+T> = None | Some(value: T)

  const MAX_U32: nat := 0xFFFF_FFFF
  const MAX_U64: nat := 0xFFFF_FFFF_FFFF_FFFF

  type byte = x: int | 0 <= x < 256
  type u32 = x: int | 0 <= x <= MAX_U32
  type u64 = x: int | 0 <= x <= MAX_U64

  /** A 16-byte id and a 65-byte public key, as the big-endian numbers they spell. */
  type Id16 = x: int | 0 <= x < 0x1_0000_0000_0000_0000_0000_0000_0000_0000
  type Key65 = x: int | 0 <= x < KEY65_LIMIT

  const KEY65_LIMIT: nat := 0x1_0000_0000_0000_0000_0000_0000_0000_0000_0000_0000_0000_0000_0000_0000_0000_0000_0000_0000_0000_0000_0000_0000_0000_0000_0000_0000_0000_0000_0000_0000_0000_0000_00

  /** The saturating deadline every timed authorization uses. */
  function DeadlineFrom(now: u64, ttl: u64): u64 {
    if now > MAX_U64 - ttl then MAX_U64 else now + ttl
  }

  /** Removing a present key makes a map one entry smaller. */
  lemma MapRemoveShrinks<K, V>(m: map<K, V>, k: K)
    requires k in m
    ensures |m - {k}| == |m| - 1
  {
    assert (m - {k}).Keys == m.Keys - {k};
  }
}
