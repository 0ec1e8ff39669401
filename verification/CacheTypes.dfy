/** Identifiers shared by the block pool, the prefix hasher and the cache manager. */
module CacheTypes {
  type BlockId = nat
  type RequestId = nat
  type Token = t: int | 0 <= t < 0x1_0000_0000
  type Byte = b: int | 0 <= b < 256
  /** A 64-bit block hash. */
  type BlockHash = h: int | 0 <= h < 0x1_0000_0000_0000_0000

  /** The null block is never allocated, never freed and never cached. */
  const NULL_BLOCK: BlockId := 0
}
