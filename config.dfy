/** Compile-time sizing of the trace-buffer pool (atomic-cache-conf.h). */
module Config {
  /** NUMBER_OF_CACHES: how many buffers the pool owns. */
  const NumberOfCaches: nat := 4

  /** CACHE_SIZE: the number of bytes in one buffer. */
  const CacheSize: nat := 500
}
