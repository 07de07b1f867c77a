/**
 * The configuration of the multi-level bucket cache and its validation
 * (`MultiLevelBucketCacheConfig` and its `Validate` method).
 */
module Config {
  import opened Wrappers

  /** Opaque TTL: `time.Duration`, passed through to tier writes untouched. */
  type Duration = int

  datatype MultiLevelBucketCacheConfig = MultiLevelBucketCacheConfig(
    maxAsyncConcurrency: int,
    maxAsyncBufferSize: int,
    maxBackfillItems: int,
    backfillTTL: Duration)

  /** The three distinct validation errors, one per bound. */
  datatype ConfigError =
    | InvalidMaxAsyncBufferSize
    | InvalidMaxAsyncConcurrency
    | InvalidMaxBackfillItems

  /**
   * `None` (Go's nil) when all three bounds are positive; otherwise the error
   * of the first failing check, in the order buffer size, concurrency,
   * backfill items.
   */
  function Validate(cfg: MultiLevelBucketCacheConfig): (r: Option<ConfigError>)
    ensures r == None <==>
      cfg.maxAsyncBufferSize > 0 && cfg.maxAsyncConcurrency > 0 && cfg.maxBackfillItems > 0
    ensures r == Some(InvalidMaxAsyncBufferSize) <==> cfg.maxAsyncBufferSize <= 0
    ensures r == Some(InvalidMaxAsyncConcurrency) <==>
      cfg.maxAsyncBufferSize > 0 && cfg.maxAsyncConcurrency <= 0
    ensures r == Some(InvalidMaxBackfillItems) <==>
      cfg.maxAsyncBufferSize > 0 && cfg.maxAsyncConcurrency > 0 && cfg.maxBackfillItems <= 0
  {
    if cfg.maxAsyncBufferSize <= 0 then Some(InvalidMaxAsyncBufferSize)
    else if cfg.maxAsyncConcurrency <= 0 then Some(InvalidMaxAsyncConcurrency)
    else if cfg.maxBackfillItems <= 0 then Some(InvalidMaxBackfillItems)
    else None
  }

  /** Each failing bound on its own yields its own error, and the three differ. */
  lemma SingleViolationErrors(cfg: MultiLevelBucketCacheConfig)
    requires cfg.maxAsyncBufferSize > 0 && cfg.maxAsyncConcurrency > 0 && cfg.maxBackfillItems > 0
    ensures Validate(cfg.(maxAsyncBufferSize := 0)) == Some(InvalidMaxAsyncBufferSize)
    ensures Validate(cfg.(maxAsyncConcurrency := 0)) == Some(InvalidMaxAsyncConcurrency)
    ensures Validate(cfg.(maxBackfillItems := 0)) == Some(InvalidMaxBackfillItems)
    ensures InvalidMaxAsyncBufferSize != InvalidMaxAsyncConcurrency
    ensures InvalidMaxAsyncConcurrency != InvalidMaxBackfillItems
    ensures InvalidMaxAsyncBufferSize != InvalidMaxBackfillItems
  {
  }
}
