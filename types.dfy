/**
 * Shared vocabulary of the rate-limiting module: the result wrappers used by
 * every handler, the fixed-width integer types of the protobuf messages, and
 * the stored RateLimit record.
 */
module Types {

  /** Go's `uint64`. */
  type uint64 = x: int | 0 <= x < 0x1_0000_0000_0000_0000

  datatype Option<+T> = None | Some(value: T)

  /** A value or an error, as Go's `(T, error)` pairs. */
  datatype Result<+T, +E> = Success(value: T) | Failure(error: E)

  /** An error or nothing, as a Go function returning only `error`. */
  datatype Outcome<+E> = Pass | Fail(error: E)

  /** The key of a rate limit: a denom on a channel or a light client. */
  datatype Path = Path(denom: string, channelOrClientId: string)

  /**
   * The configured caps. The percentages are `sdkmath.Int`s, bounded to 256 bits
   * in the library; the bound is dropped, as any value near it fails the
   * 0..100 range checks.
   */
  datatype Quota = Quota(maxPercentSend: int, maxPercentRecv: int, durationHours: uint64)

  /** The running totals of the current quota window. */
  datatype Flow = Flow(inflow: int, outflow: int, channelValue: int)

  datatype RateLimit = RateLimit(path: Path, quota: Quota, flow: Flow)

  /** The stored rate limits, keyed by (denom, channel-or-client id). */
  type RateLimitStore = map<Path, RateLimit>

  /** A stored whitelist entry. */
  datatype WhitelistedAddressPair = WhitelistedAddressPair(sender: string, receiver: string)

  /**
   * Errors returned by the handlers. The keeper's own errors (it is not part of
   * this model) are carried through unchanged, so any value may come from it.
   */
  datatype Error =
    | ErrInvalidSigner
    | ErrRateLimitNotFound
    | ErrInvalidClientState
    | KeeperError(reason: string)
}
