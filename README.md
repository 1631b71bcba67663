# Rate-limiting module: administrative and bookkeeping layer

This project is a Dafny model of the administrative and bookkeeping half of
the IBC rate-limiting module (`modules/rate-limiting`). The model covers four parts:

- **Message validation.** `ValidateBasic` of the four governance messages
  (`MsgAddRateLimit`, `MsgUpdateRateLimit`, `MsgRemoveRateLimit`,
  `MsgResetRateLimit`) and their constructors (`msgs.dfy`, module `Msgs`).
  Each validator is a total function returning `Pass` or the first failing
  check. The model proves that it accepts exactly when every check passes,
  and that otherwise it names the first check that fails.
- **Authority-gated handlers.** The msg server's `AddRateLimit`,
  `UpdateRateLimit`, `RemoveRateLimit` and `ResetRateLimit`
  (`msg_server.dfy`, module `MsgServer`). The server is a class that holds
  the rate-limit store as a `map<Path, RateLimit>`. The keeper's Add,
  Update and Reset are function-typed parameters, and so is the channel
  value the keeper reads when it adds a limit. Their documented behaviour is
  the predicate `KeepsDocContracts`: Add stores a limit with the message's
  quota and fails on a path that already exists or a zero channel value;
  Update sets the quota and Reset clears the flow of an existing limit, and
  both fail on a missing path.
- **Pending-send-packet store.** The set of `(channel id, sequence)` markers
  (`pending_send.dfy`, module `PendingSend`). It is a class whose field is the
  prefixed key-value store, `map<Bytes, Bytes>`. The model covers the byte-level
  key layout: a NUL-padded 16-byte channel field followed by an 8-byte big-endian
  sequence. It also covers insert, delete and membership, the ordered listing loop,
  and the prefix sweep loop.
- **Read-only gRPC queries** (`grpc_query.dfy`, module `Queries`).
  - Projections of the keeper state.
  - The per-channel query and the per-chain query: pure filter specifications, each with the appending loop proved equal to it.

Supporting modules:

- `types.dfy`: the shared records and result wrappers.
- `seqs.dfy`: an order-preserving filter with subsequence and membership properties.
- `bytes.dfy`:
  - the store's key order (`bytes.Compare`);
  - the iteration order of a store as the sorted list of its keys;
  - big-endian and decimal encodings with their round trips.

Behaviour of the source worth noting:

- `RateLimitsByChainId` fails the whole query with `ErrInvalidClientState`
  when any listed limit's client cannot be resolved
  (`keeper/grpc_query.go:44-49`). The limit is not skipped.
- `RemoveAllChannelPendingSendPackets` deletes every key that starts with the
  raw bytes of the channel id (`keeper/pending_send.go:74`). Clearing
  `channel-1` therefore also clears `channel-10` and `channel-12`; see
  `PendingSend.ClearingChannel1`. The sweep is not limited to that one channel.
- Channel ids longer than the 16-byte field are cut to it in the key
  (`keeper/pending_send.go:57`). Two such ids that agree on 16 bytes, such as
  `channel-100000000` and `channel-100000001`, share every key
  (`PendingSend.LongChannelIdsShareKeys`). The sweep of a 17-byte id compares
  its last byte with the sequence's high byte, so it leaves its own packets in
  place (`PendingSend.LongChannelIdSweepKeepsItsPackets`). The membership
  properties (`KeyInjective`, `SetLeavesOthers`, `RemoveLeavesOthers`,
  `ClearedChannelMembership`) are therefore stated for ids of at most 16 bytes
  that do not end in NUL.
- The msg server's `RemoveRateLimit` deletes the rate-limit record
  (`keeper/msg_server.go:65`). The keeper's `RemoveRateLimit` is not part of
  this model, so the model does not delete the channel's pending-send entries
  along with the record.

## Model

| member | source | states |
|---|---|---|
| Msgs.MatchDigits | modules/rate-limiting/types/msgs.go:81 | the `\d+$` tail matches exactly a non-empty string of ASCII digits |
| Msgs.MatchChannelPattern | modules/rate-limiting/types/msgs.go:81-84 | `^channel-\d+$` matches exactly the strings `channel-` followed by one or more ASCII digits and nothing else; the pattern never errs |
| Msgs.ChannelPatternExamples | modules/rate-limiting/types/msgs.go:81 | `channel-0` and `channel-007` match; `channel-`, `channel-1a`, `Channel-1` and a trailing newline do not |
| Msgs.ValidationError.IsPathCheck | modules/rate-limiting/types/msgs.go:220-240 | the checks Remove and Reset run are exactly the first three of the chain |
| Msgs.CheckPasses | modules/rate-limiting/types/msgs.go:72-107 | each of the seven checks passes exactly on its condition: the authority parses, the denom is non-empty, the id has the `channel-N` shape or is a valid client id, each percentage is in 0..100, not both are zero, the duration is non-zero |
| Msgs.ValidationError.Code | modules/rate-limiting/types/msgs.go:74-78 | the authority check is wrapped in `ErrInvalidAddress`, every other check in `ErrInvalidRequest` |
| Msgs.ValidatePath | modules/rate-limiting/types/msgs.go:72-88 | passes iff the authority parses, the denom is non-empty and the id matches the channel pattern or is a valid client id; on failure it reports a failing check with every earlier check passing |
| Msgs.ValidateQuota | modules/rate-limiting/types/msgs.go:90-107 | passes iff both percentages are in 0..100, not both are zero and the duration is non-zero; on failure it reports the first failing check of these |
| Msgs.PathThenQuota | modules/rate-limiting/types/msgs.go:71-110 | path checks followed by quota checks accept iff all seven checks pass, and otherwise report the first failing check |
| Msgs.ValidateLimit | modules/rate-limiting/types/msgs.go:71-110 | the whole Add/Update chain accepts iff every check passes; a reported error fails and every check of lower rank passes |
| Msgs.ValidateAddRateLimit | modules/rate-limiting/types/msgs.go:71-110 | `MsgAddRateLimit.ValidateBasic`: accepts iff every check passes on the message's fields; otherwise reports the first failing check |
| Msgs.ValidateUpdateRateLimit | modules/rate-limiting/types/msgs.go:147-186 | `MsgUpdateRateLimit.ValidateBasic`: the same statement for Update |
| Msgs.ValidateRemoveRateLimit | modules/rate-limiting/types/msgs.go:220-240 | `MsgRemoveRateLimit.ValidateBasic`: only path checks can fail; it accepts iff all three pass, and otherwise reports the first failing one |
| Msgs.ValidateResetRateLimit | modules/rate-limiting/types/msgs.go:274-294 | `MsgResetRateLimit.ValidateBasic`: the same statement for Reset |
| Msgs.EmptyDenomRejected | modules/rate-limiting/types/msgs.go:77-79 | an Add message with an empty denom is rejected whatever its other fields; with a valid authority the error is the denom error |
| Msgs.PercentagesAccepted | modules/rate-limiting/types/msgs.go:90-103 | with the path checks passing and a non-zero duration, Add accepts iff 0 ≤ send ≤ 100, 0 ≤ recv ≤ 100 and not both are zero |
| Msgs.ZeroDurationRejected | modules/rate-limiting/types/msgs.go:105-107 | Add and Update reject a zero duration; the duration error is reported iff every other check passes |
| Msgs.UpdateValidatesAsAdd | modules/rate-limiting/types/msgs.go:147-186 | Update gives the same verdict as Add on the same field values |
| Msgs.PathChecksComeFirst | modules/rate-limiting/types/msgs.go:220-240 | a Remove/Reset failure is exactly the failure Add reports on the same path; once they pass, Add's verdict depends on the quota fields alone; Reset validates as Remove |
| Msgs.NewMsgAddRateLimit | modules/rate-limiting/types/msgs.go:40-48 | the message carries the given denom, id, percentages and duration, and no authority |
| Msgs.NewMsgUpdateRateLimit | modules/rate-limiting/types/msgs.go:116-124 | the same, for Update |
| Msgs.NewMsgRemoveRateLimit | modules/rate-limiting/types/msgs.go:192-197 | the message carries the given denom and id, and no authority |
| Msgs.NewMsgResetRateLimit | modules/rate-limiting/types/msgs.go:246-251 | the same, for Reset |
| Msgs.ConstructedMessagesLackAuthority | modules/rate-limiting/types/msgs.go:40-48 | the constructors leave the authority empty, so every constructed message fails with the address error |
| MsgServer.KeepsDocContracts | modules/rate-limiting/keeper/msg_server.go:25-69 | a keeper that keeps the handlers' doc comments succeeds in adding only for a new path with a non-zero channel value, and then stores a limit with the message's quota under that path; it updates or resets only an existing path, and then that limit carries the message's quota (update) or keeps its quota and has zero inflow and outflow (reset); every other path keeps its record |
| MsgServer.MsgServer.constructor | modules/rate-limiting/keeper/msg_server.go:19-21 | `NewMsgServerImpl` keeps the authority, the keeper and the store it is given |
| MsgServer.MsgServer.AddRateLimit | modules/rate-limiting/keeper/msg_server.go:26-37 | a signer other than the authority gets `ErrInvalidSigner` and the store is unchanged. Otherwise the keeper's error comes back with the store unchanged, or on success the store is the keeper's result. With a keeper that keeps its doc contract, Add fails when the path already exists or the channel value is 0, and a success leaves a limit with the message's quota under the path; every other path keeps its record |
| MsgServer.MsgServer.UpdateRateLimit | modules/rate-limiting/keeper/msg_server.go:40-51 | the same, for Update; with the doc contract it fails on a path without a limit, and a success leaves the message's quota on that path's limit; every other path keeps its record |
| MsgServer.MsgServer.RemoveRateLimit | modules/rate-limiting/keeper/msg_server.go:54-67 | the authority check comes first. A missing path gives `ErrRateLimitNotFound` with the store unchanged; an existing path is deleted. It succeeds iff the signer is the authority and the path exists, and every other path keeps its record |
| MsgServer.MsgServer.ResetRateLimit | modules/rate-limiting/keeper/msg_server.go:70-81 | the same as Add, for the keeper's reset; with the doc contract it fails on a path without a limit, and a success leaves that limit with its quota and zero inflow and outflow; every other path keeps its record |
| PendingSend.ChannelField | modules/rate-limiting/keeper/pending_send.go:57 | the channel field of a key is always exactly the field width |
| PendingSend.TrimNul | modules/rate-limiting/keeper/pending_send.go:58 | `strings.TrimRight(s, "\x00")`: the result is a prefix without a trailing NUL, and everything cut off is NUL |
| PendingSend.PendingSendPacketKey | modules/rate-limiting/keeper/pending_send.go:57-59 | a key is 24 bytes and starts with the channel field |
| PendingSend.PadTrimmedField | modules/rate-limiting/keeper/pending_send.go:57-58 | NUL-padding a trimmed 16-byte channel field gives back the field |
| PendingSend.DecodeKey | modules/rate-limiting/keeper/pending_send.go:57-59 | the decoded channel id always fits the key layout, and every 24-byte key is the key of the pair it decodes to |
| PendingSend.TrimPadding | modules/rate-limiting/keeper/pending_send.go:58 | trimming removes exactly the NUL padding of an id that does not end in NUL |
| PendingSend.KeyRoundTrip | modules/rate-limiting/keeper/pending_send.go:57-59 | decoding a key (trim the channel field, read the big-endian sequence) gives back the channel id and sequence it was made from |
| PendingSend.KeyInjective | modules/rate-limiting/keeper/pending_send.go:57-59 | distinct pairs have distinct keys |
| PendingSend.KeyPrefixIsChannelPrefix | modules/rate-limiting/keeper/pending_send.go:74 | a key starts with a channel id's bytes iff its own channel id starts with them |
| PendingSend.PacketId | modules/rate-limiting/keeper/pending_send.go:61 | the entry is the channel id, a slash, then only digits, which read back as the sequence |
| PendingSend.PacketIdInjective | modules/rate-limiting/keeper/pending_send.go:61 | `"%s/%d"` entries of slash-free channel ids determine channel id and sequence |
| PendingSend.IsPending | modules/rate-limiting/keeper/pending_send.go:40-42 | for a channel id the layout can carry, a pair is pending iff some stored 24-byte key with a non-empty value decodes to it |
| PendingSend.ChannelCleared | modules/rate-limiting/keeper/pending_send.go:70-80 | clearing keeps a subset of the keys and leaves their values unchanged |
| PendingSend.SetLeavesOthers | modules/rate-limiting/keeper/pending_send.go:18-23 | after marking (c, s) pending, exactly (c, s) and the pairs that were pending before are pending |
| PendingSend.RemoveLeavesOthers | modules/rate-limiting/keeper/pending_send.go:27-32 | after removing (c, s), it is not pending and every other pair keeps its membership |
| PendingSend.SetAndRemoveIdempotent | modules/rate-limiting/keeper/pending_send.go:22 | setting or deleting the same key twice equals doing it once |
| PendingSend.ClearedChannelMembership | modules/rate-limiting/keeper/pending_send.go:74-79 | after the sweep a pair is pending iff it was pending and its channel id does not start with the swept id |
| PendingSend.ClearingChannel1 | modules/rate-limiting/keeper/pending_send.go:74 | sweeping `channel-1` clears `channel-1`, `channel-10` and `channel-12`, and keeps `channel-2` as it was |
| PendingSend.LongChannelIdsShareKeys | modules/rate-limiting/keeper/pending_send.go:57 | `channel-100000000` and `channel-100000001` are different ids with the same key for every sequence |
| PendingSend.LongChannelIdSweepKeepsItsPackets | modules/rate-limiting/keeper/pending_send.go:74 | sweeping the 17-byte `channel-100000001` leaves its own packets with a sequence below 2^56 pending exactly as before |
| PendingSend.RemovalStep | modules/rate-limiting/keeper/pending_send.go:77-79 | one more deletion of a visited key extends the deleted set by that key |
| PendingSend.DeletingPrefixedKeys | modules/rate-limiting/keeper/pending_send.go:74-79 | deleting every key the prefix iterator visits yields the cleared store |
| PendingSend.Listing | modules/rate-limiting/keeper/pending_send.go:54-63 | the listing of a key sequence has one entry per key |
| PendingSend.ListingEntry | modules/rate-limiting/keeper/pending_send.go:54-63 | the j-th listing entry is the `"channelId/sequence"` rendering of the j-th key |
| PendingSend.ListingStep | modules/rate-limiting/keeper/pending_send.go:55-62 | one more iteration appends the entry of the decoded key |
| PendingSend.ListingShowsPending | modules/rate-limiting/keeper/pending_send.go:46-66 | every pending pair whose channel id fits the key layout has its `"channelId/sequence"` entry in the listing |
| PendingSend.KeyIsListed | modules/rate-limiting/keeper/pending_send.go:54-63 | the pair behind any listed key of a fitting channel id has its entry in the listing |
| PendingSend.KeysOfChannelFollowSequence | modules/rate-limiting/keeper/pending_send.go:59 | within one channel, a smaller sequence has the smaller key |
| PendingSend.ListedInSequenceOrder | modules/rate-limiting/keeper/pending_send.go:50-54 | the iterator visits the packets of one channel in ascending sequence order |
| PendingSend.ListEntries | modules/rate-limiting/keeper/pending_send.go:54-63 | the appending loop over the iterator produces the listing of the keys |
| PendingSend.PendingSendPackets.SetPendingSendPacket | modules/rate-limiting/keeper/pending_send.go:18-23 | stores `[1]` under the pair's key and nothing else; the pair is then pending |
| PendingSend.PendingSendPackets.RemovePendingSendPacket | modules/rate-limiting/keeper/pending_send.go:27-32 | deletes the pair's key and nothing else; the pair is then not pending |
| PendingSend.PendingSendPackets.CheckPacketSentDuringCurrentQuota | modules/rate-limiting/keeper/pending_send.go:36-43 | true iff the key holds a non-empty value |
| PendingSend.PendingSendPackets.GetAllPendingSendPackets | modules/rate-limiting/keeper/pending_send.go:46-66 | the result is the listing of the store's keys in ascending byte order; every pending pair whose channel id fits the layout is listed |
| PendingSend.PendingSendPackets.PrefixIterator | modules/rate-limiting/keeper/pending_send.go:74 | visits, in key order, exactly the stored keys that start with the prefix |
| PendingSend.PendingSendPackets.RemoveAllChannelPendingSendPackets | modules/rate-limiting/keeper/pending_send.go:70-80 | the deleting loop leaves exactly the cleared store: every key with the channel id's bytes as prefix is gone, and every other entry is kept |
| Bytes.Less | modules/rate-limiting/keeper/pending_send.go:50 | the iterator's `bytes.Compare` order: a proper prefix sorts first |
| Bytes.LessIsLexicographic | modules/rate-limiting/keeper/pending_send.go:50 | that order is exactly the lexicographic one: a proper prefix, or a smaller byte at the first difference |
| Bytes.LessIrreflexive | modules/rate-limiting/keeper/pending_send.go:50 | the store's key order is irreflexive |
| Bytes.LessTransitive | modules/rate-limiting/keeper/pending_send.go:50 | the key order is transitive |
| Bytes.LessTotal | modules/rate-limiting/keeper/pending_send.go:50 | any two distinct keys are ordered |
| Bytes.LessAsymmetric | modules/rate-limiting/keeper/pending_send.go:50 | the key order is asymmetric |
| Bytes.LeastExists | modules/rate-limiting/keeper/pending_send.go:50 | every non-empty key set has a least key |
| Bytes.LeastUnique | modules/rate-limiting/keeper/pending_send.go:50 | the least key is unique |
| Bytes.Least | modules/rate-limiting/keeper/pending_send.go:50 | the first key the iterator visits is the least key |
| Bytes.Sorted | modules/rate-limiting/keeper/pending_send.go:50-54 | the iteration over a key set has one step per key |
| Bytes.SortedMembers | modules/rate-limiting/keeper/pending_send.go:50-54 | the iteration visits exactly the members of the set |
| Bytes.SortedAscending | modules/rate-limiting/keeper/pending_send.go:50-54 | the iteration visits keys in strictly ascending byte order |
| Bytes.SortedKeys | modules/rate-limiting/keeper/pending_send.go:50-54 | the iteration over a store visits one stored key per step |
| Bytes.SortedKeysMembers | modules/rate-limiting/keeper/pending_send.go:50-54 | the iteration over a store visits each stored key and no other |
| Bytes.PrependLeast | modules/rate-limiting/keeper/pending_send.go:50-54 | putting the least key in front of an ascending run keeps it ascending |
| Bytes.LessCommonPrefix | modules/rate-limiting/keeper/pending_send.go:59 | a common channel field does not change the order of two keys |
| Bytes.LessLastByte | modules/rate-limiting/keeper/pending_send.go:59 | between equal-length strings the last byte decides only when the rest is equal |
| Bytes.FromBigEndianRoundTrip | modules/rate-limiting/keeper/pending_send.go:59 | re-encoding the value read from a byte string, in as many bytes, gives the byte string back |
| Bytes.BigEndianLeadingZero | modules/rate-limiting/keeper/pending_send.go:59 | a number below 256^(len-1) has a zero first byte in its `len`-byte encoding |
| Bytes.BigEndianOrder | modules/rate-limiting/keeper/pending_send.go:59 | fixed-width big-endian encoding preserves numeric order |
| Bytes.BigEndian | modules/rate-limiting/keeper/pending_send.go:59 | the encoding has the requested width |
| Bytes.FromBigEndian | modules/rate-limiting/keeper/pending_send.go:59 | `binary.BigEndian.Uint64` of 8 bytes is below 2^64 |
| Bytes.BigEndianRoundTrip | modules/rate-limiting/keeper/pending_send.go:59 | reading back a big-endian encoding gives the number encoded |
| Bytes.Decimal | modules/rate-limiting/keeper/pending_send.go:61 | `%d` renders a non-empty string of digits without a leading zero |
| Bytes.DecimalRoundTrip | modules/rate-limiting/keeper/pending_send.go:61 | the decimal rendering denotes the number rendered |
| Seqs.Filter | modules/rate-limiting/keeper/grpc_query.go:71-76 | keeps exactly the qualifying elements, in order, as a subsequence of the input |
| Seqs.FilterCounts | modules/rate-limiting/keeper/grpc_query.go:71-76 | the result holds each qualifying element as many times as the input does, and no other element |
| Seqs.FilterStep | modules/rate-limiting/keeper/grpc_query.go:71-76 | one more iteration appends the element iff it qualifies |
| Seqs.FilterNone | modules/rate-limiting/keeper/grpc_query_test.go:81-92 | nothing qualifies, nothing is kept |
| Seqs.FilterSingle | modules/rate-limiting/keeper/grpc_query_test.go:81-92 | exactly one element qualifies, exactly that element is kept |
| Queries.AllRateLimits | modules/rate-limiting/keeper/grpc_query.go:19-23 | on a consistent keeper every stored limit is in the response and the response has one entry per stored limit; there is no error path |
| Queries.ListingCoversStore | modules/rate-limiting/keeper/grpc_query_test.go:49-54 | a consistent listing holds every stored limit once: as many entries as stored paths |
| Queries.DistinctPathsCount | modules/rate-limiting/keeper/grpc_query.go:19-23 | a listing with distinct paths has as many paths as entries |
| Queries.PathsOfListing | modules/rate-limiting/keeper/grpc_query.go:19-23 | the listing covers the store and has its size |
| Queries.QueryRateLimit | modules/rate-limiting/keeper/grpc_query.go:26-33 | the `RateLimit` query returns the stored record iff the path exists, and an empty response (no error) otherwise |
| Queries.AllBlacklistedDenoms | modules/rate-limiting/keeper/grpc_query.go:82-86 | the response holds exactly the stored blacklisted denoms |
| Queries.AllWhitelistedAddresses | modules/rate-limiting/keeper/grpc_query.go:89-93 | the response holds exactly the stored address pairs |
| Queries.LimitsOnChannelOrClientId | modules/rate-limiting/keeper/grpc_query.go:67-79 | exactly the listed limits whose id equals the request, as an order-preserving subsequence, each as often as it is listed |
| Queries.RateLimitsByChannelOrClientId | modules/rate-limiting/keeper/grpc_query.go:71-76 | the appending loop computes that filter |
| Queries.RateLimitIsOnItsChannel | modules/rate-limiting/keeper/grpc_query.go:26-33 | on a consistent keeper, the single-limit query returns r iff r is in the per-channel answer with the requested denom |
| Queries.OnlyLimitOnChannel | modules/rate-limiting/keeper/grpc_query_test.go:81-92 | the only listed limit on a channel is the whole per-channel answer |
| Queries.ResolveClientState | modules/rate-limiting/keeper/grpc_query.go:43-50 | the channel's client state if that lookup succeeds, otherwise the lookup of the id as a client id |
| Queries.LimitsOnChain | modules/rate-limiting/keeper/grpc_query.go:36-64 | fails with `ErrInvalidClientState` iff some listed limit cannot be resolved. Otherwise it holds exactly the limits whose client is a Tendermint client of the chain, in listing order and as often as listed; non-Tendermint clients are skipped |
| Queries.RateLimitsByChainId | modules/rate-limiting/keeper/grpc_query.go:40-61 | the resolving loop with its early error return computes that specification |
| Queries.OnlyLimitOnChain | modules/rate-limiting/keeper/grpc_query_test.go:68-79 | if the listed limit is the only one on the chain and all resolve, the per-chain answer is exactly that limit |

## Left out

- The quota engine is not part of this model: flow accounting, window rollover, and the acknowledgement and timeout reconciliation. It lives in keeper files outside the modelled core.
- `ibc_middleware.go` is left out: it only delegates to the wrapped application and to keeper methods.
- `GetSignBytes`, `GetSigners` (and its panic), `Type` and `Route` are left out. They are codec and routing plumbing, with no validation logic.
- The KV-store adapter, iterator `Close` and `sdk.Context` unwrapping are left out: they are infrastructure.
- Error message text and wrapping (`errorsmod.Wrapf`) are left out. Errors are represented by their kind, and the SDK error class of a validation error is given by `Msgs.ValidationError.Code`.
- `types.GetPendingSendPacketKey` and `types.KeyPrefix` are not part of this model.
  - The encoder is defined as the inverse of the decoder at `keeper/pending_send.go:57-59`. It cuts or NUL-pads the channel id to the 16-byte field and appends the 8-byte big-endian sequence.
  - The prefix is taken to be the channel id's raw bytes.
  - The field width 16 is the value of `PendingSendPacketChannelLength` in the module's keys file, which is not part of this model.
- The keeper's `AddRateLimit`, `UpdateRateLimit`, `ResetRateLimit`, `RemoveRateLimit` and `GetAllRateLimits` bodies are not part of this model.
  - Add, Update and Reset are parameters (`MsgServer.KeeperOps`). On failure the store is left as it was, which the SDK's transaction rollback provides.
  - The channel value the keeper's Add reads is a parameter of the denom and the channel or client id; how it is computed from the bank supply is not modelled.
  - `GetAllRateLimits`, the blacklist and the whitelist are inputs (`Queries.Keeper`).
- The foreign calls are parameters: bech32 address parsing, `IsValidClientID`, `GetChannelClientState` and `GetClientState`. The two client-state lookups are the fields of `Queries.Resolver`.
- The regexp compile error path (`types/msgs.go:82-84`) is not modelled: the constant pattern always compiles.
- `sdkmath.Int` percentages are modelled as unbounded integers. The library bounds them to 256 bits and panics beyond that; dropping the bound is harmless here, because no such value can be constructed and any value past it already fails the 0..100 range checks (`types/msgs.go:90-98`). A nil `Int` is not modelled.
- Queries.AllBlacklistedDenoms: states membership only. The stored order comes from a getter that is not part of this model.
- Queries.AllWhitelistedAddresses: states membership only, for the same reason.
- PendingSend.PendingSendPackets.PrefixIterator: the contract states which keys are visited and that they come in key order (as a filter of `SortedKeys`). The iterator's lazy, delete-while-iterating behaviour is collapsed into a precomputed key list.
- Seqs.Filter: its own contract states membership, order and subsequence. The number of copies of each element is stated by the lemma `Seqs.FilterCounts` and by the query functions that use it. Keeping that count out of `Filter`'s contract keeps it out of the proof of the sweep loop.
