/**
 * The module's read-only gRPC queries. They read the keeper's state and the
 * light-client state of the IBC channel and client keepers, and change
 * nothing; the result is a function of those inputs alone.
 */
module Queries {
  import opened Types
  import opened Seqs

  /** The client state behind a channel or a client id; only its kind and chain id matter here. */
  datatype ClientState = TendermintClientState(chainId: string) | OtherClientState

  /**
   * The two lookups of `RateLimitsByChainId`: the client state behind a
   * transfer-port channel, and the client state of a light-client id. `None`
   * stands for the lookup's error or not-found result.
   */
  datatype Resolver = Resolver(
    channelClientState: string -> Option<ClientState>,
    clientState: string -> Option<ClientState>)

  /** What the queries read from the keeper and its IBC collaborators. */
  datatype Keeper = Keeper(
    rateLimits: RateLimitStore,
    allRateLimits: seq<RateLimit>,
    blacklistedDenoms: seq<string>,
    whitelistedAddressPairs: seq<WhitelistedAddressPair>,
    resolver: Resolver)

  /**
   * The keeper's state as its setters leave it: every limit is stored under
   * its own path, and `GetAllRateLimits` lists each stored limit exactly once.
   */
  ghost predicate Consistent(k: Keeper)
  {
    && (forall p :: p in k.rateLimits ==> k.rateLimits[p].path == p)
    && (forall r :: r in k.allRateLimits <==> r.path in k.rateLimits && k.rateLimits[r.path] == r)
    && (forall i, j :: 0 <= i < j < |k.allRateLimits| ==> k.allRateLimits[i].path != k.allRateLimits[j].path)
  }

  // ---------------------------------------------------------------------
  // Projections
  // ---------------------------------------------------------------------

  /** `AllRateLimits`: the keeper's listing; it has no error path. */
  function AllRateLimits(k: Keeper): (rateLimits: seq<RateLimit>)
    ensures Consistent(k) ==> forall p :: p in k.rateLimits ==> k.rateLimits[p] in rateLimits
    ensures Consistent(k) ==> |rateLimits| == |k.rateLimits|
  {
    ListingCoversStore(k);
    k.allRateLimits
  }

  /** A consistent listing is as long as the store: the paths of its entries are the store's keys, without repetition. */
  lemma ListingCoversStore(k: Keeper)
    ensures Consistent(k) ==> forall p :: p in k.rateLimits ==> k.rateLimits[p] in k.allRateLimits
    ensures Consistent(k) ==> |k.allRateLimits| == |k.rateLimits|
  {
    if Consistent(k) {
      PathsOfListing(k.allRateLimits, k.rateLimits);
    }
  }

  function PathSet(rateLimits: seq<RateLimit>): set<Path>
  {
    set r | r in rateLimits :: r.path
  }

  lemma {:induction false} DistinctPathsCount(rateLimits: seq<RateLimit>)
    requires forall i, j :: 0 <= i < j < |rateLimits| ==> rateLimits[i].path != rateLimits[j].path
    ensures |PathSet(rateLimits)| == |rateLimits|
  {
    if rateLimits != [] {
      var init := rateLimits[..|rateLimits| - 1];
      var last := rateLimits[|rateLimits| - 1];
      DistinctPathsCount(init);
      assert PathSet(rateLimits) == PathSet(init) + {last.path};
      assert last.path !in PathSet(init);
    }
  }

  lemma PathsOfListing(all: seq<RateLimit>, store: RateLimitStore)
    requires forall p :: p in store ==> store[p].path == p
    requires forall r :: r in all <==> r.path in store && store[r.path] == r
    requires forall i, j :: 0 <= i < j < |all| ==> all[i].path != all[j].path
    ensures forall p :: p in store ==> store[p] in all
    ensures |all| == |store|
  {
    assert PathSet(all) == store.Keys by {
      forall p | p in store ensures p in PathSet(all) {
        assert store[p] in all;
      }
    }
    DistinctPathsCount(all);
  }

  /** The `RateLimit` query: the stored limit of (denom, channel-or-client id), or an empty response; absence is not an error. */
  function QueryRateLimit(k: Keeper, denom: string, channelOrClientId: string): (rateLimit: Option<RateLimit>)
    ensures rateLimit.Some? <==> Path(denom, channelOrClientId) in k.rateLimits
    ensures rateLimit.Some? ==> rateLimit.value == k.rateLimits[Path(denom, channelOrClientId)]
  {
    var path := Path(denom, channelOrClientId);
    if path in k.rateLimits then Some(k.rateLimits[path]) else None
  }

  /** `AllBlacklistedDenoms`: the stored blacklist, in store order, with no error path. */
  function AllBlacklistedDenoms(k: Keeper): (denoms: seq<string>)
    ensures forall d :: d in denoms <==> d in k.blacklistedDenoms
  {
    k.blacklistedDenoms
  }

  /** `AllWhitelistedAddresses`: the stored sender/receiver pairs, in store order, with no error path. */
  function AllWhitelistedAddresses(k: Keeper): (addressPairs: seq<WhitelistedAddressPair>)
    ensures forall p :: p in addressPairs <==> p in k.whitelistedAddressPairs
  {
    k.whitelistedAddressPairs
  }

  // ---------------------------------------------------------------------
  // Limits on one channel or client
  // ---------------------------------------------------------------------

  function OnChannelOrClientId(channelOrClientId: string): RateLimit -> bool
  {
    (r: RateLimit) => r.path.channelOrClientId == channelOrClientId
  }

  /** The limits of one channel or client, in listing order. */
  function LimitsOnChannelOrClientId(all: seq<RateLimit>, channelOrClientId: string): (rateLimits: seq<RateLimit>)
    ensures forall r :: r in rateLimits <==> r in all && r.path.channelOrClientId == channelOrClientId
    ensures IsSubsequence(rateLimits, all)
    ensures forall r :: multiset(rateLimits)[r] == if r.path.channelOrClientId == channelOrClientId then multiset(all)[r] else 0
  {
    FilterCounts(all, OnChannelOrClientId(channelOrClientId));
    Filter(all, OnChannelOrClientId(channelOrClientId))
  }

  /** `RateLimitsByChannelOrClientId`: the appending loop over the listing. */
  method RateLimitsByChannelOrClientId(k: Keeper, channelOrClientId: string) returns (rateLimits: seq<RateLimit>)
    ensures rateLimits == LimitsOnChannelOrClientId(k.allRateLimits, channelOrClientId)
  {
    var all := k.allRateLimits;
    rateLimits := [];
    for i := 0 to |all|
      invariant rateLimits == Filter(all[..i], OnChannelOrClientId(channelOrClientId))
    {
      FilterStep(all, i, OnChannelOrClientId(channelOrClientId));
      if all[i].path.channelOrClientId == channelOrClientId {
        rateLimits := rateLimits + [all[i]];
      }
    }
    assert all[..|all|] == all;
  }

  /** The single-limit query and the per-channel query agree on a consistent keeper. */
  lemma RateLimitIsOnItsChannel(k: Keeper, denom: string, channelOrClientId: string, r: RateLimit)
    requires Consistent(k)
    ensures QueryRateLimit(k, denom, channelOrClientId) == Some(r) <==>
      r in LimitsOnChannelOrClientId(AllRateLimits(k), channelOrClientId) && r.path.denom == denom
  {
    var path := Path(denom, channelOrClientId);
    if QueryRateLimit(k, denom, channelOrClientId) == Some(r) {
      assert r == k.rateLimits[path] && r.path == path;
    }
  }

  // ---------------------------------------------------------------------
  // Limits on one chain
  // ---------------------------------------------------------------------

  /** The channel's client state, or else the state of the light client with that id. */
  function ResolveClientState(resolver: Resolver, channelOrClientId: string): (clientState: Option<ClientState>)
    ensures resolver.channelClientState(channelOrClientId).Some? ==> clientState == resolver.channelClientState(channelOrClientId)
    ensures resolver.channelClientState(channelOrClientId).None? ==> clientState == resolver.clientState(channelOrClientId)
  {
    match resolver.channelClientState(channelOrClientId)
    case Some(clientState) => Some(clientState)
    case None => resolver.clientState(channelOrClientId)
  }

  predicate Resolves(resolver: Resolver, r: RateLimit)
  {
    ResolveClientState(resolver, r.path.channelOrClientId).Some?
  }

  /** The limit's client is a Tendermint light client of the chain `chainId`. */
  function OnChain(resolver: Resolver, chainId: string): RateLimit -> bool
  {
    (r: RateLimit) => ResolveClientState(resolver, r.path.channelOrClientId) == Some(TendermintClientState(chainId))
  }

  /**
   * The limits whose client is a Tendermint client of `chainId`, in listing
   * order; an error if the client of any listed limit cannot be resolved.
   */
  function LimitsOnChain(all: seq<RateLimit>, resolver: Resolver, chainId: string): (result: Result<seq<RateLimit>, Error>)
    ensures result.Failure? <==> exists r :: r in all && !Resolves(resolver, r)
    ensures result.Failure? ==> result.error == ErrInvalidClientState
    ensures result.Success? ==> forall r :: r in result.value <==>
      r in all && ResolveClientState(resolver, r.path.channelOrClientId) == Some(TendermintClientState(chainId))
    ensures result.Success? ==> IsSubsequence(result.value, all)
    ensures result.Success? ==> forall r :: multiset(result.value)[r] == if OnChain(resolver, chainId)(r) then multiset(all)[r] else 0
  {
    if exists r :: r in all && !Resolves(resolver, r) then Failure(ErrInvalidClientState)
    else
      FilterCounts(all, OnChain(resolver, chainId));
      Success(Filter(all, OnChain(resolver, chainId)))
  }

  /** `RateLimitsByChainId`: the loop that resolves each listed limit's client and stops at the first that cannot be resolved. */
  method RateLimitsByChainId(k: Keeper, chainId: string) returns (result: Result<seq<RateLimit>, Error>)
    ensures result == LimitsOnChain(k.allRateLimits, k.resolver, chainId)
  {
    var all := k.allRateLimits;
    var rateLimits := [];
    for i := 0 to |all|
      invariant rateLimits == Filter(all[..i], OnChain(k.resolver, chainId))
      invariant forall j :: 0 <= j < i ==> Resolves(k.resolver, all[j])
    {
      var id := all[i].path.channelOrClientId;
      var clientState := k.resolver.channelClientState(id);
      if clientState.None? {
        clientState := k.resolver.clientState(id);
        if clientState.None? {
          assert !Resolves(k.resolver, all[i]);
          return Failure(ErrInvalidClientState);
        }
      }
      FilterStep(all, i, OnChain(k.resolver, chainId));
      if clientState.value.TendermintClientState? && clientState.value.chainId == chainId {
        rateLimits := rateLimits + [all[i]];
      }
    }
    assert all[..|all|] == all;
    return Success(rateLimits);
  }

  /**
   * A listed limit whose client is the only Tendermint client of `chainId`
   * among the listed limits is the whole answer for that chain.
   */
  lemma OnlyLimitOnChain(all: seq<RateLimit>, resolver: Resolver, chainId: string, i: nat)
    requires i < |all|
    requires forall r :: r in all ==> Resolves(resolver, r)
    requires ResolveClientState(resolver, all[i].path.channelOrClientId) == Some(TendermintClientState(chainId))
    requires forall j :: 0 <= j < |all| && j != i ==>
      ResolveClientState(resolver, all[j].path.channelOrClientId) != Some(TendermintClientState(chainId))
    ensures LimitsOnChain(all, resolver, chainId) == Success([all[i]])
  {
    FilterSingle(all, OnChain(resolver, chainId), i);
  }

  /** Likewise, the only listed limit on a channel is the whole answer for that channel. */
  lemma OnlyLimitOnChannel(all: seq<RateLimit>, channelOrClientId: string, i: nat)
    requires i < |all| && all[i].path.channelOrClientId == channelOrClientId
    requires forall j :: 0 <= j < |all| && j != i ==> all[j].path.channelOrClientId != channelOrClientId
    ensures LimitsOnChannelOrClientId(all, channelOrClientId) == [all[i]]
  {
    FilterSingle(all, OnChannelOrClientId(channelOrClientId), i);
  }
}
