/**
 * The governance-gated message handlers of the rate-limiting module. Each
 * handler first compares the message's signer with the module's configured
 * authority, and only then touches the rate-limit store.
 *
 * The keeper's own Add, Update and Reset operations are not part of this
 * model: they enter as functions from the store and the request to a new
 * store or an error. What their callers are told about them (the handlers'
 * doc comments) is the predicate `KeepsDocContracts`.
 */
module MsgServer {
  import opened Types
  import opened Msgs

  /**
   * The keeper operations the handlers delegate to; any of them may fail.
   * `channelValue` is the value the keeper reads for a denom on a channel or
   * client when it adds a limit (the denom's supply, from the bank keeper).
   */
  datatype KeeperOps = KeeperOps(
    addRateLimit: (RateLimitStore, MsgAddRateLimit) -> Result<RateLimitStore, Error>,
    updateRateLimit: (RateLimitStore, MsgUpdateRateLimit) -> Result<RateLimitStore, Error>,
    resetRateLimit: (RateLimitStore, string, string) -> Result<RateLimitStore, Error>,
    channelValue: (string, string) -> int)

  function AddPath(msg: MsgAddRateLimit): Path { Path(msg.denom, msg.channelOrClientId) }

  function UpdatePath(msg: MsgUpdateRateLimit): Path { Path(msg.denom, msg.channelOrClientId) }

  /** After a successful add: a limit with the message's quota is stored under its path. */
  predicate Added(updated: RateLimitStore, msg: MsgAddRateLimit)
  {
    && AddPath(msg) in updated
    && updated[AddPath(msg)].quota == Quota(msg.maxPercentSend, msg.maxPercentRecv, msg.durationHours)
  }

  /** After a successful update: the limit under the path carries the message's quota. */
  predicate Updated(updated: RateLimitStore, msg: MsgUpdateRateLimit)
  {
    && UpdatePath(msg) in updated
    && updated[UpdatePath(msg)].quota == Quota(msg.maxPercentSend, msg.maxPercentRecv, msg.durationHours)
  }

  /** After a successful reset: the limit under the path keeps its quota and has zero inflow and outflow. */
  predicate FlowReset(store: RateLimitStore, updated: RateLimitStore, denom: string, channelOrClientId: string)
  {
    && Path(denom, channelOrClientId) in updated
    && updated[Path(denom, channelOrClientId)].flow.inflow == 0
    && updated[Path(denom, channelOrClientId)].flow.outflow == 0
    && (Path(denom, channelOrClientId) in store ==>
          updated[Path(denom, channelOrClientId)].quota == store[Path(denom, channelOrClientId)].quota)
  }

  /** Every path other than `path` holds the same record after as before. */
  ghost predicate KeepsOthers(store: RateLimitStore, updated: RateLimitStore, path: Path)
  {
    forall p :: p != path ==> (p in updated <==> p in store) && (p in updated ==> updated[p] == store[p])
  }

  /**
   * The keeper's documented behaviour: adding stores a new limit and fails if
   * a limit for the path already exists or the channel value is 0; updating
   * sets the quota of an existing limit and resetting clears its flow, and
   * both fail if no limit for the path exists.
   */
  ghost predicate KeepsDocContracts(ops: KeeperOps)
    ensures KeepsDocContracts(ops) ==> forall store, msg :: ops.addRateLimit(store, msg).Success? ==>
      && AddPath(msg) !in store && ops.channelValue(msg.denom, msg.channelOrClientId) != 0
      && AddPath(msg) in ops.addRateLimit(store, msg).value
    ensures KeepsDocContracts(ops) ==> forall store, msg :: ops.updateRateLimit(store, msg).Success? ==>
      UpdatePath(msg) in store && UpdatePath(msg) in ops.updateRateLimit(store, msg).value
    ensures KeepsDocContracts(ops) ==> forall store, denom, id :: ops.resetRateLimit(store, denom, id).Success? ==>
      Path(denom, id) in store && Path(denom, id) in ops.resetRateLimit(store, denom, id).value
  {
    && (forall store, msg :: AddPath(msg) in store ==> ops.addRateLimit(store, msg).Failure?)
    && (forall store: RateLimitStore, msg: MsgAddRateLimit :: ops.channelValue(msg.denom, msg.channelOrClientId) == 0 ==> ops.addRateLimit(store, msg).Failure?)
    && (forall store, msg :: ops.addRateLimit(store, msg).Success? ==>
          Added(ops.addRateLimit(store, msg).value, msg) && KeepsOthers(store, ops.addRateLimit(store, msg).value, AddPath(msg)))
    && (forall store, msg :: UpdatePath(msg) !in store ==> ops.updateRateLimit(store, msg).Failure?)
    && (forall store, msg :: ops.updateRateLimit(store, msg).Success? ==>
          Updated(ops.updateRateLimit(store, msg).value, msg) && KeepsOthers(store, ops.updateRateLimit(store, msg).value, UpdatePath(msg)))
    && (forall store, denom, id :: Path(denom, id) !in store ==> ops.resetRateLimit(store, denom, id).Failure?)
    && (forall store, denom, id :: ops.resetRateLimit(store, denom, id).Success? ==>
          && FlowReset(store, ops.resetRateLimit(store, denom, id).value, denom, id)
          && KeepsOthers(store, ops.resetRateLimit(store, denom, id).value, Path(denom, id)))
  }

  class MsgServer {
    /** The address allowed to sign rate-limit governance messages. */
    const authority: string
    const keeper: KeeperOps
    var rateLimits: RateLimitStore

    /** `NewMsgServerImpl`. */
    constructor (authority: string, keeper: KeeperOps, rateLimits: RateLimitStore)
      ensures this.authority == authority && this.keeper == keeper && this.rateLimits == rateLimits
    {
      this.authority := authority;
      this.keeper := keeper;
      this.rateLimits := rateLimits;
    }

    /** Adds a new rate limit. */
    method AddRateLimit(msg: MsgAddRateLimit) returns (result: Outcome<Error>)
      modifies this
      ensures msg.authority != authority ==> result == Fail(ErrInvalidSigner) && rateLimits == old(rateLimits)
      ensures msg.authority == authority ==>
        match keeper.addRateLimit(old(rateLimits), msg)
        case Success(updated) => result == Pass && rateLimits == updated
        case Failure(err) => result == Fail(err) && rateLimits == old(rateLimits)
      ensures KeepsDocContracts(keeper) && AddPath(msg) in old(rateLimits) ==>
        result.Fail? && rateLimits == old(rateLimits)
      ensures KeepsDocContracts(keeper) && keeper.channelValue(msg.denom, msg.channelOrClientId) == 0 ==>
        result.Fail? && rateLimits == old(rateLimits)
      ensures KeepsDocContracts(keeper) && result == Pass ==> Added(rateLimits, msg)
      ensures KeepsDocContracts(keeper) ==> KeepsOthers(old(rateLimits), rateLimits, AddPath(msg))
    {
      if authority != msg.authority {
        return Fail(ErrInvalidSigner);
      }
      var added := keeper.addRateLimit(rateLimits, msg);
      if added.Failure? {
        return Fail(added.error);
      }
      rateLimits := added.value;
      return Pass;
    }

    /** Updates the quota of an existing rate limit. */
    method UpdateRateLimit(msg: MsgUpdateRateLimit) returns (result: Outcome<Error>)
      modifies this
      ensures msg.authority != authority ==> result == Fail(ErrInvalidSigner) && rateLimits == old(rateLimits)
      ensures msg.authority == authority ==>
        match keeper.updateRateLimit(old(rateLimits), msg)
        case Success(updated) => result == Pass && rateLimits == updated
        case Failure(err) => result == Fail(err) && rateLimits == old(rateLimits)
      ensures KeepsDocContracts(keeper) && UpdatePath(msg) !in old(rateLimits) ==>
        result.Fail? && rateLimits == old(rateLimits)
      ensures KeepsDocContracts(keeper) && result == Pass ==> Updated(rateLimits, msg)
      ensures KeepsDocContracts(keeper) ==> KeepsOthers(old(rateLimits), rateLimits, UpdatePath(msg))
    {
      if authority != msg.authority {
        return Fail(ErrInvalidSigner);
      }
      var updated := keeper.updateRateLimit(rateLimits, msg);
      if updated.Failure? {
        return Fail(updated.error);
      }
      rateLimits := updated.value;
      return Pass;
    }

    /** Removes a rate limit; the handler itself checks that it exists. */
    method RemoveRateLimit(msg: MsgRemoveRateLimit) returns (result: Outcome<Error>)
      modifies this
      ensures msg.authority != authority ==> result == Fail(ErrInvalidSigner) && rateLimits == old(rateLimits)
      ensures msg.authority == authority && Path(msg.denom, msg.channelOrClientId) !in old(rateLimits) ==>
        result == Fail(ErrRateLimitNotFound) && rateLimits == old(rateLimits)
      ensures msg.authority == authority && Path(msg.denom, msg.channelOrClientId) in old(rateLimits) ==>
        result == Pass && rateLimits == old(rateLimits) - {Path(msg.denom, msg.channelOrClientId)}
      ensures result == Pass <==> msg.authority == authority && Path(msg.denom, msg.channelOrClientId) in old(rateLimits)
      ensures forall p :: p != Path(msg.denom, msg.channelOrClientId) ==>
        (p in rateLimits <==> p in old(rateLimits)) && (p in rateLimits ==> rateLimits[p] == old(rateLimits)[p])
    {
      if authority != msg.authority {
        return Fail(ErrInvalidSigner);
      }
      var path := Path(msg.denom, msg.channelOrClientId);
      var found := path in rateLimits;
      if !found {
        return Fail(ErrRateLimitNotFound);
      }
      rateLimits := rateLimits - {path};
      return Pass;
    }

    /** Resets the flow of an existing rate limit. */
    method ResetRateLimit(msg: MsgResetRateLimit) returns (result: Outcome<Error>)
      modifies this
      ensures msg.authority != authority ==> result == Fail(ErrInvalidSigner) && rateLimits == old(rateLimits)
      ensures msg.authority == authority ==>
        match keeper.resetRateLimit(old(rateLimits), msg.denom, msg.channelOrClientId)
        case Success(updated) => result == Pass && rateLimits == updated
        case Failure(err) => result == Fail(err) && rateLimits == old(rateLimits)
      ensures KeepsDocContracts(keeper) && Path(msg.denom, msg.channelOrClientId) !in old(rateLimits) ==>
        result.Fail? && rateLimits == old(rateLimits)
      ensures KeepsDocContracts(keeper) && result == Pass ==> FlowReset(old(rateLimits), rateLimits, msg.denom, msg.channelOrClientId)
      ensures KeepsDocContracts(keeper) ==> KeepsOthers(old(rateLimits), rateLimits, Path(msg.denom, msg.channelOrClientId))
    {
      if authority != msg.authority {
        return Fail(ErrInvalidSigner);
      }
      var reset := keeper.resetRateLimit(rateLimits, msg.denom, msg.channelOrClientId);
      if reset.Failure? {
        return Fail(reset.error);
      }
      rateLimits := reset.value;
      return Pass;
    }
  }
}
