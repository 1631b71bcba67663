/**
 * Stateless validation of the four administrative messages
 * (`ValidateBasic` of MsgAddRateLimit, MsgUpdateRateLimit, MsgRemoveRateLimit
 * and MsgResetRateLimit).
 *
 * Each `ValidateBasic` is a fixed chain of early returns. The model names each
 * check by the error it reports, states what it takes for that check to pass
 * (`CheckPasses`), and proves of every validator that it accepts exactly when
 * all of its checks pass and otherwise reports the FIRST check that fails.
 */
module Msgs {
  import opened Types

  /**
   * Collaborators the validators call and this model does not define:
   * bech32 decoding of an account address (success of
   * `sdk.AccAddressFromBech32`) and `clienttypes.IsValidClientID`.
   */
  datatype Codecs = Codecs(parsesAsAddress: string -> bool, isValidClientId: string -> bool)

  datatype MsgAddRateLimit = MsgAddRateLimit(
    authority: string, denom: string, channelOrClientId: string,
    maxPercentSend: int, maxPercentRecv: int, durationHours: uint64)

  datatype MsgUpdateRateLimit = MsgUpdateRateLimit(
    authority: string, denom: string, channelOrClientId: string,
    maxPercentSend: int, maxPercentRecv: int, durationHours: uint64)

  datatype MsgRemoveRateLimit = MsgRemoveRateLimit(authority: string, denom: string, channelOrClientId: string)

  datatype MsgResetRateLimit = MsgResetRateLimit(authority: string, denom: string, channelOrClientId: string)

  /** The message constructors; none of them sets the authority. */
  function NewMsgAddRateLimit(denom: string, channelOrClientId: string, maxPercentSend: int, maxPercentRecv: int, durationHours: uint64): (msg: MsgAddRateLimit)
    ensures msg.authority == ""
    ensures msg.denom == denom && msg.channelOrClientId == channelOrClientId
    ensures msg.maxPercentSend == maxPercentSend && msg.maxPercentRecv == maxPercentRecv && msg.durationHours == durationHours
  {
    MsgAddRateLimit("", denom, channelOrClientId, maxPercentSend, maxPercentRecv, durationHours)
  }

  function NewMsgUpdateRateLimit(denom: string, channelOrClientId: string, maxPercentSend: int, maxPercentRecv: int, durationHours: uint64): (msg: MsgUpdateRateLimit)
    ensures msg.authority == ""
    ensures msg.denom == denom && msg.channelOrClientId == channelOrClientId
    ensures msg.maxPercentSend == maxPercentSend && msg.maxPercentRecv == maxPercentRecv && msg.durationHours == durationHours
  {
    MsgUpdateRateLimit("", denom, channelOrClientId, maxPercentSend, maxPercentRecv, durationHours)
  }

  function NewMsgRemoveRateLimit(denom: string, channelOrClientId: string): (msg: MsgRemoveRateLimit)
    ensures msg.authority == "" && msg.denom == denom && msg.channelOrClientId == channelOrClientId
  {
    MsgRemoveRateLimit("", denom, channelOrClientId)
  }

  function NewMsgResetRateLimit(denom: string, channelOrClientId: string): (msg: MsgResetRateLimit)
    ensures msg.authority == "" && msg.denom == denom && msg.channelOrClientId == channelOrClientId
  {
    MsgResetRateLimit("", denom, channelOrClientId)
  }

  /** The SDK error class a validation failure is wrapped in. */
  datatype SdkErrorCode = ErrInvalidAddress | ErrInvalidRequest

  /** One constructor per check of `ValidateBasic`, in the order they run. */
  datatype ValidationError =
    | InvalidAuthority
    | InvalidDenom
    | InvalidChannelOrClientId
    | MaxPercentSendOutOfRange
    | MaxPercentRecvOutOfRange
    | NoThreshold
    | ZeroDuration
  {
    /** Position of the check in the chain. */
    function Rank(): nat
    {
      match this
      case InvalidAuthority => 0
      case InvalidDenom => 1
      case InvalidChannelOrClientId => 2
      case MaxPercentSendOutOfRange => 3
      case MaxPercentRecvOutOfRange => 4
      case NoThreshold => 5
      case ZeroDuration => 6
    }

    /** The three checks that Remove and Reset also run. */
    predicate IsPathCheck()
      ensures IsPathCheck() <==> Rank() < 3
    {
      InvalidAuthority? || InvalidDenom? || InvalidChannelOrClientId?
    }

    /** The address error for the authority check, the request error for every other. */
    function Code(): (code: SdkErrorCode)
      ensures code == ErrInvalidAddress <==> Rank() == 0
    {
      if InvalidAuthority? then ErrInvalidAddress else ErrInvalidRequest
    }
  }

  // ---------------------------------------------------------------------
  // The channel-id pattern `^channel-\d+$` (Go regexp: `\d` is an ASCII
  // digit and `$` is the end of the text).
  // ---------------------------------------------------------------------

  const ChannelPrefix: string := "channel-"

  predicate IsAsciiDigit(ch: char)
  {
    '0' <= ch <= '9'
  }

  /** Reference reading of the pattern: the literal prefix and one or more digits. */
  ghost predicate IsChannelIdShape(s: string)
  {
    exists digits: string ::
      && s == ChannelPrefix + digits
      && |digits| > 0
      && forall i :: 0 <= i < |digits| ==> IsAsciiDigit(digits[i])
  }

  /** Matches `\d+$` from the start of `s`. */
  function MatchDigits(s: string): (matched: bool)
    ensures matched <==> |s| > 0 && forall i :: 0 <= i < |s| ==> IsAsciiDigit(s[i])
  {
    |s| > 0 && IsAsciiDigit(s[0]) && (|s| == 1 || MatchDigits(s[1..]))
  }

  /** `regexp.MatchString(`^channel-\d+$`, s)`; the pattern compiles, so it never errs. */
  function MatchChannelPattern(s: string): (matched: bool)
    ensures matched <==> IsChannelIdShape(s)
  {
    var n := |ChannelPrefix|;
    var matched := |s| > n && s[..n] == ChannelPrefix && MatchDigits(s[n..]);
    assert matched ==> s == ChannelPrefix + s[n..];
    assert IsChannelIdShape(s) ==> matched by {
      if IsChannelIdShape(s) {
        var digits: string :| s == ChannelPrefix + digits && |digits| > 0
                              && forall i :: 0 <= i < |digits| ==> IsAsciiDigit(digits[i]);
        assert s[n..] == digits;
      }
    }
    matched
  }

  // ---------------------------------------------------------------------
  // The checks
  // ---------------------------------------------------------------------

  /** Whether the path check `e` passes on the authority, denom and channel-or-client id. */
  predicate PathCheckPasses(codecs: Codecs, e: ValidationError, authority: string, denom: string, channelOrClientId: string)
    requires e.IsPathCheck()
  {
    match e
    case InvalidAuthority => codecs.parsesAsAddress(authority)
    case InvalidDenom => denom != ""
    case InvalidChannelOrClientId => MatchChannelPattern(channelOrClientId) || codecs.isValidClientId(channelOrClientId)
  }

  /** Whether the quota check `e` passes on the percentages and duration. */
  predicate QuotaCheckPasses(e: ValidationError, maxPercentSend: int, maxPercentRecv: int, durationHours: uint64)
    requires !e.IsPathCheck()
  {
    match e
    case MaxPercentSendOutOfRange => 0 <= maxPercentSend <= 100
    case MaxPercentRecvOutOfRange => 0 <= maxPercentRecv <= 100
    case NoThreshold => !(maxPercentSend == 0 && maxPercentRecv == 0)
    case ZeroDuration => durationHours != 0
  }

  /**
   * Whether check `e` passes on the fields of an Add or Update message: the
   * condition under which that step of the chain does not return its error.
   */
  predicate CheckPasses(
    codecs: Codecs, e: ValidationError, authority: string, denom: string, channelOrClientId: string,
    maxPercentSend: int, maxPercentRecv: int, durationHours: uint64)
    ensures CheckPasses(codecs, e, authority, denom, channelOrClientId, maxPercentSend, maxPercentRecv, durationHours) <==>
      match e
      case InvalidAuthority => codecs.parsesAsAddress(authority)
      case InvalidDenom => |denom| > 0
      case InvalidChannelOrClientId => IsChannelIdShape(channelOrClientId) || codecs.isValidClientId(channelOrClientId)
      case MaxPercentSendOutOfRange => 0 <= maxPercentSend <= 100
      case MaxPercentRecvOutOfRange => 0 <= maxPercentRecv <= 100
      case NoThreshold => maxPercentSend != 0 || maxPercentRecv != 0
      case ZeroDuration => durationHours > 0
  {
    if e.IsPathCheck() then PathCheckPasses(codecs, e, authority, denom, channelOrClientId)
    else QuotaCheckPasses(e, maxPercentSend, maxPercentRecv, durationHours)
  }

  /**
   * The checks shared by all four messages: authority, denom, channel or
   * client id, in that order.
   */
  function ValidatePath(codecs: Codecs, authority: string, denom: string, channelOrClientId: string): (r: Outcome<ValidationError>)
    ensures r.Fail? ==> r.error.IsPathCheck()
    ensures r.Pass? <==> forall e: ValidationError :: e.IsPathCheck() ==> PathCheckPasses(codecs, e, authority, denom, channelOrClientId)
    ensures r.Fail? ==> !PathCheckPasses(codecs, r.error, authority, denom, channelOrClientId)
    ensures r.Fail? ==> forall e: ValidationError :: e.IsPathCheck() && e.Rank() < r.error.Rank() ==>
                          PathCheckPasses(codecs, e, authority, denom, channelOrClientId)
  {
    var r :=
      if !codecs.parsesAsAddress(authority) then Fail(InvalidAuthority)
      else if denom == "" then Fail(InvalidDenom)
      else if !MatchChannelPattern(channelOrClientId) && !codecs.isValidClientId(channelOrClientId) then Fail(InvalidChannelOrClientId)
      else Pass;
    assert r.Fail? ==> !PathCheckPasses(codecs, r.error, authority, denom, channelOrClientId);
    r
  }

  /** The checks on the quota, run after the path checks: both ranges, a nonzero threshold, a nonzero duration. */
  function ValidateQuota(maxPercentSend: int, maxPercentRecv: int, durationHours: uint64): (r: Outcome<ValidationError>)
    ensures r.Fail? ==> !r.error.IsPathCheck()
    ensures r.Pass? <==> forall e: ValidationError :: !e.IsPathCheck() ==> QuotaCheckPasses(e, maxPercentSend, maxPercentRecv, durationHours)
    ensures r.Fail? ==> !QuotaCheckPasses(r.error, maxPercentSend, maxPercentRecv, durationHours)
    ensures r.Fail? ==> forall e: ValidationError :: !e.IsPathCheck() && e.Rank() < r.error.Rank() ==>
                          QuotaCheckPasses(e, maxPercentSend, maxPercentRecv, durationHours)
  {
    var r :=
      if maxPercentSend > 100 || maxPercentSend < 0 then Fail(MaxPercentSendOutOfRange)
      else if maxPercentRecv > 100 || maxPercentRecv < 0 then Fail(MaxPercentRecvOutOfRange)
      else if maxPercentRecv == 0 && maxPercentSend == 0 then Fail(NoThreshold)
      else if durationHours == 0 then Fail(ZeroDuration)
      else Pass;
    assert r.Fail? ==> !QuotaCheckPasses(r.error, maxPercentSend, maxPercentRecv, durationHours);
    r
  }

  /**
   * Running the path checks and then the quota checks accepts exactly when
   * every check passes, and otherwise reports the first check that fails.
   */
  lemma PathThenQuota(
    codecs: Codecs, authority: string, denom: string, channelOrClientId: string,
    maxPercentSend: int, maxPercentRecv: int, durationHours: uint64)
    ensures var p := ValidatePath(codecs, authority, denom, channelOrClientId);
      var r := if p.Fail? then p else ValidateQuota(maxPercentSend, maxPercentRecv, durationHours);
      && (r.Pass? <==> forall e: ValidationError ::
            CheckPasses(codecs, e, authority, denom, channelOrClientId, maxPercentSend, maxPercentRecv, durationHours))
      && (r.Fail? ==> !CheckPasses(codecs, r.error, authority, denom, channelOrClientId, maxPercentSend, maxPercentRecv, durationHours))
      && (r.Fail? ==> forall e: ValidationError :: e.Rank() < r.error.Rank() ==>
            CheckPasses(codecs, e, authority, denom, channelOrClientId, maxPercentSend, maxPercentRecv, durationHours))
  {
    var p := ValidatePath(codecs, authority, denom, channelOrClientId);
    var q := ValidateQuota(maxPercentSend, maxPercentRecv, durationHours);
    var r := if p.Fail? then p else q;
    if r.Pass? {
      forall e: ValidationError
        ensures CheckPasses(codecs, e, authority, denom, channelOrClientId, maxPercentSend, maxPercentRecv, durationHours)
      {
        if e.IsPathCheck() {
          assert PathCheckPasses(codecs, e, authority, denom, channelOrClientId);
        } else {
          assert QuotaCheckPasses(e, maxPercentSend, maxPercentRecv, durationHours);
        }
      }
    } else {
      if p.Fail? {
        assert !PathCheckPasses(codecs, r.error, authority, denom, channelOrClientId);
      } else {
        assert !QuotaCheckPasses(r.error, maxPercentSend, maxPercentRecv, durationHours);
      }
      assert !CheckPasses(codecs, r.error, authority, denom, channelOrClientId, maxPercentSend, maxPercentRecv, durationHours);
      forall e: ValidationError | e.Rank() < r.error.Rank()
        ensures CheckPasses(codecs, e, authority, denom, channelOrClientId, maxPercentSend, maxPercentRecv, durationHours)
      {
        if e.IsPathCheck() {
          assert PathCheckPasses(codecs, e, authority, denom, channelOrClientId);
        } else {
          assert QuotaCheckPasses(e, maxPercentSend, maxPercentRecv, durationHours);
        }
      }
    }
  }

  /** The full chain run by Add and Update. */
  function ValidateLimit(
    codecs: Codecs, authority: string, denom: string, channelOrClientId: string,
    maxPercentSend: int, maxPercentRecv: int, durationHours: uint64): (r: Outcome<ValidationError>)
    ensures r.Pass? <==> forall e: ValidationError ::
      CheckPasses(codecs, e, authority, denom, channelOrClientId, maxPercentSend, maxPercentRecv, durationHours)
    ensures r.Fail? ==> !CheckPasses(codecs, r.error, authority, denom, channelOrClientId, maxPercentSend, maxPercentRecv, durationHours)
    ensures r.Fail? ==> forall e: ValidationError :: e.Rank() < r.error.Rank() ==>
      CheckPasses(codecs, e, authority, denom, channelOrClientId, maxPercentSend, maxPercentRecv, durationHours)
  {
    PathThenQuota(codecs, authority, denom, channelOrClientId, maxPercentSend, maxPercentRecv, durationHours);
    match ValidatePath(codecs, authority, denom, channelOrClientId)
    case Fail(e) => Fail(e)
    case Pass => ValidateQuota(maxPercentSend, maxPercentRecv, durationHours)
  }

  function ValidateAddRateLimit(codecs: Codecs, msg: MsgAddRateLimit): (r: Outcome<ValidationError>)
    ensures r.Pass? <==> forall e: ValidationError ::
      CheckPasses(codecs, e, msg.authority, msg.denom, msg.channelOrClientId, msg.maxPercentSend, msg.maxPercentRecv, msg.durationHours)
    ensures r.Fail? ==> !CheckPasses(codecs, r.error, msg.authority, msg.denom, msg.channelOrClientId, msg.maxPercentSend, msg.maxPercentRecv, msg.durationHours)
    ensures r.Fail? ==> forall e: ValidationError :: e.Rank() < r.error.Rank() ==>
      CheckPasses(codecs, e, msg.authority, msg.denom, msg.channelOrClientId, msg.maxPercentSend, msg.maxPercentRecv, msg.durationHours)
  {
    ValidateLimit(codecs, msg.authority, msg.denom, msg.channelOrClientId, msg.maxPercentSend, msg.maxPercentRecv, msg.durationHours)
  }

  function ValidateUpdateRateLimit(codecs: Codecs, msg: MsgUpdateRateLimit): (r: Outcome<ValidationError>)
    ensures r.Pass? <==> forall e: ValidationError ::
      CheckPasses(codecs, e, msg.authority, msg.denom, msg.channelOrClientId, msg.maxPercentSend, msg.maxPercentRecv, msg.durationHours)
    ensures r.Fail? ==> !CheckPasses(codecs, r.error, msg.authority, msg.denom, msg.channelOrClientId, msg.maxPercentSend, msg.maxPercentRecv, msg.durationHours)
    ensures r.Fail? ==> forall e: ValidationError :: e.Rank() < r.error.Rank() ==>
      CheckPasses(codecs, e, msg.authority, msg.denom, msg.channelOrClientId, msg.maxPercentSend, msg.maxPercentRecv, msg.durationHours)
  {
    ValidateLimit(codecs, msg.authority, msg.denom, msg.channelOrClientId, msg.maxPercentSend, msg.maxPercentRecv, msg.durationHours)
  }

  function ValidateRemoveRateLimit(codecs: Codecs, msg: MsgRemoveRateLimit): (r: Outcome<ValidationError>)
    ensures r.Fail? ==> r.error.IsPathCheck()
    ensures r.Pass? <==> forall e: ValidationError :: e.IsPathCheck() ==>
      PathCheckPasses(codecs, e, msg.authority, msg.denom, msg.channelOrClientId)
    ensures r.Fail? ==> !PathCheckPasses(codecs, r.error, msg.authority, msg.denom, msg.channelOrClientId)
    ensures r.Fail? ==> forall e: ValidationError :: e.IsPathCheck() && e.Rank() < r.error.Rank() ==>
      PathCheckPasses(codecs, e, msg.authority, msg.denom, msg.channelOrClientId)
  {
    ValidatePath(codecs, msg.authority, msg.denom, msg.channelOrClientId)
  }

  function ValidateResetRateLimit(codecs: Codecs, msg: MsgResetRateLimit): (r: Outcome<ValidationError>)
    ensures r.Fail? ==> r.error.IsPathCheck()
    ensures r.Pass? <==> forall e: ValidationError :: e.IsPathCheck() ==>
      PathCheckPasses(codecs, e, msg.authority, msg.denom, msg.channelOrClientId)
    ensures r.Fail? ==> !PathCheckPasses(codecs, r.error, msg.authority, msg.denom, msg.channelOrClientId)
    ensures r.Fail? ==> forall e: ValidationError :: e.IsPathCheck() && e.Rank() < r.error.Rank() ==>
      PathCheckPasses(codecs, e, msg.authority, msg.denom, msg.channelOrClientId)
  {
    ValidatePath(codecs, msg.authority, msg.denom, msg.channelOrClientId)
  }

  // ---------------------------------------------------------------------
  // Properties
  // ---------------------------------------------------------------------

  /** An Add message with an empty denom is rejected whatever its other fields. */
  lemma EmptyDenomRejected(codecs: Codecs, msg: MsgAddRateLimit)
    requires msg.denom == ""
    ensures ValidateAddRateLimit(codecs, msg).Fail?
    ensures codecs.parsesAsAddress(msg.authority) ==> ValidateAddRateLimit(codecs, msg) == Fail(InvalidDenom)
  {
    assert !CheckPasses(codecs, InvalidDenom, msg.authority, msg.denom, msg.channelOrClientId, msg.maxPercentSend, msg.maxPercentRecv, msg.durationHours);
  }

  /**
   * Once the path checks pass and the duration is nonzero, an Add message is
   * accepted exactly when both percentages lie in 0..100 (both ends
   * included) and not both are zero.
   */
  lemma PercentagesAccepted(codecs: Codecs, msg: MsgAddRateLimit)
    requires ValidatePath(codecs, msg.authority, msg.denom, msg.channelOrClientId).Pass?
    requires msg.durationHours != 0
    ensures ValidateAddRateLimit(codecs, msg).Pass? <==>
      && 0 <= msg.maxPercentSend <= 100
      && 0 <= msg.maxPercentRecv <= 100
      && (msg.maxPercentSend != 0 || msg.maxPercentRecv != 0)
  {
  }

  /** A zero duration is rejected by Add and by Update, and it is the last check of the chain. */
  lemma ZeroDurationRejected(codecs: Codecs, add: MsgAddRateLimit, update: MsgUpdateRateLimit)
    requires add.durationHours == 0 && update.durationHours == 0
    ensures ValidateAddRateLimit(codecs, add).Fail?
    ensures ValidateUpdateRateLimit(codecs, update).Fail?
    ensures ValidateAddRateLimit(codecs, add) == Fail(ZeroDuration) <==>
      forall e: ValidationError :: e != ZeroDuration ==>
        CheckPasses(codecs, e, add.authority, add.denom, add.channelOrClientId, add.maxPercentSend, add.maxPercentRecv, add.durationHours)
  {
    assert !CheckPasses(codecs, ZeroDuration, add.authority, add.denom, add.channelOrClientId, add.maxPercentSend, add.maxPercentRecv, add.durationHours);
    assert !CheckPasses(codecs, ZeroDuration, update.authority, update.denom, update.channelOrClientId, update.maxPercentSend, update.maxPercentRecv, update.durationHours);
  }

  /** Update accepts and rejects exactly as Add does on the same field values. */
  lemma UpdateValidatesAsAdd(codecs: Codecs, add: MsgAddRateLimit, update: MsgUpdateRateLimit)
    requires add.authority == update.authority && add.denom == update.denom
    requires add.channelOrClientId == update.channelOrClientId
    requires add.maxPercentSend == update.maxPercentSend && add.maxPercentRecv == update.maxPercentRecv
    requires add.durationHours == update.durationHours
    ensures ValidateUpdateRateLimit(codecs, update) == ValidateAddRateLimit(codecs, add)
  {
  }

  /**
   * Remove and Reset look at the authority, denom and id only: whatever
   * percentages and duration an Add message for the same path carries, a
   * Remove or Reset failure is the failure Add reports, and when they pass
   * Add's verdict is decided by the quota checks alone.
   */
  lemma PathChecksComeFirst(codecs: Codecs, add: MsgAddRateLimit)
    ensures var remove := MsgRemoveRateLimit(add.authority, add.denom, add.channelOrClientId);
      match ValidateRemoveRateLimit(codecs, remove)
      case Fail(e) => ValidateAddRateLimit(codecs, add) == Fail(e)
      case Pass => ValidateAddRateLimit(codecs, add) == ValidateQuota(add.maxPercentSend, add.maxPercentRecv, add.durationHours)
    ensures ValidateResetRateLimit(codecs, MsgResetRateLimit(add.authority, add.denom, add.channelOrClientId))
         == ValidateRemoveRateLimit(codecs, MsgRemoveRateLimit(add.authority, add.denom, add.channelOrClientId))
  {
  }

  /**
   * The constructors leave the authority empty, so a message built by them
   * fails with an address error unless the authority is set afterwards
   * (bech32 decoding rejects the empty string).
   */
  lemma ConstructedMessagesLackAuthority(
    codecs: Codecs, denom: string, channelOrClientId: string, maxPercentSend: int, maxPercentRecv: int, durationHours: uint64)
    requires !codecs.parsesAsAddress("")
    ensures ValidateAddRateLimit(codecs, NewMsgAddRateLimit(denom, channelOrClientId, maxPercentSend, maxPercentRecv, durationHours)) == Fail(InvalidAuthority)
    ensures ValidateUpdateRateLimit(codecs, NewMsgUpdateRateLimit(denom, channelOrClientId, maxPercentSend, maxPercentRecv, durationHours)) == Fail(InvalidAuthority)
    ensures ValidateRemoveRateLimit(codecs, NewMsgRemoveRateLimit(denom, channelOrClientId)) == Fail(InvalidAuthority)
    ensures ValidateResetRateLimit(codecs, NewMsgResetRateLimit(denom, channelOrClientId)) == Fail(InvalidAuthority)
    ensures InvalidAuthority.Code() == ErrInvalidAddress
  {
  }

  /** Instances of the channel pattern: leading zeros are allowed, anything but digits after the prefix is not. */
  lemma ChannelPatternExamples()
    ensures MatchChannelPattern("channel-0") && MatchChannelPattern("channel-007")
    ensures !MatchChannelPattern("channel-") && !MatchChannelPattern("channel-1a")
    ensures !MatchChannelPattern("Channel-1") && !MatchChannelPattern("channel-1\n")
  {
    assert "channel-0"[..8] == ChannelPrefix && "channel-0"[8..] == "0";
    assert "channel-007"[..8] == ChannelPrefix && "channel-007"[8..] == "007";
    assert "channel-1a"[8..] == "1a" && !IsAsciiDigit("1a"[1]);
    assert "channel-1\n"[8..] == "1\n" && !IsAsciiDigit("1\n"[1]);
    assert "Channel-1"[0] != ChannelPrefix[0];
  }
}
