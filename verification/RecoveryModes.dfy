/** The recovery modes the cockpit offers (apps/web/src/factoryCheckpointRecovery.ts) against what
    the controller accepts (crates/crony-cli/src/factory.rs), over one well-typed recovery context
    as both sides read it from the wire. */
module RecoveryModes {
  import opened Prelude
  import opened RustStr

  datatype Mode = VerifierOnly | SourceCorrection | CheckpointVerification

  /** A flag that is absent on the wire is `None`. */
  datatype Context = Context(
    itemId: string, itemCorp: string, itemMission: Option<string>, itemVersion: int, itemState: string,
    missionId: string, taskId: string, sourceRunId: string,
    workspaceFingerprint: Option<string>, expectedHeadCommit: Option<string>,
    checkpointVerification: Option<bool>, checkpointVerificationAvailable: Option<bool>,
    checkpointSourceCorrection: Option<bool>, checkpointCancellationEvent: Option<string>,
    recoveries: seq<string>)

  predicate IsHex(c: char) {
    '0' <= c <= '9' || 'a' <= c <= 'f' || 'A' <= c <= 'F'
  }

  predicate AllHex(s: string) {
    forall i :: 0 <= i < |s| ==> IsHex(s[i])
  }

  /** The hyphenated text of a UUID: groups of 8, 4, 4, 4 and 12 hexadecimal digits. */
  predicate IsUuidText(s: string) {
    && |s| == 36
    && forall i :: 0 <= i < 36 ==> if i in {8, 13, 18, 23} then s[i] == '-' else IsHex(s[i])
  }

  /** The server writes identifiers as UUIDs. */
  predicate WellTyped(context: Context) {
    && IsUuidText(context.taskId) && IsUuidText(context.sourceRunId)
    && (context.checkpointCancellationEvent.Some? ==> IsUuidText(context.checkpointCancellationEvent.value))
  }

  // -------------------------------------------------------------------------
  // The cockpit
  // -------------------------------------------------------------------------

  function WithoutHyphens(s: string): string {
    Filter(c => c != '-', s)
  }

  function Zeros(n: nat): string {
    seq(n, i => '0')
  }

  /** `uuid`: the pattern, and not the nil identifier. */
  predicate CockpitUuid(value: string) {
    IsUuidText(value) && WithoutHyphens(value) != Zeros(32)
  }

  const RECONCILABLE := {"cancelled", "running", "verification_failed", "blocked", "awaiting_approval"}

  function FactoryRecoveryModes(context: Option<Context>): seq<Mode> {
    if context.None? then [] else
      var c := context.value;
      if c.checkpointSourceCorrection == Some(true) && c.checkpointVerification != Some(true) then []
      else if c.checkpointCancellationEvent.Some?
              && (c.checkpointVerification != Some(true) || c.itemState != "cancelled") then []
      else if c.checkpointVerification == Some(true) then CheckpointModes(c)
      else if c.itemState == "verification_failed" then [VerifierOnly, SourceCorrection] else []
  }

  predicate HasHead(c: Context) {
    c.expectedHeadCommit.Some? && AllHex(c.expectedHeadCommit.value)
    && (|c.expectedHeadCommit.value| == 40 || |c.expectedHeadCommit.value| == 64)
  }

  predicate HasActiveRecovery(c: Context) {
    exists i :: 0 <= i < |c.recoveries| && c.recoveries[i] in {"authorized", "running"}
  }

  /** The context is complete, quiet, and of an item that can be reconciled. */
  predicate IsReconcilable(c: Context) {
    var correctionWithoutHead := c.expectedHeadCommit.None?
      && c.checkpointVerificationAvailable == Some(false) && c.checkpointSourceCorrection == Some(true);
    && CockpitUuid(c.taskId) && CockpitUuid(c.sourceRunId)
    && c.workspaceFingerprint.Some? && |c.workspaceFingerprint.value| == 64 && AllHex(c.workspaceFingerprint.value)
    && (HasHead(c) || correctionWithoutHead)
    && (c.itemState == "cancelled" ==>
          c.checkpointCancellationEvent.Some? && CockpitUuid(c.checkpointCancellationEvent.value))
    && !HasActiveRecovery(c) && c.itemState in RECONCILABLE
  }

  function CheckpointModes(c: Context): seq<Mode> {
    if !IsReconcilable(c) then []
    else
      Offers(HasHead(c) && c.checkpointVerificationAvailable != Some(false),
             c.checkpointSourceCorrection == Some(true) && c.itemState != "cancelled")
  }

  function Offers(verification: bool, correction: bool): (modes: seq<Mode>)
    ensures forall mode :: mode in modes <==>
              (mode == CheckpointVerification && verification) || (mode == SourceCorrection && correction)
  {
    (if verification then [CheckpointVerification] else []) + (if correction then [SourceCorrection] else [])
  }

  // -------------------------------------------------------------------------
  // The controller
  // -------------------------------------------------------------------------

  datatype Capabilities = Capabilities(family: bool, available: Option<bool>, correction: bool)

  /** Absent boolean fields deserialise to `false`. */
  function FromContext(c: Context): Capabilities {
    Capabilities(c.checkpointVerification.UnwrapOr(false), c.checkpointVerificationAvailable,
                 c.checkpointSourceCorrection.UnwrapOr(false))
  }

  predicate CanVerifyCheckpoint(caps: Capabilities) {
    caps.family && caps.available.UnwrapOr(true)
  }

  datatype Refusal = NoCheckpointVerification | NoCheckpointCorrection | NoVerifierOnly

  function ValidateMode(caps: Capabilities, mode: Mode): Result<(), Refusal> {
    if mode == CheckpointVerification && !CanVerifyCheckpoint(caps) then
      Err(NoCheckpointVerification)
    else if mode == SourceCorrection && caps.family && !caps.correction then
      Err(NoCheckpointCorrection)
    else if mode == VerifierOnly && caps.family then
      Err(NoVerifierOnly)
    else Ok(())
  }

  /** `Uuid::is_nil` of a parsed identifier. */
  predicate IsNil(uuid: string) {
    forall c :: c in uuid ==> c == '-' || c == '0'
  }

  /** `len() == n` and every byte a hexadecimal digit. */
  predicate IsHexOfBytes(s: string, n: nat) {
    ByteLen(s) == n && AllHex(s)
  }

  predicate IdentitiesMatch(c: Context, corp: string, item: string, mission: string, version: int) {
    c.itemId == item && c.itemCorp == corp && c.itemVersion == version
    && c.itemMission == Some(mission) && c.missionId == mission && version > 0
  }

  function ValidateCheckpointContext(c: Context, corp: string, item: string, mission: string, version: int)
    : Result<bool, string>
  {
    if !IdentitiesMatch(c, corp, item, mission, version) then Err("context does not match the current item")
    else if !CanVerifyCheckpoint(FromContext(c)) then Ok(false)
    else
      var fingerprint := c.workspaceFingerprint.UnwrapOr("");
      var head := c.expectedHeadCommit.UnwrapOr("");
      if IsNil(c.sourceRunId) || IsNil(c.taskId) || !IsHexOfBytes(fingerprint, 64) then
        Err("context omitted its exact source or fingerprint")
      else if !IsHexOfBytes(head, 40) && !IsHexOfBytes(head, 64) then Err("head is not a full Git object id")
      else if c.checkpointCancellationEvent.Some? && IsNil(c.checkpointCancellationEvent.value) then
        Err("cancellation event is invalid")
      else if c.checkpointCancellationEvent.Some? && c.itemState != "cancelled" then
        Err("cancellation marker belongs only to a cancelled projection")
      else Ok(!HasActiveRecovery(c))
  }

  // -------------------------------------------------------------------------
  // Agreement
  // -------------------------------------------------------------------------

  lemma HexGroupHasNoHyphen(s: string)
    requires AllHex(s)
    ensures WithoutHyphens(s) == s
  {
    FilterAll(c => c != '-', s);
  }

  lemma DropGroup(group: string, rest: string)
    requires AllHex(group)
    ensures |WithoutHyphens(group + "-" + rest)| == |group| + |WithoutHyphens(rest)|
  {
    var keep := (c: char) => c != '-';
    FilterAll(keep, group);
    FilterAppend(keep, group + "-", rest);
    FilterAppend(keep, group, "-");
    FilterNone(keep, "-");
  }

  /** The four hyphens go, the 32 digits stay. */
  lemma UuidHas32Digits(s: string)
    requires IsUuidText(s)
    ensures |WithoutHyphens(s)| == 32
  {
    var a, b, c, d, e := s[..8], s[9..13], s[14..18], s[19..23], s[24..];
    HexGroupHasNoHyphen(e);
    DropGroup(d, e);
    DropGroup(c, d + "-" + e);
    DropGroup(b, c + "-" + (d + "-" + e));
    DropGroup(a, b + "-" + (c + "-" + (d + "-" + e)));
    assert s == a + "-" + (b + "-" + (c + "-" + (d + "-" + e)));
  }

  /** Of well-formed identifiers both sides reject the same one, the nil one; the cockpit also rejects
      all others. */
  lemma CockpitUuidIsNotNil(s: string)
    ensures CockpitUuid(s) <==> IsUuidText(s) && !IsNil(s)
  {
    if IsUuidText(s) {
      WellFormedUuidIsNotNil(s);
    }
  }

  lemma WellFormedUuidIsNotNil(s: string)
    requires IsUuidText(s)
    ensures WithoutHyphens(s) != Zeros(32) <==> !IsNil(s)
  {
    UuidHas32Digits(s);
    FilterMembers(c => c != '-', s);
    var digits := WithoutHyphens(s);
    if IsNil(s) {
      assert forall i :: 0 <= i < 32 ==> digits[i] in digits;
      assert digits == Zeros(32);
    }
    if digits == Zeros(32) {
      forall c | c in s && c != '-'
        ensures c == '0'
      {
        assert c in digits;
      }
    }
  }

  lemma HexLength(s: string, n: nat)
    ensures IsHexOfBytes(s, n) <==> |s| == n && AllHex(s)
  {
    if AllHex(s) {
      ByteLenOfAscii(s);
    }
  }

  lemma CheckpointOffers(context: Context, mode: Mode)
    requires context.checkpointVerification == Some(true) && mode in CheckpointModes(context)
    ensures ValidateMode(FromContext(context), mode).Ok?
  {
  }

  /** Every mode the cockpit offers is one the controller accepts for the same context. */
  lemma OfferedModesAreAccepted(context: Context, mode: Mode)
    requires mode in FactoryRecoveryModes(Some(context))
    ensures ValidateMode(FromContext(context), mode).Ok?
  {
    if context.checkpointVerification == Some(true) {
      CheckpointOffers(context, mode);
    }
  }

  /** Outside the checkpoint family, an accepted mode is offered exactly for a failed verification
      without any checkpoint marker. */
  lemma OrdinaryModesAreOffered(context: Context, mode: Mode)
    ensures mode != CheckpointVerification && !FromContext(context).family ==>
              (mode in FactoryRecoveryModes(Some(context)) <==>
               ValidateMode(FromContext(context), mode).Ok? && context.itemState == "verification_failed"
               && !FromContext(context).correction && context.checkpointCancellationEvent.None?)
  {
  }

  /** The cockpit offers checkpoint verification exactly when the controller confirms the context,
      the item is in a state the cockpit reconciles, and a cancelled item names its cancellation. */
  lemma CheckpointOfferIsConfirmed(context: Context, corp: string, item: string, mission: string, version: int)
    requires WellTyped(context) && IdentitiesMatch(context, corp, item, mission, version)
    ensures CheckpointVerification in FactoryRecoveryModes(Some(context)) <==>
            && ValidateCheckpointContext(context, corp, item, mission, version) == Ok(true)
            && context.itemState in {"cancelled", "running", "verification_failed", "blocked", "awaiting_approval"}
            && (context.itemState == "cancelled" ==> context.checkpointCancellationEvent.Some?)
  {
    CockpitUuidIsNotNil(context.taskId);
    CockpitUuidIsNotNil(context.sourceRunId);
    if context.checkpointCancellationEvent.Some? {
      CockpitUuidIsNotNil(context.checkpointCancellationEvent.value);
    }
    HexLength(context.workspaceFingerprint.UnwrapOr(""), 64);
    HexLength(context.expectedHeadCommit.UnwrapOr(""), 40);
    HexLength(context.expectedHeadCommit.UnwrapOr(""), 64);
  }

  /** In the checkpoint family source correction is offered exactly if the server permits it on a
      complete, quiet context of an item that is not cancelled and carries no cancellation. */
  lemma WhenCorrectionIsOffered(context: Context)
    requires FromContext(context).family
    ensures SourceCorrection in FactoryRecoveryModes(Some(context)) <==>
            && FromContext(context).correction && context.checkpointCancellationEvent.None?
            && context.itemState in {"running", "verification_failed", "blocked", "awaiting_approval"}
            && !HasActiveRecovery(context)
            && CockpitUuid(context.taskId) && CockpitUuid(context.sourceRunId)
            && context.workspaceFingerprint.Some? && IsHexOfBytes(context.workspaceFingerprint.value, 64)
            && (HasHead(context) || (context.expectedHeadCommit.None? && FromContext(context).available == Some(false)))
    ensures VerifierOnly !in FactoryRecoveryModes(Some(context))
  {
    HexLength(context.workspaceFingerprint.UnwrapOr(""), 64);
  }

  /** A head is a full Git object id: 40 or 64 hexadecimal digits. */
  lemma HeadsAreObjectIds(context: Context)
    ensures HasHead(context) <==>
            && context.expectedHeadCommit.Some?
            && var head := context.expectedHeadCommit.value;
               IsHexOfBytes(head, 40) || IsHexOfBytes(head, 64)
  {
    HexLength(context.expectedHeadCommit.UnwrapOr(""), 40);
    HexLength(context.expectedHeadCommit.UnwrapOr(""), 64);
  }

  /** Without a context there is nothing to offer. */
  lemma NothingIsOfferedBlindly()
    ensures FactoryRecoveryModes(None) == []
  {
  }

  /** The controller accepts checkpoint verification exactly in a checkpoint family that does not deny
      it, source correction exactly outside the family or with the server's permission, and plain
      verification exactly outside the family; absent flags are denials, but for availability. */
  lemma WhenModesAreAccepted(context: Context, mode: Mode)
    ensures ValidateMode(FromContext(context), mode).Ok? <==>
            match mode
            case CheckpointVerification =>
              context.checkpointVerification == Some(true) && context.checkpointVerificationAvailable != Some(false)
            case SourceCorrection =>
              context.checkpointVerification != Some(true) || context.checkpointSourceCorrection == Some(true)
            case VerifierOnly => context.checkpointVerification != Some(true)
  {
  }

  /** The context confirms a checkpoint, denies one, or is in error: an error exactly if it is of another
      item, version or mission, or offers a checkpoint without its exact identities. */
  lemma WhenContextsAreInError(c: Context, corp: string, item: string, mission: string, version: int)
    ensures ValidateCheckpointContext(c, corp, item, mission, version).Err? <==>
            || c.itemId != item || c.itemCorp != corp || c.itemVersion != version || version <= 0
            || c.itemMission != Some(mission) || c.missionId != mission
            || (ValidateMode(FromContext(c), CheckpointVerification).Ok?
                && !(&& !IsNil(c.sourceRunId) && !IsNil(c.taskId)
                     && c.workspaceFingerprint.Some? && IsHexOfBytes(c.workspaceFingerprint.value, 64) && HasHead(c)
                     && (c.checkpointCancellationEvent.Some? ==>
                           !IsNil(c.checkpointCancellationEvent.value) && c.itemState == "cancelled")))
    ensures ValidateCheckpointContext(c, corp, item, mission, version) == Ok(false) ==>
            !ValidateMode(FromContext(c), CheckpointVerification).Ok? || HasActiveRecovery(c)
  {
    HeadsAreObjectIds(c);
    HexLength("", 64);
    HexLength("", 40);
  }

  /** A recovery is active exactly while it is authorized or running. */
  lemma WhenRecoveriesAreActive(c: Context)
    ensures HasActiveRecovery(c) <==> "authorized" in c.recoveries || "running" in c.recoveries
  {
    if "authorized" in c.recoveries || "running" in c.recoveries {
      var i :| 0 <= i < |c.recoveries| && c.recoveries[i] in {"authorized", "running"};
    }
  }

  /** Hexadecimal digits, in either case. */
  lemma WhichDigitsAreHex(c: char)
    ensures IsHex(c) <==> c in "0123456789abcdefABCDEF"
  {
    var digits := "0123456789abcdefABCDEF";
    assert digits[..10] == "0123456789" && digits[10..16] == "abcdef" && digits[16..] == "ABCDEF";
    assert forall k :: 0 <= k < 10 ==> "0123456789"[k] as int == '0' as int + k;
    assert forall k :: 0 <= k < 6 ==> "abcdef"[k] as int == 'a' as int + k;
    assert forall k :: 0 <= k < 6 ==> "ABCDEF"[k] as int == 'A' as int + k;
    if '0' <= c <= '9' {
      assert digits[c as int - '0' as int] == "0123456789"[c as int - '0' as int] == c;
    } else if 'a' <= c <= 'f' {
      assert digits[10 + (c as int - 'a' as int)] == "abcdef"[c as int - 'a' as int] == c;
    } else if 'A' <= c <= 'F' {
      assert digits[16 + (c as int - 'A' as int)] == "ABCDEF"[c as int - 'A' as int] == c;
    }
  }
}
