/** The values that cross the automation boundary: identities, enumerations, bounded numbers and the signed request. */
module Contracts {
  import opened Wrappers

  type byte = x: int | 0 <= x < 0x100

  /** A string as its UTF-8 bytes. */
  type Text = seq<byte>

  /** A digest in its printed form. */
  type Digest = Text

  type u32 = x: int | 0 <= x < 0x1_0000_0000
  type u64 = x: int | 0 <= x < 0x1_0000_0000_0000_0000
  type NonZeroU32 = x: int | 1 <= x < 0x1_0000_0000 witness 1
  type TtlSeconds = x: int | 1 <= x <= 86_400 witness 1
  type DurationSeconds = x: int | 1 <= x < 0x1_0000_0000 witness 1

  const NANOS_PER_SECOND := 1_000_000_000

  /** `least` is one of the bounds and beyond none of them. */
  predicate LeastOf(least: int, bounds: set<int>) {
    least in bounds && forall b | b in bounds :: least <= b
  }

  function Ascii(s: string): (t: Text)
    ensures |t| == |s|
  {
    seq(|s|, i requires 0 <= i < |s| => if s[i] < '\U{80}' then s[i] as int else 0)
  }

  datatype Provider = Claude | Codex
  datatype AgentRole = Implementer | LocalReviewer | PrReviewer
  datatype AuthMode = Wif | SubscriptionToken | ApiKey | ChatgptOauth | AccessToken {
    predicate SupportsProvider(provider: Provider) {
      match provider
      case Claude => Wif? || SubscriptionToken? || ApiKey?
      case Codex => Wif? || ChatgptOauth? || ApiKey? || AccessToken?
    }
  }
  datatype Isolation = CredentialIsolated | PerLeaseIsolated | CopiedCredentialDevelopment | Unproven
  datatype SharedIsolation = Stateless | PerLease
  datatype ConcurrencyMode = Exclusive | Shared

  /** `provider:name`. */
  datatype ProfileRef = ProfileRef(provider: Provider, name: Text)

  /** A timestamp as written, and the instant it denotes in nanoseconds. */
  datatype UtcTimestamp = UtcTimestamp(wire: Text, instant: int) {
    predicate IsBefore(other: UtcTimestamp) { instant < other.instant }

    /** Whole seconds from here to `other`, truncated toward zero; none when a whole second or more in the past. */
    function SecondsUntil(other: UtcTimestamp): Option<nat> {
      var difference := other.instant - instant;
      if difference >= 0 then Some(difference / NANOS_PER_SECOND)
      else if -difference < NANOS_PER_SECOND then Some(0)
      else None
    }
  }

  /** The fields a signed authorization fixes and a request must repeat exactly. */
  datatype WorkOrder = WorkOrder(
    clientRequestId: Text, tenantId: Text, workOrderId: Text, workOrderDigest: Digest, runId: Text, attemptId: Text,
    role: AgentRole, provider: Provider, profileUid: Text, profileRef: ProfileRef, repository: Text, workspaceId: Text,
    environment: Text)

  datatype Authorization = Authorization(order: WorkOrder, notBefore: UtcTimestamp, expiresAt: UtcTimestamp,
                                         maximumTtl: TtlSeconds, maximumSession: DurationSeconds)

  datatype Request = Request(order: WorkOrder, authorization: Authorization, requestedTtl: TtlSeconds,
                             policyDigest: Option<Digest>)

  datatype ContractError =
    | ProviderProfileMismatch
    | InvalidAuthorizationValidity
    | InvalidAuthorizationLimits
    | WorkOrderAuthorizationMismatch
    | RequestedTtlExceedsAuthorization
    | AuthorizationNotYetValid
    | AuthorizationExpired
    | RequestedTtlExceedsAuthorizationValidity

  predicate Longer(seconds: nat, available: Option<nat>) {
    available.None? || seconds > available.value
  }

  function ValidateStructure(order: WorkOrder): Result<(), ContractError> {
    if order.provider != order.profileRef.provider then Err(ProviderProfileMismatch) else Ok(())
  }

  function ValidateSigned(a: Authorization): Result<(), ContractError> {
    var _ :- ValidateStructure(a.order);
    if !a.notBefore.IsBefore(a.expiresAt) then Err(InvalidAuthorizationValidity)
    else if a.maximumTtl > a.maximumSession then Err(InvalidAuthorizationLimits)
    else if Longer(a.maximumSession, a.notBefore.SecondsUntil(a.expiresAt)) then Err(InvalidAuthorizationLimits)
    else Ok(())
  }

  function ValidateAuthorization(r: Request, now: UtcTimestamp): Result<(), ContractError> {
    var _ :- ValidateSigned(r.authorization);
    var _ :- ValidateStructure(r.order);
    if r.order != r.authorization.order then Err(WorkOrderAuthorizationMismatch)
    else if r.requestedTtl > r.authorization.maximumTtl || r.requestedTtl > r.authorization.maximumSession then
      Err(RequestedTtlExceedsAuthorization)
    else if now.IsBefore(r.authorization.notBefore) then Err(AuthorizationNotYetValid)
    else if !now.IsBefore(r.authorization.expiresAt) then Err(AuthorizationExpired)
    else if Longer(r.requestedTtl, now.SecondsUntil(r.authorization.expiresAt)) then
      Err(RequestedTtlExceedsAuthorizationValidity)
    else Ok(())
  }

  lemma FitsWhole(seconds: nat, start: UtcTimestamp, end: UtcTimestamp)
    requires seconds >= 1
    ensures !Longer(seconds, start.SecondsUntil(end)) <==> start.instant + seconds * NANOS_PER_SECOND <= end.instant
  {
    var difference := end.instant - start.instant;
    if difference >= 0 {
      assert seconds <= difference / NANOS_PER_SECOND <==> seconds * NANOS_PER_SECOND <= difference;
    }
  }

  /** A request is accepted exactly when it repeats the signed order, stays within its limits, and the requested lease
      lies wholly inside the signed interval, which itself covers the signed session. */
  lemma AcceptedExactlyWhen(r: Request, now: UtcTimestamp)
    ensures var a := r.authorization;
      ValidateAuthorization(r, now).Ok? <==>
        && r.order == a.order && a.order.provider == a.order.profileRef.provider
        && r.requestedTtl <= a.maximumTtl <= a.maximumSession
        && a.notBefore.instant + a.maximumSession * NANOS_PER_SECOND <= a.expiresAt.instant
        && a.notBefore.instant <= now.instant
        && now.instant + r.requestedTtl * NANOS_PER_SECOND <= a.expiresAt.instant
  {
    FitsWhole(r.authorization.maximumSession, r.authorization.notBefore, r.authorization.expiresAt);
    FitsWhole(r.requestedTtl, now, r.authorization.expiresAt);
  }

  /** What is objected to first: the signed interval and limits, then how the request departs from them, then the time. */
  lemma RejectedBecause(r: Request, now: UtcTimestamp)
    requires ValidateAuthorization(r, now).Err?
    ensures var a, error := r.authorization, ValidateAuthorization(r, now).error;
      if a.order.provider != a.order.profileRef.provider then error == ProviderProfileMismatch
      else if a.expiresAt.instant <= a.notBefore.instant then error == InvalidAuthorizationValidity
      else if a.maximumTtl > a.maximumSession || a.notBefore.instant + a.maximumSession * NANOS_PER_SECOND > a.expiresAt.instant then
        error == InvalidAuthorizationLimits
      else if r.order.provider != r.order.profileRef.provider then error == ProviderProfileMismatch
      else if r.order != a.order then error == ContractError.WorkOrderAuthorizationMismatch
      else if r.requestedTtl > a.maximumTtl then error == RequestedTtlExceedsAuthorization
      else if now.instant < a.notBefore.instant then error == AuthorizationNotYetValid
      else if now.instant >= a.expiresAt.instant then error == AuthorizationExpired
      else error == RequestedTtlExceedsAuthorizationValidity
           && now.instant + r.requestedTtl * NANOS_PER_SECOND > a.expiresAt.instant
  {
    FitsWhole(r.authorization.maximumSession, r.authorization.notBefore, r.authorization.expiresAt);
    FitsWhole(r.requestedTtl, now, r.authorization.expiresAt);
  }
}
