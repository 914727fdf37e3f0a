/** The lease aggregate as a value, and what each operation does to it. */
module LeaseModel {
  import opened Wrappers
  import opened Contracts
  import opened Policy
  import opened Clock

  const RENEWAL_ACK_TIMEOUT_SECONDS := 30
  const MAXIMUM_GENERATION := 9_007_199_254_740_991

  type Generation = x: int | 1 <= x <= MAXIMUM_GENERATION witness 1

  datatype Reason =
    | Completed
    | WorkerFailed
    | OperatorRevoked
    | PolicyRevoked
    | PrincipalMismatch
    | LeaseExpired
    | MaximumLifetimeReached
    | HeartbeatLost
    | ProcessUnverifiable
    | GenerationSuperseded
    | RenewalAcknowledgementFailed
    | ServiceRecovery
    | InternalError

  datatype Status = Requested | Active | Renewing | InError | Closed | Revoked | Expired | Refused

  datatype LeaseError =
    | InvalidTransition(from: Status, to: Status)
    | TerminalImmutable(status: Status)
    | NotActive
    | AlreadyExpired
    | AlreadyRevoked
    | CallerUnauthorized
    | GenerationMismatch
    | GenerationExhausted
    | SessionLimitReached
    | TenantMismatch
    | RunMismatch
    | RoleMismatch
    | HostMismatch
    | PolicyBindingMismatch
    | InvalidReason(status: Status, reason: Reason)
    | ClockBeforeIssuance
    | ClockGenerationMismatch
    | MonotonicRegression
    | ClockOverflow

  /** `workspaceProvider` is the provider the workspace reference names. */
  datatype Resolution = Resolution(executionHandle: Text, workspaceProvider: Provider, authMode: AuthMode,
                                   isolation: Isolation)

  datatype Control = Control(callerSubject: Text, tenantId: Text, runId: Text, role: AgentRole, hostIdentity: Text,
                             generation: Generation)

  datatype Binding = Binding(
    leaseId: Text, authorityDigest: Digest, order: WorkOrder, requestedPolicyDigest: Option<Digest>,
    initialRequestedTtl: TtlSeconds, signedMaximumTtl: TtlSeconds, signedMaximumSession: DurationSeconds,
    callerSubject: Text, hostIdentity: Text, signedExpiresAt: UtcTimestamp)

  datatype Authority = Authority(
    resolution: Resolution, policyDigest: Digest, generation: Generation, expiresAt: int, maximumExpiresAt: int,
    anchorWall: int, anchorMonotonic: Moment, monotonicDeadline: Moment, monotonicMaximum: Moment)

  datatype State =
    | SRequested
    | SActive(authority: Authority)
    | SRenewing(authority: Authority, acknowledgeBy: int, monotonicAcknowledgeBy: Moment)
    | SError(authority: Authority, reason: Reason)
    | SClosed(authority: Authority, reason: Reason)
    | SRevoked(authority: Authority, reason: Reason)
    | SExpired(authority: Authority, reason: Reason)
    | SRefused(code: RefusalCode)
  {
    function Status(): Status {
      match this
      case SRequested => Requested
      case SActive(_) => Active
      case SRenewing(_, _, _) => Renewing
      case SError(_, _) => InError
      case SClosed(_, _) => Closed
      case SRevoked(_, _) => Revoked
      case SExpired(_, _) => Expired
      case SRefused(_) => Refused
    }

    predicate HasAuthority() { !SRequested? && !SRefused? }

    /** States in which deadlines still run. */
    predicate Live() { SActive? || SRenewing? || SError? }
  }

  datatype LeaseData = LeaseData(binding: Binding, issuance: ClockSample, lastMonotonic: Moment, state: State)

  /** `digest` computes a policy's digest. */
  type Digester = EffectivePolicy -> Digest

  // ---- Checks ----

  function StateError(l: LeaseData, target: Status): LeaseError {
    match l.state.Status()
    case Closed => TerminalImmutable(Closed)
    case Refused => TerminalImmutable(Refused)
    case Revoked => AlreadyRevoked
    case Expired => AlreadyExpired
    case from => InvalidTransition(from, target)
  }

  function CheckCaller(l: LeaseData, c: Control): Result<(), LeaseError> {
    if c.callerSubject == l.binding.callerSubject then Ok(()) else Err(CallerUnauthorized)
  }

  function CheckControl(l: LeaseData, c: Control): Result<(), LeaseError> {
    var _ :- CheckCaller(l, c);
    if c.tenantId != l.binding.order.tenantId then Err(TenantMismatch)
    else if c.runId != l.binding.order.runId then Err(RunMismatch)
    else if c.role != l.binding.order.role then Err(RoleMismatch)
    else if c.hostIdentity != l.binding.hostIdentity then Err(HostMismatch)
    else if !l.state.HasAuthority() then Err(NotActive)
    else if l.state.authority.generation != c.generation then Err(GenerationMismatch)
    else Ok(())
  }

  function CheckPolicy(l: LeaseData, p: EffectivePolicy, digest: Digester): Result<(), LeaseError> {
    var b := l.binding;
    if && p.ResourceIsolationIsConsistent()
       && b.authorityDigest == p.sourceRequestDigest && b.order == p.order && b.callerSubject == p.callerSubject
       && b.hostIdentity == p.hostIdentity
       && (b.requestedPolicyDigest.Some? ==> b.requestedPolicyDigest.value == digest(p))
       && p.maximumTtl <= b.signedMaximumTtl && p.maximumSession <= b.signedMaximumSession
       && p.requestedTtl <= p.maximumTtl && p.requestedTtl <= p.maximumSession
       && p.requestedTtl <= b.signedMaximumTtl && p.requestedTtl <= b.signedMaximumSession
       && p.signedExpiresAt == b.signedExpiresAt
       && b.order.profileUid == p.claim.profileUid && b.order.provider == p.claim.provider
       && b.callerSubject == p.claim.callerSubject && b.hostIdentity == p.claim.hostIdentity
    then Ok(())
    else Err(PolicyBindingMismatch)
  }

  function CheckResolution(provider: Provider, p: EffectivePolicy, r: Resolution): Result<(), LeaseError> {
    if r.workspaceProvider != provider || !r.authMode.SupportsProvider(provider) || r.authMode != p.authMode
       || r.isolation != p.isolation || r.isolation == Unproven
    then Err(PolicyBindingMismatch)
    else Ok(())
  }

  function Overflowing<T>(o: Option<T>): Result<T, LeaseError> {
    if o.Some? then Ok(o.value) else Err(ClockOverflow)
  }

  predicate RevocationReason(reason: Reason) {
    reason in {OperatorRevoked, PolicyRevoked, Reason.PrincipalMismatch, HeartbeatLost, ProcessUnverifiable,
               GenerationSuperseded, RenewalAcknowledgementFailed, ServiceRecovery}
  }

  // ---- Clock observation and deadlines ----

  function Observe(l: LeaseData, now: ClockSample): Result<LeaseData, LeaseError> {
    if now.generation != l.issuance.generation then Err(ClockGenerationMismatch)
    else if now.monotonic < l.lastMonotonic then Err(MonotonicRegression)
    else Ok(l.(lastMonotonic := now.monotonic))
  }

  /** Where the deadlines put a live state at `now`. */
  function StateAt(s: State, now: ClockSample): State {
    if !s.Live() then s
    else if s.SRenewing? && DeadlineReached(now, s.acknowledgeBy, s.monotonicAcknowledgeBy) then
      SRevoked(s.authority, RenewalAcknowledgementFailed)
    else if DeadlineReached(now, s.authority.maximumExpiresAt, s.authority.monotonicMaximum) then
      SExpired(s.authority, MaximumLifetimeReached)
    else if DeadlineReached(now, s.authority.expiresAt, s.authority.monotonicDeadline) then
      SExpired(s.authority, LeaseExpired)
    else s
  }

  /** The lease after enforcing deadlines, and whether one of them ended it. */
  function Enforced(l: LeaseData, now: ClockSample): (LeaseData, Result<bool, LeaseError>) {
    match Observe(l, now)
    case Err(error) => (l, Err(error))
    case Ok(seen) => (seen.(state := StateAt(l.state, now)), Ok(StateAt(l.state, now) != l.state))
  }

  // ---- Operations: the new lease and the result ----

  function Refuse(l: LeaseData, code: RefusalCode): (LeaseData, Result<(), LeaseError>) {
    if l.state.Status() != Requested then (l, Err(StateError(l, Requested))) else (l.(state := SRefused(code)), Ok(()))
  }

  /** The first authority, if policy and clocks allow one. */
  function FirstAuthority(l: LeaseData, p: EffectivePolicy, r: Resolution, now: ClockSample, digest: Digester)
    : Result<Authority, LeaseError>
  {
    var _ :- CheckPolicy(l, p, digest);
    if p.requestedTtl != l.binding.initialRequestedTtl then Err(PolicyBindingMismatch)
    else
      var _ :- CheckResolution(l.binding.order.provider, p, r);
      var bySession :- Overflowing(AddSeconds(l.issuance.wall, p.maximumSession));
      var maximumExpiresAt := Earlier(p.signedExpiresAt.instant, bySession);
      var expiresAt :- Overflowing(AddSeconds(l.issuance.wall, p.requestedTtl));
      if maximumExpiresAt < expiresAt || l.issuance.wall >= expiresAt then Err(SessionLimitReached)
      else
        var runtime :- Overflowing(Between(l.issuance.wall, maximumExpiresAt));
        var monotonicMaximum :- Overflowing(Advance(l.issuance.monotonic, runtime));
        var monotonicDeadline :- Overflowing(AdvanceSeconds(l.issuance.monotonic, p.requestedTtl));
        if monotonicDeadline > monotonicMaximum || DeadlineReached(now, expiresAt, monotonicDeadline)
           || DeadlineReached(now, maximumExpiresAt, monotonicMaximum)
        then Err(SessionLimitReached)
        else Ok(Authority(r, digest(p), 1, expiresAt, maximumExpiresAt, l.issuance.wall, l.issuance.monotonic,
                          monotonicDeadline, monotonicMaximum))
  }

  function Activate(l: LeaseData, p: EffectivePolicy, r: Resolution, now: ClockSample, digest: Digester)
    : (LeaseData, Result<(), LeaseError>)
  {
    if l.state.Status() != Requested then (l, Err(StateError(l, Requested)))
    else if now.generation != l.issuance.generation then (l, Err(ClockGenerationMismatch))
    else if now.wall < l.issuance.wall then (l, Err(ClockBeforeIssuance))
    else if now.monotonic < l.lastMonotonic then (l, Err(MonotonicRegression))
    else
      var seen := l.(lastMonotonic := now.monotonic);
      match FirstAuthority(seen, p, r, now, digest)
      case Err(error) => (seen, Err(error))
      case Ok(authority) => (seen.(state := SActive(authority)), Ok(()))
  }

  /** The renewed authority, if policy, session limits and clocks allow one. */
  function RenewedAuthority(l: LeaseData, a: Authority, p: EffectivePolicy, now: ClockSample, digest: Digester)
    : Result<Authority, LeaseError>
  {
    var _ :- CheckResolution(l.binding.order.provider, p, a.resolution);
    var bySession :- Overflowing(AddSeconds(l.issuance.wall, p.maximumSession));
    var maximum := Earlier(a.maximumExpiresAt, Earlier(p.signedExpiresAt.instant, bySession));
    var signedRuntime :- Overflowing(Between(l.issuance.wall, p.signedExpiresAt.instant));
    var bySignature :- Overflowing(Advance(l.issuance.monotonic, signedRuntime));
    var byPolicy :- Overflowing(AdvanceSeconds(l.issuance.monotonic, p.maximumSession));
    var monotonicMaximum := EarlierMoment(EarlierMoment(a.monotonicMaximum, bySignature), byPolicy);
    var expiresAt :- Overflowing(AddSeconds(now.wall, p.requestedTtl));
    var monotonicDeadline :- Overflowing(AdvanceSeconds(now.monotonic, p.requestedTtl));
    if maximum < expiresAt || monotonicDeadline > monotonicMaximum || a.expiresAt >= expiresAt
       || monotonicDeadline <= a.monotonicDeadline
    then Err(SessionLimitReached)
    else if a.generation + 1 > MAXIMUM_GENERATION then Err(GenerationExhausted)
    else Ok(Authority(a.resolution, digest(p), a.generation + 1, expiresAt, maximum, now.wall, now.monotonic,
                      monotonicDeadline, monotonicMaximum))
  }

  /** Renewal with its acknowledgement window. */
  function Renewal(l: LeaseData, a: Authority, p: EffectivePolicy, now: ClockSample, digest: Digester)
    : (r: Result<State, LeaseError>)
    ensures r.Ok? ==> r.value.SRenewing?
  {
    var _ :- CheckPolicy(l, p, digest);
    if p.requestedTtl > p.maximumTtl || p.requestedTtl > p.maximumSession then Err(SessionLimitReached)
    else
      var renewed :- RenewedAuthority(l, a, p, now, digest);
      var window :- Overflowing(AddSeconds(now.wall, RENEWAL_ACK_TIMEOUT_SECONDS));
      var monotonicWindow :- Overflowing(AdvanceSeconds(now.monotonic, RENEWAL_ACK_TIMEOUT_SECONDS));
      Ok(SRenewing(renewed, Earlier(window, renewed.expiresAt), EarlierMoment(monotonicWindow, renewed.monotonicDeadline)))
  }

  function BeginRenewal(l: LeaseData, c: Control, p: EffectivePolicy, now: ClockSample, digest: Digester)
    : (LeaseData, Result<Generation, LeaseError>)
  {
    if CheckCaller(l, c).Err? then (l, Err(CheckCaller(l, c).error))
    else
      var (seen, ended) := Enforced(l, now);
      if CheckControl(l, c).Err? then (seen, Err(CheckControl(l, c).error))
      else if ended.Err? then (seen, Err(ended.error))
      else if ended.value then (seen, Err(StateError(seen, Renewing)))
      else if !seen.state.SActive? then (seen, Err(StateError(seen, Active)))
      else
        match Renewal(seen, seen.state.authority, p, now, digest)
        case Err(error) => (seen, Err(error))
        case Ok(next) => (seen.(state := next), Ok(next.authority.generation))
  }

  function AcknowledgeRenewal(l: LeaseData, c: Control, now: ClockSample): (LeaseData, Result<(), LeaseError>) {
    var (seen, ended) := Enforced(l, now);
    if CheckControl(l, c).Err? then
      (if seen.state.SRenewing? then seen.(state := SRevoked(seen.state.authority, RenewalAcknowledgementFailed)) else seen,
       Err(CheckControl(l, c).error))
    else if ended.Err? then (seen, Err(ended.error))
    else if ended.value then (seen, Err(StateError(seen, Active)))
    else if !seen.state.SRenewing? then (seen, Err(StateError(seen, Renewing)))
    else (seen.(state := SActive(seen.state.authority)), Ok(()))
  }

  function Close(l: LeaseData, c: Control, reason: Reason, now: ClockSample): (LeaseData, Result<(), LeaseError>) {
    if CheckCaller(l, c).Err? then (l, Err(CheckCaller(l, c).error))
    else
      var (seen, ended) := Enforced(l, now);
      if CheckControl(l, c).Err? then (seen, Err(CheckControl(l, c).error))
      else if reason != Completed && reason != WorkerFailed then (seen, Err(InvalidReason(Closed, reason)))
      else if ended.Err? then (seen, Err(ended.error))
      else if ended.value || !(seen.state.SActive? || seen.state.SRenewing?) then (seen, Err(StateError(seen, Closed)))
      else (seen.(state := SClosed(seen.state.authority, reason)), Ok(()))
  }

  function Revoke(l: LeaseData, reason: Reason): (LeaseData, Result<(), LeaseError>) {
    if !RevocationReason(reason) then (l, Err(InvalidReason(Revoked, reason)))
    else if !l.state.Live() then (l, Err(NotActive))
    else (l.(state := SRevoked(l.state.authority, reason)), Ok(()))
  }

  function RevokeControlled(l: LeaseData, c: Control, now: ClockSample): (LeaseData, Result<(), LeaseError>) {
    if CheckCaller(l, c).Err? then (l, Err(CheckCaller(l, c).error))
    else
      var (seen, ended) := Enforced(l, now);
      if CheckControl(l, c).Err? then (seen, Err(CheckControl(l, c).error))
      else if ended.Err? then (seen, Err(ended.error))
      else if ended.value then (seen, Err(StateError(seen, Revoked)))
      else if !seen.state.Live() then (seen, Err(NotActive))
      else Revoke(seen, OperatorRevoked)
  }

  function MarkError(l: LeaseData, reason: Reason): (LeaseData, Result<(), LeaseError>) {
    if reason !in {ProcessUnverifiable, ServiceRecovery, InternalError} then (l, Err(InvalidReason(InError, reason)))
    else if !(l.state.SActive? || l.state.SRenewing?) then (l, Err(StateError(l, InError)))
    else (l.(state := SError(l.state.authority, reason)), Ok(()))
  }

  function AuthorizeLaunch(l: LeaseData, c: Control, p: EffectivePolicy, now: ClockSample, digest: Digester)
    : (LeaseData, Result<Text, LeaseError>)
  {
    if CheckCaller(l, c).Err? then (l, Err(CheckCaller(l, c).error))
    else
      var (seen, ended) := Enforced(l, now);
      if ended.Err? then (seen, Err(ended.error))
      else if ended.value || !seen.state.SActive? then (seen, Err(StateError(seen, Active)))
      else if CheckControl(seen, c).Err? then (seen, Err(CheckControl(seen, c).error))
      else if CheckPolicy(seen, p, digest).Err? then (seen, Err(CheckPolicy(seen, p, digest).error))
      else if seen.state.authority.policyDigest != digest(p) then
        (seen.(state := SRevoked(seen.state.authority, PolicyRevoked)), Err(AlreadyRevoked))
      else (seen, Ok(seen.state.authority.resolution.executionHandle))
  }
}
