/** Intersecting profile, signed request, controller, readiness and capacity into one effective policy. */
module Policy {
  import opened Wrappers
  import opened Contracts

  datatype AllowScope<T(==)> = Any | Only(values: seq<T>) {
    predicate Permits(value: T) {
      match this
      case Any => true
      case Only(values) => value in values
    }
  }

  datatype CapacityLimits = CapacityLimits(profile: NonZeroU32, provider: NonZeroU32, caller: NonZeroU32, host: NonZeroU32)

  datatype CapacityUsage = CapacityUsage(profile: u32, provider: u32, caller: u32, host: u32)

  datatype CapacityClaim = CapacityClaim(profileUid: Text, provider: Provider, callerSubject: Text, hostIdentity: Text,
                                         limits: CapacityLimits)
  {
    predicate Permits(usage: CapacityUsage) {
      && usage.profile < limits.profile && usage.provider < limits.provider
      && usage.caller < limits.caller && usage.host < limits.host
    }
  }

  datatype Requirements = Requirements(workloadIdentity: bool, authenticationException: bool, isolationException: bool)

  datatype ProfilePolicy = ProfilePolicy(
    profileUid: Text, profileRef: ProfileRef, provider: Provider, authMode: AuthMode, eligible: bool,
    environments: set<Text>, roles: seq<AgentRole>, callerSubjects: set<Text>, maximumTtl: TtlSeconds,
    maximumSession: DurationSeconds, maximumConcurrentLeases: NonZeroU32, concurrencyMode: ConcurrencyMode,
    sharedIsolationRequirement: Option<SharedIsolation>, requirements: Requirements)

  datatype ControllerPolicy = ControllerPolicy(
    profileUids: AllowScope<Text>, providers: AllowScope<Provider>, environments: AllowScope<Text>,
    roles: AllowScope<AgentRole>, callerSubjects: AllowScope<Text>, repositories: AllowScope<Text>,
    maximumTtl: TtlSeconds, maximumSession: DurationSeconds, capacity: CapacityLimits,
    allowAuthenticationException: bool, allowIsolationException: bool)

  datatype RefusalCode =
    | WorkOrderProofInvalid
    | WorkOrderAuthorizationMismatch
    | RequestedTtlNotAllowed
    | PolicyDigestMismatch
    | ProfileNotFound
    | ProviderMismatch
    | ProfileNotEligible
    | AuthenticationExceptionRequired
    | IsolationExceptionRequired
    | EnvironmentNotAllowed
    | RoleNotAllowed
    | CallerNotAllowed
    | RepositoryNotAllowed
    | ProfileNotReady
    | IdentityTokenStale
    | HarnessUntrusted
    | PrincipalUnverified
    | PrincipalMismatch
    | OrganizationMismatch
    | WorkspaceMismatch
    | IsolationUnproven
    | CapacityExceeded

  datatype ReadinessDenial =
    | NotReady
    | TokenStale
    | Untrusted
    | Unverified
    | OtherPrincipal
    | OtherOrganization
    | OtherWorkspace
    | Unisolated
  {
    function Refusal(): RefusalCode {
      match this
      case NotReady => ProfileNotReady
      case TokenStale => IdentityTokenStale
      case Untrusted => HarnessUntrusted
      case Unverified => PrincipalUnverified
      case OtherPrincipal => PrincipalMismatch
      case OtherOrganization => OrganizationMismatch
      case OtherWorkspace => WorkspaceMismatch
      case Unisolated => IsolationUnproven
    }
  }

  datatype Readiness = Ready(isolation: Isolation, sharedIsolation: Option<SharedIsolation>) | Denied(denial: ReadinessDenial)

  /** `requestDigest` is the digest of the request itself, absent when the request cannot be encoded. */
  datatype Evaluation = Evaluation(
    request: Request, requestDigest: Option<Digest>, profile: ProfilePolicy, controller: ControllerPolicy,
    callerSubject: Text, hostIdentity: Text, proofVerified: bool, readiness: Readiness, usage: CapacityUsage,
    now: UtcTimestamp)

  datatype EffectivePolicy = EffectivePolicy(
    sourceRequestDigest: Digest, order: WorkOrder, callerSubject: Text, hostIdentity: Text, authMode: AuthMode,
    isolation: Isolation, sharedIsolation: Option<SharedIsolation>, requestedTtl: u64, maximumTtl: u64,
    maximumSession: u64, signedExpiresAt: UtcTimestamp, concurrencyMode: ConcurrencyMode, requirements: Requirements,
    claim: CapacityClaim)
  {
    predicate ResourceIsolationIsConsistent() {
      match concurrencyMode
      case Exclusive => sharedIsolation.None?
      case Shared => ValidSharedResourceIsolation(isolation, sharedIsolation)
    }
  }

  type Decision = Result<EffectivePolicy, RefusalCode>

  predicate ValidSharedResourceIsolation(isolation: Isolation, shared: Option<SharedIsolation>) {
    || (isolation == CredentialIsolated && shared == Some(Stateless))
    || (isolation == PerLeaseIsolated && shared == Some(PerLease))
  }

  function RefusalForContractError(error: ContractError): RefusalCode {
    match error
    case WorkOrderAuthorizationMismatch => RefusalCode.WorkOrderAuthorizationMismatch
    case RequestedTtlExceedsAuthorization => RequestedTtlNotAllowed
    case RequestedTtlExceedsAuthorizationValidity => RequestedTtlNotAllowed
    case ProviderProfileMismatch => ProviderMismatch
    case _ => WorkOrderProofInvalid
  }

  const LOCAL_DEVELOPMENT := Ascii("local-development")

  function Min(a: int, b: int): int {
    if b < a then b else a
  }

  // The gates, in the order they are tried.

  function CheckRequest(e: Evaluation): Result<Digest, RefusalCode> {
    if !e.proofVerified then Err(WorkOrderProofInvalid)
    else
      match ValidateAuthorization(e.request, e.now)
      case Err(error) => Err(RefusalForContractError(error))
      case Ok(_) => if e.requestDigest.None? then Err(WorkOrderProofInvalid) else Ok(e.requestDigest.value)
  }

  function CheckScopes(e: Evaluation): Result<(), RefusalCode> {
    var o, p, c := e.request.order, e.profile, e.controller;
    if o.provider != p.provider || o.profileRef.provider != p.provider || !c.providers.Permits(o.provider) then
      Err(ProviderMismatch)
    else if o.profileUid != p.profileUid || o.profileRef != p.profileRef then Err(ProfileNotFound)
    else if !p.eligible || !c.profileUids.Permits(p.profileUid) then Err(ProfileNotEligible)
    else if o.environment !in p.environments || !c.environments.Permits(o.environment) then Err(EnvironmentNotAllowed)
    else if o.role !in p.roles || !c.roles.Permits(o.role) then Err(RoleNotAllowed)
    else if e.callerSubject !in p.callerSubjects || !c.callerSubjects.Permits(e.callerSubject) then Err(CallerNotAllowed)
    else if !c.repositories.Permits(o.repository) then Err(RepositoryNotAllowed)
    else Ok(())
  }

  function CheckAuthentication(e: Evaluation): Result<(), RefusalCode> {
    var p := e.profile;
    var nonLocal := e.request.order.environment != LOCAL_DEVELOPMENT;
    if && p.authMode != Wif && (p.requirements.workloadIdentity || nonLocal)
       && (!p.requirements.authenticationException || !e.controller.allowAuthenticationException)
    then Err(AuthenticationExceptionRequired)
    else Ok(())
  }

  function CheckIsolation(e: Evaluation): Result<(Isolation, Option<SharedIsolation>), RefusalCode> {
    var p := e.profile;
    var nonLocal := e.request.order.environment != LOCAL_DEVELOPMENT;
    match e.readiness
    case Denied(denial) => Err(denial.Refusal())
    case Ready(isolation, shared) =>
      if isolation == Unproven then Err(IsolationUnproven)
      else if isolation == CopiedCredentialDevelopment && nonLocal && e.request.order.role != PrReviewer then
        Err(IsolationUnproven)
      else if isolation == CopiedCredentialDevelopment
              && (!p.requirements.isolationException || !e.controller.allowIsolationException) then
        Err(IsolationExceptionRequired)
      else if p.concurrencyMode == Exclusive && shared.Some? then Err(IsolationUnproven)
      else if p.concurrencyMode == Shared
              && (shared != p.sharedIsolationRequirement || !ValidSharedResourceIsolation(isolation, shared)) then
        Err(IsolationUnproven)
      else Ok((isolation, shared))
  }

  function MaximumTtl(e: Evaluation): (r: u64) {
    Min(Min(e.request.authorization.maximumTtl, e.profile.maximumTtl), e.controller.maximumTtl)
  }

  function MaximumSession(e: Evaluation): (r: u64) {
    Min(Min(e.request.authorization.maximumSession, e.profile.maximumSession), e.controller.maximumSession)
  }

  function Limits(e: Evaluation): CapacityLimits {
    e.controller.capacity.(profile := Min(e.profile.maximumConcurrentLeases, e.controller.capacity.profile))
  }

  /** The policy every gate but the last two has admitted. */
  function Intersect(e: Evaluation): Decision {
    var sourceDigest :- CheckRequest(e);
    var _ :- CheckScopes(e);
    var _ :- CheckAuthentication(e);
    var isolation :- CheckIsolation(e);
    var r, p := e.request, e.profile;
    if r.requestedTtl > MaximumTtl(e) || r.requestedTtl > MaximumSession(e) then Err(RequestedTtlNotAllowed)
    else
      Ok(EffectivePolicy(sourceDigest, r.order, e.callerSubject, e.hostIdentity, p.authMode, isolation.0, isolation.1,
                         r.requestedTtl, MaximumTtl(e), MaximumSession(e), r.authorization.expiresAt, p.concurrencyMode,
                         p.requirements,
                         CapacityClaim(p.profileUid, p.provider, e.callerSubject, e.hostIdentity, Limits(e))))
  }

  /** `digest` computes a policy's digest. */
  function Evaluate(e: Evaluation, digest: EffectivePolicy -> Digest): Decision {
    var effective :- Intersect(e);
    if e.request.policyDigest.Some? && e.request.policyDigest.value != digest(effective) then Err(PolicyDigestMismatch)
    else if !effective.claim.Permits(e.usage) then Err(CapacityExceeded)
    else Ok(effective)
  }

  function ForRenewalTtl(policy: EffectivePolicy, requested: TtlSeconds): Decision {
    if requested > policy.maximumTtl || requested > policy.maximumSession then Err(RequestedTtlNotAllowed)
    else Ok(policy.(requestedTtl := requested))
  }

  // ---- What is permitted ----

  /** Everyone's consent to the request: the profile, the controller and the signed order, in no particular order. */
  predicate Consented(e: Evaluation) {
    var o, p, c := e.request.order, e.profile, e.controller;
    && o.provider == p.provider == o.profileRef.provider && o.profileUid == p.profileUid && o.profileRef == p.profileRef
    && p.eligible && o.environment in p.environments && o.role in p.roles && e.callerSubject in p.callerSubjects
    && c.providers.Permits(o.provider) && c.profileUids.Permits(o.profileUid) && c.environments.Permits(o.environment)
    && c.roles.Permits(o.role) && c.callerSubjects.Permits(e.callerSubject) && c.repositories.Permits(o.repository)
  }

  /** Static credentials outside local development, or where workload identity is required, need both exceptions. */
  predicate AuthenticationAllowed(e: Evaluation) {
    || e.profile.authMode == Wif
    || (!e.profile.requirements.workloadIdentity && e.request.order.environment == LOCAL_DEVELOPMENT)
    || (e.profile.requirements.authenticationException && e.controller.allowAuthenticationException)
  }

  predicate IsolationAllowed(e: Evaluation) {
    && e.readiness.Ready? && e.readiness.isolation != Unproven
    && (e.readiness.isolation == CopiedCredentialDevelopment ==>
          && (e.request.order.environment == LOCAL_DEVELOPMENT || e.request.order.role == PrReviewer)
          && e.profile.requirements.isolationException && e.controller.allowIsolationException)
    && (match e.profile.concurrencyMode
        case Exclusive => e.readiness.sharedIsolation == None
        case Shared => e.readiness.sharedIsolation == e.profile.sharedIsolationRequirement
                       && ValidSharedResourceIsolation(e.readiness.isolation, e.readiness.sharedIsolation))
  }

  predicate TtlAllowed(e: Evaluation) {
    var ttl := e.request.requestedTtl;
    && ttl <= e.request.authorization.maximumTtl && ttl <= e.profile.maximumTtl && ttl <= e.controller.maximumTtl
    && ttl <= e.request.authorization.maximumSession && ttl <= e.profile.maximumSession && ttl <= e.controller.maximumSession
  }

  /** Every occupied slot count is below both ceilings that apply to it. */
  predicate HasRoom(e: Evaluation) {
    && e.usage.profile < e.profile.maximumConcurrentLeases && e.usage.profile < e.controller.capacity.profile
    && e.usage.provider < e.controller.capacity.provider && e.usage.caller < e.controller.capacity.caller
    && e.usage.host < e.controller.capacity.host
  }

  lemma IntersectsExactlyWhen(e: Evaluation)
    ensures Intersect(e).Ok? <==>
            && e.proofVerified && ValidateAuthorization(e.request, e.now).Ok? && e.requestDigest.Some?
            && Consented(e) && AuthenticationAllowed(e) && IsolationAllowed(e) && TtlAllowed(e)
  {
    hide ValidateAuthorization;
  }

  /** The policy a permit carries: what was asked, by whom, as the profile authenticates and shares, as readiness isolates, with
      the least of every ceiling. */
  ghost predicate Carries(e: Evaluation, p: EffectivePolicy) {
    var a, profile, controller := e.request.authorization, e.profile, e.controller;
    && e.requestDigest == Some(p.sourceRequestDigest) && p.order == e.request.order
    && p.callerSubject == e.callerSubject && p.hostIdentity == e.hostIdentity
    && p.authMode == profile.authMode && p.concurrencyMode == profile.concurrencyMode && p.requirements == profile.requirements
    && e.readiness == Ready(p.isolation, p.sharedIsolation)
    && p.requestedTtl == e.request.requestedTtl && p.signedExpiresAt == a.expiresAt
    && LeastOf(p.maximumTtl, {a.maximumTtl, profile.maximumTtl, controller.maximumTtl})
    && LeastOf(p.maximumSession, {a.maximumSession, profile.maximumSession, controller.maximumSession})
    && p.claim.profileUid == e.request.order.profileUid && p.claim.provider == e.request.order.provider
    && p.claim.callerSubject == e.callerSubject && p.claim.hostIdentity == e.hostIdentity
    && LeastOf(p.claim.limits.profile, {profile.maximumConcurrentLeases, controller.capacity.profile})
    && p.claim.limits.provider == controller.capacity.provider && p.claim.limits.caller == controller.capacity.caller
    && p.claim.limits.host == controller.capacity.host
  }

  /** An evaluation leaves no choice of policy. */
  lemma CarriesOnlyOne(e: Evaluation, p: EffectivePolicy, q: EffectivePolicy)
    requires Carries(e, p) && Carries(e, q)
    ensures p == q
  {
    assert p.claim.limits == q.claim.limits;
    assert p.claim == q.claim;
  }

  lemma IntersectCarries(e: Evaluation)
    requires Intersect(e).Ok?
    ensures Carries(e, Intersect(e).value)
  {
    hide ValidateAuthorization;
  }

  /** A permit is given exactly when every source of authority consents, there is room, and a digest expectation is met by the
      policy these leave; that policy is what it carries. */
  lemma PermittedExactlyWhen(e: Evaluation, digest: EffectivePolicy -> Digest)
    ensures Evaluate(e, digest).Ok? <==>
            && e.proofVerified && ValidateAuthorization(e.request, e.now).Ok? && e.requestDigest.Some?
            && Consented(e) && AuthenticationAllowed(e) && IsolationAllowed(e) && TtlAllowed(e) && HasRoom(e)
            && (e.request.policyDigest == None || exists p :: Carries(e, p) && e.request.policyDigest == Some(digest(p)))
    ensures Evaluate(e, digest).Ok? ==> Carries(e, Evaluate(e, digest).value)
  {
    hide ValidateAuthorization, Consented, AuthenticationAllowed, IsolationAllowed, TtlAllowed, Carries;
    IntersectsExactlyWhen(e);
    if Intersect(e).Ok? {
      IntersectCarries(e);
      if p :| Carries(e, p) && e.request.policyDigest == Some(digest(p)) {
        CarriesOnlyOne(e, p, Intersect(e).value);
      }
    }
  }

  /** A permit can be renewed for exactly the lifetimes it could have been given for, and carries what it would have then. */
  lemma RenewalCarries(e: Evaluation, requested: TtlSeconds, digest: EffectivePolicy -> Digest)
    requires Evaluate(e, digest).Ok?
    ensures var again := e.(request := e.request.(requestedTtl := requested));
      match ForRenewalTtl(Evaluate(e, digest).value, requested)
      case Ok(p) => TtlAllowed(again) && Carries(again, p)
      case Err(code) => !TtlAllowed(again) && code == RequestedTtlNotAllowed
  {
    IntersectCarries(e);
  }

  // ---- What is refused first ----

  /** The consents a request needs, in the order they are asked for. */
  datatype Gate =
    | Proof
    | Signature
    | RequestDigest
    | SameProvider
    | SameProfile
    | Eligibility
    | Environment
    | Role
    | Caller
    | Repositories
    | Authentication
    | RuntimeReady
    | Isolated
    | IsolationExcepted
    | SharedSafely
    | Lifetime
    | Expectation
    | Room
  {
    function Rank(): nat {
      match this
      case Proof => 0
      case Signature => 1
      case RequestDigest => 2
      case SameProvider => 3
      case SameProfile => 4
      case Eligibility => 5
      case Environment => 6
      case Role => 7
      case Caller => 8
      case Repositories => 9
      case Authentication => 10
      case RuntimeReady => 11
      case Isolated => 12
      case IsolationExcepted => 13
      case SharedSafely => 14
      case Lifetime => 15
      case Expectation => 16
      case Room => 17
    }

    ghost predicate Consents(e: Evaluation, digest: EffectivePolicy -> Digest) {
      var o, p, c := e.request.order, e.profile, e.controller;
      match this
      case Proof => e.proofVerified
      case Signature => ValidateAuthorization(e.request, e.now).Ok?
      case RequestDigest => e.requestDigest.Some?
      case SameProvider => o.provider == p.provider == o.profileRef.provider && c.providers.Permits(o.provider)
      case SameProfile => o.profileUid == p.profileUid && o.profileRef == p.profileRef
      case Eligibility => p.eligible && c.profileUids.Permits(p.profileUid)
      case Environment => o.environment in p.environments && c.environments.Permits(o.environment)
      case Role => o.role in p.roles && c.roles.Permits(o.role)
      case Caller => e.callerSubject in p.callerSubjects && c.callerSubjects.Permits(e.callerSubject)
      case Repositories => c.repositories.Permits(o.repository)
      case Authentication => AuthenticationAllowed(e)
      case RuntimeReady => e.readiness.Ready?
      case Isolated =>
        e.readiness.Ready? && e.readiness.isolation != Unproven
        && (e.readiness.isolation == CopiedCredentialDevelopment ==> o.environment == LOCAL_DEVELOPMENT || o.role == PrReviewer)
      case IsolationExcepted =>
        e.readiness.Ready? && (e.readiness.isolation == CopiedCredentialDevelopment ==>
                                 p.requirements.isolationException && c.allowIsolationException)
      case SharedSafely =>
        e.readiness.Ready? && (p.concurrencyMode == Exclusive <==> e.readiness.sharedIsolation == None)
        && (p.concurrencyMode == Shared ==>
              e.readiness.sharedIsolation == p.sharedIsolationRequirement
              && ValidSharedResourceIsolation(e.readiness.isolation, e.readiness.sharedIsolation))
      case Lifetime => TtlAllowed(e)
      case Expectation =>
        e.request.policyDigest == None || exists p :: Carries(e, p) && e.request.policyDigest == Some(digest(p))
      case Room => HasRoom(e)
    }

    /** The code a refusal at this gate is recorded under. */
    ghost predicate Recorded(e: Evaluation, code: RefusalCode) {
      match this
      case Proof => code == WorkOrderProofInvalid
      case Signature => SignatureCode(e, code)
      case RequestDigest => code == WorkOrderProofInvalid
      case SameProvider => code == ProviderMismatch
      case SameProfile => code == ProfileNotFound
      case Eligibility => code == ProfileNotEligible
      case Environment => code == EnvironmentNotAllowed
      case Role => code == RoleNotAllowed
      case Caller => code == CallerNotAllowed
      case Repositories => code == RepositoryNotAllowed
      case Authentication => code == AuthenticationExceptionRequired
      case RuntimeReady => e.readiness.Denied? && ReadinessCode(e.readiness.denial, code)
      case Isolated => code == IsolationUnproven
      case IsolationExcepted => code == IsolationExceptionRequired
      case SharedSafely => code == IsolationUnproven
      case Lifetime => code == RequestedTtlNotAllowed
      case Expectation => code == PolicyDigestMismatch
      case Room => code == CapacityExceeded
    }
  }

  /** A request that departs from what was signed is told so; one that was never well signed, or not at this time, is not proven. */
  ghost predicate SignatureCode(e: Evaluation, code: RefusalCode) {
    var r, a := e.request, e.request.authorization;
    var wellSigned := a.maximumTtl <= a.maximumSession
                      && a.notBefore.instant + a.maximumSession * NANOS_PER_SECOND <= a.expiresAt.instant;
    code == if a.order.provider != a.order.profileRef.provider then ProviderMismatch
            else if !wellSigned then WorkOrderProofInvalid
            else if r.order.provider != r.order.profileRef.provider then ProviderMismatch
            else if r.order != a.order then RefusalCode.WorkOrderAuthorizationMismatch
            else if r.requestedTtl > a.maximumTtl then RequestedTtlNotAllowed
            else if a.notBefore.instant <= e.now.instant < a.expiresAt.instant then RequestedTtlNotAllowed
            else WorkOrderProofInvalid
  }

  ghost predicate ReadinessCode(denial: ReadinessDenial, code: RefusalCode) {
    && (code == ProfileNotReady <==> denial == NotReady) && (code == IdentityTokenStale <==> denial == TokenStale)
    && (code == HarnessUntrusted <==> denial == Untrusted) && (code == PrincipalUnverified <==> denial == Unverified)
    && (code == PrincipalMismatch <==> denial == OtherPrincipal) && (code == OrganizationMismatch <==> denial == OtherOrganization)
    && (code == WorkspaceMismatch <==> denial == OtherWorkspace) && (code == IsolationUnproven <==> denial == Unisolated)
  }

  /** The first gate that withholds its consent. */
  ghost predicate FirstRefusal(e: Evaluation, digest: EffectivePolicy -> Digest, g: Gate) {
    !g.Consents(e, digest) && forall h: Gate | !h.Consents(e, digest) :: g.Rank() <= h.Rank()
  }

  lemma AuthorizationCode(e: Evaluation)
    requires ValidateAuthorization(e.request, e.now).Err?
    ensures SignatureCode(e, RefusalForContractError(ValidateAuthorization(e.request, e.now).error))
  {
    RejectedBecause(e.request, e.now);
  }

  ghost predicate Through(e: Evaluation, digest: EffectivePolicy -> Digest, n: nat) {
    forall h: Gate | h.Rank() < n :: h.Consents(e, digest)
  }

  lemma AtGate(e: Evaluation, digest: EffectivePolicy -> Digest, g: Gate)
    requires Through(e, digest, g.Rank())
    ensures if g.Consents(e, digest) then Through(e, digest, g.Rank() + 1) else FirstRefusal(e, digest, g)
  {
    hide Gate.Consents;
    forall h: Gate | h.Rank() <= g.Rank()
      ensures h == g || h.Consents(e, digest)
    {
      if h.Rank() == g.Rank() { SameRank(g, h); }
    }
  }

  lemma SameRank(g: Gate, h: Gate)
    requires g.Rank() == h.Rank()
    ensures g == h
  {
  }

  lemma RequestGates(e: Evaluation, digest: EffectivePolicy -> Digest) returns (g: Gate)
    ensures CheckRequest(e).Ok? ==> Through(e, digest, SameProvider.Rank())
    ensures CheckRequest(e).Err? ==> FirstRefusal(e, digest, g) && g.Recorded(e, CheckRequest(e).error)
  {
    hide ValidateAuthorization, SignatureCode, Through, FirstRefusal;
    if ValidateAuthorization(e.request, e.now).Err? { AuthorizationCode(e); }
    NoGates(e, digest);
    g := Proof;
    AtGate(e, digest, g);
    if g.Consents(e, digest) {
      g := Signature;
      AtGate(e, digest, g);
      if g.Consents(e, digest) {
        g := RequestDigest;
        AtGate(e, digest, g);
      }
    }
  }

  lemma NoGates(e: Evaluation, digest: EffectivePolicy -> Digest)
    ensures Through(e, digest, 0)
  {
  }

  lemma ScopeGates(e: Evaluation, digest: EffectivePolicy -> Digest) returns (g: Gate)
    requires Through(e, digest, SameProvider.Rank())
    ensures CheckScopes(e).Ok? ==> Through(e, digest, Authentication.Rank())
    ensures CheckScopes(e).Err? ==> FirstRefusal(e, digest, g) && g.Recorded(e, CheckScopes(e).error)
  {
    hide Through, FirstRefusal;
    g := SameProvider;
    AtGate(e, digest, g);
    if g.Consents(e, digest) {
      g := SameProfile;
      AtGate(e, digest, g);
      if g.Consents(e, digest) {
        g := Eligibility;
        AtGate(e, digest, g);
        if g.Consents(e, digest) {
          g := Environment;
          AtGate(e, digest, g);
          if g.Consents(e, digest) {
            g := Role;
            AtGate(e, digest, g);
            if g.Consents(e, digest) {
              g := Caller;
              AtGate(e, digest, g);
              if g.Consents(e, digest) {
                g := Repositories;
                AtGate(e, digest, g);
              }
            }
          }
        }
      }
    }
  }

  lemma AuthenticationGate(e: Evaluation, digest: EffectivePolicy -> Digest)
    requires Through(e, digest, Authentication.Rank())
    ensures CheckAuthentication(e).Ok? ==> Through(e, digest, RuntimeReady.Rank())
    ensures CheckAuthentication(e).Err? ==>
              FirstRefusal(e, digest, Authentication) && Authentication.Recorded(e, CheckAuthentication(e).error)
  {
    hide Through, FirstRefusal;
    AtGate(e, digest, Authentication);
  }

  lemma IsolationGates(e: Evaluation, digest: EffectivePolicy -> Digest) returns (g: Gate)
    requires Through(e, digest, RuntimeReady.Rank())
    ensures CheckIsolation(e).Ok? ==> Through(e, digest, Lifetime.Rank())
    ensures CheckIsolation(e).Err? ==> FirstRefusal(e, digest, g) && g.Recorded(e, CheckIsolation(e).error)
  {
    hide Through, FirstRefusal;
    assert e.profile.concurrencyMode.Exclusive? || e.profile.concurrencyMode.Shared?;
    g := RuntimeReady;
    AtGate(e, digest, g);
    if g.Consents(e, digest) {
      g := Isolated;
      AtGate(e, digest, g);
      if g.Consents(e, digest) {
        g := IsolationExcepted;
        AtGate(e, digest, g);
        if g.Consents(e, digest) {
          g := SharedSafely;
          AtGate(e, digest, g);
        }
      }
    }
  }

  lemma LifetimeGate(e: Evaluation)
    requires CheckRequest(e).Ok? && CheckScopes(e).Ok? && CheckAuthentication(e).Ok? && CheckIsolation(e).Ok?
    ensures Intersect(e).Ok? <==> TtlAllowed(e)
    ensures Intersect(e).Err? ==> Intersect(e).error == RequestedTtlNotAllowed
  {
    hide CheckRequest, CheckScopes, CheckAuthentication, CheckIsolation;
  }

  lemma RoomGate(e: Evaluation, p: EffectivePolicy)
    requires Carries(e, p)
    ensures p.claim.Permits(e.usage) <==> HasRoom(e)
  {
  }

  lemma LastGates(e: Evaluation, digest: EffectivePolicy -> Digest) returns (g: Gate)
    requires Through(e, digest, Lifetime.Rank()) && Evaluate(e, digest).Err?
    requires CheckRequest(e).Ok? && CheckScopes(e).Ok? && CheckAuthentication(e).Ok? && CheckIsolation(e).Ok?
    ensures FirstRefusal(e, digest, g) && g.Recorded(e, Evaluate(e, digest).error)
  {
    hide CheckRequest, CheckScopes, CheckAuthentication, CheckIsolation, Through, FirstRefusal, Carries, Intersect, TtlAllowed, HasRoom,
      CapacityClaim.Permits;
    LifetimeGate(e);
    g := Lifetime;
    AtGate(e, digest, g);
    if g.Consents(e, digest) {
      IntersectCarries(e);
      RoomGate(e, Intersect(e).value);
      if p :| Carries(e, p) && e.request.policyDigest == Some(digest(p)) {
        CarriesOnlyOne(e, p, Intersect(e).value);
      }
      g := Expectation;
      AtGate(e, digest, g);
      if g.Consents(e, digest) {
        g := Room;
        AtGate(e, digest, g);
      }
    }
  }

  /** A refusal names the first gate that withholds its consent. */
  lemma RefusedAtFirst(e: Evaluation, digest: EffectivePolicy -> Digest) returns (g: Gate)
    requires Evaluate(e, digest).Err?
    ensures FirstRefusal(e, digest, g) && g.Recorded(e, Evaluate(e, digest).error)
  {
    hide CheckRequest, CheckScopes, CheckAuthentication, CheckIsolation, Through, FirstRefusal, Gate.Recorded;
    g := RequestGates(e, digest);
    if CheckRequest(e).Ok? {
      g := ScopeGates(e, digest);
      if CheckScopes(e).Ok? {
        AuthenticationGate(e, digest);
        g := Authentication;
        if CheckAuthentication(e).Ok? {
          g := IsolationGates(e, digest);
          if CheckIsolation(e).Ok? {
            g := LastGates(e, digest);
          }
        }
      }
    }
  }

  // ---- Narrowing ----

  ghost predicate ScopeWithin<T(!new)>(narrow: AllowScope<T>, wide: AllowScope<T>) {
    forall v :: narrow.Permits(v) ==> wide.Permits(v)
  }

  predicate LimitsWithin(narrow: CapacityLimits, wide: CapacityLimits) {
    && narrow.profile <= wide.profile && narrow.provider <= wide.provider
    && narrow.caller <= wide.caller && narrow.host <= wide.host
  }

  ghost predicate ControllerWithin(narrow: ControllerPolicy, wide: ControllerPolicy) {
    && ScopeWithin(narrow.profileUids, wide.profileUids) && ScopeWithin(narrow.providers, wide.providers)
    && ScopeWithin(narrow.environments, wide.environments) && ScopeWithin(narrow.roles, wide.roles)
    && ScopeWithin(narrow.callerSubjects, wide.callerSubjects) && ScopeWithin(narrow.repositories, wide.repositories)
    && narrow.maximumTtl <= wide.maximumTtl && narrow.maximumSession <= wide.maximumSession
    && LimitsWithin(narrow.capacity, wide.capacity)
    && (narrow.allowAuthenticationException ==> wide.allowAuthenticationException)
    && (narrow.allowIsolationException ==> wide.allowIsolationException)
  }

  /** The same decision to make under a narrower controller and no less load. */
  ghost predicate Narrower(narrow: Evaluation, wide: Evaluation) {
    && narrow == wide.(controller := narrow.controller, usage := narrow.usage)
    && ControllerWithin(narrow.controller, wide.controller)
    && wide.usage.profile <= narrow.usage.profile && wide.usage.provider <= narrow.usage.provider
    && wide.usage.caller <= narrow.usage.caller && wide.usage.host <= narrow.usage.host
  }

  /** The same authority, with limits that are no larger. */
  predicate PolicyWithin(narrow: EffectivePolicy, wide: EffectivePolicy) {
    && narrow == wide.(maximumTtl := narrow.maximumTtl, maximumSession := narrow.maximumSession,
                       claim := wide.claim.(limits := narrow.claim.limits))
    && narrow.maximumTtl <= wide.maximumTtl && narrow.maximumSession <= wide.maximumSession
    && LimitsWithin(narrow.claim.limits, wide.claim.limits)
  }

  lemma IntersectNarrows(narrow: Evaluation, wide: Evaluation)
    requires Narrower(narrow, wide) && Intersect(narrow).Ok?
    ensures Intersect(wide).Ok? && PolicyWithin(Intersect(narrow).value, Intersect(wide).value)
  {
    assert CheckScopes(narrow).Ok? && CheckScopes(wide).Ok?;
  }

  /** Once the narrower evaluation permits, the wider one permits exactly when its own digest meets the expectation. */
  lemma WiderPermitsIff(narrow: Evaluation, wide: Evaluation, digest: EffectivePolicy -> Digest)
    requires Narrower(narrow, wide) && Evaluate(narrow, digest).Ok?
    ensures Intersect(wide).Ok? && PolicyWithin(Evaluate(narrow, digest).value, Intersect(wide).value)
    ensures var expected := wide.request.policyDigest;
      Evaluate(wide, digest) ==
      if expected.Some? && expected.value != digest(Intersect(wide).value) then Err(PolicyDigestMismatch)
      else Ok(Intersect(wide).value)
  {
    IntersectNarrows(narrow, wide);
  }

  /** Without a digest expectation, narrowing never turns a refusal into a permit, and only shrinks limits. */
  lemma NarrowingIsMonotone(narrow: Evaluation, wide: Evaluation, digest: EffectivePolicy -> Digest)
    requires Narrower(narrow, wide) && wide.request.policyDigest == None
    ensures Evaluate(narrow, digest).Ok? ==> Evaluate(wide, digest).Ok?
                                             && PolicyWithin(Evaluate(narrow, digest).value, Evaluate(wide, digest).value)
  {
    if Evaluate(narrow, digest).Ok? {
      WiderPermitsIff(narrow, wide, digest);
    }
  }

  /** The same evaluation of a request that states an expectation, which changes the request's own digest too. */
  function Expecting(e: Evaluation, expected: Digest, requestDigest: Digest): Evaluation {
    e.(request := e.request.(policyDigest := Some(expected)), requestDigest := Some(requestDigest))
  }

  /** The digest leaves out the digest of the request. */
  ghost predicate IgnoresRequestDigest(digest: EffectivePolicy -> Digest) {
    forall p: EffectivePolicy, d: Digest :: digest(p.(sourceRequestDigest := d)) == digest(p)
  }

  /** Stating an expectation changes nothing but the guard on it. */
  lemma ExpectingEvaluates(e: Evaluation, expected: Digest, requestDigest: Digest, digest: EffectivePolicy -> Digest)
    requires Evaluate(e, digest).Ok? && e.request.policyDigest == None && IgnoresRequestDigest(digest)
    ensures Evaluate(Expecting(e, expected, requestDigest), digest) ==
            if expected == digest(Evaluate(e, digest).value)
            then Ok(Evaluate(e, digest).value.(sourceRequestDigest := requestDigest))
            else Err(PolicyDigestMismatch)
  {
    var stated := Expecting(e, expected, requestDigest);
    assert Intersect(stated) == Ok(Intersect(e).value.(sourceRequestDigest := requestDigest));
  }

  /** Of two nested evaluations permitted without an expectation, stating one makes the narrower permit and the wider
      refuse exactly when it is the narrower policy's digest and not the wider one's. */
  lemma ExpectationBreaksNarrowing(narrow: Evaluation, wide: Evaluation, expected: Digest, requestDigest: Digest,
                                   digest: EffectivePolicy -> Digest)
    requires Narrower(narrow, wide) && wide.request.policyDigest == None && IgnoresRequestDigest(digest)
    requires Evaluate(narrow, digest).Ok? && Evaluate(wide, digest).Ok?
    ensures var narrow', wide' := Expecting(narrow, expected, requestDigest), Expecting(wide, expected, requestDigest);
      && Narrower(narrow', wide')
      && (Evaluate(narrow', digest).Ok? && Evaluate(wide', digest) == Err(PolicyDigestMismatch) <==>
          expected == digest(Evaluate(narrow, digest).value) && expected != digest(Evaluate(wide, digest).value))
  {
    hide Evaluate, IgnoresRequestDigest;
    ExpectingEvaluates(narrow, expected, requestDigest, digest);
    ExpectingEvaluates(wide, expected, requestDigest, digest);
  }
}
