/** What each lease operation answers: exactly when it succeeds, with what, and what it objects to first. */
module LeaseAnswers {
  import opened Wrappers
  import opened Contracts
  import opened Policy
  import opened Clock
  import opened LeaseModel
  import opened LeaseRuns

  // ---- Controls ----

  /** What is wrong with a control, objection by objection. */
  predicate Mismatch(l: LeaseData, c: Control, error: LeaseError) {
    match error
    case CallerUnauthorized => c.callerSubject != l.binding.callerSubject
    case TenantMismatch => c.tenantId != l.binding.order.tenantId
    case RunMismatch => c.runId != l.binding.order.runId
    case RoleMismatch => c.role != l.binding.order.role
    case HostMismatch => c.hostIdentity != l.binding.hostIdentity
    case NotActive => !l.state.HasAuthority()
    case GenerationMismatch => l.state.HasAuthority() && c.generation != l.state.authority.generation
    case _ => false
  }

  /** The order in which a control's parts are looked at. */
  function Rank(error: LeaseError): nat {
    match error
    case CallerUnauthorized => 0
    case TenantMismatch => 1
    case RunMismatch => 2
    case RoleMismatch => 3
    case HostMismatch => 4
    case NotActive => 5
    case _ => 6
  }

  /** The first of all objections to the control. */
  ghost predicate FirstMismatch(l: LeaseData, c: Control, error: LeaseError) {
    Mismatch(l, c, error) && forall other | Mismatch(l, c, other) :: Rank(error) <= Rank(other)
  }

  /** A control passes exactly when it repeats the binding; otherwise the first objection to it is reported. */
  lemma ControlAnswer(l: LeaseData, c: Control)
    ensures CheckControl(l, c).Ok? <==> Repeats(l, c)
    ensures CheckControl(l, c).Ok? <==> forall error :: !Mismatch(l, c, error)
    ensures CheckControl(l, c).Err? ==> FirstMismatch(l, c, CheckControl(l, c).error)
    ensures CheckCaller(l, c).Ok? <==> c.callerSubject == l.binding.callerSubject
    ensures CheckCaller(l, c).Err? ==> CheckControl(l, c) == CheckCaller(l, c)
  {
    if Repeats(l, c) {
    } else {
      var error := CheckControl(l, c).error;
      assert Mismatch(l, c, error);
    }
  }

  // ---- Clocks ----

  /** The observation comes from the lease's own service and does not step back. */
  predicate Continues(l: LeaseData, now: ClockSample) {
    now.generation == l.issuance.generation && l.lastMonotonic <= now.monotonic
  }

  /** Strictly before every deadline of a live state, on both clocks. */
  predicate BeforeDeadlines(s: State, now: ClockSample)
    requires s.Live()
  {
    && now.wall < s.authority.expiresAt && now.monotonic < s.authority.monotonicDeadline
    && now.wall < s.authority.maximumExpiresAt && now.monotonic < s.authority.monotonicMaximum
    && (s.SRenewing? ==> now.wall < s.acknowledgeBy && now.monotonic < s.monotonicAcknowledgeBy)
  }

  /** Enforcing deadlines fails only for a foreign or regressing clock and then changes nothing; otherwise it ends a live
      lease exactly when some deadline is reached, for the acknowledgement before the session and the session before the interval. */
  lemma EnforcementAnswer(l: LeaseData, now: ClockSample)
    ensures var (after, ended) := Enforced(l, now);
      && (ended.Ok? <==> Continues(l, now))
      && (ended.Err? ==> after == l && (ended.error == ClockGenerationMismatch <==> now.generation != l.issuance.generation)
                         && (ended.error == MonotonicRegression <==> now.generation == l.issuance.generation))
      && (ended.Ok? ==> after == l.(lastMonotonic := now.monotonic, state := after.state)
                        && (ended.value <==> l.state.Live() && !BeforeDeadlines(l.state, now))
                        && (!ended.value ==> after.state == l.state))
      && (ended == Ok(true) ==>
            var a, acknowledged := l.state.authority,
                !l.state.SRenewing? || (now.wall < l.state.acknowledgeBy && now.monotonic < l.state.monotonicAcknowledgeBy);
            && (after.state == SRevoked(a, RenewalAcknowledgementFailed) <==> !acknowledged)
            && (after.state == SExpired(a, MaximumLifetimeReached) <==>
                  acknowledged && !(now.wall < a.maximumExpiresAt && now.monotonic < a.monotonicMaximum))
            && (after.state == SExpired(a, Reason.LeaseExpired) <==>
                  acknowledged && now.wall < a.maximumExpiresAt && now.monotonic < a.monotonicMaximum))
  {
  }

  // ---- Policies and resolutions ----

  /** The policy answers the very request the lease was made for, within what was signed for it. */
  ghost predicate BoundTo(b: Binding, p: EffectivePolicy, digest: Digester) {
    && p.order == b.order && p.sourceRequestDigest == b.authorityDigest && (b.requestedPolicyDigest == None || b.requestedPolicyDigest == Some(digest(p)))
    && p.callerSubject == p.claim.callerSubject == b.callerSubject && p.hostIdentity == p.claim.hostIdentity == b.hostIdentity
    && p.claim.profileUid == b.order.profileUid && p.claim.provider == b.order.provider
    && p.requestedTtl <= p.maximumTtl <= b.signedMaximumTtl && p.requestedTtl <= p.maximumSession <= b.signedMaximumSession
    && p.signedExpiresAt == b.signedExpiresAt
    && (p.concurrencyMode == Exclusive <==> p.sharedIsolation == None)
    && (p.sharedIsolation == Some(Stateless) ==> p.isolation == CredentialIsolated)
    && (p.sharedIsolation == Some(PerLease) ==> p.isolation == PerLeaseIsolated)
  }

  lemma PolicyAnswer(l: LeaseData, p: EffectivePolicy, digest: Digester)
    ensures CheckPolicy(l, p, digest) == if BoundTo(l.binding, p, digest) then Ok(()) else Err(PolicyBindingMismatch)
  {
    var mode, shared := p.concurrencyMode, p.sharedIsolation;
    assert mode.Exclusive? || mode.Shared?;
    assert shared.Some? ==> shared.value.Stateless? || shared.value.PerLease?;
  }

  /** The resolved identity is the one the policy speaks of, at a provider that knows its way of authenticating. */
  predicate Fits(r: Resolution, provider: Provider, p: EffectivePolicy) {
    && r.workspaceProvider == provider && r.authMode == p.authMode && r.isolation == p.isolation && r.isolation != Unproven
    && (match r.authMode
        case SubscriptionToken => provider == Claude
        case ChatgptOauth => provider == Codex
        case AccessToken => provider == Codex
        case _ => true)
  }

  lemma ResolutionAnswer(r: Resolution, provider: Provider, p: EffectivePolicy)
    ensures CheckResolution(provider, p, r) == if Fits(r, provider, p) then Ok(()) else Err(PolicyBindingMismatch)
  {
  }

  // ---- Operations under a control ----

  /** A launch is authorized exactly for a control that repeats the binding, before every deadline, under a bound policy
      with the authority's digest; it hands out the handle resolved for the lease and only moves the clock on. */
  lemma LaunchAnswer(l: LeaseData, c: Control, p: EffectivePolicy, now: ClockSample, digest: Digester)
    ensures var (after, r) := AuthorizeLaunch(l, c, p, now, digest);
      && (r.Ok? <==>
            && l.state.SActive? && Repeats(l, c) && Continues(l, now) && BeforeDeadlines(l.state, now)
            && BoundTo(l.binding, p, digest) && digest(p) == l.state.authority.policyDigest)
      && (r.Ok? ==> r.value == l.state.authority.resolution.executionHandle && after == l.(lastMonotonic := now.monotonic))
      && (after.state.SRevoked? && l.state.SActive? <==>
            && l.state.SActive? && Repeats(l, c) && Continues(l, now) && BeforeDeadlines(l.state, now)
            && BoundTo(l.binding, p, digest) && digest(p) != l.state.authority.policyDigest)
  {
    hide CheckControl, CheckCaller, CheckPolicy, BoundTo, Repeats, Enforced, BeforeDeadlines, FirstMismatch;
    var seen := Enforced(l, now).0;
    EnforcementAnswer(l, now);
    ControlAnswer(l, c);
    ControlAnswer(seen, c);
    if seen.state == l.state {
      SameControl(l, seen, c);
    }
    PolicyAnswer(seen, p, digest);
  }

  lemma SameControl(l: LeaseData, seen: LeaseData, c: Control)
    requires seen.binding == l.binding && seen.state == l.state
    ensures CheckControl(seen, c) == CheckControl(l, c) && CheckCaller(seen, c) == CheckCaller(l, c)
    ensures Repeats(seen, c) <==> Repeats(l, c)
  {
  }

  /** A renewal is acknowledged exactly for a control that repeats the binding, before every deadline. */
  lemma AcknowledgementAnswer(l: LeaseData, c: Control, now: ClockSample)
    ensures var (after, r) := AcknowledgeRenewal(l, c, now);
      && (r.Ok? <==> l.state.SRenewing? && Repeats(l, c) && Continues(l, now) && BeforeDeadlines(l.state, now))
      && (r.Ok? ==> after == l.(lastMonotonic := now.monotonic, state := SActive(l.state.authority)))
      && (r.Err? && l.state.SRenewing? && !Repeats(l, c) ==> after.state.Status() in {Revoked, Expired})
      && (r.Err? && l.state.SRenewing? && Repeats(l, c) && !Continues(l, now) ==> after == l)
  {
    hide CheckControl, Repeats, Enforced, BeforeDeadlines, FirstMismatch;
    EnforcementAnswer(l, now);
    ControlAnswer(l, c);
  }

  /** A lease is closed exactly for a control that repeats the binding, for one of the two reasons, before every deadline. */
  lemma CloseAnswer(l: LeaseData, c: Control, reason: Reason, now: ClockSample)
    ensures var (after, r) := Close(l, c, reason, now);
      && (r.Ok? <==>
            && (l.state.SActive? || l.state.SRenewing?) && Repeats(l, c) && Continues(l, now) && BeforeDeadlines(l.state, now)
            && (reason == Completed || reason == WorkerFailed))
      && (r.Ok? ==> after == l.(lastMonotonic := now.monotonic, state := SClosed(l.state.authority, reason)))
  {
    hide CheckControl, CheckCaller, Repeats, Enforced, BeforeDeadlines, FirstMismatch;
    EnforcementAnswer(l, now);
    ControlAnswer(l, c);
  }

  /** A live lease, in error or not, is revoked exactly for a control that repeats the binding, before every deadline. */
  lemma RevocationAnswer(l: LeaseData, c: Control, now: ClockSample)
    ensures var (after, r) := RevokeControlled(l, c, now);
      && (r.Ok? <==> l.state.Live() && Repeats(l, c) && Continues(l, now) && BeforeDeadlines(l.state, now))
      && (r.Ok? ==> after == l.(lastMonotonic := now.monotonic, state := SRevoked(l.state.authority, OperatorRevoked)))
  {
    hide CheckControl, CheckCaller, Repeats, Enforced, BeforeDeadlines, FirstMismatch;
    EnforcementAnswer(l, now);
    ControlAnswer(l, c);
  }

  // ---- What is objected to first ----

  ghost predicate ClockObjection(l: LeaseData, now: ClockSample, error: LeaseError) {
    if now.generation != l.issuance.generation then error == ClockGenerationMismatch
    else now.monotonic < l.lastMonotonic && error == MonotonicRegression
  }

  /** Some deadline of a live lease is missed: the acknowledgement revokes, the others expire. */
  ghost predicate Missed(s: State, now: ClockSample, error: LeaseError) {
    && s.Live() && !BeforeDeadlines(s, now)
    && error == if s.SRenewing? && (now.wall >= s.acknowledgeBy || now.monotonic >= s.monotonicAcknowledgeBy) then AlreadyRevoked
                else AlreadyExpired
  }

  /** The lease is not in a state the operation starts from. */
  ghost predicate WrongState(s: State, target: Status, error: LeaseError) {
    && (s.SRevoked? ==> error == AlreadyRevoked) && (s.SExpired? ==> error == AlreadyExpired)
    && (s.SClosed? || s.SRefused? ==> error == TerminalImmutable(s.Status()))
    && (s.Live() || s.SRequested? ==> error == InvalidTransition(s.Status(), target))
  }

  lemma ClockAnswer(l: LeaseData, now: ClockSample)
    ensures var (after, ended) := Enforced(l, now);
      && (ended.Err? ==> ClockObjection(l, now, ended.error))
      && (ended == Ok(true) ==> forall target :: Missed(l.state, now, StateError(after, target)))
      && (ended == Ok(false) ==> forall error :: !Missed(l.state, now, error))
  {
  }

  lemma StateAnswer(l: LeaseData, target: Status)
    ensures WrongState(l.state, target, StateError(l, target))
  {
  }

  /** A launch is refused for its caller, then the clock, a missed deadline, the state, the rest of its control, the policy, and
      last for a policy that has changed. */
  lemma LaunchObjection(l: LeaseData, c: Control, p: EffectivePolicy, now: ClockSample, digest: Digester)
    requires AuthorizeLaunch(l, c, p, now, digest).1.Err?
    ensures var error := AuthorizeLaunch(l, c, p, now, digest).1.error;
      if c.callerSubject != l.binding.callerSubject then error == CallerUnauthorized
      else if !Continues(l, now) then ClockObjection(l, now, error)
      else if l.state.Live() && !BeforeDeadlines(l.state, now) then Missed(l.state, now, error)
      else if !l.state.SActive? then WrongState(l.state, Active, error)
      else if !Repeats(l, c) then FirstMismatch(l, c, error)
      else if !BoundTo(l.binding, p, digest) then error == PolicyBindingMismatch
      else error == AlreadyRevoked
  {
    hide CheckControl, CheckPolicy, BoundTo, Repeats, Enforced, BeforeDeadlines, FirstMismatch, WrongState, Missed, StateError;
    var seen := Enforced(l, now).0;
    EnforcementAnswer(l, now);
    ClockAnswer(l, now);
    StateAnswer(seen, Active);
    ControlAnswer(l, c);
    if seen.state == l.state {
      SameControl(l, seen, c);
    }
    PolicyAnswer(seen, p, digest);
  }

  /** A closure is refused for its control, then the reason, the clock, a missed deadline, and the state. */
  lemma CloseObjection(l: LeaseData, c: Control, reason: Reason, now: ClockSample)
    requires Close(l, c, reason, now).1.Err?
    ensures var error := Close(l, c, reason, now).1.error;
      if !Repeats(l, c) then FirstMismatch(l, c, error)
      else if reason != Completed && reason != WorkerFailed then error == InvalidReason(Closed, reason)
      else if !Continues(l, now) then ClockObjection(l, now, error)
      else if l.state.Live() && !BeforeDeadlines(l.state, now) then Missed(l.state, now, error)
      else WrongState(l.state, Closed, error)
  {
    hide CheckControl, CheckCaller, Repeats, Enforced, BeforeDeadlines, FirstMismatch, WrongState, Missed, StateError;
    EnforcementAnswer(l, now);
    ClockAnswer(l, now);
    StateAnswer(Enforced(l, now).0, Closed);
    ControlAnswer(l, c);
  }

  /** A revocation under a control is refused for the control, then the clock, a missed deadline, and the state. */
  lemma RevocationObjection(l: LeaseData, c: Control, now: ClockSample)
    requires RevokeControlled(l, c, now).1.Err?
    ensures var error := RevokeControlled(l, c, now).1.error;
      if !Repeats(l, c) then FirstMismatch(l, c, error)
      else if !Continues(l, now) then ClockObjection(l, now, error)
      else if l.state.Live() && !BeforeDeadlines(l.state, now) then Missed(l.state, now, error)
      else error == NotActive
  {
    hide CheckControl, CheckCaller, Repeats, Enforced, BeforeDeadlines, FirstMismatch, Missed, StateError;
    EnforcementAnswer(l, now);
    ClockAnswer(l, now);
    ControlAnswer(l, c);
  }

  /** An acknowledgement is refused for its control, which ends a renewing lease, then the clock, a missed deadline, and the state. */
  lemma AcknowledgementObjection(l: LeaseData, c: Control, now: ClockSample)
    requires AcknowledgeRenewal(l, c, now).1.Err?
    ensures var error := AcknowledgeRenewal(l, c, now).1.error;
      if !Repeats(l, c) then FirstMismatch(l, c, error)
      else if !Continues(l, now) then ClockObjection(l, now, error)
      else if l.state.Live() && !BeforeDeadlines(l.state, now) then Missed(l.state, now, error)
      else WrongState(l.state, Renewing, error)
  {
    hide CheckControl, Repeats, Enforced, BeforeDeadlines, FirstMismatch, WrongState, Missed, StateError;
    EnforcementAnswer(l, now);
    ClockAnswer(l, now);
    StateAnswer(Enforced(l, now).0, Renewing);
    ControlAnswer(l, c);
  }

  // ---- Activation ----

  /** One lifetime from the issuance lies within the signed expiry, later than the observation; the session does not overflow. */
  ghost predicate RoomToActivate(l: LeaseData, p: EffectivePolicy, now: ClockSample) {
    var ttl, session := p.requestedTtl * NANOS_PER_SECOND, p.maximumSession * NANOS_PER_SECOND;
    && l.issuance.wall + session <= LAST_INSTANT
    && l.issuance.wall + ttl <= p.signedExpiresAt.instant
    && (l.issuance.monotonic + session < MONOTONIC_LIMIT
        || l.issuance.monotonic + p.signedExpiresAt.instant - l.issuance.wall < MONOTONIC_LIMIT)
    && now.wall < l.issuance.wall + ttl && now.monotonic < l.issuance.monotonic + ttl
  }

  /** A first authority: one lifetime from the issuance on both clocks, at most the session and the signed expiry. */
  ghost predicate Granted(l: LeaseData, p: EffectivePolicy, r: Resolution, a: Authority, digest: Digester) {
    var ttl, session := p.requestedTtl * NANOS_PER_SECOND, p.maximumSession * NANOS_PER_SECOND;
    && a.resolution == r && a.policyDigest == digest(p) && a.generation == 1
    && a.anchorWall == l.issuance.wall && a.anchorMonotonic == l.issuance.monotonic
    && a.expiresAt == a.anchorWall + ttl && a.monotonicDeadline == a.anchorMonotonic + ttl
    && LeastOf(a.maximumExpiresAt, {p.signedExpiresAt.instant, l.issuance.wall + session})
    && a.monotonicMaximum - l.issuance.monotonic == a.maximumExpiresAt - l.issuance.wall
  }

  lemma FirstAuthorityAnswer(l: LeaseData, p: EffectivePolicy, r: Resolution, now: ClockSample, digest: Digester)
    ensures var first := FirstAuthority(l, p, r, now, digest);
      && (first.Ok? <==>
            && BoundTo(l.binding, p, digest) && p.requestedTtl == l.binding.initialRequestedTtl
            && Fits(r, l.binding.order.provider, p) && RoomToActivate(l, p, now))
      && (first.Ok? ==> Granted(l, p, r, first.value, digest))
  {
    hide CheckPolicy, CheckResolution, Fits;
    PolicyAnswer(l, p, digest);
    ResolutionAnswer(r, l.binding.order.provider, p);
    if BoundTo(l.binding, p, digest) {
      BoundLimits(l.binding, p, digest);
    }
  }

  lemma BoundLimits(b: Binding, p: EffectivePolicy, digest: Digester)
    requires BoundTo(b, p, digest)
    ensures p.requestedTtl * NANOS_PER_SECOND <= p.maximumSession * NANOS_PER_SECOND && p.maximumSession <= I64_MAX
  {
  }

  /** A requested lease is activated exactly under a bound policy for its first lifetime, with a resolution that fits it, while
      the clocks leave room; the authority is then the one those determine. */
  lemma ActivationAnswer(l: LeaseData, p: EffectivePolicy, r: Resolution, now: ClockSample, digest: Digester)
    ensures var (after, answer) := Activate(l, p, r, now, digest);
      && (answer.Ok? <==>
            && l.state.SRequested? && Continues(l, now) && l.issuance.wall <= now.wall
            && BoundTo(l.binding, p, digest) && p.requestedTtl == l.binding.initialRequestedTtl
            && Fits(r, l.binding.order.provider, p) && RoomToActivate(l, p, now))
      && (answer.Ok? ==> after.state.SActive? && Granted(l, p, r, after.state.authority, digest)
                         && after == l.(lastMonotonic := now.monotonic, state := after.state))
      && (answer.Err? ==> after == l || after == l.(lastMonotonic := now.monotonic))
  {
    hide FirstAuthority, BoundTo, Fits, RoomToActivate, Granted;
    var seen := l.(lastMonotonic := now.monotonic);
    FirstAuthorityAnswer(seen, p, r, now, digest);
    SameIssuance(l, seen, p, r, now, digest);
  }

  lemma SameIssuance(l: LeaseData, seen: LeaseData, p: EffectivePolicy, r: Resolution, now: ClockSample, digest: Digester)
    requires seen.binding == l.binding && seen.issuance == l.issuance
    ensures RoomToActivate(seen, p, now) <==> RoomToActivate(l, p, now)
    ensures forall a :: Granted(seen, p, r, a, digest) <==> Granted(l, p, r, a, digest)
  {
    hide LeastOf;
  }

  // ---- Renewal ----

  /** One lifetime from now ends later than the current deadlines, on both clocks, and within every ceiling; another generation
      is left, and neither the acknowledgement window nor the session overflows. */
  ghost predicate RoomToRenew(l: LeaseData, a: Authority, p: EffectivePolicy, now: ClockSample) {
    var ttl, session := p.requestedTtl * NANOS_PER_SECOND, p.maximumSession * NANOS_PER_SECOND;
    var wall, monotonic, window := now.wall + ttl, now.monotonic + ttl, RENEWAL_ACK_TIMEOUT_SECONDS * NANOS_PER_SECOND;
    var signed := p.signedExpiresAt.instant - l.issuance.wall;
    && a.expiresAt < wall <= a.maximumExpiresAt && wall <= p.signedExpiresAt.instant
    && wall <= l.issuance.wall + session <= LAST_INSTANT
    && a.monotonicDeadline < monotonic <= a.monotonicMaximum
    && 0 <= signed && monotonic <= l.issuance.monotonic + signed < MONOTONIC_LIMIT
    && monotonic <= l.issuance.monotonic + session < MONOTONIC_LIMIT
    && a.generation < MAXIMUM_GENERATION
    && now.wall + window <= LAST_INSTANT && now.monotonic + window < MONOTONIC_LIMIT
  }

  /** The next authority: one lifetime from now, the next generation, and maxima lowered to what the policy still allows. */
  ghost predicate Renewed(l: LeaseData, a: Authority, p: EffectivePolicy, now: ClockSample, b: Authority, digest: Digester) {
    var ttl, session := p.requestedTtl * NANOS_PER_SECOND, p.maximumSession * NANOS_PER_SECOND;
    && b.resolution == a.resolution && b.policyDigest == digest(p) && b.generation == a.generation + 1
    && b.anchorWall == now.wall && b.anchorMonotonic == now.monotonic
    && b.expiresAt == now.wall + ttl && b.monotonicDeadline == now.monotonic + ttl
    && LeastOf(b.maximumExpiresAt, {a.maximumExpiresAt, p.signedExpiresAt.instant, l.issuance.wall + session})
    && LeastOf(b.monotonicMaximum, {a.monotonicMaximum, l.issuance.monotonic + session,
                                    l.issuance.monotonic + p.signedExpiresAt.instant - l.issuance.wall})
  }

  /** The acknowledgement is due in thirty seconds, or with the renewed lifetime if that is shorter. */
  ghost predicate HalfMinute(s: State, now: ClockSample)
    requires s.SRenewing?
  {
    && LeastOf(s.acknowledgeBy, {s.authority.expiresAt, now.wall + 30 * NANOS_PER_SECOND})
    && LeastOf(s.monotonicAcknowledgeBy, {s.authority.monotonicDeadline, now.monotonic + 30 * NANOS_PER_SECOND})
  }

  lemma RenewedAuthorityAnswer(l: LeaseData, a: Authority, p: EffectivePolicy, now: ClockSample, digest: Digester)
    requires BoundTo(l.binding, p, digest)
    ensures var next := Renewal(l, a, p, now, digest);
      && (next.Ok? <==> Fits(a.resolution, l.binding.order.provider, p) && RoomToRenew(l, a, p, now))
      && (next.Ok? ==>
            && Renewed(l, a, p, now, next.value.authority, digest) && HalfMinute(next.value, now)
            && next.value.authority.generation == a.generation + 1)
  {
    hide CheckPolicy, CheckResolution, Fits;
    PolicyAnswer(l, p, digest);
    ResolutionAnswer(a.resolution, l.binding.order.provider, p);
    BoundLimits(l.binding, p, digest);
  }

  /** A renewal begins exactly for an active lease under a control that repeats the binding, before every deadline, with a bound
      policy that fits the resolved identity, while there is room; it returns the next generation. */
  lemma RenewalAnswer(l: LeaseData, c: Control, p: EffectivePolicy, now: ClockSample, digest: Digester)
    ensures var (after, r) := BeginRenewal(l, c, p, now, digest);
      && (r.Ok? <==>
            && l.state.SActive? && Repeats(l, c) && Continues(l, now) && BeforeDeadlines(l.state, now)
            && BoundTo(l.binding, p, digest) && Fits(l.state.authority.resolution, l.binding.order.provider, p)
            && RoomToRenew(l, l.state.authority, p, now))
      && (r.Ok? ==>
            && r.value == l.state.authority.generation + 1 == c.generation + 1
            && after == l.(lastMonotonic := now.monotonic, state := after.state) && after.state.SRenewing?
            && Renewed(l, l.state.authority, p, now, after.state.authority, digest) && HalfMinute(after.state, now))
  {
    hide CheckControl, CheckCaller, BoundTo, BeforeDeadlines, Enforced, Renewal, FirstMismatch, Fits, RoomToRenew, Renewed, HalfMinute;
    var seen := Enforced(l, now).0;
    EnforcementAnswer(l, now);
    ControlAnswer(l, c);
    if seen.state.SActive? {
      if BoundTo(l.binding, p, digest) {
        RenewedAuthorityAnswer(seen, seen.state.authority, p, now, digest);
      } else {
        UnboundNotRenewed(seen, p, now, digest);
      }
      SameRoom(l, seen, seen.state.authority, p, now, digest);
    }
  }

  lemma UnboundNotRenewed(l: LeaseData, p: EffectivePolicy, now: ClockSample, digest: Digester)
    requires l.state.SActive? && !BoundTo(l.binding, p, digest)
    ensures Renewal(l, l.state.authority, p, now, digest) == Err(PolicyBindingMismatch)
  {
    hide BoundTo, CheckPolicy;
    PolicyAnswer(l, p, digest);
  }

  lemma SameRoom(l: LeaseData, seen: LeaseData, a: Authority, p: EffectivePolicy, now: ClockSample, digest: Digester)
    requires seen.binding == l.binding && seen.issuance == l.issuance
    ensures RoomToRenew(seen, a, p, now) <==> RoomToRenew(l, a, p, now)
    ensures forall b :: Renewed(seen, a, p, now, b, digest) <==> Renewed(l, a, p, now, b, digest)
  {
    hide LeastOf;
  }

  /** A renewal is refused for its control, then the clock, a missed deadline, the state, the policy, the resolved identity, and
      last for want of room. */
  lemma RenewalObjection(l: LeaseData, c: Control, p: EffectivePolicy, now: ClockSample, digest: Digester)
    requires BeginRenewal(l, c, p, now, digest).1.Err?
    ensures var error := BeginRenewal(l, c, p, now, digest).1.error;
      if !Repeats(l, c) then FirstMismatch(l, c, error)
      else if !Continues(l, now) then ClockObjection(l, now, error)
      else if l.state.Live() && !BeforeDeadlines(l.state, now) then Missed(l.state, now, error)
      else if !l.state.SActive? then WrongState(l.state, Active, error)
      else if !BoundTo(l.binding, p, digest) || !Fits(l.state.authority.resolution, l.binding.order.provider, p) then
        error == PolicyBindingMismatch
      else error in {ClockOverflow, SessionLimitReached, GenerationExhausted}
           && (error == GenerationExhausted ==> l.state.authority.generation == MAXIMUM_GENERATION)
  {
    hide CheckControl, CheckCaller, BoundTo, BeforeDeadlines, Enforced, FirstMismatch, Fits, WrongState, Missed, StateError, Renewal, Repeats;
    var seen := Enforced(l, now).0;
    EnforcementAnswer(l, now);
    ClockAnswer(l, now);
    StateAnswer(seen, Active);
    ControlAnswer(l, c);
    if seen.state.SActive? {
      NoRoomObjection(seen, p, now, digest);
    }
  }

  lemma NoRoomObjection(l: LeaseData, p: EffectivePolicy, now: ClockSample, digest: Digester)
    requires l.state.SActive?
    ensures var next := Renewal(l, l.state.authority, p, now, digest);
      next.Err? ==>
        if !BoundTo(l.binding, p, digest) || !Fits(l.state.authority.resolution, l.binding.order.provider, p) then
          next.error == PolicyBindingMismatch
        else
          && next.error in {ClockOverflow, SessionLimitReached, GenerationExhausted}
          && (next.error == GenerationExhausted ==> l.state.authority.generation == MAXIMUM_GENERATION)
  {
    hide BoundTo, CheckPolicy, Fits, CheckResolution;
    PolicyAnswer(l, p, digest);
    ResolutionAnswer(l.state.authority.resolution, l.binding.order.provider, p);
    if BoundTo(l.binding, p, digest) {
      BoundLimits(l.binding, p, digest);
      BoundOnce(l, p, digest);
    }
  }

  lemma BoundOnce(l: LeaseData, p: EffectivePolicy, digest: Digester)
    requires BoundTo(l.binding, p, digest)
    ensures p.requestedTtl <= p.maximumTtl && p.requestedTtl <= p.maximumSession
  {
  }

  // ---- Operations without a control ----

  /** Refusing, revoking and marking in error succeed exactly from the right state and for the right reason. */
  lemma PlainAnswers(l: LeaseData, code: RefusalCode, reason: Reason)
    ensures Refuse(l, code).1.Ok? <==> l.state.SRequested?
    ensures Revoke(l, reason).1.Ok? <==> l.state.Live() && reason !in {Completed, WorkerFailed, Reason.LeaseExpired,
                                                                       MaximumLifetimeReached, InternalError}
    ensures MarkError(l, reason).1.Ok? <==>
              (l.state.SActive? || l.state.SRenewing?) && reason in {ProcessUnverifiable, ServiceRecovery, InternalError}
    ensures Refuse(l, code).1.Err? ==> Refuse(l, code).0 == l
    ensures Revoke(l, reason).1.Err? ==> Revoke(l, reason).0 == l
    ensures MarkError(l, reason).1.Err? ==> MarkError(l, reason).0 == l
  {
  }

  // ---- Whole runs ----

  /** The handle an accepted launch hands out. */
  function HandleOf(l: LeaseData, op: Op, digest: Digester): Option<Text> {
    if !op.LaunchOp? then None
    else
      match AuthorizeLaunch(l, op.control, op.policy, op.now, digest).1
      case Ok(handle) => Some(handle)
      case Err(_) => None
  }

  /** Authority over a lease comes from one accepted activation, whose resolved identity it keeps. */
  lemma {:induction false} AuthorityFromActivation(l: LeaseData, ops: seq<Op>, digest: Digester) returns (k: nat)
    requires Sound(l) && l.state.SRequested? && Run(l, ops, digest).state.HasAuthority()
    ensures k < |ops| && ops[k].ActivateOp? && Accepted(Run(l, ops[..k], digest), ops[k], digest)
    ensures ops[k].resolution == Run(l, ops, digest).state.authority.resolution
    decreases ops
  {
    hide After, Accepted, Sound;
    var next := After(l, ops[0], digest);
    StepSound(l, ops[0], digest);
    FromRequested(l, ops[0], digest);
    if next.state.SRequested? {
      k := AuthorityFromActivation(next, ops[1..], digest);
      assert ops[..k + 1][1..] == ops[1..][..k];
      k := k + 1;
    } else {
      k := 0;
      RunEvolves(next, ops[1..], digest);
    }
  }

  lemma FromRequested(l: LeaseData, op: Op, digest: Digester)
    requires l.state.SRequested?
    ensures var next := After(l, op, digest);
      next.state.SRequested? || next.state.SRefused?
      || (op.ActivateOp? && Accepted(l, op, digest) && next.state.SActive? && next.state.authority.resolution == op.resolution)
  {
    hide CheckPolicy, CheckResolution, CheckControl;
  }

  /** Over any run every launch hands out the handle resolved when the lease was activated. */
  lemma LaunchedHandle(binding: Binding, clock: ClockSample, ops: seq<Op>, launch: Op, digest: Digester) returns (k: nat)
    requires launch.LaunchOp? && Accepted(Run(Issued(binding, clock), ops, digest), launch, digest)
    ensures k < |ops| && ops[k].ActivateOp? && Accepted(Run(Issued(binding, clock), ops[..k], digest), ops[k], digest)
    ensures HandleOf(Run(Issued(binding, clock), ops, digest), launch, digest) == Some(ops[k].resolution.executionHandle)
  {
    hide After, Sound, AuthorizeLaunch, BoundTo, BeforeDeadlines;
    var l := Run(Issued(binding, clock), ops, digest);
    LaunchAnswer(l, launch.control, launch.policy, launch.now, digest);
    IssuedSound(binding, clock);
    k := AuthorityFromActivation(Issued(binding, clock), ops, digest);
  }

  lemma IssuedSound(binding: Binding, clock: ClockSample)
    ensures Sound(Issued(binding, clock))
  {
  }
}
