/** What every run of lease operations keeps, whatever their order, arguments and failures. */
module LeaseRuns {
  import opened Wrappers
  import opened Contracts
  import opened Policy
  import opened Clock
  import opened LeaseModel

  datatype Op =
    | RefuseOp(code: RefusalCode)
    | ActivateOp(policy: EffectivePolicy, resolution: Resolution, now: ClockSample)
    | BeginRenewalOp(control: Control, policy: EffectivePolicy, now: ClockSample)
    | AcknowledgeOp(control: Control, now: ClockSample)
    | CloseOp(control: Control, reason: Reason, now: ClockSample)
    | RevokeOp(reason: Reason)
    | RevokeControlledOp(control: Control, now: ClockSample)
    | MarkErrorOp(reason: Reason)
    | EnforceOp(now: ClockSample)
    | LaunchOp(control: Control, policy: EffectivePolicy, now: ClockSample)
  {
    predicate HasControl() {
      BeginRenewalOp? || AcknowledgeOp? || CloseOp? || RevokeControlledOp? || LaunchOp?
    }
  }

  /** The lease after an operation, and whether the operation succeeded. */
  function Apply(l: LeaseData, op: Op, digest: Digester): (LeaseData, bool) {
    match op
    case RefuseOp(code) => var (after, r) := Refuse(l, code); (after, r.Ok?)
    case ActivateOp(p, r, now) => var (after, r) := Activate(l, p, r, now, digest); (after, r.Ok?)
    case BeginRenewalOp(c, p, now) => var (after, r) := BeginRenewal(l, c, p, now, digest); (after, r.Ok?)
    case AcknowledgeOp(c, now) => var (after, r) := AcknowledgeRenewal(l, c, now); (after, r.Ok?)
    case CloseOp(c, reason, now) => var (after, r) := Close(l, c, reason, now); (after, r.Ok?)
    case RevokeOp(reason) => var (after, r) := Revoke(l, reason); (after, r.Ok?)
    case RevokeControlledOp(c, now) => var (after, r) := RevokeControlled(l, c, now); (after, r.Ok?)
    case MarkErrorOp(reason) => var (after, r) := MarkError(l, reason); (after, r.Ok?)
    case EnforceOp(now) => var (after, r) := Enforced(l, now); (after, r.Ok?)
    case LaunchOp(c, p, now) => var (after, r) := AuthorizeLaunch(l, c, p, now, digest); (after, r.Ok?)
  }

  function After(l: LeaseData, op: Op, digest: Digester): LeaseData {
    Apply(l, op, digest).0
  }

  predicate Accepted(l: LeaseData, op: Op, digest: Digester) {
    Apply(l, op, digest).1
  }

  function Run(l: LeaseData, ops: seq<Op>, digest: Digester): LeaseData
    decreases ops
  {
    if ops == [] then l else Run(After(l, ops[0], digest), ops[1..], digest)
  }

  function Issued(binding: Binding, clock: ClockSample): LeaseData {
    LeaseData(binding, clock, clock.monotonic, SRequested)
  }

  // ---- Bounds ----

  /** The signed session ceiling on the monotonic clock. */
  function SessionEnd(l: LeaseData): int {
    l.issuance.monotonic + l.binding.signedMaximumSession * NANOS_PER_SECOND
  }

  ghost predicate Bounded(l: LeaseData, a: Authority) {
    && a.expiresAt <= a.maximumExpiresAt <= l.binding.signedExpiresAt.instant
    && a.maximumExpiresAt <= l.issuance.wall + l.binding.signedMaximumSession * NANOS_PER_SECOND
    && l.issuance.monotonic < a.monotonicDeadline <= a.monotonicMaximum <= SessionEnd(l)
    && a.monotonicMaximum - l.issuance.monotonic <= l.binding.signedExpiresAt.instant - l.issuance.wall
    && a.expiresAt - a.anchorWall == a.monotonicDeadline - a.anchorMonotonic
  }

  /** Every authority is bounded, the acknowledgement window closes first, and no live lease was seen at a deadline. */
  ghost predicate Sound(l: LeaseData) {
    && (l.state.HasAuthority() ==> Bounded(l, l.state.authority))
    && (l.state.Live() ==> l.lastMonotonic < l.state.authority.monotonicDeadline)
    && (l.state.SRenewing? ==>
          && l.state.acknowledgeBy <= l.state.authority.expiresAt
          && l.lastMonotonic < l.state.monotonicAcknowledgeBy <= l.state.authority.monotonicDeadline)
    && l.issuance.monotonic <= l.lastMonotonic
  }

  lemma EnforcedSound(l: LeaseData, now: ClockSample)
    requires Sound(l)
    ensures Sound(Enforced(l, now).0)
  {
  }

  lemma FirstAuthorityBounded(l: LeaseData, p: EffectivePolicy, r: Resolution, now: ClockSample, digest: Digester)
    requires l.state.SRequested? && l.issuance.monotonic <= l.lastMonotonic <= now.monotonic
    ensures Sound(Activate(l, p, r, now, digest).0)
  {
    hide CheckPolicy, CheckResolution;
    var seen := l.(lastMonotonic := now.monotonic);
    if FirstAuthority(seen, p, r, now, digest).Ok? {
      CheckedPolicy(seen, p, digest);
    }
  }

  lemma CheckedPolicy(l: LeaseData, p: EffectivePolicy, digest: Digester)
    requires CheckPolicy(l, p, digest).Ok?
    ensures p.maximumSession <= l.binding.signedMaximumSession && p.signedExpiresAt == l.binding.signedExpiresAt
    ensures p.requestedTtl <= p.maximumSession
  {
  }

  lemma RenewedAuthorityBounded(l: LeaseData, a: Authority, p: EffectivePolicy, now: ClockSample, digest: Digester)
    requires Bounded(l, a) && p.signedExpiresAt == l.binding.signedExpiresAt
    requires RenewedAuthority(l, a, p, now, digest).Ok?
    ensures var b := RenewedAuthority(l, a, p, now, digest).value;
      && Bounded(l, b) && Supersedes(a, b) && b.generation == a.generation + 1
      && b.monotonicDeadline > a.monotonicDeadline && now.monotonic <= b.monotonicDeadline
  {
    hide CheckResolution;
  }

  lemma RenewalSound(l: LeaseData, p: EffectivePolicy, now: ClockSample, digest: Digester)
    requires Sound(l) && l.state.SActive? && l.lastMonotonic == now.monotonic
    requires Renewal(l, l.state.authority, p, now, digest).Ok?
    ensures var next := Renewal(l, l.state.authority, p, now, digest).value;
      && Sound(l.(state := next)) && Supersedes(l.state.authority, next.authority)
      && next.authority.generation == l.state.authority.generation + 1
      && next.authority.monotonicDeadline > l.state.authority.monotonicDeadline
  {
    hide RenewedAuthority, CheckPolicy;
    CheckedPolicy(l, p, digest);
    RenewedAuthorityBounded(l, l.state.authority, p, now, digest);
  }

  lemma BeginRenewalSound(l: LeaseData, c: Control, p: EffectivePolicy, now: ClockSample, digest: Digester)
    requires Sound(l)
    ensures Sound(BeginRenewal(l, c, p, now, digest).0)
  {
    hide Renewal, CheckControl, CheckCaller, Sound, StateAt;
    var seen := Enforced(l, now).0;
    EnforcedSound(l, now);
    if BeginRenewal(l, c, p, now, digest).1.Ok? {
      RenewalSound(seen, p, now, digest);
    }
  }

  lemma StepSound(l: LeaseData, op: Op, digest: Digester)
    requires Sound(l)
    ensures Sound(After(l, op, digest))
  {
    hide CheckControl, CheckCaller, CheckPolicy, BeginRenewal, Activate, Enforced;
    match op
    case ActivateOp(p, r, now) => ActivateSound(l, p, r, now, digest);
    case BeginRenewalOp(c, p, now) => BeginRenewalSound(l, c, p, now, digest);
    case RefuseOp(_) =>
    case RevokeOp(_) =>
    case MarkErrorOp(_) =>
    case _ => EnforcedSound(l, op.now);
  }

  lemma ActivateSound(l: LeaseData, p: EffectivePolicy, r: Resolution, now: ClockSample, digest: Digester)
    requires Sound(l)
    ensures Sound(Activate(l, p, r, now, digest).0)
  {
    hide FirstAuthority;
    if l.state.SRequested? && l.lastMonotonic <= now.monotonic {
      FirstAuthorityBounded(l, p, r, now, digest);
    }
  }

  /** Over every run, every authority stays within the signed expiry and session on both clocks. */
  lemma {:induction false} RunSound(l: LeaseData, ops: seq<Op>, digest: Digester)
    requires Sound(l)
    ensures Sound(Run(l, ops, digest))
    decreases ops
  {
    hide Sound, After;
    if ops != [] {
      StepSound(l, ops[0], digest);
      RunSound(After(l, ops[0], digest), ops[1..], digest);
    }
  }

  // ---- The transition graph ----

  /** What an accepted operation requires of the state and makes of it. */
  lemma AcceptedTransitions(l: LeaseData, op: Op, digest: Digester)
    requires Accepted(l, op, digest)
    ensures var s, s' := l.state, After(l, op, digest).state;
      match op
      case RefuseOp(code) => s.SRequested? && s' == SRefused(code)
      case ActivateOp(p, r, _) =>
        s.SRequested? && s'.SActive? && s'.authority.generation == 1 && s'.authority.policyDigest == digest(p)
        && s'.authority.resolution == r
      case BeginRenewalOp(_, p, _) =>
        s.SActive? && s'.SRenewing? && s'.authority.generation == s.authority.generation + 1
        && s'.authority.policyDigest == digest(p) && s'.authority.resolution == s.authority.resolution
      case AcknowledgeOp(_, _) => s.SRenewing? && s' == SActive(s.authority)
      case CloseOp(_, reason, _) => (s.SActive? || s.SRenewing?) && s' == SClosed(s.authority, reason)
                                    && reason in {Completed, WorkerFailed}
      case RevokeOp(reason) => s.Live() && s' == SRevoked(s.authority, reason) && RevocationReason(reason)
      case RevokeControlledOp(_, _) => s.Live() && s' == SRevoked(s.authority, OperatorRevoked)
      case MarkErrorOp(reason) => (s.SActive? || s.SRenewing?) && s' == SError(s.authority, reason)
                                  && reason in {ProcessUnverifiable, ServiceRecovery, InternalError}
      case EnforceOp(now) => s' == StateAt(s, now)
      case LaunchOp(_, _, _) => s.SActive? && s' == s
  {
    hide CheckPolicy, CheckResolution, CheckControl;
  }

  /** A rejected operation changes the state only by a missed deadline, a failed acknowledgement or a revoked policy. */
  lemma RejectedTransitions(l: LeaseData, op: Op, digest: Digester)
    requires !Accepted(l, op, digest)
    ensures var s, s' := l.state, After(l, op, digest).state;
      || s' == s
      || (s.Live() && s'.SExpired? && s'.authority == s.authority && s'.reason in {MaximumLifetimeReached, Reason.LeaseExpired})
      || (s.SRenewing? && s' == SRevoked(s.authority, RenewalAcknowledgementFailed))
      || (op.LaunchOp? && s.SActive? && s' == SRevoked(s.authority, PolicyRevoked))
  {
    hide CheckPolicy, CheckResolution, CheckControl, FirstAuthority, Renewal;
  }

  /** A renewal succeeds only strictly before both deadlines, under a policy for the same order and resolved identity. */
  lemma RenewalStep(l: LeaseData, op: Op, digest: Digester)
    requires op.BeginRenewalOp? && Accepted(l, op, digest)
    ensures l.state.SActive? && op.now.wall < l.state.authority.expiresAt
    ensures l.lastMonotonic <= op.now.monotonic < l.state.authority.monotonicDeadline
    ensures op.policy.order == l.binding.order && op.policy.authMode == l.state.authority.resolution.authMode
    ensures op.policy.isolation == l.state.authority.resolution.isolation != Unproven
    ensures var next, ttl := After(l, op, digest).state, op.policy.requestedTtl * NANOS_PER_SECOND;
      && next.SRenewing? && next.authority.expiresAt == op.now.wall + ttl
      && next.authority.monotonicDeadline == op.now.monotonic + ttl
      && next.acknowledgeBy == Earlier(op.now.wall + RENEWAL_ACK_TIMEOUT_SECONDS * NANOS_PER_SECOND, next.authority.expiresAt)
  {
    hide CheckControl, CheckCaller;
  }

  // ---- Change over time ----

  /** A later authority: maxima no larger, deadlines and generation no smaller, same resolved identity. */
  predicate Supersedes(a: Authority, b: Authority) {
    && b.maximumExpiresAt <= a.maximumExpiresAt && b.monotonicMaximum <= a.monotonicMaximum
    && a.expiresAt <= b.expiresAt && a.monotonicDeadline <= b.monotonicDeadline
    && a.generation <= b.generation && (a.generation == b.generation ==> a == b) && a.resolution == b.resolution
  }

  ghost predicate Evolves(before: LeaseData, after: LeaseData) {
    && after.binding == before.binding && after.issuance == before.issuance
    && before.lastMonotonic <= after.lastMonotonic
    && (before.state.HasAuthority() ==> after.state.HasAuthority() && Supersedes(before.state.authority, after.state.authority))
    && (!before.state.Live() && !before.state.SRequested? ==> after.state == before.state)
  }

  lemma StepEvolves(l: LeaseData, op: Op, digest: Digester)
    requires Sound(l)
    ensures Evolves(l, After(l, op, digest))
  {
    hide CheckControl, CheckCaller, CheckPolicy, Renewal, FirstAuthority, Sound;
    if op.BeginRenewalOp? && Accepted(l, op, digest) {
      EnforcedSound(l, op.now);
      RenewalSound(Enforced(l, op.now).0, op.policy, op.now, digest);
    }
  }

  lemma EvolvesTransitive(a: LeaseData, b: LeaseData, c: LeaseData)
    requires Evolves(a, b) && Evolves(b, c)
    ensures Evolves(a, c)
  {
  }

  /** Over every run maxima never grow, deadlines and generations never fall, and ended leases never change. */
  lemma {:induction false} RunEvolves(l: LeaseData, ops: seq<Op>, digest: Digester)
    requires Sound(l)
    ensures Evolves(l, Run(l, ops, digest))
    decreases ops
  {
    hide Sound, After;
    if ops != [] {
      var next := After(l, ops[0], digest);
      StepSound(l, ops[0], digest);
      StepEvolves(l, ops[0], digest);
      RunEvolves(next, ops[1..], digest);
      EvolvesTransitive(l, next, Run(next, ops[1..], digest));
    }
  }

  // ---- Renewals terminate ----

  function Renewals(l: LeaseData, ops: seq<Op>, digest: Digester): nat
    decreases ops
  {
    if ops == [] then 0
    else (if ops[0].BeginRenewalOp? && Accepted(l, ops[0], digest) then 1 else 0)
         + Renewals(After(l, ops[0], digest), ops[1..], digest)
  }

  /** How far the monotonic deadline may still move. */
  function Gap(l: LeaseData): int
    requires l.state.HasAuthority()
  {
    l.state.authority.monotonicMaximum - l.state.authority.monotonicDeadline
  }

  lemma StepGap(l: LeaseData, op: Op, digest: Digester)
    requires Sound(l) && l.state.HasAuthority()
    ensures After(l, op, digest).state.HasAuthority()
    ensures var renewed := op.BeginRenewalOp? && Accepted(l, op, digest);
      && Gap(After(l, op, digest)) <= Gap(l) - (if renewed then 1 else 0)
      && After(l, op, digest).state.authority.generation == l.state.authority.generation + if renewed then 1 else 0
  {
    hide CheckControl, CheckCaller, CheckPolicy, Renewal, FirstAuthority, Sound;
    StepEvolves(l, op, digest);
    if op.BeginRenewalOp? && Accepted(l, op, digest) {
      EnforcedSound(l, op.now);
      RenewalSound(Enforced(l, op.now).0, op.policy, op.now, digest);
    }
  }

  /** The generation counts the renewals, and there are no more of them than nanoseconds the deadline can still move. */
  lemma {:induction false} RenewalsTerminate(l: LeaseData, ops: seq<Op>, digest: Digester)
    requires Sound(l) && l.state.HasAuthority()
    ensures Renewals(l, ops, digest) <= Gap(l)
    ensures Run(l, ops, digest).state.HasAuthority()
    ensures Run(l, ops, digest).state.authority.generation == l.state.authority.generation + Renewals(l, ops, digest)
    decreases ops
  {
    hide Sound, After, Accepted;
    if ops == [] {
      GapNotNegative(l);
    } else {
      StepSound(l, ops[0], digest);
      StepGap(l, ops[0], digest);
      RenewalsTerminate(After(l, ops[0], digest), ops[1..], digest);
    }
  }

  lemma GapNotNegative(l: LeaseData)
    requires Sound(l) && l.state.HasAuthority()
    ensures 0 <= Gap(l)
  {
  }

  // ---- Fencing ----

  /** The control repeats everything the lease is bound to and names its current generation. */
  predicate Repeats(l: LeaseData, c: Control) {
    && c.callerSubject == l.binding.callerSubject && c.hostIdentity == l.binding.hostIdentity
    && c.tenantId == l.binding.order.tenantId && c.runId == l.binding.order.runId && c.role == l.binding.order.role
    && l.state.HasAuthority() && c.generation == l.state.authority.generation
  }

  /** Whatever the operation, an accepted control repeats the binding and the current generation. */
  lemma AcceptedIsCurrent(l: LeaseData, op: Op, digest: Digester)
    requires op.HasControl() && Accepted(l, op, digest)
    ensures Repeats(l, op.control)
  {
    hide CheckPolicy, Renewal;
  }

  /** Once a renewal succeeds, no later operation under that generation or an earlier one is ever accepted again. */
  lemma FencedForever(l: LeaseData, c: Control, p: EffectivePolicy, now: ClockSample, ops: seq<Op>, op: Op,
                      digest: Digester)
    requires Sound(l) && Accepted(l, BeginRenewalOp(c, p, now), digest)
    requires op.HasControl() && op.control.generation <= c.generation
    ensures !Accepted(Run(After(l, BeginRenewalOp(c, p, now), digest), ops, digest), op, digest)
  {
    hide Sound, After, Accepted;
    var renewal := BeginRenewalOp(c, p, now);
    AcceptedIsCurrent(l, renewal, digest);
    StepSound(l, renewal, digest);
    StepGap(l, renewal, digest);
    RunEvolves(After(l, renewal, digest), ops, digest);
    if Accepted(Run(After(l, renewal, digest), ops, digest), op, digest) {
      AcceptedIsCurrent(Run(After(l, renewal, digest), ops, digest), op, digest);
    }
  }

  // ---- Missing a deadline while renewing ----

  /** The operation gets as far as enforcing deadlines at `now`. */
  predicate Enforces(l: LeaseData, op: Op, now: ClockSample) {
    && Observe(l, now).Ok?
    && match op
       case BeginRenewalOp(c, _, at) => at == now && CheckCaller(l, c).Ok?
       case AcknowledgeOp(_, at) => at == now
       case CloseOp(c, _, at) => at == now && CheckCaller(l, c).Ok?
       case RevokeControlledOp(c, at) => at == now && CheckCaller(l, c).Ok?
       case EnforceOp(at) => at == now
       case LaunchOp(c, _, at) => at == now && CheckCaller(l, c).Ok?
       case _ => false
  }

  predicate AnyDeadlineReached(s: State, now: ClockSample)
    requires s.Live()
  {
    || (s.SRenewing? && DeadlineReached(now, s.acknowledgeBy, s.monotonicAcknowledgeBy))
    || DeadlineReached(now, s.authority.maximumExpiresAt, s.authority.monotonicMaximum)
    || DeadlineReached(now, s.authority.expiresAt, s.authority.monotonicDeadline)
  }

  /** A lease that misses any deadline while renewing is revoked for the missed acknowledgement, never expired. */
  lemma RenewingMissRevokes(l: LeaseData, op: Op, now: ClockSample, digest: Digester)
    requires Sound(l) && l.state.SRenewing? && Enforces(l, op, now) && AnyDeadlineReached(l.state, now)
    ensures After(l, op, digest).state == SRevoked(l.state.authority, RenewalAcknowledgementFailed)
    ensures !(op.EnforceOp?) ==> !Accepted(l, op, digest)
  {
    hide CheckPolicy, Renewal;
  }

  lemma RenewingNotExpired(l: LeaseData, op: Op, digest: Digester)
    requires Sound(l) && l.state.SRenewing?
    ensures !After(l, op, digest).state.SExpired?
    ensures After(l, op, digest).state.SRenewing? || !After(l, op, digest).state.Live()
            || (Accepted(l, op, digest) && (op.AcknowledgeOp? || op.MarkErrorOp?))
  {
    hide CheckPolicy, Renewal, CheckControl, CheckCaller;
  }

  /** Some acknowledgement or error marking succeeded during the run. */
  ghost predicate LeftRenewing(l: LeaseData, ops: seq<Op>, digest: Digester)
    decreases ops
  {
    ops != []
    && (((ops[0].AcknowledgeOp? || ops[0].MarkErrorOp?) && Accepted(l, ops[0], digest))
        || LeftRenewing(After(l, ops[0], digest), ops[1..], digest))
  }

  /** Over any run, a renewing lease expires only after it was acknowledged or marked in error. */
  lemma {:induction false} RenewingExpiresOnlyAfterLeaving(l: LeaseData, ops: seq<Op>, digest: Digester)
    requires Sound(l) && l.state.SRenewing? && Run(l, ops, digest).state.SExpired?
    ensures LeftRenewing(l, ops, digest)
    decreases ops
  {
    hide After, Accepted, Sound;
    if ops != [] {
      var next := After(l, ops[0], digest);
      StepSound(l, ops[0], digest);
      RenewingNotExpired(l, ops[0], digest);
      if next.state.SRenewing? {
        RenewingExpiresOnlyAfterLeaving(next, ops[1..], digest);
      } else if !next.state.Live() {
        StepEvolves(l, ops[0], digest);
        RunEvolves(next, ops[1..], digest);
      }
    }
  }

  // ---- Launch ----

  lemma LaunchStep(l: LeaseData, op: Op, digest: Digester)
    requires op.LaunchOp? && Accepted(l, op, digest)
    ensures l.state.SActive? && After(l, op, digest) == l.(lastMonotonic := op.now.monotonic)
    ensures l.lastMonotonic <= op.now.monotonic < l.state.authority.monotonicDeadline
    ensures op.now.wall < l.state.authority.expiresAt
    ensures op.control.generation == l.state.authority.generation && l.state.authority.policyDigest == digest(op.policy)
    ensures op.policy.order == l.binding.order
  {
  }

  /** Every launch in every run lies strictly before the monotonic deadline, the signed expiry and the session's end. */
  lemma LaunchesInTime(binding: Binding, clock: ClockSample, ops: seq<Op>, launch: Op, digest: Digester)
    requires launch.LaunchOp? && Accepted(Run(Issued(binding, clock), ops, digest), launch, digest)
    ensures var l := Run(Issued(binding, clock), ops, digest);
      && l.state.SActive? && launch.now.monotonic < l.state.authority.monotonicDeadline
      && launch.now.wall < binding.signedExpiresAt.instant
      && launch.now.monotonic < clock.monotonic + binding.signedMaximumSession * NANOS_PER_SECOND
      && launch.now.monotonic - clock.monotonic < binding.signedExpiresAt.instant - clock.wall
      && launch.policy.order == binding.order && launch.now.generation == clock.generation
  {
    hide After, Accepted, Apply;
    var l := Run(Issued(binding, clock), ops, digest);
    RunSound(Issued(binding, clock), ops, digest);
    RunEvolves(Issued(binding, clock), ops, digest);
    LaunchStep(l, launch, digest);
    LaunchSameService(l, launch, digest);
  }

  lemma LaunchSameService(l: LeaseData, op: Op, digest: Digester)
    requires op.LaunchOp? && Accepted(l, op, digest)
    ensures op.now.generation == l.issuance.generation
  {
  }

  /** Once any observation has reached a lease's monotonic deadline, no run ever launches under it again. */
  lemma NoLaunchOnceReached(l: LeaseData, ops: seq<Op>, launch: Op, digest: Digester)
    requires Sound(l) && l.state.HasAuthority() && l.lastMonotonic >= l.state.authority.monotonicDeadline
    requires launch.LaunchOp?
    ensures !Accepted(Run(l, ops, digest), launch, digest)
  {
    hide After, Accepted;
    RunEvolves(l, ops, digest);
    if Accepted(Run(l, ops, digest), launch, digest) {
      LaunchStep(Run(l, ops, digest), launch, digest);
    }
  }
}
