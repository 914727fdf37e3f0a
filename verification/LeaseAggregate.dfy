/** The mutable lease: every operation updates its fields in place, as the lease model says. */
module LeaseAggregate {
  import opened Wrappers
  import opened Contracts
  import opened Policy
  import opened Clock
  import opened LeaseModel
  import opened LeaseRuns
  import opened LeaseAnswers

  class Lease {
    const binding: Binding
    const issuance: ClockSample
    var lastMonotonic: Moment
    var state: State

    function Data(): LeaseData
      reads this
    {
      LeaseData(binding, issuance, lastMonotonic, state)
    }

    constructor (binding: Binding, issuance: ClockSample)
      ensures Data() == Issued(binding, issuance) && Sound(Data())
    {
      this.binding, this.issuance := binding, issuance;
      lastMonotonic, state := issuance.monotonic, SRequested;
    }

    method Refuse(code: RefusalCode) returns (r: Result<(), LeaseError>)
      modifies this
      ensures (Data(), r) == LeaseModel.Refuse(old(Data()), code)
    {
      if !state.SRequested? {
        return Err(StateError(Data(), Requested));
      }
      state := SRefused(code);
      return Ok(());
    }

    method ObserveRuntimeClock(now: ClockSample) returns (r: Result<(), LeaseError>)
      modifies this`lastMonotonic
      ensures match Observe(old(Data()), now)
              case Err(error) => r == Err(error) && Data() == old(Data())
              case Ok(seen) => r.Ok? && Data() == seen
    {
      if now.generation != issuance.generation {
        return Err(ClockGenerationMismatch);
      }
      if now.monotonic < lastMonotonic {
        return Err(MonotonicRegression);
      }
      lastMonotonic := now.monotonic;
      return Ok(());
    }

    method EnforceDeadlines(now: ClockSample) returns (r: Result<bool, LeaseError>)
      modifies this
      ensures (Data(), r) == Enforced(old(Data()), now)
    {
      var _ :- ObserveRuntimeClock(now);
      if !state.Live() {
        return Ok(false);
      }
      var authority := state.authority;
      if state.SRenewing? && DeadlineReached(now, state.acknowledgeBy, state.monotonicAcknowledgeBy) {
        state := SRevoked(authority, RenewalAcknowledgementFailed);
        return Ok(true);
      }
      var reason: Option<Reason> := None;
      if DeadlineReached(now, authority.maximumExpiresAt, authority.monotonicMaximum) {
        reason := Some(MaximumLifetimeReached);
      } else if DeadlineReached(now, authority.expiresAt, authority.monotonicDeadline) {
        reason := Some(Reason.LeaseExpired);
      }
      if reason.Some? {
        state := SExpired(authority, reason.value);
        return Ok(true);
      }
      return Ok(false);
    }

    method Activate(policy: EffectivePolicy, resolution: Resolution, now: ClockSample, digest: Digester)
      returns (r: Result<(), LeaseError>)
      modifies this
      ensures (Data(), r) == LeaseModel.Activate(old(Data()), policy, resolution, now, digest)
    {
      if !state.SRequested? {
        return Err(StateError(Data(), Requested));
      }
      if now.generation != issuance.generation {
        return Err(ClockGenerationMismatch);
      }
      if now.wall < issuance.wall {
        return Err(ClockBeforeIssuance);
      }
      if now.monotonic < lastMonotonic {
        return Err(MonotonicRegression);
      }
      lastMonotonic := now.monotonic;
      var _ :- CheckPolicy(Data(), policy, digest);
      if policy.requestedTtl != binding.initialRequestedTtl {
        return Err(PolicyBindingMismatch);
      }
      var _ :- CheckResolution(binding.order.provider, policy, resolution);
      var bySession :- Overflowing(AddSeconds(issuance.wall, policy.maximumSession));
      var maximumExpiresAt := Earlier(policy.signedExpiresAt.instant, bySession);
      var expiresAt :- Overflowing(AddSeconds(issuance.wall, policy.requestedTtl));
      if maximumExpiresAt < expiresAt || issuance.wall >= expiresAt {
        return Err(SessionLimitReached);
      }
      var monotonicMaximum :- Overflowing(Advance(issuance.monotonic, maximumExpiresAt - issuance.wall));
      var advanced := AdvanceSeconds(issuance.monotonic, policy.requestedTtl);
      if advanced.None? {
        return Err(ClockOverflow);
      }
      var monotonicDeadline := advanced.value;
      if monotonicDeadline > monotonicMaximum || DeadlineReached(now, expiresAt, monotonicDeadline)
         || DeadlineReached(now, maximumExpiresAt, monotonicMaximum) {
        return Err(SessionLimitReached);
      }
      state := SActive(Authority(resolution, digest(policy), 1, expiresAt, maximumExpiresAt, issuance.wall,
                                 issuance.monotonic, monotonicDeadline, monotonicMaximum));
      return Ok(());
    }

    method BeginRenewal(control: Control, policy: EffectivePolicy, now: ClockSample, digest: Digester)
      returns (r: Result<Generation, LeaseError>)
      modifies this
      ensures (Data(), r) == LeaseModel.BeginRenewal(old(Data()), control, policy, now, digest)
    {
      var _ :- CheckCaller(Data(), control);
      var checked := CheckControl(Data(), control);
      var ended := EnforceDeadlines(now);
      var _ :- checked;
      var over :- ended;
      if over {
        return Err(StateError(Data(), Renewing));
      }
      if !state.SActive? {
        return Err(StateError(Data(), Active));
      }
      var _ :- CheckPolicy(Data(), policy, digest);
      if policy.requestedTtl > policy.maximumTtl || policy.requestedTtl > policy.maximumSession {
        return Err(SessionLimitReached);
      }
      var renewed := state.authority;
      var _ :- CheckResolution(binding.order.provider, policy, renewed.resolution);
      var policyMaximum :- Overflowing(AddSeconds(issuance.wall, policy.maximumSession));
      renewed := renewed.(maximumExpiresAt :=
        Earlier(renewed.maximumExpiresAt, Earlier(policy.signedExpiresAt.instant, policyMaximum)));
      var signedRuntime :- Overflowing(Between(issuance.wall, policy.signedExpiresAt.instant));
      var bySignature :- Overflowing(Advance(issuance.monotonic, signedRuntime));
      var byPolicy :- Overflowing(AdvanceSeconds(issuance.monotonic, policy.maximumSession));
      renewed := renewed.(monotonicMaximum :=
        EarlierMoment(EarlierMoment(renewed.monotonicMaximum, bySignature), byPolicy));
      var expiresAt :- Overflowing(AddSeconds(now.wall, policy.requestedTtl));
      var monotonicDeadline :- Overflowing(AdvanceSeconds(now.monotonic, policy.requestedTtl));
      if renewed.maximumExpiresAt < expiresAt || monotonicDeadline > renewed.monotonicMaximum
         || renewed.expiresAt >= expiresAt || monotonicDeadline <= renewed.monotonicDeadline {
        return Err(SessionLimitReached);
      }
      if renewed.generation == MAXIMUM_GENERATION {
        return Err(GenerationExhausted);
      }
      renewed := renewed.(generation := renewed.generation + 1, expiresAt := expiresAt, anchorWall := now.wall,
                          anchorMonotonic := now.monotonic, monotonicDeadline := monotonicDeadline,
                          policyDigest := digest(policy));
      var window :- Overflowing(AddSeconds(now.wall, RENEWAL_ACK_TIMEOUT_SECONDS));
      var monotonicWindow :- Overflowing(AdvanceSeconds(now.monotonic, RENEWAL_ACK_TIMEOUT_SECONDS));
      state := SRenewing(renewed, Earlier(window, renewed.expiresAt),
                         EarlierMoment(monotonicWindow, renewed.monotonicDeadline));
      return Ok(renewed.generation);
    }

    method AcknowledgeRenewal(control: Control, now: ClockSample) returns (r: Result<(), LeaseError>)
      modifies this
      ensures (Data(), r) == LeaseModel.AcknowledgeRenewal(old(Data()), control, now)
    {
      var checked := CheckControl(Data(), control);
      var ended := EnforceDeadlines(now);
      if checked.Err? {
        if state.SRenewing? {
          state := SRevoked(state.authority, RenewalAcknowledgementFailed);
        }
        return checked;
      }
      var over :- ended;
      if over {
        return Err(StateError(Data(), Active));
      }
      if !state.SRenewing? {
        return Err(StateError(Data(), Renewing));
      }
      state := SActive(state.authority);
      return Ok(());
    }

    method Close(control: Control, reason: Reason, now: ClockSample) returns (r: Result<(), LeaseError>)
      modifies this
      ensures (Data(), r) == LeaseModel.Close(old(Data()), control, reason, now)
    {
      var _ :- CheckCaller(Data(), control);
      var checked := CheckControl(Data(), control);
      var ended := EnforceDeadlines(now);
      var _ :- checked;
      if reason != Completed && reason != WorkerFailed {
        return Err(InvalidReason(Closed, reason));
      }
      var over :- ended;
      if over || !(state.SActive? || state.SRenewing?) {
        return Err(StateError(Data(), Closed));
      }
      state := SClosed(state.authority, reason);
      return Ok(());
    }

    method Revoke(reason: Reason) returns (r: Result<(), LeaseError>)
      modifies this
      ensures (Data(), r) == LeaseModel.Revoke(old(Data()), reason)
    {
      if !RevocationReason(reason) {
        return Err(InvalidReason(Revoked, reason));
      }
      if !state.Live() {
        return Err(NotActive);
      }
      state := SRevoked(state.authority, reason);
      return Ok(());
    }

    method RevokeControlled(control: Control, now: ClockSample) returns (r: Result<(), LeaseError>)
      modifies this
      ensures (Data(), r) == LeaseModel.RevokeControlled(old(Data()), control, now)
    {
      var _ :- CheckCaller(Data(), control);
      var checked := CheckControl(Data(), control);
      var ended := EnforceDeadlines(now);
      var _ :- checked;
      var over :- ended;
      if over {
        return Err(StateError(Data(), Revoked));
      }
      if !state.Live() {
        return Err(NotActive);
      }
      r := Revoke(OperatorRevoked);
    }

    method MarkError(reason: Reason) returns (r: Result<(), LeaseError>)
      modifies this
      ensures (Data(), r) == LeaseModel.MarkError(old(Data()), reason)
    {
      if reason !in {ProcessUnverifiable, ServiceRecovery, InternalError} {
        return Err(InvalidReason(InError, reason));
      }
      if !(state.SActive? || state.SRenewing?) {
        return Err(StateError(Data(), InError));
      }
      state := SError(state.authority, reason);
      return Ok(());
    }

    method AuthorizeLaunch(control: Control, policy: EffectivePolicy, now: ClockSample, digest: Digester)
      returns (r: Result<Text, LeaseError>)
      modifies this
      ensures (Data(), r) == LeaseModel.AuthorizeLaunch(old(Data()), control, policy, now, digest)
      ensures r.Ok? ==> Repeats(old(Data()), control) && r.value == old(state).authority.resolution.executionHandle
    {
      LaunchAnswer(Data(), control, policy, now, digest);
      var _ :- CheckCaller(Data(), control);
      var over :- EnforceDeadlines(now);
      if over || !state.SActive? {
        return Err(StateError(Data(), Active));
      }
      var _ :- CheckControl(Data(), control);
      var _ :- CheckPolicy(Data(), policy, digest);
      if state.authority.policyDigest != digest(policy) {
        state := SRevoked(state.authority, PolicyRevoked);
        return Err(AlreadyRevoked);
      }
      return Ok(state.authority.resolution.executionHandle);
    }

    // ---- Any operations, one after another ----

    method Perform(op: Op, digest: Digester) returns (ok: bool, handle: Option<Text>)
      modifies this
      ensures (Data(), ok) == Apply(old(Data()), op, digest)
      ensures handle == HandleOf(old(Data()), op, digest)
    {
      handle := None;
      hide LeaseModel.Refuse, LeaseModel.Activate, LeaseModel.BeginRenewal, LeaseModel.AcknowledgeRenewal, LeaseModel.Close,
        LeaseModel.Revoke, LeaseModel.RevokeControlled, LeaseModel.MarkError, LeaseModel.AuthorizeLaunch, Enforced;
      match op {
        case RefuseOp(code) =>
          var r := Refuse(code);
          ok := r.Ok?;
        case ActivateOp(policy, resolution, now) =>
          var r := Activate(policy, resolution, now, digest);
          ok := r.Ok?;
        case BeginRenewalOp(control, policy, now) =>
          var r := BeginRenewal(control, policy, now, digest);
          ok := r.Ok?;
        case AcknowledgeOp(control, now) =>
          var r := AcknowledgeRenewal(control, now);
          ok := r.Ok?;
        case CloseOp(control, reason, now) =>
          var r := Close(control, reason, now);
          ok := r.Ok?;
        case RevokeOp(reason) =>
          var r := Revoke(reason);
          ok := r.Ok?;
        case RevokeControlledOp(control, now) =>
          var r := RevokeControlled(control, now);
          ok := r.Ok?;
        case MarkErrorOp(reason) =>
          var r := MarkError(reason);
          ok := r.Ok?;
        case EnforceOp(now) =>
          var r := EnforceDeadlines(now);
          ok := r.Ok?;
        case LaunchOp(control, policy, now) =>
          var r := AuthorizeLaunch(control, policy, now, digest);
          ok, handle := r.Ok?, if r.Ok? then Some(r.value) else None;
      }
    }

    /** Whatever is asked of a lease and whatever it refuses, it stays within its bounds and only ever moves on; it obeys only
        controls that repeat its binding and current generation, and launches strictly before its deadline and the signed
        expiry, with the handle resolved for it. */
    method PerformAll(ops: seq<Op>, digest: Digester) returns (accepted: seq<bool>, handles: seq<Option<Text>>)
      requires Sound(Data())
      modifies this
      ensures Data() == Run(old(Data()), ops, digest) && Sound(Data()) && Evolves(old(Data()), Data())
      ensures |accepted| == |handles| == |ops|
      ensures forall k | 0 <= k < |ops| :: accepted[k] == Accepted(Run(old(Data()), ops[..k], digest), ops[k], digest)
      ensures forall k | 0 <= k < |ops| && accepted[k] && ops[k].HasControl() ::
                var at := Run(old(Data()), ops[..k], digest);
                at.binding == binding && Repeats(at, ops[k].control)
      ensures forall k | 0 <= k < |ops| && accepted[k] && ops[k].LaunchOp? ::
                LaunchedInTime(Run(old(Data()), ops[..k], digest), ops[k], handles[k])
      ensures forall k | 0 <= k < |ops| && !(accepted[k] && ops[k].LaunchOp?) :: handles[k] == None
    {
      hide Sound, Evolves, Apply, Repeats, HandleOf, LaunchedInTime;
      ghost var start := Data();
      accepted, handles := [], [];
      RunNothing(start, digest);
      for k := 0 to |ops|
        invariant |accepted| == |handles| == k && Data() == Run(start, ops[..k], digest) && Sound(Data())
        invariant forall i | 0 <= i < k :: accepted[i] == Accepted(Run(start, ops[..i], digest), ops[i], digest)
        invariant forall i | 0 <= i < k && accepted[i] && ops[i].HasControl() ::
                    var at := Run(start, ops[..i], digest);
                    at.binding == binding && Repeats(at, ops[i].control)
        invariant forall i | 0 <= i < k && accepted[i] && ops[i].LaunchOp? ::
                    LaunchedInTime(Run(start, ops[..i], digest), ops[i], handles[i])
        invariant forall i | 0 <= i < k && !(accepted[i] && ops[i].LaunchOp?) :: handles[i] == None
      {
        ghost var before := Data();
        var ok, handle := Perform(ops[k], digest);
        StepSound(before, ops[k], digest);
        if ok && ops[k].HasControl() {
          AcceptedIsCurrent(before, ops[k], digest);
        }
        if ok && ops[k].LaunchOp? {
          LaunchInTime(before, ops[k], digest);
        } else {
          NoHandle(before, ops[k], digest);
        }
        RunSnoc(start, ops[..k], ops[k], digest);
        assert ops[..k + 1] == ops[..k] + [ops[k]];
        accepted, handles := accepted + [ok], handles + [handle];
      }
      assert ops[..|ops|] == ops;
      RunEvolves(start, ops, digest);
    }
  }

  predicate LaunchedInTime(l: LeaseData, launch: Op, handle: Option<Text>) {
    && launch.LaunchOp? && l.state.SActive? && launch.now.monotonic < l.state.authority.monotonicDeadline
    && launch.now.wall < l.binding.signedExpiresAt.instant && launch.policy.order == l.binding.order
    && handle == Some(l.state.authority.resolution.executionHandle)
  }

  lemma LaunchInTime(l: LeaseData, launch: Op, digest: Digester)
    requires Sound(l) && launch.LaunchOp? && Accepted(l, launch, digest)
    ensures LaunchedInTime(l, launch, HandleOf(l, launch, digest))
  {
  }

  lemma NoHandle(l: LeaseData, op: Op, digest: Digester)
    requires !(op.LaunchOp? && Accepted(l, op, digest))
    ensures HandleOf(l, op, digest) == None
  {
  }

  lemma RunNothing(l: LeaseData, digest: Digester)
    ensures Run(l, [], digest) == l
  {
  }

  lemma {:induction false} RunSnoc(l: LeaseData, ops: seq<Op>, op: Op, digest: Digester)
    ensures Run(l, ops + [op], digest) == After(Run(l, ops, digest), op, digest)
    decreases ops
  {
    hide After;
    if ops == [] {
      assert ([] + [op])[1..] == [];
      RunNothing(After(l, op, digest), digest);
    } else {
      assert (ops + [op])[1..] == ops[1..] + [op];
      RunSnoc(After(l, ops[0], digest), ops[1..], op, digest);
    }
  }
}
