/** Policy evaluation and the lease agree: what one grants the other accepts. */
module LeasePolicy {
  import opened Wrappers
  import opened Contracts
  import opened Policy
  import opened Clock
  import opened LeaseModel
  import opened LeaseRuns
  import opened LeaseAnswers

  /** The binding a lease takes from the request it answers. */
  function BindingOf(e: Evaluation, leaseId: Text): Binding
    requires e.requestDigest.Some?
  {
    Binding(leaseId, e.requestDigest.value, e.request.order, e.request.policyDigest, e.request.requestedTtl,
            e.request.authorization.maximumTtl, e.request.authorization.maximumSession, e.callerSubject, e.hostIdentity,
            e.request.authorization.expiresAt)
  }

  lemma PermittedFacts(e: Evaluation, digest: Digester)
    requires Evaluate(e, digest).Ok?
    ensures var p := Evaluate(e, digest).value;
      && e.requestDigest == Some(p.sourceRequestDigest) && p.order == e.request.order
      && p.order.profileUid == p.claim.profileUid && p.order.provider == p.claim.provider
      && p.ResourceIsolationIsConsistent() && p.isolation != Unproven
      && p.maximumTtl <= e.request.authorization.maximumTtl && p.maximumSession <= e.request.authorization.maximumSession
      && p.requestedTtl == e.request.requestedTtl <= p.maximumTtl && p.requestedTtl <= p.maximumSession
      && e.now.instant + p.requestedTtl * NANOS_PER_SECOND <= p.signedExpiresAt.instant
      && (e.request.policyDigest.Some? ==> e.request.policyDigest.value == digest(p))
  {
    AcceptedExactlyWhen(e.request, e.now);
  }

  /** A permitted policy always matches the lease made for its request. */
  lemma PermittedPolicyBinds(e: Evaluation, leaseId: Text, clock: ClockSample, digest: Digester)
    requires Evaluate(e, digest).Ok?
    ensures e.requestDigest.Some?
    ensures CheckPolicy(Issued(BindingOf(e, leaseId), clock), Evaluate(e, digest).value, digest).Ok?
  {
    hide Evaluate;
    PermittedFacts(e, digest);
    PermittedIdentity(e, digest);
  }

  lemma PermittedIdentity(e: Evaluation, digest: Digester)
    requires Evaluate(e, digest).Ok?
    ensures var p := Evaluate(e, digest).value;
      && p.callerSubject == e.callerSubject == p.claim.callerSubject && p.hostIdentity == e.hostIdentity == p.claim.hostIdentity
      && p.signedExpiresAt == e.request.authorization.expiresAt
  {
  }

  /** Deriving a renewal policy keeps the binding exactly when no digest was expected or the new digest still meets it. */
  lemma RenewalPolicyBindsIff(e: Evaluation, leaseId: Text, l: LeaseData, requested: TtlSeconds, digest: Digester)
    requires Evaluate(e, digest).Ok? && ForRenewalTtl(Evaluate(e, digest).value, requested).Ok?
    requires e.requestDigest.Some? && l.binding == BindingOf(e, leaseId)
    ensures var renewed := ForRenewalTtl(Evaluate(e, digest).value, requested).value;
      CheckPolicy(l, renewed, digest).Ok? <==> e.request.policyDigest == None || e.request.policyDigest == Some(digest(renewed))
  {
    hide Evaluate;
    PermittedFacts(e, digest);
    PermittedIdentity(e, digest);
  }

  /** Issued and activated at the moment of evaluation, a permitted lease becomes active unless a clock would overflow
      or the resolved identity does not fit the policy. */
  lemma PermittedActivates(e: Evaluation, leaseId: Text, clock: ClockSample, r: Resolution, digest: Digester)
    requires Evaluate(e, digest).Ok? && clock.wall == e.now.instant && e.requestDigest.Some?
    ensures var p, l := Evaluate(e, digest).value, Issued(BindingOf(e, leaseId), clock);
      var session := p.maximumSession * NANOS_PER_SECOND;
      Activate(l, p, r, clock, digest).1.Ok? <==>
        && Fits(r, p.order.provider, p) && clock.wall + session <= LAST_INSTANT
        && (clock.monotonic + session < MONOTONIC_LIMIT
            || clock.monotonic + p.signedExpiresAt.instant - clock.wall < MONOTONIC_LIMIT)
  {
    hide Evaluate, CheckPolicy, BoundTo, Fits, Activate;
    PermittedFacts(e, digest);
    PermittedPolicyBinds(e, leaseId, clock, digest);
    var p, l := Evaluate(e, digest).value, Issued(BindingOf(e, leaseId), clock);
    PolicyAnswer(l, p, digest);
    ActivationAnswer(l, p, r, clock, digest);
    assert p.requestedTtl * NANOS_PER_SECOND <= p.maximumSession * NANOS_PER_SECOND;
  }
}
