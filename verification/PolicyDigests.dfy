/** With a digest that is a hash of the encoded policy, digest expectations become questions about limits and lifetimes. */
module PolicyDigests {
  import opened Wrappers
  import opened Contracts
  import opened Policy
  import opened PolicyEncoding
  import opened PolicyDecoding
  import opened Clock
  import opened LeaseModel
  import opened LeasePolicy

  /** The digest of a policy: `hash` over its encoding. */
  function DigestOf(hash: Text -> Digest): Digester {
    (p: EffectivePolicy) => hash(Encoding(p))
  }

  /** The hash does not confuse these two policies. */
  predicate NoCollision(hash: Text -> Digest, p: EffectivePolicy, q: EffectivePolicy) {
    hash(Encoding(p)) == hash(Encoding(q)) ==> Encoding(p) == Encoding(q)
  }

  /** The policy's texts can be encoded, and its timestamp means what `instantOf` says. */
  predicate Encodable(p: EffectivePolicy, instantOf: Text -> int) {
    TextsFit(p) && p.signedExpiresAt.instant == instantOf(p.signedExpiresAt.wire)
  }

  lemma EncodingIgnoresRequestDigest(p: EffectivePolicy, d: Digest)
    ensures Encoding(p.(sourceRequestDigest := d)) == Encoding(p)
  {
  }

  lemma DigestIgnoresRequestDigest(hash: Text -> Digest)
    ensures IgnoresRequestDigest(DigestOf(hash))
  {
    forall p: EffectivePolicy, d: Digest
      ensures DigestOf(hash)(p.(sourceRequestDigest := d)) == DigestOf(hash)(p)
    {
      EncodingIgnoresRequestDigest(p, d);
    }
  }

  /** Unless the hash collides, two policies have one digest exactly when they agree in all but their request's digest. */
  lemma SameDigestIff(p: EffectivePolicy, q: EffectivePolicy, hash: Text -> Digest, instantOf: Text -> int)
    requires Encodable(p, instantOf) && Encodable(q, instantOf) && NoCollision(hash, p, q)
    ensures DigestOf(hash)(p) == DigestOf(hash)(q) <==> p == q.(sourceRequestDigest := p.sourceRequestDigest)
  {
    hide Encoding, TextsFit;
    EncodingIgnoresRequestDigest(q, p.sourceRequestDigest);
    if DigestOf(hash)(p) == DigestOf(hash)(q) {
      EncodingInjective(p, q, instantOf);
    }
  }

  /** The limits both evaluations arrive at, before any digest is computed. */
  predicate SameLimits(a: Evaluation, b: Evaluation) {
    MaximumTtl(a) == MaximumTtl(b) && MaximumSession(a) == MaximumSession(b) && Limits(a) == Limits(b)
  }

  lemma NestedPoliciesEqualIff(narrow: Evaluation, wide: Evaluation)
    requires Narrower(narrow, wide) && Intersect(narrow).Ok? && Intersect(wide).Ok?
    ensures Intersect(narrow) == Intersect(wide) <==> SameLimits(narrow, wide)
    ensures Intersect(narrow).value.sourceRequestDigest == Intersect(wide).value.sourceRequestDigest
  {
    assert CheckRequest(narrow) == CheckRequest(wide);
  }

  lemma SamePolicy(e: Evaluation, digest: Digester)
    requires Evaluate(e, digest).Ok?
    ensures Evaluate(e, digest) == Intersect(e)
  {
  }

  /** Under a wider controller a permitted request stays permitted exactly when it stated no expectation or the wider
      controller changes none of its limits. */
  lemma WiderPermitsExactlyWhen(narrow: Evaluation, wide: Evaluation, hash: Text -> Digest, instantOf: Text -> int)
    requires Narrower(narrow, wide) && Evaluate(narrow, DigestOf(hash)).Ok?
    requires Intersect(wide).Ok? ==>
               var p, q := Evaluate(narrow, DigestOf(hash)).value, Intersect(wide).value;
               Encodable(p, instantOf) && Encodable(q, instantOf) && NoCollision(hash, p, q)
    ensures Evaluate(wide, DigestOf(hash)).Ok? <==> wide.request.policyDigest == None || SameLimits(narrow, wide)
  {
    hide Encodable, NoCollision, Intersect;
    WiderPermitsIff(narrow, wide, DigestOf(hash));
    NestedPoliciesEqualIff(narrow, wide);
    SamePolicy(narrow, DigestOf(hash));
    SameDigestIff(Intersect(narrow).value, Intersect(wide).value, hash, instantOf);
    PermittedExactlyWhen(narrow, DigestOf(hash));
  }

  /** A renewal policy still matches its lease exactly when no digest was expected or the lifetime is the one first requested. */
  lemma RenewalBindsExactlyWhen(e: Evaluation, leaseId: Text, l: LeaseData, requested: TtlSeconds, hash: Text -> Digest,
                                instantOf: Text -> int)
    requires Evaluate(e, DigestOf(hash)).Ok? && ForRenewalTtl(Evaluate(e, DigestOf(hash)).value, requested).Ok?
    requires e.requestDigest.Some? && l.binding == BindingOf(e, leaseId)
    requires var p := Evaluate(e, DigestOf(hash)).value;
      Encodable(p, instantOf) && NoCollision(hash, p, p.(requestedTtl := requested))
    ensures var renewed := ForRenewalTtl(Evaluate(e, DigestOf(hash)).value, requested).value;
      CheckPolicy(l, renewed, DigestOf(hash)).Ok? <==> e.request.policyDigest == None || requested == e.request.requestedTtl
  {
    hide Evaluate, CheckPolicy, NoCollision;
    var p := Evaluate(e, DigestOf(hash)).value;
    var renewed := p.(requestedTtl := requested);
    PermittedFacts(e, DigestOf(hash));
    RenewalPolicyBindsIff(e, leaseId, l, requested, DigestOf(hash));
    SameDigestIff(p, renewed, hash, instantOf);
  }
}
