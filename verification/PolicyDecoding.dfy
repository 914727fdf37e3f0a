/** An explicit decoder for the digested bytes: it recovers every field the digest covers. */
module PolicyDecoding {
  import opened Wrappers
  import opened Contracts
  import opened Policy
  import opened PolicyEncoding
  import opened Radix

  /** Split off one length-prefixed string. */
  function TakeLengthed(b: Text): (r: Option<(Text, Text)>)
    ensures r.Some? ==> |r.value.1| < |b|
  {
    if |b| < 8 then None
    else
      var n := Value(b[..8], 256);
      if |b| - 8 < n then None else Some((b[8..8 + n], b[8 + n..]))
  }

  function ParseFields(b: Text): Option<seq<(Text, Text)>> {
    if b == [] then Some([])
    else
      var name :- TakeLengthed(b);
      var value :- TakeLengthed(name.1);
      var rest :- ParseFields(value.1);
      Some([(name.0, value.0)] + rest)
  }

  function Named(fs: seq<Field>): seq<(Text, Text)> {
    seq(|fs|, i requires 0 <= i < |fs| => (Ascii(fs[i].name), fs[i].value))
  }

  predicate FieldFits(f: Field) { |f.name| <= U64_MAX && |f.value| <= U64_MAX }

  predicate Fits(fs: seq<Field>) {
    forall i | 0 <= i < |fs| :: FieldFits(fs[i])
  }

  lemma TakeWhatWasLengthed(value: Text, rest: Text)
    requires |value| <= U64_MAX
    ensures Lengthed(value) + rest != [] && TakeLengthed(Lengthed(value) + rest) == Some((value, rest))
  {
    NumberOfBigEndian(|value|);
    var b := Lengthed(value) + rest;
    assert b[..8] == BigEndian(|value|);
    assert b[8..8 + |value|] == value && b[8 + |value|..] == rest;
  }

  lemma {:induction false} EncodeFieldsCons(fs: seq<Field>)
    requires fs != []
    ensures EncodeFields(fs) == EncodeField(fs[0]) + EncodeFields(fs[1..])
  {
    hide EncodeField;
    if |fs| > 1 {
      var n := |fs| - 1;
      EncodeFieldsCons(fs[..n]);
      assert fs[..n][1..] == fs[1..][..n - 1];
      assert fs[1..][n - 1] == fs[n];
    } else {
      assert fs[..0] == fs[1..];
    }
  }

  lemma {:induction false} ParseWhatWasEncoded(fs: seq<Field>)
    requires Fits(fs)
    ensures ParseFields(EncodeFields(fs)) == Some(Named(fs))
  {
    hide Lengthed, TakeLengthed, Ascii;
    if fs == [] {
      assert Named(fs) == [];
    } else {
      var f, rest := fs[0], EncodeFields(fs[1..]);
      EncodeFieldsCons(fs);
      ParseWhatWasEncoded(fs[1..]);
      assert EncodeFields(fs) == Lengthed(Ascii(f.name)) + (Lengthed(f.value) + rest);
      TakeWhatWasLengthed(Ascii(f.name), Lengthed(f.value) + rest);
      TakeWhatWasLengthed(f.value, rest);
      assert Named(fs) == [(Ascii(f.name), f.value)] + Named(fs[1..]);
    }
  }

  // ---- One value at a time ----

  function ProviderFrom(t: Text): Option<Provider> {
    if t == Ascii("claude") then Some(Claude) else if t == Ascii("codex") then Some(Codex) else None
  }

  function RoleFrom(t: Text): Option<AgentRole> {
    if t == Ascii("implementer") then Some(Implementer)
    else if t == Ascii("local-reviewer") then Some(LocalReviewer)
    else if t == Ascii("pr-reviewer") then Some(PrReviewer)
    else None
  }

  function AuthFrom(t: Text): Option<AuthMode> {
    if t == Ascii("wif") then Some(Wif)
    else if t == Ascii("subscription-token") then Some(SubscriptionToken)
    else if t == Ascii("api-key") then Some(ApiKey)
    else if t == Ascii("chatgpt-oauth") then Some(ChatgptOauth)
    else if t == Ascii("access-token") then Some(AccessToken)
    else None
  }

  function IsolationFrom(t: Text): Option<Isolation> {
    if t == Ascii("credential-isolated") then Some(CredentialIsolated)
    else if t == Ascii("per-lease-isolated") then Some(PerLeaseIsolated)
    else if t == Ascii("copied-credential-development") then Some(CopiedCredentialDevelopment)
    else if t == Ascii("unproven") then Some(Unproven)
    else None
  }

  function SharedIsolationFrom(t: Text): Option<Option<SharedIsolation>> {
    if t == Ascii("none") then Some(None)
    else if t == Ascii("stateless") then Some(Some(Stateless))
    else if t == Ascii("per-lease-isolated") then Some(Some(PerLease))
    else None
  }

  function ConcurrencyFrom(t: Text): Option<ConcurrencyMode> {
    if t == Ascii("exclusive") then Some(Exclusive) else if t == Ascii("shared") then Some(Shared) else None
  }

  function ProfileRefFrom(t: Text): Option<ProfileRef> {
    if Ascii("claude:") <= t then Some(ProfileRef(Claude, t[7..]))
    else if Ascii("codex:") <= t then Some(ProfileRef(Codex, t[6..]))
    else None
  }

  function BoolFrom(t: Text): Option<bool> {
    if t == [1] then Some(true) else if t == [0] then Some(false) else None
  }

  function U64From(t: Text): Option<u64> {
    if |t| == 8 && Value(t, 256) <= U64_MAX then Some(Value(t, 256)) else None
  }

  function LimitFrom(t: Text): Option<NonZeroU32> {
    if |t| == 8 && 1 <= Value(t, 256) < 0x1_0000_0000 then Some(Value(t, 256)) else None
  }

  lemma LabelsRoundTrip(role: AgentRole, provider: Provider, auth: AuthMode, isolation: Isolation,
                        shared: Option<SharedIsolation>, mode: ConcurrencyMode)
    ensures RoleFrom(Ascii(RoleLabel(role))) == Some(role)
    ensures ProviderFrom(Ascii(ProviderLabel(provider))) == Some(provider)
    ensures AuthFrom(Ascii(AuthLabel(auth))) == Some(auth)
    ensures IsolationFrom(Ascii(IsolationLabel(isolation))) == Some(isolation)
    ensures SharedIsolationFrom(Ascii(SharedIsolationLabel(shared))) == Some(shared)
    ensures ConcurrencyFrom(Ascii(ConcurrencyLabel(mode))) == Some(mode)
  {
    assert Ascii("implementer")[0] == 'i' as int && Ascii("pr-reviewer")[0] == 'p' as int;
  }

  lemma ProfileRefRoundTrips(p: ProfileRef)
    ensures ProfileRefFrom(ProfileRefText(p)) == Some(p)
  {
    var t := ProfileRefText(p);
    if p.provider == Claude {
      assert t[..7] == Ascii("claude:");
      assert t[7..] == p.name;
    } else {
      assert t[..6] == Ascii("codex:");
      assert t[1] == 'o' as int && Ascii("claude:")[1] == 'l' as int;
      assert t[6..] == p.name;
    }
  }

  // ---- The three groups of fields ----

  function OrderFrom(vs: seq<Text>): Option<WorkOrder>
    requires |vs| == 13
  {
    var role :- RoleFrom(vs[6]);
    var provider :- ProviderFrom(vs[7]);
    var profileRef :- ProfileRefFrom(vs[9]);
    Some(WorkOrder(vs[0], vs[1], vs[2], vs[3], vs[4], vs[5], role, provider, vs[8], profileRef, vs[10], vs[11], vs[12]))
  }

  function ClaimFrom(vs: seq<Text>): Option<CapacityClaim>
    requires |vs| == 8
  {
    var provider :- ProviderFrom(vs[1]);
    var profileLimit :- LimitFrom(vs[4]);
    var providerLimit :- LimitFrom(vs[5]);
    var callerLimit :- LimitFrom(vs[6]);
    var hostLimit :- LimitFrom(vs[7]);
    Some(CapacityClaim(vs[0], provider, vs[2], vs[3], CapacityLimits(profileLimit, providerLimit, callerLimit, hostLimit)))
  }

  /** `instantOf` reads a timestamp; the digest of the request itself is not in the bytes and comes back empty. */
  function PolicyFrom(order: WorkOrder, vs: seq<Text>, claim: CapacityClaim, instantOf: Text -> int): Option<EffectivePolicy>
    requires |vs| == 13
  {
    var auth :- AuthFrom(vs[2]);
    var isolation :- IsolationFrom(vs[3]);
    var shared :- SharedIsolationFrom(vs[4]);
    var requestedTtl :- U64From(vs[5]);
    var maximumTtl :- U64From(vs[6]);
    var maximumSession :- U64From(vs[7]);
    var mode :- ConcurrencyFrom(vs[9]);
    var workload :- BoolFrom(vs[10]);
    var authException :- BoolFrom(vs[11]);
    var isolationException :- BoolFrom(vs[12]);
    Some(EffectivePolicy([], order, vs[0], vs[1], auth, isolation, shared, requestedTtl, maximumTtl, maximumSession,
                         UtcTimestamp(vs[8], instantOf(vs[8])), mode,
                         Requirements(workload, authException, isolationException), claim))
  }

  function Values(fs: seq<(Text, Text)>): (vs: seq<Text>)
    ensures |vs| == |fs|
  {
    seq(|fs|, i requires 0 <= i < |fs| => fs[i].1)
  }

  /** The names under which the digest binds each group of fields, in the order it takes them. */
  const ORDER_NAMES: seq<string> :=
    ["client_request_id", "tenant_id", "work_order_id", "work_order_digest", "run_id", "attempt_id", "role",
     "provider", "profile_uid", "profile_ref", "repository", "workspace_id", "environment"]

  const IDENTITY_NAMES: seq<string> :=
    ["caller_subject", "host_identity", "auth_mode", "isolation", "shared_state_isolation", "requested_ttl_seconds",
     "maximum_ttl_seconds", "maximum_session_seconds", "signed_expires_at", "concurrency_mode",
     "require_workload_identity", "authentication_exception_acknowledged", "isolation_exception_acknowledged"]

  const CLAIM_NAMES: seq<string> :=
    ["capacity_profile_uid", "capacity_provider_key", "capacity_caller_subject", "capacity_host_identity",
     "capacity_profile_limit", "capacity_provider_limit", "capacity_caller_limit", "capacity_host_limit"]

  predicate Labelled(fs: seq<(Text, Text)>, names: seq<string>) {
    |fs| == |names| && forall i | 0 <= i < |fs| :: fs[i].0 == Ascii(names[i])
  }

  /** Fields are taken by name, behind the protocol's own tag and a zero byte. */
  function DecodePolicy(encoded: Text, instantOf: Text -> int): Option<EffectivePolicy> {
    var tag := Ascii("ctxlane.effective-policy/v1") + [0];
    if !(tag <= encoded) then None
    else
      var fs :- ParseFields(encoded[|tag|..]);
      if |fs| != 34 || !Labelled(fs[..13], ORDER_NAMES) || !Labelled(fs[13..26], IDENTITY_NAMES)
         || !Labelled(fs[26..], CLAIM_NAMES)
      then None
      else
        var vs := Values(fs);
        var order :- OrderFrom(vs[..13]);
        var claim :- ClaimFrom(vs[26..]);
        PolicyFrom(order, vs[13..26], claim, instantOf)
  }

  function ValuesOf(fs: seq<Field>): (vs: seq<Text>)
    ensures |vs| == |fs|
  {
    seq(|fs|, i requires 0 <= i < |fs| => fs[i].value)
  }

  lemma OrderRoundTrips(o: WorkOrder)
    ensures OrderFrom(ValuesOf(OrderOf(o))) == Some(o)
  {
    hide Ascii;
    LabelsRoundTrip(o.role, o.provider, Wif, Unproven, None, Shared);
    ProfileRefRoundTrips(o.profileRef);
  }

  lemma ClaimRoundTrips(c: CapacityClaim)
    ensures ClaimFrom(ValuesOf(ClaimOf(c))) == Some(c)
  {
    hide Ascii, BigEndian;
    LabelsRoundTrip(Implementer, c.provider, Wif, Unproven, None, Shared);
    NumberOfBigEndian(c.limits.profile);
    NumberOfBigEndian(c.limits.provider);
    NumberOfBigEndian(c.limits.caller);
    NumberOfBigEndian(c.limits.host);
  }

  lemma NumberRoundTrips(n: u64, b: bool)
    ensures U64From(BigEndian(n)) == Some(n) && BoolFrom(BoolText(b)) == Some(b)
  {
    hide BigEndian;
    NumberOfBigEndian(n);
  }

  lemma IdentityRoundTrips(p: EffectivePolicy, instantOf: Text -> int)
    requires p.signedExpiresAt.instant == instantOf(p.signedExpiresAt.wire)
    ensures PolicyFrom(p.order, ValuesOf(IdentityOf(p)), p.claim, instantOf) == Some(p.(sourceRequestDigest := []))
  {
    hide Ascii, BigEndian, U64From, BoolFrom, BoolText, AuthFrom, IsolationFrom, SharedIsolationFrom, ConcurrencyFrom, AuthLabel,
      IsolationLabel, SharedIsolationLabel, ConcurrencyLabel;
    LabelsRoundTrip(p.order.role, p.order.provider, p.authMode, p.isolation, p.sharedIsolation, p.concurrencyMode);
    NumberRoundTrips(p.requestedTtl, p.requirements.workloadIdentity);
    NumberRoundTrips(p.maximumTtl, p.requirements.authenticationException);
    NumberRoundTrips(p.maximumSession, p.requirements.isolationException);
  }

  predicate Short(t: Text) { |t| <= U64_MAX - 7 }

  /** Every text in the policy has a length that 64 bits can hold, its profile reference included. */
  predicate TextsFit(p: EffectivePolicy) {
    var o, c := p.order, p.claim;
    && Short(o.clientRequestId) && Short(o.tenantId) && Short(o.workOrderId) && Short(o.workOrderDigest) && Short(o.runId)
    && Short(o.attemptId) && Short(o.profileUid) && Short(o.profileRef.name) && Short(o.repository) && Short(o.workspaceId)
    && Short(o.environment) && Short(p.callerSubject) && Short(p.hostIdentity) && Short(p.signedExpiresAt.wire)
    && Short(c.profileUid) && Short(c.callerSubject) && Short(c.hostIdentity)
  }

  lemma GroupsFit(a: seq<Field>, b: seq<Field>)
    requires Fits(a) && Fits(b)
    ensures Fits(a + b)
  {
  }

  lemma FieldsFit(p: EffectivePolicy)
    requires TextsFit(p)
    ensures Fits(Fields(p))
  {
    OrderFits(p);
    IdentityFits(p);
    ClaimFits(p);
    GroupsFit(OrderOf(p.order), IdentityOf(p));
    GroupsFit(OrderOf(p.order) + IdentityOf(p), ClaimOf(p.claim));
  }

  lemma OrderFits(p: EffectivePolicy)
    requires TextsFit(p)
    ensures Fits(OrderOf(p.order))
  {
    hide Ascii, RoleLabel, ProviderLabel, ProfileRefText;
  }

  lemma IdentityFits(p: EffectivePolicy)
    requires TextsFit(p)
    ensures Fits(IdentityOf(p))
  {
    hide Ascii, AuthLabel, IsolationLabel, SharedIsolationLabel, ConcurrencyLabel, BigEndian;
  }

  lemma ClaimFits(p: EffectivePolicy)
    requires TextsFit(p)
    ensures Fits(ClaimOf(p.claim))
  {
    hide Ascii, ProviderLabel, BigEndian;
  }

  /** Decoding the encoding recovers every field but the digest of the request. */
  lemma DecodeWhatWasEncoded(p: EffectivePolicy, instantOf: Text -> int)
    requires TextsFit(p) && p.signedExpiresAt.instant == instantOf(p.signedExpiresAt.wire)
    ensures DecodePolicy(Encoding(p), instantOf) == Some(p.(sourceRequestDigest := []))
  {
    hide ParseFields, EncodeFields, OrderOf, IdentityOf, ClaimOf, OrderFrom, ClaimFrom, PolicyFrom, Named, Fits, TextsFit,
      ValuesOf, Labelled;
    var fs := Fields(p);
    FieldsFit(p);
    assert Encoding(p)[|DOMAIN|..] == EncodeFields(fs);
    ParseWhatWasEncoded(fs);
    ThreeGroups(p);
    GroupsLabelled(p);
    OrderRoundTrips(p.order);
    ClaimRoundTrips(p.claim);
    IdentityRoundTrips(p, instantOf);
  }

  lemma ThreeGroups(p: EffectivePolicy)
    ensures var vs := Values(Named(Fields(p)));
      && |Named(Fields(p))| == 34 && vs[..13] == ValuesOf(OrderOf(p.order))
      && vs[13..26] == ValuesOf(IdentityOf(p)) && vs[26..] == ValuesOf(ClaimOf(p.claim))
  {
    hide OrderOf, IdentityOf, ClaimOf, Ascii;
  }

  lemma GroupsLabelled(p: EffectivePolicy)
    ensures var fs := Named(Fields(p));
      Labelled(fs[..13], ORDER_NAMES) && Labelled(fs[13..26], IDENTITY_NAMES) && Labelled(fs[26..], CLAIM_NAMES)
  {
    hide Ascii, OrderOf, IdentityOf, ClaimOf, Labelled;
    var fs := Named(Fields(p));
    assert fs[..13] == Named(OrderOf(p.order));
    assert fs[13..26] == Named(IdentityOf(p));
    assert fs[26..] == Named(ClaimOf(p.claim));
    OrderLabelled(p);
    IdentityLabelled(p);
    ClaimLabelled(p);
  }

  lemma OrderLabelled(p: EffectivePolicy)
    ensures Labelled(Named(OrderOf(p.order)), ORDER_NAMES)
  {
    hide Ascii, RoleLabel, ProviderLabel, ProfileRefText;
  }

  lemma IdentityLabelled(p: EffectivePolicy)
    ensures Labelled(Named(IdentityOf(p)), IDENTITY_NAMES)
  {
    hide Ascii, AuthLabel, IsolationLabel, SharedIsolationLabel, ConcurrencyLabel, BigEndian, BoolText;
  }

  lemma ClaimLabelled(p: EffectivePolicy)
    ensures Labelled(Named(ClaimOf(p.claim)), CLAIM_NAMES)
  {
    hide Ascii, ProviderLabel, BigEndian;
  }

  /** Policies with the same digested bytes agree in everything but the digest of their request. */
  lemma EncodingInjective(p: EffectivePolicy, q: EffectivePolicy, instantOf: Text -> int)
    requires TextsFit(p) && p.signedExpiresAt.instant == instantOf(p.signedExpiresAt.wire)
    requires TextsFit(q) && q.signedExpiresAt.instant == instantOf(q.signedExpiresAt.wire)
    requires Encoding(p) == Encoding(q)
    ensures p == q.(sourceRequestDigest := p.sourceRequestDigest)
  {
    DecodeWhatWasEncoded(p, instantOf);
    DecodeWhatWasEncoded(q, instantOf);
  }
}
