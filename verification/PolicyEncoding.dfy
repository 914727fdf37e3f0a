/** The bytes a policy digest is computed over, and why they determine every field. */
module PolicyEncoding {
  import opened Wrappers
  import opened Contracts
  import opened Policy
  import opened Radix

  const DOMAIN := Ascii("ctxlane.effective-policy/v1") + [0]

  /** Eight bytes, most significant first. */
  function BigEndian(n: u64): (b: Text)
    ensures |b| == 8
  {
    DigitsBelow(n, 256, 8);
    Digits(n, 256, 8)
  }

  lemma NumberOfBigEndian(n: u64)
    ensures Value(BigEndian(n), 256) == n
  {
    assert Power(256, 8) == 0x1_0000_0000_0000_0000;
    ValueOfDigits(n, 256, 8);
  }

  const U64_MAX: u64 := 0xffff_ffff_ffff_ffff

  /** The length prefix, saturating when it does not fit. */
  function LengthOf(b: Text): u64 {
    if |b| <= U64_MAX then |b| else U64_MAX
  }

  datatype Field = Field(name: string, value: Text)

  function Lengthed(b: Text): Text {
    BigEndian(LengthOf(b)) + b
  }

  function EncodeField(f: Field): Text {
    Lengthed(Ascii(f.name)) + Lengthed(f.value)
  }

  function EncodeFields(fs: seq<Field>): Text {
    if fs == [] then [] else EncodeFields(fs[..|fs| - 1]) + EncodeField(fs[|fs| - 1])
  }

  // ---- Labels ----

  function ProviderLabel(p: Provider): (r: string)
    ensures |r| <= 32
  {
    if p.Claude? then "claude" else "codex"
  }

  function RoleLabel(role: AgentRole): (r: string)
    ensures |r| <= 32
  {
    match role
    case Implementer => "implementer"
    case LocalReviewer => "local-reviewer"
    case PrReviewer => "pr-reviewer"
  }

  function AuthLabel(m: AuthMode): (r: string)
    ensures |r| <= 32
  {
    match m
    case Wif => "wif"
    case SubscriptionToken => "subscription-token"
    case ApiKey => "api-key"
    case ChatgptOauth => "chatgpt-oauth"
    case AccessToken => "access-token"
  }

  function IsolationLabel(i: Isolation): (r: string)
    ensures |r| <= 32
  {
    match i
    case CredentialIsolated => "credential-isolated"
    case PerLeaseIsolated => "per-lease-isolated"
    case CopiedCredentialDevelopment => "copied-credential-development"
    case Unproven => "unproven"
  }

  function SharedIsolationLabel(i: Option<SharedIsolation>): (r: string)
    ensures |r| <= 32
  {
    match i
    case None => "none"
    case Some(Stateless) => "stateless"
    case Some(PerLease) => "per-lease-isolated"
  }

  function ConcurrencyLabel(c: ConcurrencyMode): (r: string)
    ensures |r| <= 32
  {
    if c.Exclusive? then "exclusive" else "shared"
  }

  function ProfileRefText(p: ProfileRef): (t: Text)
    ensures |t| <= |p.name| + 7
  {
    Ascii(ProviderLabel(p.provider)) + Ascii(":") + p.name
  }

  function BoolText(b: bool): Text {
    [if b then 1 else 0]
  }

  function OrderOf(o: WorkOrder): (fs: seq<Field>)
    ensures |fs| == 13
  {
    [ Field("client_request_id", o.clientRequestId),
      Field("tenant_id", o.tenantId),
      Field("work_order_id", o.workOrderId),
      Field("work_order_digest", o.workOrderDigest),
      Field("run_id", o.runId),
      Field("attempt_id", o.attemptId),
      Field("role", Ascii(RoleLabel(o.role))),
      Field("provider", Ascii(ProviderLabel(o.provider))),
      Field("profile_uid", o.profileUid),
      Field("profile_ref", ProfileRefText(o.profileRef)),
      Field("repository", o.repository),
      Field("workspace_id", o.workspaceId),
      Field("environment", o.environment) ]
  }

  function IdentityOf(p: EffectivePolicy): (fs: seq<Field>)
    ensures |fs| == 13
  {
    [ Field("caller_subject", p.callerSubject),
      Field("host_identity", p.hostIdentity),
      Field("auth_mode", Ascii(AuthLabel(p.authMode))),
      Field("isolation", Ascii(IsolationLabel(p.isolation))),
      Field("shared_state_isolation", Ascii(SharedIsolationLabel(p.sharedIsolation))),
      Field("requested_ttl_seconds", BigEndian(p.requestedTtl)),
      Field("maximum_ttl_seconds", BigEndian(p.maximumTtl)),
      Field("maximum_session_seconds", BigEndian(p.maximumSession)),
      Field("signed_expires_at", p.signedExpiresAt.wire),
      Field("concurrency_mode", Ascii(ConcurrencyLabel(p.concurrencyMode))),
      Field("require_workload_identity", BoolText(p.requirements.workloadIdentity)),
      Field("authentication_exception_acknowledged", BoolText(p.requirements.authenticationException)),
      Field("isolation_exception_acknowledged", BoolText(p.requirements.isolationException)) ]
  }

  function ClaimOf(c: CapacityClaim): (fs: seq<Field>)
    ensures |fs| == 8
  {
    [ Field("capacity_profile_uid", c.profileUid),
      Field("capacity_provider_key", Ascii(ProviderLabel(c.provider))),
      Field("capacity_caller_subject", c.callerSubject),
      Field("capacity_host_identity", c.hostIdentity),
      Field("capacity_profile_limit", BigEndian(c.limits.profile)),
      Field("capacity_provider_limit", BigEndian(c.limits.provider)),
      Field("capacity_caller_limit", BigEndian(c.limits.caller)),
      Field("capacity_host_limit", BigEndian(c.limits.host)) ]
  }

  /** Every digested field in order; only the digest of the request itself is left out. */
  function Fields(p: EffectivePolicy): seq<Field> {
    OrderOf(p.order) + IdentityOf(p) + ClaimOf(p.claim)
  }

  function Encoding(p: EffectivePolicy): Text {
    DOMAIN + EncodeFields(Fields(p))
  }

  lemma EncodeFieldsSnoc(fs: seq<Field>, f: Field)
    ensures EncodeFields(fs + [f]) == EncodeFields(fs) + EncodeField(f)
  {
    assert (fs + [f])[..|fs|] == fs;
  }

  /** A byte vector growing by whole fields. */
  class FieldBuffer {
    var bytes: Text
    const start: Text
    ghost var fields: seq<Field>

    ghost predicate Valid()
      reads this
    {
      bytes == start + EncodeFields(fields)
    }

    constructor (start: Text)
      ensures Valid() && this.start == start && fields == []
    {
      this.start, bytes, fields := start, start, [];
    }

    method Extend(more: Text)
      modifies this`bytes
      ensures bytes == old(bytes) + more
    {
      bytes := bytes + more;
    }

    method AppendField(name: string, value: Text)
      requires Valid()
      modifies this
      ensures Valid() && fields == old(fields) + [Field(name, value)]
    {
      hide BigEndian, LengthOf, Ascii, EncodeFields;
      Extend(BigEndian(LengthOf(Ascii(name))));
      Extend(Ascii(name));
      Extend(BigEndian(LengthOf(value)));
      Extend(value);
      FourParts(old(bytes), BigEndian(LengthOf(Ascii(name))), Ascii(name), BigEndian(LengthOf(value)), value);
      EncodeFieldsSnoc(fields, Field(name, value));
      fields := fields + [Field(name, value)];
      assert old(bytes) + EncodeField(Field(name, value)) == start + (EncodeFields(old(fields)) + EncodeField(Field(name, value)));
    }

    method NumberField(name: string, value: u64)
      requires Valid()
      modifies this
      ensures Valid() && fields == old(fields) + [Field(name, BigEndian(value))]
    {
      AppendField(name, BigEndian(value));
    }

    method BoolField(name: string, value: bool)
      requires Valid()
      modifies this
      ensures Valid() && fields == old(fields) + [Field(name, BoolText(value))]
    {
      AppendField(name, [if value then 1 else 0]);
    }

    method OrderFields(o: WorkOrder)
      requires Valid()
      modifies this
      ensures Valid() && fields == old(fields) + OrderOf(o)
    {
      hide Valid, Ascii, ProfileRefText;
      AppendField("client_request_id", o.clientRequestId);
      AppendField("tenant_id", o.tenantId);
      AppendField("work_order_id", o.workOrderId);
      AppendField("work_order_digest", o.workOrderDigest);
      AppendField("run_id", o.runId);
      AppendField("attempt_id", o.attemptId);
      AppendField("role", Ascii(RoleLabel(o.role)));
      AppendField("provider", Ascii(ProviderLabel(o.provider)));
      AppendField("profile_uid", o.profileUid);
      AppendField("profile_ref", ProfileRefText(o.profileRef));
      AppendField("repository", o.repository);
      AppendField("workspace_id", o.workspaceId);
      AppendField("environment", o.environment);
    }

    method IdentityFields(p: EffectivePolicy)
      requires Valid()
      modifies this
      ensures Valid() && fields == old(fields) + IdentityOf(p)
    {
      hide Valid, Ascii, BigEndian, BoolText, AuthLabel, IsolationLabel, SharedIsolationLabel, ConcurrencyLabel;
      AppendField("caller_subject", p.callerSubject);
      AppendField("host_identity", p.hostIdentity);
      AppendField("auth_mode", Ascii(AuthLabel(p.authMode)));
      AppendField("isolation", Ascii(IsolationLabel(p.isolation)));
      AppendField("shared_state_isolation", Ascii(SharedIsolationLabel(p.sharedIsolation)));
      NumberField("requested_ttl_seconds", p.requestedTtl);
      NumberField("maximum_ttl_seconds", p.maximumTtl);
      NumberField("maximum_session_seconds", p.maximumSession);
      AppendField("signed_expires_at", p.signedExpiresAt.wire);
      AppendField("concurrency_mode", Ascii(ConcurrencyLabel(p.concurrencyMode)));
      BoolField("require_workload_identity", p.requirements.workloadIdentity);
      BoolField("authentication_exception_acknowledged", p.requirements.authenticationException);
      BoolField("isolation_exception_acknowledged", p.requirements.isolationException);
    }

    method ClaimFields(c: CapacityClaim)
      requires Valid()
      modifies this
      ensures Valid() && fields == old(fields) + ClaimOf(c)
    {
      hide Valid, Ascii, BigEndian;
      AppendField("capacity_profile_uid", c.profileUid);
      AppendField("capacity_provider_key", Ascii(ProviderLabel(c.provider)));
      AppendField("capacity_caller_subject", c.callerSubject);
      AppendField("capacity_host_identity", c.hostIdentity);
      NumberField("capacity_profile_limit", c.limits.profile);
      NumberField("capacity_provider_limit", c.limits.provider);
      NumberField("capacity_caller_limit", c.limits.caller);
      NumberField("capacity_host_limit", c.limits.host);
    }
  }

  lemma FourParts(start: Text, a: Text, b: Text, c: Text, d: Text)
    ensures start + a + b + c + d == start + ((a + b) + (c + d))
  {
  }

  /** The bytes handed to the hash. */
  method EncodePolicy(p: EffectivePolicy) returns (encoded: Text)
    ensures encoded == Encoding(p)
  {
    hide OrderOf, IdentityOf, ClaimOf, EncodeFields;
    var buffer := new FieldBuffer(DOMAIN);
    buffer.OrderFields(p.order);
    buffer.IdentityFields(p);
    buffer.ClaimFields(p.claim);
    encoded := buffer.bytes;
    assert buffer.fields == Fields(p);
  }
}
