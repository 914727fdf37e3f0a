/** One request that can be received, for which a digest expectation breaks narrowing and renewal. */
module PolicyFindings {
  import opened Wrappers
  import opened Contracts
  import opened Policy
  import opened PolicyEncoding
  import opened PolicyDecoding
  import opened PolicyDigests
  import opened LeaseModel
  import opened LeasePolicy
  import opened WireTypes

  function Zeros(n: nat): (t: Text)
    ensures |t| == n
  {
    seq(n, _ => 48)
  }

  const UID := Ascii("profile_") + Zeros(26)
  const ANY_DIGEST := Ascii("sha256:") + Zeros(64)
  const MAIN := ProfileRef(Claude, Ascii("main"))
  const CALLER := Ascii("caller:controller")
  const HOST := Ascii("host:runner")
  const MIDNIGHT := UtcTimestamp(Ascii("1970-01-01T00:00:00Z"), 0)
  const FOUR := UtcTimestamp(Ascii("1970-01-01T04:00:00Z"), 4 * 3600 * NANOS_PER_SECOND)

  const ORDER := WorkOrder(Ascii("request"), Ascii("tenant"), Ascii("order"), ANY_DIGEST, Ascii("run"), Ascii("attempt"),
                           Implementer, Claude, UID, MAIN, Ascii("github:acme"), Ascii("workspace"),
                           LOCAL_DEVELOPMENT)

  /** A request for a minute's lease, under a controller whose ceiling is `ceiling` seconds. */
  function Example(ceiling: TtlSeconds): Evaluation {
    Evaluation(
      Request(ORDER, Authorization(ORDER, MIDNIGHT, FOUR, 600, 600), 60, None), Some(ANY_DIGEST),
      ProfilePolicy(UID, MAIN, Claude, Wif, true, {LOCAL_DEVELOPMENT}, [Implementer], {CALLER}, 600, 600, 1,
                    Exclusive, None, Requirements(false, false, false)),
      ControllerPolicy(Any, Any, Any, Any, Any, Any, ceiling, 600, CapacityLimits(1, 1, 1, 1), false, false),
      CALLER, HOST, true, Ready(CredentialIsolated, None), CapacityUsage(0, 0, 0, 0), MIDNIGHT)
  }

  predicate Letters(s: string) {
    forall i | 0 <= i < |s| :: 'a' <= s[i] <= 'z'
  }

  lemma LettersMakeWord(s: string, maximum: nat, extra: string)
    requires Letters(s) && 1 <= |s| <= maximum
    ensures Word(Ascii(s), maximum, extra)
  {
    var t := Ascii(s);
    forall i | 0 <= i < |t|
      ensures Alphanumeric(t[i])
    {
      assert 'a' <= s[i] <= 'z';
    }
  }

  lemma IdsReceivable()
    ensures SafeId(ORDER.clientRequestId) && SafeId(ORDER.tenantId) && SafeId(ORDER.workOrderId) && SafeId(ORDER.runId)
    ensures SafeId(ORDER.attemptId) && SafeId(ORDER.workspaceId) && ProfileName(MAIN.name)
  {
    hide Word, Ascii;
    LettersMakeWord("request", 128, "-_.:@+");
    LettersMakeWord("tenant", 128, "-_.:@+");
    LettersMakeWord("order", 128, "-_.:@+");
    LettersMakeWord("run", 128, "-_.:@+");
    LettersMakeWord("attempt", 128, "-_.:@+");
    LettersMakeWord("workspace", 128, "-_.:@+");
    LettersMakeWord("main", 64, "-_");
  }

  lemma EnvironmentReceivable()
    ensures SafeId(LOCAL_DEVELOPMENT)
  {
    var s, t := "local-development", LOCAL_DEVELOPMENT;
    assert Ascii("-_.:@+")[0] == 45;
    forall i | 0 <= i < |t|
      ensures Alphanumeric(t[i]) || t[i] == 45
    {
      assert 'a' <= s[i] <= 'z' || s[i] == '-';
    }
  }

  lemma DigestReceivable()
    ensures DigestText(ANY_DIGEST) && ProfileUidText(UID)
  {
    assert ANY_DIGEST[7..] == Zeros(64) && UID[8..] == Zeros(26);
  }

  lemma ReferencesReceivable()
    ensures Reference(CALLER, "caller:") && Reference(HOST, "host:")
  {
    hide Word;
    assert CALLER[7..] == Ascii("controller") && CALLER[..7] == Ascii("caller:");
    assert HOST[5..] == Ascii("runner") && HOST[..5] == Ascii("host:");
    LettersMakeWord("controller", 128, "._-");
    LettersMakeWord("runner", 128, "._-");
  }

  lemma RepositoryReceivable()
    ensures Repository(ORDER.repository)
  {
    hide Word;
    var t := ORDER.repository;
    assert t[..6] == Ascii("github") && t[6] == 58 && t[7..] == Ascii("acme");
    LettersMakeWord("github", 64, "-_.@+");
    LettersMakeWord("acme", 128, "-_.@+");
    NoSlash("acme");
    assert t[7..][..4] == t[7..];
  }

  lemma {:induction false} NoSlash(s: string)
    requires Letters(s)
    ensures FirstSlash(Ascii(s)) == |s|
    decreases |s|
  {
    if s != [] {
      assert Ascii(s)[1..] == Ascii(s[1..]) && Ascii(s)[0] == s[0] as int;
      NoSlash(s[1..]);
    }
  }

  predicate DigitsIn(s: string, from: nat, to: nat) {
    to <= |s| && forall i | from <= i < to :: '0' <= s[i] <= '9'
  }

  lemma DigitsAreNumeric(s: string, from: nat, to: nat)
    requires from <= to && DigitsIn(s, from, to)
    ensures AllNumeric(Ascii(s)[from..to])
  {
  }

  /** A date and time to the second. */
  lemma WholeSecondShape(s: string)
    requires |s| == 20 && s[4] == '-' && s[7] == '-' && s[10] == 'T' && s[13] == ':' && s[16] == ':' && s[19] == 'Z'
    requires DigitsIn(s, 0, 4) && DigitsIn(s, 5, 7) && DigitsIn(s, 8, 10) && DigitsIn(s, 11, 13) && DigitsIn(s, 14, 16)
    requires DigitsIn(s, 17, 19) && s[0] != '0' && s[17] != '6'
    ensures CanonicalUtcShape(Ascii(s))
  {
    hide AllNumeric;
    DigitsAreNumeric(s, 0, 4);
    DigitsAreNumeric(s, 5, 7);
    DigitsAreNumeric(s, 8, 10);
    DigitsAreNumeric(s, 11, 13);
    DigitsAreNumeric(s, 14, 16);
    DigitsAreNumeric(s, 17, 19);
    assert Ascii(s)[0..4][0] != Ascii("0000")[0];
    assert Ascii(s)[19..|s| - 1] == [];
  }

  lemma TimestampsReceivable()
    ensures CanonicalUtcShape(MIDNIGHT.wire) && CanonicalUtcShape(FOUR.wire)
  {
    hide CanonicalUtcShape, Ascii;
    WholeSecondShape("1970-01-01T00:00:00Z");
    WholeSecondShape("1970-01-01T04:00:00Z");
  }

  lemma ExampleReceivable(ceiling: TtlSeconds)
    ensures RequestReceivable(Example(ceiling).request)
  {
    hide SafeId, DigestText, ProfileUidText, ProfileName, Repository, CanonicalUtcShape;
    IdsReceivable();
    EnvironmentReceivable();
    DigestReceivable();
    RepositoryReceivable();
    TimestampsReceivable();
  }

  // ---- Received texts always fit ----

  predicate EvaluationReceivable(e: Evaluation) {
    RequestReceivable(e.request) && Reference(e.callerSubject, "caller:") && Reference(e.hostIdentity, "host:")
  }

  lemma OrderTextsFit(o: WorkOrder)
    requires OrderReceivable(o)
    ensures Short(o.clientRequestId) && Short(o.tenantId) && Short(o.workOrderId) && Short(o.workOrderDigest)
    ensures Short(o.runId) && Short(o.attemptId) && Short(o.profileUid) && Short(o.profileRef.name)
    ensures Short(o.repository) && Short(o.workspaceId) && Short(o.environment)
  {
    hide Ascii;
  }

  lemma ReceivedShort(e: Evaluation)
    requires EvaluationReceivable(e)
    ensures Short(e.callerSubject) && Short(e.hostIdentity) && Short(e.request.authorization.expiresAt.wire)
  {
    hide Ascii, OrderReceivable;
  }

  /** Every policy permitted to a request that can be received can be encoded without saturating a length. */
  lemma ReceivedTextsFit(e: Evaluation, digest: Digester)
    requires EvaluationReceivable(e) && Evaluate(e, digest).Ok?
    ensures TextsFit(Evaluate(e, digest).value)
  {
    hide OrderReceivable, CanonicalUtcShape, Reference, Ascii, ValidateAuthorization;
    OrderTextsFit(e.request.order);
    ReceivedShort(e);
  }

  // ---- What the example shows ----

  ghost predicate DigestHash(hash: Text -> Digest) {
    forall t: Text :: DigestText(hash(t))
  }

  lemma ExamplePermitted(ceiling: TtlSeconds, digest: Digester)
    requires ceiling >= 60
    ensures Evaluate(Example(ceiling), digest).Ok? && Evaluate(Example(ceiling), digest) == Intersect(Example(ceiling))
    ensures var p := Intersect(Example(ceiling)).value;
      TextsFit(p) && p.signedExpiresAt == FOUR && p.requestedTtl == 60
      && p.maximumTtl == Min(600, ceiling) && p.maximumSession == 600
  {
    hide Ascii;
  }

  lemma ExampleNarrower(narrow: TtlSeconds, wide: TtlSeconds)
    requires narrow <= wide
    ensures Narrower(Example(narrow), Example(wide))
  {
  }

  /** A receivable request whose expectation the narrower of two controllers meets and the wider one does not. */
  lemma ReceivedExpectationBreaksNarrowing(hash: Text -> Digest, instantOf: Text -> int)
    returns (narrow: Evaluation, wide: Evaluation)
    requires DigestHash(hash) && instantOf(FOUR.wire) == FOUR.instant
    requires NoCollision(hash, Intersect(Example(60)).value, Intersect(Example(120)).value)
    ensures EvaluationReceivable(narrow) && Narrower(narrow, wide)
    ensures Evaluate(narrow, DigestOf(hash)).Ok? && Evaluate(wide, DigestOf(hash)) == Err(PolicyDigestMismatch)
  {
    hide EvaluationReceivable, Evaluate, Intersect, TextsFit, Encoding, NoCollision, Narrower;
    var digest := DigestOf(hash);
    ExamplePermitted(60, digest);
    ExamplePermitted(120, digest);
    ExampleNarrower(60, 120);
    var p, q := Intersect(Example(60)).value, Intersect(Example(120)).value;
    DigestIgnoresRequestDigest(hash);
    SameDigestIff(p, q, hash, instantOf);
    narrow, wide := Expecting(Example(60), digest(p), ANY_DIGEST), Expecting(Example(120), digest(p), ANY_DIGEST);
    ExpectationBreaksNarrowing(Example(60), Example(120), digest(p), ANY_DIGEST, digest);
    ReceivableExpecting(hash, 60, p);
  }

  lemma ReceivableExpecting(hash: Text -> Digest, ceiling: TtlSeconds, p: EffectivePolicy)
    requires DigestHash(hash)
    ensures EvaluationReceivable(Expecting(Example(ceiling), DigestOf(hash)(p), ANY_DIGEST))
  {
    hide OrderReceivable, CanonicalUtcShape, DigestText, Encoding, Reference;
    ExampleReceivable(ceiling);
    ReferencesReceivable();
    assert DigestText(hash(Encoding(p)));
  }

  /** A receivable request whose lease accepts the permitted policy and no policy renewed for another lifetime. */
  lemma ReceivedRenewalStopsMatching(hash: Text -> Digest, instantOf: Text -> int, leaseId: Text, l: LeaseData,
                                     requested: TtlSeconds)
    returns (e: Evaluation)
    requires DigestHash(hash) && instantOf(FOUR.wire) == FOUR.instant
    requires requested <= 120 && requested != 60
    requires NoCollision(hash, Intersect(Example(120)).value, Intersect(Example(120)).value.(requestedTtl := requested))
    ensures EvaluationReceivable(e) && e.requestDigest.Some? && Evaluate(e, DigestOf(hash)).Ok?
    ensures var p := Evaluate(e, DigestOf(hash)).value;
      ForRenewalTtl(p, requested).Ok?
      && (l.binding == BindingOf(e, leaseId) ==>
            CheckPolicy(l, p, DigestOf(hash)).Ok?
            && CheckPolicy(l, ForRenewalTtl(p, requested).value, DigestOf(hash)).Err?)
  {
    hide EvaluationReceivable, Evaluate, Intersect, TextsFit, Encoding, NoCollision, CheckPolicy;
    var digest := DigestOf(hash);
    ExamplePermitted(120, digest);
    var p := Intersect(Example(120)).value;
    DigestIgnoresRequestDigest(hash);
    e := Expecting(Example(120), digest(p), ANY_DIGEST);
    ExpectingEvaluates(Example(120), digest(p), ANY_DIGEST, digest);
    ReceivableExpecting(hash, 120, p);
    var stated := p.(sourceRequestDigest := ANY_DIGEST);
    TextsFitStill(p);
    CollisionIgnoresRequestDigest(hash, p, requested);
    assert e.request.requestedTtl == 60 && stated.(requestedTtl := 60) == stated;
    if l.binding == BindingOf(e, leaseId) {
      RenewalBindsExactlyWhen(e, leaseId, l, requested, hash, instantOf);
      CollisionFreeWithItself(hash, stated);
      RenewalBindsExactlyWhen(e, leaseId, l, 60, hash, instantOf);
    }
  }

  lemma CollisionIgnoresRequestDigest(hash: Text -> Digest, p: EffectivePolicy, requested: TtlSeconds)
    requires NoCollision(hash, p, p.(requestedTtl := requested))
    ensures var stated := p.(sourceRequestDigest := ANY_DIGEST); NoCollision(hash, stated, stated.(requestedTtl := requested))
  {
    hide Encoding;
    EncodingIgnoresRequestDigest(p, ANY_DIGEST);
    EncodingIgnoresRequestDigest(p.(requestedTtl := requested), ANY_DIGEST);
  }

  lemma CollisionFreeWithItself(hash: Text -> Digest, p: EffectivePolicy)
    ensures NoCollision(hash, p, p)
  {
  }

  lemma TextsFitStill(p: EffectivePolicy)
    requires TextsFit(p)
    ensures TextsFit(p.(sourceRequestDigest := ANY_DIGEST))
  {
  }
}
