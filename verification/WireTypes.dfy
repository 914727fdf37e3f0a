/** The texts a received request may hold: what the parsers of its identifiers, references and timestamps accept. */
module WireTypes {
  import opened Wrappers
  import opened Contracts
  import ProfileUid

  predicate Numeric(b: byte) { 48 <= b <= 57 }

  predicate Alphanumeric(b: byte) { Numeric(b) || 65 <= b <= 90 || 97 <= b <= 122 }

  /** Starts with a letter or digit, and goes on with those and the `extra` characters. */
  predicate Word(t: Text, maximum: nat, extra: string) {
    1 <= |t| <= maximum && Alphanumeric(t[0]) && forall i | 0 <= i < |t| :: Alphanumeric(t[i]) || t[i] in Ascii(extra)
  }

  predicate SafeId(t: Text) { Word(t, 128, "-_.:@+") }

  predicate Reference(t: Text, prefix: string) {
    Ascii(prefix) <= t && Word(t[|prefix|..], 128, "._-")
  }

  predicate RepositorySegment(t: Text, maximum: nat) { Word(t, maximum, "-_.@+") }

  function FirstSlash(t: Text): (k: nat)
    ensures k <= |t|
  {
    if t == [] || t[0] == 47 then 0 else 1 + FirstSlash(t[1..])
  }

  /** Slash-separated segments, none of them empty. */
  predicate RepositoryPath(t: Text) {
    var k := FirstSlash(t);
    RepositorySegment(t[..k], 128) && (k == |t| || RepositoryPath(t[k + 1..]))
  }

  predicate Repository(t: Text) {
    |t| <= 256 && exists k | 0 <= k < |t| :: t[k] == 58 && RepositorySegment(t[..k], 64) && RepositoryPath(t[k + 1..])
  }

  predicate ProfileUidText(t: Text) {
    Ascii("profile_") <= t && ProfileUid.ValidBody(seq(|t| - 8, i requires 0 <= i < |t| - 8 => t[8 + i] as char))
  }

  predicate ProfileName(t: Text) { Word(t, 64, "-_") }

  predicate DigestText(t: Digest) {
    && |t| == 71 && Ascii("sha256:") <= t
    && forall i | 7 <= i < 71 :: Numeric(t[i]) || 97 <= t[i] <= 102
  }

  predicate AllNumeric(t: Text) {
    forall i | 0 <= i < |t| :: Numeric(t[i])
  }

  /** `YYYY-MM-DDThh:mm:ss`, at most nine digits of a fraction, and `Z`. */
  predicate CanonicalUtcShape(t: Text) {
    && |t| >= 20 && t[4] == 45 && t[7] == 45 && t[10] == 84 && t[13] == 58 && t[16] == 58 && t[|t| - 1] == 90
    && AllNumeric(t[0..4]) && t[0..4] != Ascii("0000") && AllNumeric(t[5..7]) && AllNumeric(t[8..10])
    && AllNumeric(t[11..13]) && AllNumeric(t[14..16]) && AllNumeric(t[17..19]) && !(t[17] == 54 && t[18] == 48)
    && var suffix := t[19..|t| - 1];
    suffix == [] || (2 <= |suffix| <= 10 && suffix[0] == 46 && AllNumeric(suffix[1..]))
  }

  predicate OrderReceivable(o: WorkOrder) {
    && SafeId(o.clientRequestId) && SafeId(o.tenantId) && SafeId(o.workOrderId) && DigestText(o.workOrderDigest)
    && SafeId(o.runId) && SafeId(o.attemptId) && ProfileUidText(o.profileUid) && ProfileName(o.profileRef.name)
    && Repository(o.repository) && SafeId(o.workspaceId) && SafeId(o.environment)
  }

  predicate RequestReceivable(r: Request) {
    && OrderReceivable(r.order) && OrderReceivable(r.authorization.order)
    && CanonicalUtcShape(r.authorization.notBefore.wire) && CanonicalUtcShape(r.authorization.expiresAt.wire)
    && (r.policyDigest.Some? ==> DigestText(r.policyDigest.value))
  }
}
