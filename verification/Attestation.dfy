/** Signed attestations and the verification of a provenance chain. */
module Attestations {
  import opened PyString
  import opened TimestampOrder
  import opened Rfc3339

  const ATTESTATION_CONTRACT := "operationproof.attestation.v1"
  const SIGNED_CONTRACT := "operationproof.signed-attestation.v1"
  const SIGNATURE_CONTRACT := "operationproof.attestation-signature.v1"
  const GENESIS := "GENESIS"

  datatype Attestation = Attestation(schema: string, attestationId: string, operationId: string, subjectDigest: string,
                                     proofDigest: string, artifactType: string, artifactDigest: string,
                                     issuerId: string, issuedAt: string, sequence: int, previous: string,
                                     payloadDigest: string, attestationDigest: string)

  datatype Signature = Signature(schema: string, algorithm: string, issuerId: string, keyId: string,
                                 attestationDigest: string, signature: string)

  datatype Signed = Signed(schema: string, attestation: Attestation, signature: Signature)

  /** `sha256_digest` of an attestation payload. */
  type AttestationHash = Attestation -> Digest

  /** `attestation_payload` */
  function Payload(a: Attestation): Attestation { a.(attestationDigest := "") }

  /** `_text` */
  predicate AttestationText(s: string) { CanonicalText(s) && |s| <= 512 }

  /** `verify_attestation_integrity`; `limit` is the latest issue time allowed, None when the future is not checked. */
  function IntegrityReasons(h: AttestationHash, a: Attestation, limit: Option<Stamp>): set<string> {
    ContentReasons(a)
    + When(a.sequence < 0, "INVALID_ATTESTATION_SEQUENCE")
    + When(a.sequence == 0 && a.previous != GENESIS, "INVALID_ATTESTATION_GENESIS")
    + When(a.sequence != 0 && !ValidDigest(a.previous), "INVALID_PREVIOUS_ATTESTATION_DIGEST")
    + When(!ValidDigest(a.attestationDigest), "INVALID_ATTESTATION_DIGEST:attestation_digest")
    + When(ValidDigest(a.attestationDigest) && h(Payload(a)) != a.attestationDigest, "ATTESTATION_DIGEST_MISMATCH")
    + When(IssuedAfter(a, limit), "ATTESTATION_ISSUED_IN_FUTURE")
  }

  predicate IssuedAfter(a: Attestation, limit: Option<Stamp>) {
    limit.Some? && Parse(a.issuedAt).Some? && Compare(Parsed(a.issuedAt), limit.value) > 0
  }

  function ContentReasons(a: Attestation): set<string> {
    When(a.schema != ATTESTATION_CONTRACT, "UNSUPPORTED_ATTESTATION_SCHEMA")
    + When(!AttestationText(a.attestationId), "INVALID_ATTESTATION_FIELD:attestation_id")
    + When(!AttestationText(a.operationId), "INVALID_ATTESTATION_FIELD:operation_id")
    + When(!AttestationText(a.artifactType), "INVALID_ATTESTATION_FIELD:artifact_type")
    + When(!AttestationText(a.issuerId), "INVALID_ATTESTATION_FIELD:issuer_id")
    + When(!ValidDigest(a.subjectDigest), "INVALID_ATTESTATION_DIGEST:subject_digest")
    + When(!ValidDigest(a.proofDigest), "INVALID_ATTESTATION_DIGEST:proof_digest")
    + When(!ValidDigest(a.artifactDigest), "INVALID_ATTESTATION_DIGEST:artifact_digest")
    + When(!ValidDigest(a.payloadDigest), "INVALID_ATTESTATION_DIGEST:payload_digest")
    + When(Parse(a.issuedAt).None?, "INVALID_ATTESTATION_ISSUED_AT")
  }

  // ----- signatures -----

  /** `^[A-Za-z0-9_-]{16,2048}$` */
  predicate SignatureText(s: string) {
    && 16 <= |s| <= 2048
    && forall i | 0 <= i < |s| ::
         'A' <= s[i] <= 'Z' || 'a' <= s[i] <= 'z' || '0' <= s[i] <= '9' || s[i] == '_' || s[i] == '-'
  }

  /** An external signer; None when the adapter fails. */
  datatype Signer = Signer(algorithm: string, issuerId: string, keyId: string, sign: Attestation -> Option<string>)

  /** An external signature verifier; None when the adapter fails. */
  datatype SignatureVerifier = SignatureVerifier(algorithm: string, issuerId: string, keyId: string,
                                                 check: (Attestation, string) -> Option<bool>)

  predicate CanonicalIdentity(algorithm: string, issuerId: string, keyId: string) {
    CanonicalText(algorithm) && CanonicalText(issuerId) && CanonicalText(keyId)
  }

  /** `sign_attestation` */
  function Sign(h: AttestationHash, a: Attestation, signer: Signer): Result<Signed, string> {
    if IntegrityReasons(h, a, None) != {} then Err("INVALID_ATTESTATION")
    else if !CanonicalIdentity(signer.algorithm, signer.issuerId, signer.keyId) then Err("INVALID_SIGNATURE_ADAPTER")
    else if signer.issuerId != a.issuerId then Err("SIGNER_ISSUER_MISMATCH")
    else
      var signature := signer.sign(a);
      if signature.None? then Err("SIGNATURE_ADAPTER_FAILED")
      else if !SignatureText(signature.value) then Err("MALFORMED_SIGNATURE_ADAPTER_OUTPUT")
      else
        Ok(Signed(SIGNED_CONTRACT, a, Signature(SIGNATURE_CONTRACT, signer.algorithm, signer.issuerId, signer.keyId,
                                                a.attestationDigest, signature.value)))
  }

  /** The checks before the external verifier is asked. */
  function EnvelopeReasons(s: Signed, v: SignatureVerifier): set<string> {
    When(s.schema != SIGNED_CONTRACT, "UNSUPPORTED_SIGNED_ATTESTATION_SCHEMA")
    + When(s.signature.schema != SIGNATURE_CONTRACT, "UNSUPPORTED_ATTESTATION_SIGNATURE_SCHEMA")
    + When(!CanonicalIdentity(v.algorithm, v.issuerId, v.keyId), "INVALID_SIGNATURE_ADAPTER")
    + When(s.signature.algorithm != v.algorithm, "SIGNATURE_ALGORITHM_MISMATCH")
    + When(s.signature.issuerId != s.attestation.issuerId, "SIGNATURE_ISSUER_ATTESTATION_MISMATCH")
    + When(s.signature.issuerId != v.issuerId, "SIGNATURE_ISSUER_TRUST_MISMATCH")
    + When(s.signature.keyId != v.keyId, "SIGNATURE_KEY_ID_MISMATCH")
    + When(s.signature.attestationDigest != s.attestation.attestationDigest, "SIGNATURE_ATTESTATION_DIGEST_MISMATCH")
    + When(!SignatureText(s.signature.signature), "MALFORMED_ATTESTATION_SIGNATURE")
  }

  /** `verify_attestation_signature`, with the clock at `now` and no allowed skew. */
  function SignatureReasons(h: AttestationHash, s: Signed, v: SignatureVerifier, now: Stamp): set<string> {
    var reasons := IntegrityReasons(h, s.attestation, Some(now)) + EnvelopeReasons(s, v);
    if reasons != {} then reasons
    else
      match v.check(s.attestation, s.signature.signature)
      case None => {"SIGNATURE_VERIFIER_FAILED"}
      case Some(true) => {}
      case Some(false) => {"ATTESTATION_SIGNATURE_INVALID"}
  }

  /** `verify_attestation_signature` with the clock at `now` and a future skew of `skew` seconds allowed. The end of the
      skew may be no datetime, which the program does not catch. */
  function SkewedReasons(h: AttestationHash, s: Signed, v: SignatureVerifier, now: DateTime, skew: int)
    : Result<set<string>, string>
  {
    if Parse(s.attestation.issuedAt).None? then Ok(SignatureReasons(h, s, v, FromDateTime(now)))
    else if skew < 0 || skew > MAX_FUTURE_SKEW then
      Ok(IntegrityReasons(h, s.attestation, None) + {"INVALID_ATTESTATION_FUTURE_SKEW"} + EnvelopeReasons(s, v))
    else
      match AddSeconds(now, skew)
      case None => Err("OverflowError")
      case Some(end) => Ok(SignatureReasons(h, s, v, FromDateTime(end)))
  }

  const MAX_FUTURE_SKEW := 300

  // ----- what an intact and signed attestation is -----

  predicate ContentOk(a: Attestation) {
    && a.schema == ATTESTATION_CONTRACT
    && AttestationText(a.attestationId) && AttestationText(a.operationId)
    && AttestationText(a.artifactType) && AttestationText(a.issuerId)
    && ValidDigest(a.subjectDigest) && ValidDigest(a.proofDigest)
    && ValidDigest(a.artifactDigest) && ValidDigest(a.payloadDigest)
    && Parse(a.issuedAt).Some?
  }

  /** The first of a chain follows the genesis, any other one follows a digest. */
  predicate Intact(h: AttestationHash, a: Attestation) {
    && ContentOk(a)
    && a.sequence >= 0 && (if a.sequence == 0 then a.previous == GENESIS else ValidDigest(a.previous))
    && ValidDigest(a.attestationDigest) && h(Payload(a)) == a.attestationDigest
  }

  /** The signature names this attestation, its issuer, and the verifier's own identity. */
  predicate WellSigned(s: Signed, v: SignatureVerifier) {
    && s.schema == SIGNED_CONTRACT && s.signature.schema == SIGNATURE_CONTRACT
    && CanonicalIdentity(v.algorithm, v.issuerId, v.keyId)
    && s.signature.algorithm == v.algorithm && s.signature.keyId == v.keyId
    && s.signature.issuerId == s.attestation.issuerId == v.issuerId
    && s.signature.attestationDigest == s.attestation.attestationDigest
    && SignatureText(s.signature.signature)
  }

  lemma ContentClean(a: Attestation)
    ensures ContentReasons(a) == {} <==> ContentOk(a)
  {
  }

  lemma IntegrityMeans(h: AttestationHash, a: Attestation, limit: Option<Stamp>)
    ensures IntegrityReasons(h, a, limit) == {} <==> Intact(h, a) && !IssuedAfter(a, limit)
    ensures Intact(h, a) ==> (a.sequence == 0 <==> a.previous == GENESIS)
    ensures !IssuedAfter(a, None)
  {
    hide ContentReasons, ContentOk, Compare, Parse;
    ContentClean(a);
    var all := IntegrityReasons(h, a, limit);
    assert ContentReasons(a) <= all;
    assert When(a.sequence < 0, "INVALID_ATTESTATION_SEQUENCE") <= all;
    assert When(a.sequence == 0 && a.previous != GENESIS, "INVALID_ATTESTATION_GENESIS") <= all;
    assert When(a.sequence != 0 && !ValidDigest(a.previous), "INVALID_PREVIOUS_ATTESTATION_DIGEST") <= all;
    assert When(!ValidDigest(a.attestationDigest), "INVALID_ATTESTATION_DIGEST:attestation_digest") <= all;
    assert When(ValidDigest(a.attestationDigest) && h(Payload(a)) != a.attestationDigest,
                "ATTESTATION_DIGEST_MISMATCH") <= all;
    assert When(IssuedAfter(a, limit), "ATTESTATION_ISSUED_IN_FUTURE") <= all;
    assert !ValidDigest(GENESIS);
  }

  lemma EnvelopeClean(s: Signed, v: SignatureVerifier)
    ensures EnvelopeReasons(s, v) == {} <==> WellSigned(s, v)
  {
  }

  /** A signed attestation verifies exactly when it is intact, not from the future, signed under the verifier's
      identity, and accepted by the external verifier. */
  lemma SignatureMeans(h: AttestationHash, s: Signed, v: SignatureVerifier, now: Stamp)
    ensures SignatureReasons(h, s, v, now) == {} <==>
            && Intact(h, s.attestation) && !IssuedAfter(s.attestation, Some(now)) && WellSigned(s, v)
            && v.check(s.attestation, s.signature.signature) == Some(true)
  {
    hide IntegrityReasons, EnvelopeReasons, Intact, IssuedAfter, WellSigned;
    IntegrityMeans(h, s.attestation, Some(now));
    EnvelopeClean(s, v);
    var i, e := IntegrityReasons(h, s.attestation, Some(now)), EnvelopeReasons(s, v);
    assert i <= i + e && e <= i + e;
  }

  /** Signing succeeds exactly for an intact attestation of the signer's own issuer, under a canonical identity, when
      the external signer answers with signature text; and it signs that attestation. */
  lemma SignGranted(h: AttestationHash, a: Attestation, signer: Signer)
    ensures Sign(h, a, signer).Ok? <==>
            && Intact(h, a) && signer.issuerId == a.issuerId
            && CanonicalIdentity(signer.algorithm, signer.issuerId, signer.keyId)
            && signer.sign(a).Some? && SignatureText(signer.sign(a).value)
    ensures Sign(h, a, signer).Ok? ==>
              var s := Sign(h, a, signer).value;
              && s.attestation == a && s.signature.signature == signer.sign(a).value
              && s.signature.attestationDigest == a.attestationDigest
              && s.signature.issuerId == signer.issuerId && s.signature.algorithm == signer.algorithm
              && s.signature.keyId == signer.keyId
  {
    hide IntegrityReasons, Intact, CanonicalIdentity, SignatureText, IssuedAfter;
    IntegrityMeans(h, a, None);
  }

  /** What signing returns verifies under any verifier of the signer's identity that accepts what the signer made. */
  lemma SignedVerifies(h: AttestationHash, a: Attestation, signer: Signer, v: SignatureVerifier, now: Stamp)
    requires Sign(h, a, signer).Ok?
    requires v.algorithm == signer.algorithm && v.issuerId == signer.issuerId && v.keyId == signer.keyId
    ensures Sign(h, a, signer).value.attestation == a
    ensures SignatureReasons(h, Sign(h, a, signer).value, v, now) == {} <==>
            !IssuedAfter(a, Some(now)) && v.check(a, signer.sign(a).value) == Some(true)
  {
    hide IntegrityReasons, SignatureReasons, Intact, IssuedAfter, SignatureText;
    IntegrityMeans(h, a, None);
    SignatureMeans(h, Sign(h, a, signer).value, v, now);
  }

  /** An entry trusted at one instant is trusted at every later one. */
  lemma TrustLasts(h: AttestationHash, s: Signed, v: SignatureVerifier, t1: Stamp, t2: Stamp)
    requires SignatureReasons(h, s, v, t1) == {} && Compare(t1, t2) <= 0
    ensures SignatureReasons(h, s, v, t2) == {}
  {
    hide SignatureReasons, Intact, WellSigned, Compare, Parse;
    SignatureMeans(h, s, v, t1);
    SignatureMeans(h, s, v, t2);
    if Parse(s.attestation.issuedAt).Some? {
      CompareIsPreorder(Parsed(s.attestation.issuedAt), t1, t2);
    }
  }

  /** With a skew, a signature passes exactly when the skew is allowed and the attestation is intact, accepted, and
      issued no later than the clock reading plus the skew. */
  lemma SkewMeans(h: AttestationHash, s: Signed, v: SignatureVerifier, now: DateTime, skew: int)
    ensures SkewedReasons(h, s, v, now, skew) == Ok({}) <==>
            && 0 <= skew <= MAX_FUTURE_SKEW && AddSeconds(now, skew).Some?
            && Intact(h, s.attestation) && WellSigned(s, v)
            && Compare(Parsed(s.attestation.issuedAt), FromDateTime(AddSeconds(now, skew).value)) <= 0
            && v.check(s.attestation, s.signature.signature) == Some(true)
  {
    hide SignatureReasons, IntegrityReasons, EnvelopeReasons, WellSigned, Parse, Compare, AddSeconds, FromDateTime,
         AttestationText, ValidDigest;
    SignatureMeans(h, s, v, FromDateTime(now));
    if AddSeconds(now, skew).Some? {
      SignatureMeans(h, s, v, FromDateTime(AddSeconds(now, skew).value));
    }
    assert "INVALID_ATTESTATION_FUTURE_SKEW" in {"INVALID_ATTESTATION_FUTURE_SKEW"};
  }

  /** A larger allowed skew accepts whatever a smaller one does. */
  lemma SkewWidens(h: AttestationHash, s: Signed, v: SignatureVerifier, now: DateTime, a: int, b: int)
    requires SkewedReasons(h, s, v, now, a) == Ok({}) && a <= b <= MAX_FUTURE_SKEW && AddSeconds(now, b).Some?
    ensures SkewedReasons(h, s, v, now, b) == Ok({})
  {
    hide SkewedReasons, WellSigned, Parse, Compare, FromDateTime, AttestationText, ValidDigest;
    SkewMeans(h, s, v, now, a);
    SkewMeans(h, s, v, now, b);
    var x, y := AddSeconds(now, a).value, AddSeconds(now, b).value;
    FromDateTimeKeepsOrder(x, y);
    CompareIsPreorder(Parsed(s.attestation.issuedAt), FromDateTime(x), FromDateTime(y));
  }

  // ----- chains -----

  datatype SignerKey = SignerKey(issuerId: string, algorithm: string, keyId: string)

  type Verifiers = map<SignerKey, SignatureVerifier>

  function KeyOf(s: Signed): SignerKey { SignerKey(s.signature.issuerId, s.signature.algorithm, s.signature.keyId) }

  function EntryCodes(i: nat, codes: set<string>): set<string> { set c | c in codes :: "ENTRY_" + Decimal(i) + ":" + c }

  /** The reasons of one entry by itself. */
  function EntryReasons(h: AttestationHash, s: Signed, i: nat, verifiers: Verifiers, now: Stamp): set<string> {
    (if KeyOf(s) !in verifiers then {"UNTRUSTED_ATTESTATION_SIGNER:" + Decimal(i)}
     else EntryCodes(i, SignatureReasons(h, s, verifiers[KeyOf(s)], now)))
    + EntryCodes(i, IntegrityReasons(h, s.attestation, Some(now)))
  }

  function PreviousDigest(chain: seq<Signed>, i: nat): string
    requires i <= |chain|
  {
    if i == 0 then GENESIS else chain[i - 1].attestation.attestationDigest
  }

  function IdsSeen(chain: seq<Signed>, i: nat): set<string>
    requires i <= |chain|
  {
    set j | 0 <= j < i :: chain[j].attestation.attestationId
  }

  function DigestsSeen(chain: seq<Signed>, i: nat): set<string>
    requires i <= |chain|
  {
    set j | 0 <= j < i :: chain[j].attestation.attestationDigest
  }

  /** The checks of one entry against what the loop has seen so far. */
  function PlaceReasons(a: Attestation, index: nat, seenIds: set<string>, seenDigests: set<string>, previous: string,
                        first: Attestation): set<string> {
    When(a.attestationId in seenIds, "REPLAYED_ATTESTATION_ID")
    + When(a.attestationDigest in seenDigests, "REPLAYED_ATTESTATION_DIGEST")
    + When(a.sequence != index, "PROVENANCE_SEQUENCE_MISMATCH")
    + When(a.previous != previous, "BROKEN_PREDECESSOR_LINK")
    + When(a.operationId != first.operationId, "CROSS_OPERATION_TRANSPLANT")
    + When(a.subjectDigest != first.subjectDigest, "SUBJECT_TRANSPLANT")
    + When(a.proofDigest != first.proofDigest, "PROOF_TRANSPLANT")
  }

  /** The reasons of one entry's place in the chain. */
  function LinkReasons(chain: seq<Signed>, i: nat): set<string>
    requires i < |chain|
  {
    PlaceReasons(chain[i].attestation, i, IdsSeen(chain, i), DigestsSeen(chain, i), PreviousDigest(chain, i),
                 chain[0].attestation)
  }

  function ReasonsUpTo(h: AttestationHash, chain: seq<Signed>, n: nat, verifiers: Verifiers, now: Stamp): set<string>
    requires n <= |chain|
  {
    if n == 0 then {}
    else
      ReasonsUpTo(h, chain, n - 1, verifiers, now)
      + EntryReasons(h, chain[n - 1], n - 1, verifiers, now) + LinkReasons(chain, n - 1)
  }

  /** What the caller expects of the chain's anchor. */
  datatype Expected = Expected(operationId: Option<string>, subjectDigest: Option<string>, proofDigest: Option<string>)

  function ExpectedReasons(first: Attestation, e: Expected): set<string> {
    When(e.operationId.Some? && first.operationId != e.operationId.value, "EXPECTED_OPERATION_ID_MISMATCH")
    + When(e.subjectDigest.Some? && first.subjectDigest != e.subjectDigest.value, "EXPECTED_SUBJECT_DIGEST_MISMATCH")
    + When(e.proofDigest.Some? && first.proofDigest != e.proofDigest.value, "EXPECTED_PROOF_DIGEST_MISMATCH")
  }

  /** Everything wrong with a chain. */
  function ChainReasons(h: AttestationHash, chain: seq<Signed>, verifiers: Verifiers, e: Expected,
                        now: Stamp): set<string> {
    if chain == [] then {"EMPTY_PROVENANCE_CHAIN"}
    else ReasonsUpTo(h, chain, |chain|, verifiers, now) + ExpectedReasons(chain[0].attestation, e)
  }

  // ----- what a valid chain is, without a loop -----

  predicate Trusted(h: AttestationHash, s: Signed, verifiers: Verifiers, now: Stamp) {
    KeyOf(s) in verifiers && SignatureReasons(h, s, verifiers[KeyOf(s)], now) == {}
  }

  predicate Linked(chain: seq<Signed>, i: nat)
    requires i < |chain|
  {
    var a, first := chain[i].attestation, chain[0].attestation;
    && a.sequence == i && a.previous == PreviousDigest(chain, i)
    && a.operationId == first.operationId && a.subjectDigest == first.subjectDigest
       && a.proofDigest == first.proofDigest
  }

  predicate Distinct(chain: seq<Signed>) {
    forall i, j | 0 <= i < j < |chain| ::
      && chain[i].attestation.attestationId != chain[j].attestation.attestationId
      && chain[i].attestation.attestationDigest != chain[j].attestation.attestationDigest
  }

  predicate Meets(first: Attestation, e: Expected) {
    && (e.operationId.Some? ==> first.operationId == e.operationId.value)
    && (e.subjectDigest.Some? ==> first.subjectDigest == e.subjectDigest.value)
    && (e.proofDigest.Some? ==> first.proofDigest == e.proofDigest.value)
  }

  predicate ChainValid(h: AttestationHash, chain: seq<Signed>, verifiers: Verifiers, e: Expected, now: Stamp) {
    && chain != []
    && (forall i | 0 <= i < |chain| :: Trusted(h, chain[i], verifiers, now) && Linked(chain, i))
    && Distinct(chain)
    && Meets(chain[0].attestation, e)
  }

  lemma EntryClean(h: AttestationHash, s: Signed, i: nat, verifiers: Verifiers, now: Stamp)
    ensures EntryReasons(h, s, i, verifiers, now) == {} <==> Trusted(h, s, verifiers, now)
  {
    hide SignatureReasons, IntegrityReasons, Intact, WellSigned, IssuedAfter;
    if KeyOf(s) in verifiers {
      SignatureMeans(h, s, verifiers[KeyOf(s)], now);
      CodesEmpty(i, SignatureReasons(h, s, verifiers[KeyOf(s)], now));
      IntegrityMeans(h, s.attestation, Some(now));
      CodesEmpty(i, IntegrityReasons(h, s.attestation, Some(now)));
    }
  }

  lemma CodesEmpty(i: nat, codes: set<string>)
    ensures EntryCodes(i, codes) == {} <==> codes == {}
  {
    if c :| c in codes { assert "ENTRY_" + Decimal(i) + ":" + c in EntryCodes(i, codes); }
  }

  predicate FreshAt(chain: seq<Signed>, i: nat)
    requires i < |chain|
  {
    forall j | 0 <= j < i ::
      && chain[j].attestation.attestationId != chain[i].attestation.attestationId
      && chain[j].attestation.attestationDigest != chain[i].attestation.attestationDigest
  }

  lemma LinkClean(chain: seq<Signed>, i: nat)
    requires i < |chain|
    ensures LinkReasons(chain, i) == {} <==> Linked(chain, i) && FreshAt(chain, i)
  {
  }

  lemma ExpectedClean(first: Attestation, e: Expected)
    ensures ExpectedReasons(first, e) == {} <==> Meets(first, e)
  {
  }

  lemma {:induction false} CleanUpTo(h: AttestationHash, chain: seq<Signed>, n: nat, verifiers: Verifiers, now: Stamp)
    requires n <= |chain|
    ensures ReasonsUpTo(h, chain, n, verifiers, now) == {} <==>
            forall i | 0 <= i < n :: Trusted(h, chain[i], verifiers, now) && Linked(chain, i) && FreshAt(chain, i)
  {
    hide EntryReasons, LinkReasons, Trusted, Linked, FreshAt;
    if n == 0 {
    } else {
      CleanUpTo(h, chain, n - 1, verifiers, now);
      EntryClean(h, chain[n - 1], n - 1, verifiers, now);
      LinkClean(chain, n - 1);
    }
  }

  lemma ChainClean(h: AttestationHash, chain: seq<Signed>, verifiers: Verifiers, e: Expected, now: Stamp)
    ensures ChainReasons(h, chain, verifiers, e, now) == {} <==> ChainValid(h, chain, verifiers, e, now)
  {
    hide ReasonsUpTo, ExpectedReasons, Trusted, Linked, FreshAt, Distinct, Meets;
    if chain == [] {
      return;
    }
    CleanUpTo(h, chain, |chain|, verifiers, now);
    ExpectedClean(chain[0].attestation, e);
    var r, x := ReasonsUpTo(h, chain, |chain|, verifiers, now), ExpectedReasons(chain[0].attestation, e);
    assert r <= r + x && x <= r + x;
    FreshIsDistinct(chain);
  }

  lemma FreshIsDistinct(chain: seq<Signed>)
    ensures Distinct(chain) <==> forall i | 0 <= i < |chain| :: FreshAt(chain, i)
  {
    if forall i | 0 <= i < |chain| :: FreshAt(chain, i) {
      forall i, j | 0 <= i < j < |chain|
        ensures chain[i].attestation.attestationId != chain[j].attestation.attestationId
        ensures chain[i].attestation.attestationDigest != chain[j].attestation.attestationDigest
      {
        assert FreshAt(chain, j);
      }
    }
  }

  lemma UpToStep(h: AttestationHash, chain: seq<Signed>, i: nat, verifiers: Verifiers, now: Stamp)
    requires i < |chain|
    ensures ReasonsUpTo(h, chain, i + 1, verifiers, now) ==
            ReasonsUpTo(h, chain, i, verifiers, now) + EntryReasons(h, chain[i], i, verifiers, now)
            + PlaceReasons(chain[i].attestation, i, IdsSeen(chain, i), DigestsSeen(chain, i), PreviousDigest(chain, i),
                           chain[0].attestation)
  {
    hide EntryReasons, PlaceReasons;
  }

  lemma NoneSeen(h: AttestationHash, chain: seq<Signed>, verifiers: Verifiers, now: Stamp)
    ensures ReasonsUpTo(h, chain, 0, verifiers, now) == {}
    ensures IdsSeen(chain, 0) == {} && DigestsSeen(chain, 0) == {}
  {
  }

  lemma SeenStep(chain: seq<Signed>, i: nat)
    requires i < |chain|
    ensures IdsSeen(chain, i + 1) == IdsSeen(chain, i) + {chain[i].attestation.attestationId}
    ensures DigestsSeen(chain, i + 1) == DigestsSeen(chain, i) + {chain[i].attestation.attestationDigest}
  {
  }

  datatype ChainResult = ChainResult(valid: bool, reasonCodes: seq<string>, count: nat, operationId: Option<string>,
                                     subjectDigest: Option<string>, proofDigest: Option<string>,
                                     headDigest: Option<string>)

  /** `verify_provenance_chain` */
  method VerifyProvenanceChain(h: AttestationHash, chain: seq<Signed>, verifiers: Verifiers, e: Expected, now: Stamp)
    returns (r: ChainResult)
    ensures r.valid <==> ChainValid(h, chain, verifiers, e, now)
    ensures r.reasonCodes == SortedUnique(ChainReasons(h, chain, verifiers, e, now))
    ensures r.valid <==> r.reasonCodes == []
    ensures r.count == |chain|
    ensures chain != [] ==>
              var first := chain[0].attestation;
              && r.headDigest == Some(chain[|chain| - 1].attestation.attestationDigest)
              && r.operationId == Some(first.operationId) && r.subjectDigest == Some(first.subjectDigest)
              && r.proofDigest == Some(first.proofDigest)
  {
    if chain == [] {
      return ChainResult(false, SortedUnique({"EMPTY_PROVENANCE_CHAIN"}), 0, None, None, None, None);
    }
    hide EntryReasons, PlaceReasons, LinkReasons, ReasonsUpTo, IdsSeen, DigestsSeen, ChainValid, ExpectedReasons,
         SortedUnique;
    NoneSeen(h, chain, verifiers, now);
    var reasons: set<string> := {};
    var seenIds: set<string> := {};
    var seenDigests: set<string> := {};
    var anchor := chain[0].attestation; // operation, subject and proof of the first entry
    var head: Option<string> := None;
    var previous := GENESIS;
    for index := 0 to |chain|
      invariant seenIds == IdsSeen(chain, index) && seenDigests == DigestsSeen(chain, index)
      invariant previous == PreviousDigest(chain, index)
      invariant index > 0 ==> head == Some(chain[index - 1].attestation.attestationDigest)
      invariant reasons == ReasonsUpTo(h, chain, index, verifiers, now)
    {
      SeenStep(chain, index);
      UpToStep(h, chain, index, verifiers, now);
      var a := chain[index].attestation;
      reasons := reasons + EntryReasons(h, chain[index], index, verifiers, now)
                 + PlaceReasons(a, index, seenIds, seenDigests, previous, anchor);
      seenIds := seenIds + {a.attestationId};
      seenDigests := seenDigests + {a.attestationDigest};
      head := Some(a.attestationDigest);
      previous := a.attestationDigest;
    }
    ChainClean(h, chain, verifiers, e, now);
    reasons := reasons + ExpectedReasons(chain[0].attestation, e);
    SortedUniqueElements(reasons);
    r := ChainResult(reasons == {}, SortedUnique(reasons), |chain|, Some(anchor.operationId),
                     Some(anchor.subjectDigest), Some(anchor.proofDigest), head);
  }

  // ----- the head commits to the history -----

  /** Two different payloads, one in each chain, with one digest. */
  ghost predicate Collision(h: AttestationHash, c: seq<Signed>, d: seq<Signed>) {
    exists i, j :: 0 <= i < |c| && 0 <= j < |d|
                   && Payload(c[i].attestation) != Payload(d[j].attestation)
                   && h(Payload(c[i].attestation)) == h(Payload(d[j].attestation))
  }

  ghost predicate SameAttestations(c: seq<Signed>, d: seq<Signed>) {
    |c| == |d| && forall i | 0 <= i < |c| :: c[i].attestation == d[i].attestation
  }

  /** What the commitment argument uses of a chain. */
  ghost predicate HashLinked(h: AttestationHash, c: seq<Signed>) {
    forall i | 0 <= i < |c| ::
      && c[i].attestation.sequence == i && c[i].attestation.previous == PreviousDigest(c, i)
      && h(Payload(c[i].attestation)) == c[i].attestation.attestationDigest
  }

  lemma {:induction false} HashLinksCommit(h: AttestationHash, c: seq<Signed>, d: seq<Signed>, m: nat, n: nat)
    requires HashLinked(h, c) && HashLinked(h, d)
    requires 0 < m <= |c| && 0 < n <= |d|
    requires c[m - 1].attestation.attestationDigest == d[n - 1].attestation.attestationDigest
    ensures Collision(h, c, d) || SameAttestations(c[..m], d[..n])
  {
    hide Collision, HashLinked, SameAttestations;
    var a, b := c[m - 1].attestation, d[n - 1].attestation;
    LinkAt(h, c, m);
    LinkAt(h, d, n);
    if Payload(a) == Payload(b) {
      PayloadDetermines(a, b);
      if m > 1 {
        HashLinksCommit(h, c, d, m - 1, n - 1);
      } else {
        Alone(c, d);
      }
      if SameAttestations(c[..m - 1], d[..n - 1]) { SameStep(c, d, m); }
    } else {
      CollisionAt(h, c, d, m - 1, n - 1);
    }
  }

  lemma LinkAt(h: AttestationHash, c: seq<Signed>, m: nat)
    requires HashLinked(h, c) && 0 < m <= |c|
    ensures var a := c[m - 1].attestation;
            && a.sequence == m - 1 && a.previous == (if m == 1 then GENESIS else c[m - 2].attestation.attestationDigest)
            && h(Payload(a)) == a.attestationDigest
  {
  }

  lemma Alone(c: seq<Signed>, d: seq<Signed>)
    ensures SameAttestations(c[..0], d[..0])
  {
  }

  lemma CollisionAt(h: AttestationHash, c: seq<Signed>, d: seq<Signed>, i: nat, j: nat)
    requires i < |c| && j < |d| && Payload(c[i].attestation) != Payload(d[j].attestation)
    requires h(Payload(c[i].attestation)) == h(Payload(d[j].attestation))
    ensures Collision(h, c, d)
  {
  }

  /** Together with its digest, a payload is the attestation. */
  lemma PayloadDetermines(a: Attestation, b: Attestation)
    requires Payload(a) == Payload(b) && a.attestationDigest == b.attestationDigest
    ensures a == b
  {
  }

  lemma SameStep(c: seq<Signed>, d: seq<Signed>, m: nat)
    requires 0 < m <= |c| && m <= |d| && SameAttestations(c[..m - 1], d[..m - 1])
    requires c[m - 1].attestation == d[m - 1].attestation
    ensures SameAttestations(c[..m], d[..m])
  {
  }

  lemma ValidChainsAreLinked(h: AttestationHash, c: seq<Signed>, verifiers: Verifiers, e: Expected, now: Stamp)
    requires ChainValid(h, c, verifiers, e, now)
    ensures HashLinked(h, c) && c != []
  {
    hide SignatureReasons, ContentOk, WellSigned, IssuedAfter;
    forall i | 0 <= i < |c| ensures h(Payload(c[i].attestation)) == c[i].attestation.attestationDigest {
      assert Trusted(h, c[i], verifiers, now) && Linked(c, i);
      SignatureMeans(h, c[i], verifiers[KeyOf(c[i])], now);
    }
    assert forall i | 0 <= i < |c| :: Linked(c, i);
  }

  /** Two valid chains with one head digest hold the same attestations, in the same order and number,
      unless two of their payloads collide under the digest. */
  lemma HeadCommitsToHistory(h: AttestationHash, c: seq<Signed>, d: seq<Signed>, vc: Verifiers, vd: Verifiers,
                             ec: Expected, ed: Expected, nowC: Stamp, nowD: Stamp)
    requires ChainValid(h, c, vc, ec, nowC) && ChainValid(h, d, vd, ed, nowD)
    requires c[|c| - 1].attestation.attestationDigest == d[|d| - 1].attestation.attestationDigest
    ensures Collision(h, c, d) || SameAttestations(c, d)
  {
    hide ChainValid, HashLinked, Collision, SameAttestations;
    ValidChainsAreLinked(h, c, vc, ec, nowC);
    ValidChainsAreLinked(h, d, vd, ed, nowD);
    HashLinksCommit(h, c, d, |c|, |d|);
    assert c[..|c|] == c && d[..|d|] == d;
  }
}
