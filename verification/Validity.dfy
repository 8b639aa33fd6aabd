/** The instants at which a fixed proof verifies. */
module Validity {
  import opened PyString
  import opened TimestampOrder
  import opened Rfc3339
  import opened Evidences
  import opened Verifier

  predicate NotAfter(a: Stamp, b: Stamp) { Compare(a, b) <= 0 }

  /** With the embedded proof's validity settled, reasons only get added as time passes. */
  lemma SemanticGrows(p: Proof, preValid: bool, t1: Stamp, t2: Stamp)
    requires NotAfter(t1, t2)
    ensures Semantic(p, preValid, t1) <= Semantic(p, preValid, t2)
  {
    hide SetReasons, EmbeddedReasons, BoundSubject, Compare;
    ReasonsGrow(p.evidence, PreRules(p.operationId, BoundSubject(p)), t1, t2);
    ReasonsGrow(p.evidence, FinalRules(p.operationId, BoundSubject(p)), t1, t2);
  }

  /** A proof that verifies at two instants verifies at every instant between them. */
  lemma {:induction false} ValidityIsConvex(h: Hash, p: Proof, t1: Stamp, t2: Stamp, t3: Stamp)
    requires NotAfter(t1, t2) && NotAfter(t2, t3)
    requires ValidAt(h, p, t1) && ValidAt(h, p, t3)
    ensures ValidAt(h, p, t2)
    decreases p
  {
    hide ValidAt, DocumentReasons, Semantic, Compare, SortedUnique;
    ValidMeans(h, p, t1);
    ValidMeans(h, p, t2);
    ValidMeans(h, p, t3);
    var preValid := p.phase == "FINAL" && p.preProof.Some?;
    if preValid {
      ValidityIsConvex(h, p.preProof.value, t1, t2, t3);
    }
    SortedUniqueInjective(Semantic(p, preValid, t1), Semantic(p, preValid, t3));
    SemanticGrows(p, preValid, t1, t2);
    SemanticGrows(p, preValid, t2, t3);
    assert Semantic(p, preValid, t2) == Semantic(p, preValid, t1);
  }

  /** Every evidence item in a proof, those of its embedded PRE proof included. */
  function AllEvidence(p: Proof): seq<Evidence> {
    p.evidence + (if p.phase == "FINAL" && p.preProof.Some? then AllEvidence(p.preProof.value) else [])
  }

  /** `now` is strictly before every expiry in `ev`. */
  predicate BeforeEveryExpiry(ev: seq<Evidence>, now: Stamp) {
    forall i | 0 <= i < |ev| && ev[i].expiresAt.Some? ::
      Parse(ev[i].expiresAt.value).Some? && Compare(now, Parsed(ev[i].expiresAt.value)) < 0
  }

  lemma BeforeEveryExpiryConcat(a: seq<Evidence>, b: seq<Evidence>, now: Stamp)
    ensures BeforeEveryExpiry(a + b, now) <==> BeforeEveryExpiry(a, now) && BeforeEveryExpiry(b, now)
  {
    hide Parse, Compare;
    var c := a + b;
    assert forall i | 0 <= i < |a| :: c[i] == a[i];
    assert forall i | 0 <= i < |b| :: c[|a| + i] == b[i];
    if BeforeEveryExpiry(a, now) && BeforeEveryExpiry(b, now) {
      forall i | 0 <= i < |c| && c[i].expiresAt.Some?
        ensures Parse(c[i].expiresAt.value).Some? && Compare(now, Parsed(c[i].expiresAt.value)) < 0
      {
        if i >= |a| { assert c[i] == b[i - |a|]; }
      }
    }
  }

  lemma NotExpired(ev: seq<Evidence>, now: Stamp)
    requires forall i | 0 <= i < |ev| :: ev[i].expiresAt.Some? ==> Parse(ev[i].expiresAt.value).Some?
    ensures (forall i | 0 <= i < |ev| :: !IsExpired(ev[i], now)) <==> BeforeEveryExpiry(ev, now)
  {
    hide Parse, Compare;
    forall i | 0 <= i < |ev| ensures IsExpired(ev[i], now) <==>
      ev[i].expiresAt.Some? && !(Compare(now, Parsed(ev[i].expiresAt.value)) < 0)
    {
      if ev[i].expiresAt.Some? { CompareIsPreorder(now, Parsed(ev[i].expiresAt.value), now); }
    }
  }

  /** One clean evidence set, as an interval of instants. */
  lemma SetWindow(ev: seq<Evidence>, rules: Rules, t0: Stamp, t: Stamp)
    requires "" !in rules.required && SetReasons(ev, rules, t0) == {}
    ensures SetReasons(ev, rules, t) == {} <==> BeforeEveryExpiry(ev, t)
  {
    hide SetReasons, IsExpired, BeforeEveryExpiry, Parse, PlacedOk, ValidDigest, Compare;
    SetClean(ev, rules, t0);
    CleanUntilExpiry(ev, rules, t0, t);
    NotExpired(ev, t);
  }

  lemma EmptyReasons(s: set<string>)
    ensures SortedUnique(s) == [] <==> s == {}
    ensures DecisionFor(s) == VERIFIED <==> s == {}
  {
  }

  /** A VERIFIED document that verifies, phase by phase. */
  lemma VerifiedMeans(h: Hash, p: Proof, now: Stamp)
    requires ValidAt(h, p, now) && p.decision == VERIFIED
    ensures p.phase == "PRE" || p.phase == "FINAL"
    ensures p.phase == "PRE" ==> SetReasons(p.evidence, PreRules(p.operationId, BoundSubject(p)), now) == {}
    ensures p.phase == "FINAL" ==>
              && SetReasons(p.evidence, FinalRules(p.operationId, BoundSubject(p)), now) == {}
              && p.preProof.Some? && ValidAt(h, p.preProof.value, now)
              && p.preProof.value.decision == VERIFIED && p.preProof.value.phase == "PRE"
              && p.preProof.value.operationId == p.operationId
              && p.preProof.value.proofDigest == p.preProofDigest
              && EmbeddedReasons(p.operationId, p.preProof, p.preProofDigest, true, BoundSubject(p)) == {}
    ensures Semantic(p, p.phase == "FINAL" && p.preProof.Some?, now) == {}
  {
    hide SetReasons, ValidAt, DocumentReasons, BoundSubject, SortedUnique, ValidDigest;
    ValidMeans(h, p, now);
    var preValid := p.phase == "FINAL" && p.preProof.Some?;
    EmptyReasons(Semantic(p, preValid, now));
    if p.phase == "FINAL" {
      var all := EmbeddedReasons(p.operationId, p.preProof, p.preProofDigest, preValid, BoundSubject(p));
      assert all <= Semantic(p, preValid, now);
      assert p.preProof.Some? by { assert p.preProof.None? ==> "PRE_PROOF_MISSING" in all; }
      var q := p.preProof.value;
      assert When(q.phase != "PRE", "PRE_PROOF_PHASE_INVALID") <= all;
      assert When(q.decision != VERIFIED, "PRE_PROOF_NOT_VERIFIED") <= all;
      assert When(q.operationId != p.operationId, "PRE_PROOF_OPERATION_ID_MISMATCH") <= all;
      assert When(q.proofDigest != p.preProofDigest, "PRE_PROOF_DIGEST_MISMATCH") <= all;
    }
  }

  /** Verified, exactly: a sound document that says VERIFIED without reasons and whose evidence is clean by the rules
      of its phase; a FINAL one also embeds a verified PRE proof, the one it names, about the same operation and
      subject. */
  lemma VerifiedExactly(h: Hash, p: Proof, now: Stamp)
    ensures ValidAt(h, p, now) && p.decision == VERIFIED <==>
            && DocumentOk(h, p) && p.decision == VERIFIED && p.reasonCodes == []
            && (if p.phase == "PRE" then
                  SetOk(p.evidence, Rules(p.operationId, PRE_LAYERS, {EXECUTION_LAYER}, Some(PRE_LAYERS),
                                          p.subjectDigest), now)
                else
                  && p.phase == "FINAL"
                  && SetOk(p.evidence, Rules(p.operationId, {EXECUTION_LAYER}, {}, Some({EXECUTION_LAYER}),
                                             p.subjectDigest), now)
                  && p.preProof.Some?
                  && (var q := p.preProof.value;
                      && ValidAt(h, q, now) && q.decision == VERIFIED && q.phase == "PRE"
                      && q.operationId == p.operationId && q.proofDigest == p.preProofDigest
                      && ValidOptionalDigest(p.preProofDigest)
                      && (p.schema == PROOF_V2 ==> q.subject == p.subject && q.subjectDigest == p.subjectDigest)))
  {
    hide VerifyReasons, SetReasons, SetOk, DocumentReasons, EmbeddedReasons, SortedUnique, SubjectReasons, ValidSubject,
         ValidDigest, BoundSubject, Semantic;
    ValidMeans(h, p, now);
    DocumentClean(h, p);
    if p.phase == "PRE" || p.phase == "FINAL" {
      var preValid := p.phase == "FINAL" && p.preProof.Some?;
      SemanticClean(p, preValid, now);
      EmptyReasons(Semantic(p, preValid, now));
    }
  }

  /** A proof recorded VERIFIED that verifies at some instant verifies exactly at the instants
      strictly before every `expires_at` in it, its embedded PRE proof included. */
  lemma VerifiedWindow(h: Hash, p: Proof, t0: Stamp, t: Stamp)
    requires ValidAt(h, p, t0) && p.decision == VERIFIED
    ensures ValidAt(h, p, t) <==> BeforeEveryExpiry(AllEvidence(p), t)
  {
    hide SetReasons, ValidAt, DocumentReasons, EmbeddedReasons, BoundSubject, SortedUnique, BeforeEveryExpiry;
    VerifiedMeans(h, p, t0);
    ValidMeans(h, p, t0);
    ValidMeans(h, p, t);
    EmptyReasons(Semantic(p, p.phase == "FINAL" && p.preProof.Some?, t));
    if p.phase == "PRE" {
      assert AllEvidence(p) == p.evidence;
      SetWindow(p.evidence, PreRules(p.operationId, BoundSubject(p)), t0, t);
    } else {
      var q := p.preProof.value;
      VerifiedMeans(h, q, t0);
      ValidMeans(h, q, t0);
      ValidMeans(h, q, t);
      EmptyReasons(Semantic(q, false, t));
      assert AllEvidence(q) == q.evidence;
      SetWindow(q.evidence, PreRules(q.operationId, BoundSubject(q)), t0, t);
      SetWindow(p.evidence, FinalRules(p.operationId, BoundSubject(p)), t0, t);
      BeforeEveryExpiryConcat(p.evidence, q.evidence, t);
    }
  }
}
