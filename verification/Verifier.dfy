/** Proof documents and their recursive verification. */
module Verifier {
  import opened PyString
  import opened TimestampOrder
  import opened Evidences

  const PROOF_V1 := "operationproof.operation-proof.v1"
  const PROOF_V2 := "operationproof.operation-proof.v2"
  const SUBJECT_SCHEMA := "operationproof.operation-subject.v1"
  const VERIFIED := "VERIFIED"
  const REJECTED := "REJECTED"

  datatype Subject = Subject(schema: string, operationId: string, actorDigest: string, intentDigest: string,
                             targetDigest: string, stateDigest: string)

  /** A proof document. Absent fields are None; `extra` lists field names outside the proof's own. */
  datatype Proof = Proof(schema: string, phase: string, operationId: string, decision: string,
                         reasonCodes: seq<string>, subject: Option<Subject>, subjectDigest: Option<string>,
                         preProofDigest: Option<string>, preProof: Option<Proof>, evidence: seq<Evidence>,
                         proofDigest: Option<string>, extra: set<string>)

  /** `sha256_digest` on the two kinds of document a verifier digests. */
  datatype Hash = Hash(ofProof: Proof -> Digest, ofSubject: Subject -> Digest)

  /** `proof_payload` */
  function Payload(p: Proof): Proof { p.(proofDigest := None) }

  predicate ValidOptionalDigest(d: Option<string>) { d.Some? && ValidDigest(d.value) }

  /** What `OperationSubject.from_dict` accepts. */
  predicate ValidSubject(s: Subject) {
    && s.schema == SUBJECT_SCHEMA && CanonicalText(s.operationId)
    && ValidDigest(s.actorDigest) && ValidDigest(s.intentDigest)
    && ValidDigest(s.targetDigest) && ValidDigest(s.stateDigest)
  }

  function UnexpectedProofFields(p: Proof): set<string> {
    p.extra
    + (if p.schema == PROOF_V2 then {}
       else When(p.subject.Some?, "subject") + When(p.subjectDigest.Some?, "subject_digest"))
  }

  /** `_verify_subject_binding` */
  function BoundSubject(p: Proof): Option<string> {
    if p.schema == PROOF_V2 && p.subject.Some? && ValidSubject(p.subject.value) && ValidOptionalDigest(p.subjectDigest)
    then p.subjectDigest else None
  }

  function SubjectReasons(h: Hash, p: Proof): set<string> {
    if p.schema != PROOF_V2 then {}
    else if p.subject.None? || !ValidSubject(p.subject.value) then {"INVALID_OPERATION_SUBJECT"}
    else
      When(p.subject.value.operationId != p.operationId, "SUBJECT_OPERATION_ID_MISMATCH")
      + if !ValidOptionalDigest(p.subjectDigest) then {"INVALID_OPERATION_SUBJECT_DIGEST"}
        else When(h.ofSubject(p.subject.value) != p.subjectDigest.value, "OPERATION_SUBJECT_DIGEST_MISMATCH")
  }

  function EvidenceFieldReasons(ev: seq<Evidence>, n: nat): set<string>
    requires n <= |ev|
  {
    set i, c | 0 <= i < n && c in UnexpectedFields(ev[i], i) :: c
  }

  /** The integrity checks that need neither the clock nor the embedded proof's verification. */
  function DocumentReasons(h: Hash, p: Proof): set<string> {
    When(UnexpectedProofFields(p) != {}, "UNEXPECTED_PROOF_FIELDS:" + Join(SortedUnique(UnexpectedProofFields(p))))
    + When(!ValidOptionalDigest(p.proofDigest), "INVALID_PROOF_DIGEST_FORMAT")
    + When(ValidOptionalDigest(p.proofDigest) && h.ofProof(Payload(p)) != p.proofDigest.value, "PROOF_DIGEST_MISMATCH")
    + When(p.schema != PROOF_V1 && p.schema != PROOF_V2, "UNSUPPORTED_SCHEMA")
    + When(p.operationId == "", "INVALID_OPERATION_ID")
    + SubjectReasons(h, p)
    + EvidenceFieldReasons(p.evidence, |p.evidence|)
    + PhaseReasons(p)
  }

  function PhaseReasons(p: Proof): set<string> {
    if p.phase == "PRE" then
      When(p.preProof.Some?, "PRE_PROOF_FIELD_FORBIDDEN")
      + When(p.preProofDigest.Some?, "PRE_PROOF_DIGEST_FIELD_FORBIDDEN")
    else if p.phase == "FINAL" then
      if p.preProof.None? then {} else
        When(p.preProof.value.schema != p.schema, "PRE_PROOF_SCHEMA_MISMATCH")
        + When(p.schema == PROOF_V2 && p.preProof.value.subject != p.subject, "PRE_PROOF_SUBJECT_MISMATCH")
        + When(p.schema == PROOF_V2 && p.preProof.value.subjectDigest != p.subjectDigest,
               "PRE_PROOF_SUBJECT_DIGEST_MISMATCH")
    else {"INVALID_PHASE"}
  }

  function PreRules(operationId: string, subject: Option<string>): Rules {
    Rules(operationId, PRE_LAYERS, {EXECUTION_LAYER}, Some(PRE_LAYERS), subject)
  }

  function FinalRules(operationId: string, subject: Option<string>): Rules {
    Rules(operationId, {EXECUTION_LAYER}, {}, Some({EXECUTION_LAYER}), subject)
  }

  /** What a FINAL proof asks of the PRE proof it embeds. */
  function EmbeddedReasons(operationId: string, pre: Option<Proof>, preDigest: Option<string>, preValid: bool,
                           subject: Option<string>): set<string> {
    When(operationId == "", "INVALID_OPERATION_ID")
    + (if pre.None? then {"PRE_PROOF_MISSING"} else
         When(!preValid, "PRE_PROOF_INVALID")
         + When(pre.value.phase != "PRE", "PRE_PROOF_PHASE_INVALID")
         + When(pre.value.decision != VERIFIED, "PRE_PROOF_NOT_VERIFIED")
         + When(pre.value.operationId != operationId, "PRE_PROOF_OPERATION_ID_MISMATCH")
         + When(pre.value.proofDigest != preDigest, "PRE_PROOF_DIGEST_MISMATCH")
         + When(subject.Some? && pre.value.schema != PROOF_V2, "PRE_PROOF_SUBJECT_BINDING_MISSING")
         + When(subject.Some? && pre.value.schema == PROOF_V2 && pre.value.subjectDigest != subject,
                "PRE_PROOF_SUBJECT_DIGEST_MISMATCH"))
    + When(!ValidOptionalDigest(preDigest), "INVALID_PRE_PROOF_DIGEST")
  }

  /** `evaluate_pre_semantics` */
  function PreReasons(operationId: string, ev: seq<Evidence>, subject: Option<string>, now: Stamp): set<string> {
    SetReasons(ev, PreRules(operationId, subject), now)
  }

  /** `_evaluate_final_semantics` */
  function FinalReasons(operationId: string, pre: Option<Proof>, preDigest: Option<string>, preValid: bool,
                        ev: seq<Evidence>, subject: Option<string>, now: Stamp): set<string> {
    EmbeddedReasons(operationId, pre, preDigest, preValid, subject)
    + SetReasons(ev, FinalRules(operationId, subject), now)
  }

  function DecisionFor(reasons: set<string>): string { if reasons == {} then VERIFIED else REJECTED }

  /** `_record_matches` */
  function RecordReasons(p: Proof, semantic: set<string>, decision: string): set<string> {
    When(p.decision != decision, "DECISION_MISMATCH")
    + When(p.reasonCodes != SortedUnique(semantic), "REASON_CODES_MISMATCH")
  }

  function PrefixCodes(codes: set<string>): set<string> { set c | c in codes :: "PRE_PROOF_INTEGRITY:" + c }

  /** The semantic reasons of a document of either phase, given whether its embedded proof verifies. */
  function Semantic(p: Proof, preValid: bool, now: Stamp): set<string> {
    if p.phase == "PRE" then PreReasons(p.operationId, p.evidence, BoundSubject(p), now)
    else if p.phase == "FINAL" then
      FinalReasons(p.operationId, p.preProof, p.preProofDigest, preValid, p.evidence, BoundSubject(p), now)
    else {}
  }

  function ExpectedDecision(p: Proof, semantic: set<string>): string {
    if p.phase == "PRE" || p.phase == "FINAL" then DecisionFor(semantic) else REJECTED
  }

  /** Why a proof does not verify at `now`; no reason means it does. */
  function VerifyReasons(h: Hash, p: Proof, now: Stamp): set<string>
    decreases p
  {
    var pre := if p.phase == "FINAL" && p.preProof.Some? then VerifyReasons(h, p.preProof.value, now) else {};
    var preValid := p.preProof.Some? && pre == {};
    var semantic := Semantic(p, preValid, now);
    DocumentReasons(h, p)
    + When(pre != {}, "PRE_PROOF_INTEGRITY_INVALID") + PrefixCodes(pre)
    + RecordReasons(p, semantic, ExpectedDecision(p, semantic))
  }

  /** `verify_proof(p).valid`, with the clock at `now`. */
  predicate ValidAt(h: Hash, p: Proof, now: Stamp) { VerifyReasons(h, p, now) == {} }

  // ----- what validity means -----

  /** Everything a valid document satisfies, phase by phase. */
  lemma ValidMeans(h: Hash, p: Proof, now: Stamp)
    ensures ValidAt(h, p, now) <==>
            && DocumentReasons(h, p) == {}
            && (p.phase == "PRE" || p.phase == "FINAL")
            && (p.phase == "FINAL" && p.preProof.Some? ==> ValidAt(h, p.preProof.value, now))
            && (var semantic := Semantic(p, p.phase == "FINAL" && p.preProof.Some?, now);
                p.reasonCodes == SortedUnique(semantic) && p.decision == DecisionFor(semantic))
  {
    hide SubjectReasons, EvidenceFieldReasons, UnexpectedProofFields, FinalReasons, PreReasons, SortedUnique;
    var pre := if p.phase == "FINAL" && p.preProof.Some? then VerifyReasons(h, p.preProof.value, now) else {};
    var all := VerifyReasons(h, p, now);
    assert DocumentReasons(h, p) <= all && PhaseReasons(p) <= DocumentReasons(h, p);
    assert When(pre != {}, "PRE_PROOF_INTEGRITY_INVALID") <= all;
    var semantic := Semantic(p, p.preProof.Some? && pre == {}, now);
    assert RecordReasons(p, semantic, ExpectedDecision(p, semantic)) <= all;
    assert PrefixCodes({}) == {};
    if ValidAt(h, p, now) {
      RecordMatches(p, semantic, ExpectedDecision(p, semantic));
      assert p.phase == "PRE" ==> Semantic(p, true, now) == Semantic(p, false, now);
    }
  }

  /** The subject fields a version asks for: a v2 document is bound to its subject, a v1 document has none. */
  predicate SubjectOk(h: Hash, p: Proof) {
    if p.schema == PROOF_V2 then
      && p.subject.Some? && ValidSubject(p.subject.value) && p.subject.value.operationId == p.operationId
      && ValidOptionalDigest(p.subjectDigest) && h.ofSubject(p.subject.value) == p.subjectDigest.value
    else p.subject.None? && p.subjectDigest.None?
  }

  /** A PRE proof embeds nothing; what a FINAL proof embeds is of the same version and about the same subject. */
  predicate EmbeddingOk(p: Proof) {
    || (p.phase == "PRE" && p.preProof.None? && p.preProofDigest.None?)
    || (p.phase == "FINAL" && (p.preProof.Some? ==>
          var q := p.preProof.value;
          && q.schema == p.schema
          && (p.schema == PROOF_V2 ==> q.subject == p.subject && q.subjectDigest == p.subjectDigest)))
  }

  /** A document that is sound by itself. */
  predicate DocumentOk(h: Hash, p: Proof) {
    && (p.schema == PROOF_V1 || p.schema == PROOF_V2) && p.operationId != "" && p.extra == {}
    && ValidOptionalDigest(p.proofDigest) && h.ofProof(Payload(p)) == p.proofDigest.value
    && (forall i | 0 <= i < |p.evidence| :: p.evidence[i].extra == {})
    && SubjectOk(h, p) && EmbeddingOk(p)
  }

  lemma DocumentClean(h: Hash, p: Proof)
    ensures DocumentReasons(h, p) == {} <==> DocumentOk(h, p)
    ensures DocumentOk(h, p) ==> BoundSubject(p) == p.subjectDigest
  {
    hide EvidenceFieldReasons, ValidSubject, ValidDigest, SortedUnique, PhaseReasons, SubjectReasons,
         UnexpectedProofFields, EmbeddingOk;
    var all := DocumentReasons(h, p);
    assert When(UnexpectedProofFields(p) != {},
                "UNEXPECTED_PROOF_FIELDS:" + Join(SortedUnique(UnexpectedProofFields(p)))) <= all;
    assert When(!ValidOptionalDigest(p.proofDigest), "INVALID_PROOF_DIGEST_FORMAT") <= all;
    assert When(ValidOptionalDigest(p.proofDigest) && h.ofProof(Payload(p)) != p.proofDigest.value,
                "PROOF_DIGEST_MISMATCH") <= all;
    assert When(p.schema != PROOF_V1 && p.schema != PROOF_V2, "UNSUPPORTED_SCHEMA") <= all;
    assert When(p.operationId == "", "INVALID_OPERATION_ID") <= all;
    assert SubjectReasons(h, p) <= all && PhaseReasons(p) <= all
      && EvidenceFieldReasons(p.evidence, |p.evidence|) <= all;
    SubjectClean(h, p);
    EmbeddingClean(p);
    EvidenceFieldsClean(p.evidence);
  }

  lemma SubjectClean(h: Hash, p: Proof)
    ensures UnexpectedProofFields(p) == {} && SubjectReasons(h, p) == {} <==> p.extra == {} && SubjectOk(h, p)
  {
  }

  lemma EmbeddingClean(p: Proof)
    ensures PhaseReasons(p) == {} <==> EmbeddingOk(p)
  {
  }

  lemma EvidenceFieldsClean(ev: seq<Evidence>)
    ensures EvidenceFieldReasons(ev, |ev|) == {} <==> forall i | 0 <= i < |ev| :: ev[i].extra == {}
  {
    hide SortedUnique, Join, DisplayLayer;
    forall i | 0 <= i < |ev| && ev[i].extra != {} ensures EvidenceFieldReasons(ev, |ev|) != {} {
      var c := "UNEXPECTED_EVIDENCE_FIELDS:" + DisplayLayer(ev[i], i) + ":" + Join(SortedUnique(ev[i].extra));
      assert c in UnexpectedFields(ev[i], i);
      assert c in EvidenceFieldReasons(ev, |ev|);
    }
  }

  lemma RecordMatches(p: Proof, semantic: set<string>, decision: string)
    ensures RecordReasons(p, semantic, decision) == {} <==>
            p.decision == decision && p.reasonCodes == SortedUnique(semantic)
  {
  }

  /** A FINAL proof may stand on the PRE proof it embeds: that one is there, verifies, is VERIFIED, is about the same
      operation and subject, and is the one whose digest is named. */
  predicate EmbeddedOk(operationId: string, pre: Option<Proof>, preDigest: Option<string>, preValid: bool,
                       subject: Option<string>) {
    && operationId != "" && ValidOptionalDigest(preDigest)
    && pre.Some? && preValid && pre.value.phase == "PRE" && pre.value.decision == VERIFIED
    && pre.value.operationId == operationId && pre.value.proofDigest == preDigest
    && (subject.Some? ==> pre.value.schema == PROOF_V2 && pre.value.subjectDigest == subject)
  }

  lemma EmbeddedClean(operationId: string, pre: Option<Proof>, preDigest: Option<string>, preValid: bool,
                      subject: Option<string>)
    ensures EmbeddedReasons(operationId, pre, preDigest, preValid, subject) == {} <==>
            EmbeddedOk(operationId, pre, preDigest, preValid, subject)
  {
    hide ValidDigest;
    var all := EmbeddedReasons(operationId, pre, preDigest, preValid, subject);
    assert When(operationId == "", "INVALID_OPERATION_ID") <= all;
    assert When(!ValidOptionalDigest(preDigest), "INVALID_PRE_PROOF_DIGEST") <= all;
    if pre.None? {
      assert "PRE_PROOF_MISSING" in all;
    } else {
      assert When(!preValid, "PRE_PROOF_INVALID") <= all;
      assert When(pre.value.phase != "PRE", "PRE_PROOF_PHASE_INVALID") <= all;
      assert When(pre.value.decision != VERIFIED, "PRE_PROOF_NOT_VERIFIED") <= all;
      assert When(pre.value.operationId != operationId, "PRE_PROOF_OPERATION_ID_MISMATCH") <= all;
      assert When(pre.value.proofDigest != preDigest, "PRE_PROOF_DIGEST_MISMATCH") <= all;
      assert When(subject.Some? && pre.value.schema != PROOF_V2, "PRE_PROOF_SUBJECT_BINDING_MISSING") <= all;
      assert When(subject.Some? && pre.value.schema == PROOF_V2 && pre.value.subjectDigest != subject,
                  "PRE_PROOF_SUBJECT_DIGEST_MISMATCH") <= all;
    }
  }

  /** What has to hold of a document's evidence and embedded proof for it to be VERIFIED, the rules written out. */
  predicate SemanticOk(p: Proof, preValid: bool, now: Stamp) {
    || (p.phase == "PRE"
        && SetOk(p.evidence, Rules(p.operationId, PRE_LAYERS, {EXECUTION_LAYER}, Some(PRE_LAYERS), BoundSubject(p)),
                 now))
    || (p.phase == "FINAL"
        && SetOk(p.evidence, Rules(p.operationId, {EXECUTION_LAYER}, {}, Some({EXECUTION_LAYER}), BoundSubject(p)), now)
        && EmbeddedOk(p.operationId, p.preProof, p.preProofDigest, preValid, BoundSubject(p)))
  }

  lemma SemanticClean(p: Proof, preValid: bool, now: Stamp)
    requires p.phase == "PRE" || p.phase == "FINAL"
    ensures Semantic(p, preValid, now) == {} <==> SemanticOk(p, preValid, now)
  {
    hide SetReasons, SetOk, EmbeddedReasons, EmbeddedOk, BoundSubject;
    var s := BoundSubject(p);
    SetClean(p.evidence, PreRules(p.operationId, s), now);
    SetClean(p.evidence, FinalRules(p.operationId, s), now);
    EmbeddedClean(p.operationId, p.preProof, p.preProofDigest, preValid, s);
    var e, f := EmbeddedReasons(p.operationId, p.preProof, p.preProofDigest, preValid, s),
                SetReasons(p.evidence, FinalRules(p.operationId, s), now);
    assert e <= e + f && f <= e + f;
  }

  /** A proof's digest covers all of it: two sound documents with one digest are equal, or their payloads collide. */
  lemma DigestCommits(h: Hash, p: Proof, q: Proof)
    requires DocumentOk(h, p) && DocumentOk(h, q) && p.proofDigest == q.proofDigest
    ensures p == q || (Payload(p) != Payload(q) && h.ofProof(Payload(p)) == h.ofProof(Payload(q)))
  {
    hide SubjectOk, EmbeddingOk, ValidDigest;
    assert p == Payload(p).(proofDigest := p.proofDigest);
    assert q == Payload(q).(proofDigest := q.proofDigest);
  }

  // ----- the program -----

  lemma EvidenceFieldStep(ev: seq<Evidence>, n: nat)
    requires n < |ev|
    ensures EvidenceFieldReasons(ev, n + 1) == EvidenceFieldReasons(ev, n) + UnexpectedFields(ev[n], n)
  {
  }

  lemma EvidenceFieldsEmpty(ev: seq<Evidence>)
    ensures EvidenceFieldReasons(ev, 0) == {}
  {
  }

  /** The first part of `verify_proof`: the document by itself. */
  method CheckDocument(h: Hash, p: Proof) returns (integrity: set<string>)
    ensures integrity == DocumentReasons(h, p)
  {
    hide SubjectReasons, UnexpectedProofFields, UnexpectedFields, PhaseReasons, EvidenceFieldReasons, SortedUnique;
    integrity := When(UnexpectedProofFields(p) != {},
                      "UNEXPECTED_PROOF_FIELDS:" + Join(SortedUnique(UnexpectedProofFields(p))));
    if !ValidOptionalDigest(p.proofDigest) {
      integrity := integrity + {"INVALID_PROOF_DIGEST_FORMAT"};
    } else if h.ofProof(Payload(p)) != p.proofDigest.value {
      integrity := integrity + {"PROOF_DIGEST_MISMATCH"};
    }
    if p.schema != PROOF_V1 && p.schema != PROOF_V2 {
      integrity := integrity + {"UNSUPPORTED_SCHEMA"};
    }
    if p.operationId == "" {
      integrity := integrity + {"INVALID_OPERATION_ID"};
    }
    integrity := integrity + SubjectReasons(h, p);
    var fields: set<string> := {};
    EvidenceFieldsEmpty(p.evidence);
    for index := 0 to |p.evidence|
      invariant fields == EvidenceFieldReasons(p.evidence, index)
    {
      EvidenceFieldStep(p.evidence, index);
      fields := fields + UnexpectedFields(p.evidence[index], index);
    }
    integrity := integrity + fields + PhaseReasons(p);
  }

  /** `verify_proof`, recursing through the embedded PRE proof. */
  method VerifyProof(h: Hash, p: Proof, now: Stamp) returns (valid: bool, codes: seq<string>)
    ensures valid <==> ValidAt(h, p, now)
    ensures codes == SortedUnique(VerifyReasons(h, p, now))
    decreases p
  {
    hide DocumentReasons, SetReasons, EmbeddedReasons, RecordReasons, SortedUnique;
    var integrity := CheckDocument(h, p);
    var semantic: set<string> := {};
    var decision := REJECTED;
    assert PrefixCodes({}) == {};
    if p.phase == "PRE" {
      semantic := PreReasons(p.operationId, p.evidence, BoundSubject(p), now);
      decision := DecisionFor(semantic);
    } else if p.phase == "FINAL" {
      var preValid := false;
      if p.preProof.Some? {
        var preCodes: seq<string>;
        preValid, preCodes := VerifyProof(h, p.preProof.value, now);
        SortedUniqueElements(VerifyReasons(h, p.preProof.value, now));
        var prefixed := set c | c in preCodes :: "PRE_PROOF_INTEGRITY:" + c;
        assert PrefixCodes(VerifyReasons(h, p.preProof.value, now)) == prefixed;
        if !preValid {
          integrity := integrity + {"PRE_PROOF_INTEGRITY_INVALID"} + prefixed;
        }
      }
      semantic := FinalReasons(p.operationId, p.preProof, p.preProofDigest, preValid, p.evidence, BoundSubject(p), now);
      decision := DecisionFor(semantic);
    }
    integrity := integrity + RecordReasons(p, semantic, decision);
    valid := integrity == {};
    codes := SortedUnique(integrity);
  }
}
