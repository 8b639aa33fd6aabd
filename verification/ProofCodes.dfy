/** What the reason codes of a proof verification tell. */
module ProofCodes {
  import opened PyString
  import opened TimestampOrder
  import opened Evidences
  import opened EvidenceCodes
  import opened Verifier

  /** The document's own codes are none of those about the record or the embedded proof's verification. */
  predicate RecordCode(c: string) {
    c == "DECISION_MISMATCH" || c == "REASON_CODES_MISMATCH" || c == "PRE_PROOF_INTEGRITY_INVALID"
    || (|c| >= 20 && c[..20] == "PRE_PROOF_INTEGRITY:")
  }

  /** None of them but those about the embedded proof begins with this. */
  predicate AboutEmbedded(c: string) { |c| >= 11 && c[0] == 'P' && c[10] == 'I' }

  lemma RecordLetters(c: string)
    requires RecordCode(c)
    ensures Begins(c, 'D') || Begins(c, 'R') || AboutEmbedded(c)
  {
    if |c| >= 20 && c[..20] == "PRE_PROOF_INTEGRITY:" { assert c[0] == c[..20][0] && c[10] == c[..20][10]; }
  }

  predicate DocumentLetter(c: string) {
    Begins(c, 'U') || Begins(c, 'I') || Begins(c, 'S') || Begins(c, 'O') || (Begins(c, 'P') && !AboutEmbedded(c))
  }

  lemma DocumentLetters(h: Hash, p: Proof, c: string)
    requires c in DocumentReasons(h, p)
    ensures DocumentLetter(c)
  {
    hide UnexpectedProofFields, SortedUnique, Join, ValidDigest, ValidSubject, SubjectReasons, PhaseReasons,
         EvidenceFieldReasons, UnexpectedFields;
    if c in SubjectReasons(h, p) { SubjectLetters(h, p, c); }
    if c in PhaseReasons(p) { PhaseLetters(p, c); }
    if c in EvidenceFieldReasons(p.evidence, |p.evidence|) { FieldLetters(p.evidence, c); }
  }

  lemma SubjectLetters(h: Hash, p: Proof, c: string)
    requires c in SubjectReasons(h, p)
    ensures Begins(c, 'S') || Begins(c, 'I') || Begins(c, 'O')
  {
    hide ValidDigest, ValidSubject;
  }

  lemma PhaseLetters(p: Proof, c: string)
    requires c in PhaseReasons(p)
    ensures Begins(c, 'I') || (Begins(c, 'P') && !AboutEmbedded(c))
  {
  }

  lemma FieldLetters(ev: seq<Evidence>, c: string)
    requires c in EvidenceFieldReasons(ev, |ev|)
    ensures Begins(c, 'U')
  {
    hide DisplayLayer, SortedUnique, Join;
  }

  lemma NotOfDocument(h: Hash, p: Proof, c: string)
    requires RecordCode(c)
    ensures c !in DocumentReasons(h, p)
  {
    hide DocumentReasons;
    RecordLetters(c);
    if c in DocumentReasons(h, p) { DocumentLetters(h, p, c); }
  }

  /** The codes of the embedded proof, none if there is none to verify. */
  function EmbeddedCodes(h: Hash, p: Proof, now: Stamp): set<string> {
    if p.phase == "FINAL" && p.preProof.Some? then VerifyReasons(h, p.preProof.value, now) else {}
  }

  /** The reasons the record should give. */
  function SemanticOf(h: Hash, p: Proof, now: Stamp): set<string> {
    Semantic(p, p.preProof.Some? && EmbeddedCodes(h, p, now) == {}, now)
  }

  lemma CodeOrigin(h: Hash, p: Proof, now: Stamp, c: string)
    requires RecordCode(c)
    ensures var semantic := SemanticOf(h, p, now);
            c in VerifyReasons(h, p, now) <==>
            || (EmbeddedCodes(h, p, now) != {} && c == "PRE_PROOF_INTEGRITY_INVALID")
            || c in PrefixCodes(EmbeddedCodes(h, p, now))
            || c in RecordReasons(p, semantic, ExpectedDecision(p, semantic))
  {
    hide DocumentReasons, SortedUnique, Semantic, PrefixCodes, RecordReasons, RecordCode;
    NotOfDocument(h, p, c);
  }

  lemma PrefixedCodes(codes: set<string>, c: string)
    requires c in PrefixCodes(codes)
    ensures |c| >= 20 && c[0] == 'P' && c[19] == ':'
  {
  }

  lemma RecordedCodes(p: Proof, semantic: set<string>, decision: string, c: string)
    requires c in RecordReasons(p, semantic, decision)
    ensures Begins(c, 'D') || Begins(c, 'R')
  {
    hide SortedUnique;
  }

  /** The codes tell which of decision and reasons does not match the record. */
  lemma RecordCodes(h: Hash, p: Proof, now: Stamp)
    requires p.phase == "PRE" || p.phase == "FINAL"
    ensures var semantic := SemanticOf(h, p, now);
            && ("DECISION_MISMATCH" in VerifyReasons(h, p, now) <==>
                  p.decision != (if semantic == {} then VERIFIED else REJECTED))
            && ("REASON_CODES_MISMATCH" in VerifyReasons(h, p, now) <==> p.reasonCodes != SortedUnique(semantic))
  {
    hide VerifyReasons, SortedUnique, SemanticOf, PrefixCodes;
    var d, r := "DECISION_MISMATCH", "REASON_CODES_MISMATCH";
    CodeOrigin(h, p, now, d);
    CodeOrigin(h, p, now, r);
    if d in PrefixCodes(EmbeddedCodes(h, p, now)) { PrefixedCodes(EmbeddedCodes(h, p, now), d); }
    if r in PrefixCodes(EmbeddedCodes(h, p, now)) { PrefixedCodes(EmbeddedCodes(h, p, now), r); }
  }

  /** They tell whether the embedded proof fails to verify, and every code of that failure. */
  lemma EmbeddedFailureCodes(h: Hash, p: Proof, now: Stamp, c: string)
    ensures var embedded := p.phase == "FINAL" && p.preProof.Some?;
            && ("PRE_PROOF_INTEGRITY_INVALID" in VerifyReasons(h, p, now) <==>
                  embedded && !ValidAt(h, p.preProof.value, now))
            && ("PRE_PROOF_INTEGRITY:" + c in VerifyReasons(h, p, now) <==>
                  embedded && c in VerifyReasons(h, p.preProof.value, now))
  {
    hide VerifyReasons, SemanticOf, PrefixCodes, RecordReasons, ExpectedDecision;
    var invalid, code := "PRE_PROOF_INTEGRITY_INVALID", "PRE_PROOF_INTEGRITY:" + c;
    var codes, semantic := EmbeddedCodes(h, p, now), SemanticOf(h, p, now);
    assert code[..20] == "PRE_PROOF_INTEGRITY:" && code[0] == 'P' && code[19] == ':' && invalid[19] == '_';
    CodeOrigin(h, p, now, invalid);
    CodeOrigin(h, p, now, code);
    Prefixed(codes, c);
    if invalid in PrefixCodes(codes) { PrefixedCodes(codes, invalid); }
    forall x | x in RecordReasons(p, semantic, ExpectedDecision(p, semantic)) ensures !Begins(x, 'P') {
      RecordedCodes(p, semantic, ExpectedDecision(p, semantic), x);
    }
    assert Begins(invalid, 'P') && Begins(code, 'P');
  }

  lemma Prefixed(codes: set<string>, c: string)
    ensures "PRE_PROOF_INTEGRITY:" + c in PrefixCodes(codes) <==> c in codes
  {
    forall x | "PRE_PROOF_INTEGRITY:" + x == "PRE_PROOF_INTEGRITY:" + c ensures x == c {
      SameTail("PRE_PROOF_INTEGRITY:", x, c);
    }
  }
}
