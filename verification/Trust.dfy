/** The provider trust gate: every evidence item is put to its registered verifier. */
module Trust {
  import opened PyString
  import opened TimestampOrder
  import opened Rfc3339
  import opened Evidences
  import opened Verifier
  import opened Validity
  import opened TrustStage

  /** What a verifier is told about the proof an item came from. */
  datatype Context = Context(rootPhase: string, evidencePhase: string, operationId: string, proofDigest: string,
                             preProofDigest: Option<string>, evidenceIndex: nat)

  /** An external verifier: what it does with an item in its context. */
  type EvidenceVerifier = (Evidence, Context) -> Script

  type Registry = map<(string, string), EvidenceVerifier>

  const LAYERS: set<string> := PRE_LAYERS + {EXECUTION_LAYER}

  /** `_verify_evidence_trust` */
  function ItemTrust(e: Evidence, c: Context, registry: Registry, stage: Stage): set<string> {
    if e.layer == "" then {"INVALID_TRUST_LAYER:" + Decimal(c.evidenceIndex)}
    else if e.provider == "" then {"INVALID_TRUST_PROVIDER:" + e.layer}
    else if (e.layer, e.provider) !in registry then {"UNREGISTERED_PROVIDER:" + e.layer + ":" + e.provider}
    else
      match AnswerAt(registry[(e.layer, e.provider)](e, c), stage)
      case Raised => {"PROVIDER_TRUST_VERIFIER_ERROR:" + e.layer + ":" + e.provider}
      case NotTrue => {"UNTRUSTED_PROVIDER_EVIDENCE:" + e.layer + ":" + e.provider}
      case True => {}
  }

  function DigestText(d: Option<string>): string { if d.Some? then d.value else "None" }

  /** The context of one item: the phase, name and digests of the proof that holds it directly. */
  function ContextOf(p: Proof, index: nat): Context {
    Context(p.phase, p.phase, p.operationId, DigestText(p.proofDigest),
            if p.phase == "FINAL" then p.preProofDigest else None, index)
  }

  function ItemsTrust(p: Proof, n: nat, registry: Registry, stage: Stage): set<string>
    requires n <= |p.evidence|
  {
    set i, c | 0 <= i < n && c in ItemTrust(p.evidence[i], ContextOf(p, i), registry, stage) :: c
  }

  /** `_verify_proof_trust_at_stage` */
  function TrustReasons(h: Hash, p: Proof, registry: Registry, stage: Stage, now: Stamp): set<string>
    decreases p
  {
    var integrity := VerifyReasons(h, p, now);
    if integrity != {} then {"PROOF_INTEGRITY_INVALID"} + (set c | c in integrity :: "PROOF_INTEGRITY:" + c)
    else if p.decision != VERIFIED then {"PROOF_NOT_VERIFIED"}
    else if p.phase == "FINAL" && p.preProof.None? then {"INVALID_TRUST_PRE_PROOF"}
    else
      (if p.phase == "FINAL" then TrustReasons(h, p.preProof.value, registry, EmbeddedPreOfFinal, now) else {})
      + ItemsTrust(p, |p.evidence|, registry, stage)
  }

  /** The provider trust registry. */
  class ProviderTrustRegistry {
    var verifiers: Registry

    constructor ()
      ensures verifiers == map[]
    {
      verifiers := map[];
    }

    /** `register`: an entry is never replaced; None is success. */
    method Register(layer: string, provider: string, verifier: EvidenceVerifier) returns (error: Option<string>)
      modifies this
      ensures error.None? <==> layer in LAYERS && provider != "" && (layer, provider) !in old(verifiers)
      ensures error.None? ==> verifiers == old(verifiers)[(layer, provider) := verifier]
      ensures error.Some? ==> verifiers == old(verifiers)
    {
      if layer == "" {
        return Some("INVALID_TRUST_LAYER");
      }
      if layer !in LAYERS {
        return Some("UNKNOWN_TRUST_LAYER");
      }
      if provider == "" {
        return Some("INVALID_TRUST_PROVIDER");
      }
      if (layer, provider) in verifiers {
        return Some("DUPLICATE_PROVIDER_TRUST_ENTRY");
      }
      verifiers := verifiers[(layer, provider) := verifier];
      error := None;
    }

    /** `_verify_evidence_trust`: the verifier runs under the context variable, which is left as it was. */
    method VerifyEvidenceTrust(e: Evidence, c: Context, stages: ContextVariable, stage: Stage)
      returns (reasons: set<string>, looks: seq<Sight>)
      modifies stages
      ensures stages.current == old(stages.current)
      ensures reasons == ItemTrust(e, c, verifiers, stage)
      ensures forall i | 0 <= i < |looks| :: looks[i].seen == looks[i].invokedAt
    {
      if e.layer == "" {
        return {"INVALID_TRUST_LAYER:" + Decimal(c.evidenceIndex)}, [];
      }
      if e.provider == "" {
        return {"INVALID_TRUST_PROVIDER:" + e.layer}, [];
      }
      if (e.layer, e.provider) !in verifiers {
        return {"UNREGISTERED_PROVIDER:" + e.layer + ":" + e.provider}, [];
      }
      ghost var made;
      var answer;
      answer, looks, made := stages.Invoke(stage, verifiers[(e.layer, e.provider)](e, c));
      match answer {
        case Raised => reasons := {"PROVIDER_TRUST_VERIFIER_ERROR:" + e.layer + ":" + e.provider};
        case NotTrue => reasons := {"UNTRUSTED_PROVIDER_EVIDENCE:" + e.layer + ":" + e.provider};
        case True => reasons := {};
      }
    }

    /** `verify_proof_trust`, recursing into the embedded PRE proof at its own stage. Every verifier runs under the
        context variable, and every look it takes finds the stage of its own invocation. */
    method VerifyProofTrust(h: Hash, p: Proof, stages: ContextVariable, stage: Stage, now: Stamp)
      returns (trusted: bool, codes: seq<string>, looks: seq<Sight>)
      modifies stages
      ensures stages.current == old(stages.current)
      ensures forall i | 0 <= i < |looks| :: looks[i].seen == looks[i].invokedAt
      ensures trusted <==> TrustReasons(h, p, verifiers, stage, now) == {}
      ensures codes == SortedUnique(TrustReasons(h, p, verifiers, stage, now))
      decreases p
    {
      hide ItemTrust, SortedUnique, Verifier.VerifyReasons;
      var reasons: set<string>;
      var valid, integrity := VerifyProof(h, p, now);
      SortedUniqueElements(VerifyReasons(h, p, now));
      if !valid {
        reasons := {"PROOF_INTEGRITY_INVALID"} + (set c | c in integrity :: "PROOF_INTEGRITY:" + c);
        assert (set c | c in integrity :: "PROOF_INTEGRITY:" + c)
          == (set c | c in VerifyReasons(h, p, now) :: "PROOF_INTEGRITY:" + c);
        return false, SortedUnique(reasons), [];
      }
      if p.decision != VERIFIED {
        return false, SortedUnique({"PROOF_NOT_VERIFIED"}), [];
      }
      reasons, looks := {}, [];
      if p.phase == "FINAL" {
        if p.preProof.None? {
          return false, SortedUnique({"INVALID_TRUST_PRE_PROOF"}), [];
        }
        var pre := p.preProof.value;
        var preTrusted, preCodes;
        preTrusted, preCodes, looks := VerifyProofTrust(h, pre, stages, EmbeddedPreOfFinal, now);
        SortedUniqueElements(TrustReasons(h, pre, verifiers, EmbeddedPreOfFinal, now));
        reasons := set c | c in preCodes;
        assert reasons == TrustReasons(h, pre, verifiers, EmbeddedPreOfFinal, now);
      }
      ghost var start := reasons;
      for index := 0 to |p.evidence|
        invariant reasons == start + ItemsTrust(p, index, verifiers, stage)
        invariant stages.current == old(stages.current)
        invariant forall i | 0 <= i < |looks| :: looks[i].seen == looks[i].invokedAt
      {
        var found, seen := VerifyEvidenceTrust(p.evidence[index], ContextOf(p, index), stages, stage);
        reasons, looks := reasons + found, looks + seen;
        ItemsTrustStep(p, index, verifiers, stage);
      }
      trusted := reasons == {};
      codes := SortedUnique(reasons);
    }
  }

  lemma ItemsTrustStep(p: Proof, n: nat, registry: Registry, stage: Stage)
    requires n < |p.evidence|
    ensures ItemsTrust(p, n + 1, registry, stage) ==
            ItemsTrust(p, n, registry, stage) + ItemTrust(p.evidence[n], ContextOf(p, n), registry, stage)
  {
  }

  /** The item was put to its registered verifier, in this context and at this stage, and accepted. */
  predicate VerifierAccepts(registry: Registry, e: Evidence, c: Context, stage: Stage) {
    (e.layer, e.provider) in registry && AnswerAt(registry[(e.layer, e.provider)](e, c), stage) == True
  }

  /** Trust, exactly: the proof verifies and is recorded VERIFIED, every item is accepted by the verifier registered
      for its layer and provider, told the phase, name and own digest of the proof that holds it, the digest of the
      PRE proof in a FINAL one only, and its place; and an embedded PRE proof is there and trusted at its own stage.
      */
  lemma TrustedMeans(h: Hash, p: Proof, registry: Registry, stage: Stage, now: Stamp)
    ensures TrustReasons(h, p, registry, stage, now) == {} <==>
            && ValidAt(h, p, now) && p.decision == VERIFIED && p.proofDigest.Some?
            && (forall i | 0 <= i < |p.evidence| ::
                  VerifierAccepts(registry, p.evidence[i],
                                  Context(p.phase, p.phase, p.operationId, p.proofDigest.value,
                                          if p.phase == "FINAL" then p.preProofDigest else None, i), stage))
            && (p.phase == "FINAL" ==>
                  p.preProof.Some? && TrustReasons(h, p.preProof.value, registry, EmbeddedPreOfFinal, now) == {})
  {
    hide ContextOf, VerifyReasons, SetReasons, VerifierAccepts;
    if ValidAt(h, p, now) && p.decision == VERIFIED {
      ItemsTrusted(h, p, registry, stage, now);
      ContextsOf(h, p, now);
      assert ItemsTrust(p, |p.evidence|, registry, stage) <= TrustReasons(h, p, registry, stage, now)
        || (p.phase == "FINAL" && p.preProof.None?);
    }
  }

  lemma ContextsOf(h: Hash, p: Proof, now: Stamp)
    requires ValidAt(h, p, now)
    ensures p.proofDigest.Some?
    ensures forall i: nat ::
              ContextOf(p, i) == Context(p.phase, p.phase, p.operationId, p.proofDigest.value,
                                         if p.phase == "FINAL" then p.preProofDigest else None, i)
  {
    hide VerifyReasons, DocumentReasons, SetReasons, SubjectOk, EmbeddingOk;
    ValidMeans(h, p, now);
    DocumentClean(h, p);
  }

  lemma ItemsTrusted(h: Hash, p: Proof, registry: Registry, stage: Stage, now: Stamp)
    requires ValidAt(h, p, now) && p.decision == VERIFIED
    ensures ItemsTrust(p, |p.evidence|, registry, stage) == {} <==>
            forall i | 0 <= i < |p.evidence| :: VerifierAccepts(registry, p.evidence[i], ContextOf(p, i), stage)
  {
    hide ContextOf, ItemTrust, VerifierAccepts, VerifyReasons;
    var all := ItemsTrust(p, |p.evidence|, registry, stage);
    forall i | 0 <= i < |p.evidence|
      ensures ItemTrust(p.evidence[i], ContextOf(p, i), registry, stage) <= all
      ensures ItemTrust(p.evidence[i], ContextOf(p, i), registry, stage) == {} <==>
              VerifierAccepts(registry, p.evidence[i], ContextOf(p, i), stage)
    {
      ItemNamed(h, p, i, now);
      ItemTrusted(p.evidence[i], ContextOf(p, i), registry, stage);
      forall c | c in ItemTrust(p.evidence[i], ContextOf(p, i), registry, stage) ensures c in all { }
    }
  }

  lemma ItemTrusted(e: Evidence, c: Context, registry: Registry, stage: Stage)
    requires e.layer != "" && e.provider != ""
    ensures ItemTrust(e, c, registry, stage) == {} <==> VerifierAccepts(registry, e, c, stage)
  {
  }

  /** The items of a proof that verifies name their layer and provider. */
  lemma ItemNamed(h: Hash, p: Proof, i: nat, now: Stamp)
    requires ValidAt(h, p, now) && p.decision == VERIFIED && i < |p.evidence|
    ensures p.evidence[i].layer != "" && p.evidence[i].provider != ""
  {
    hide ValidAt, SetReasons, PlacedOk, ValidDigest, Compare, Parse, BoundSubject, EmbeddedReasons;
    VerifiedMeans(h, p, now);
    SetClean(p.evidence, PreRules(p.operationId, BoundSubject(p)), now);
    SetClean(p.evidence, FinalRules(p.operationId, BoundSubject(p)), now);
  }
}
