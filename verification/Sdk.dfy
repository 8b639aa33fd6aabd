/** The public acceptance gate and the bound on document depth. */
module Sdk {
  import opened PyString
  import opened TimestampOrder
  import opened Rfc3339
  import opened Evidences
  import opened Verifier
  import opened Validity
  import opened TrustStage
  import opened Trust

  // ----- depth -----

  /** A parsed document: a leaf, or a container (list or object) of children. */
  datatype Node = Leaf | Container(children: seq<Node>)

  const MAX_DEPTH := 64

  /** How many containers enclose the most deeply enclosed node. */
  function Depth(n: Node): nat {
    match n
    case Leaf => 0
    case Container(children) => if children == [] then 0 else 1 + MaxDepth(children)
  }

  function MaxDepth(ns: seq<Node>): nat {
    if ns == [] then 0
    else
      var a, b := MaxDepth(ns[..|ns| - 1]), Depth(ns[|ns| - 1]);
      if a >= b then a else b
  }

  function Size(n: Node): (s: nat)
    ensures s >= 1
  {
    match n
    case Leaf => 1
    case Container(children) => 1 + TotalSize(children)
  }

  function TotalSize(ns: seq<Node>): nat {
    if ns == [] then 0 else TotalSize(ns[..|ns| - 1]) + Size(ns[|ns| - 1])
  }

  datatype Visit = Visit(node: Node, depth: nat)

  function StackSize(stack: seq<Visit>): nat {
    if stack == [] then 0 else StackSize(stack[..|stack| - 1]) + Size(stack[|stack| - 1].node)
  }

  /** The children of a container, each one level further down. */
  function Below(children: seq<Node>, depth: nat): (r: seq<Visit>)
    ensures |r| == |children|
  {
    seq(|children|, i requires 0 <= i < |children| => Visit(children[i], depth + 1))
  }

  lemma {:induction false} StackSizeConcat(a: seq<Visit>, b: seq<Visit>)
    ensures StackSize(a + b) == StackSize(a) + StackSize(b)
  {
    if b == [] {
      assert a + b == a;
    } else {
      assert (a + b)[..|a + b| - 1] == a + b[..|b| - 1];
      StackSizeConcat(a, b[..|b| - 1]);
    }
  }

  lemma {:induction false} BelowSize(children: seq<Node>, depth: nat)
    ensures StackSize(Below(children, depth)) == TotalSize(children)
  {
    if children == [] {
    } else {
      var n := |children| - 1;
      assert Below(children, depth)[..n] == Below(children[..n], depth);
      BelowSize(children[..n], depth);
    }
  }

  /** Everything on the stack stays within the bound. */
  predicate Shallow(stack: seq<Visit>) {
    forall i | 0 <= i < |stack| :: stack[i].depth + Depth(stack[i].node) <= MAX_DEPTH
  }

  lemma {:induction false} MaxDepthBound(children: seq<Node>, bound: int)
    requires children != []
    ensures MaxDepth(children) <= bound <==> forall i | 0 <= i < |children| :: Depth(children[i]) <= bound
  {
    var n := |children| - 1;
    if n > 0 {
      MaxDepthBound(children[..n], bound);
      assert forall i | 0 <= i < n :: children[..n][i] == children[i];
    } else {
      assert MaxDepth(children[..0]) == 0;
    }
  }

  lemma BelowShallow(children: seq<Node>, depth: nat)
    requires depth <= MAX_DEPTH
    ensures Shallow(Below(children, depth)) <==> depth + Depth(Container(children)) <= MAX_DEPTH
  {
    var b, bound := Below(children, depth), MAX_DEPTH - depth - 1;
    if children != [] { MaxDepthBound(children, bound); }
    forall i | 0 <= i < |b| ensures b[i].depth + Depth(b[i].node) <= MAX_DEPTH <==> Depth(children[i]) <= bound { }
    if Shallow(b) {
      forall i | 0 <= i < |children| ensures Depth(children[i]) <= bound {
        assert b[i].depth + Depth(b[i].node) <= MAX_DEPTH;
      }
    }
  }

  lemma ShallowConcat(a: seq<Visit>, b: seq<Visit>)
    ensures Shallow(a + b) <==> Shallow(a) && Shallow(b)
  {
    var c := a + b;
    assert forall i | 0 <= i < |a| :: c[i] == a[i];
    assert forall i | 0 <= i < |b| :: c[|a| + i] == b[i];
    if Shallow(a) && Shallow(b) {
      forall i | 0 <= i < |c| ensures c[i].depth + Depth(c[i].node) <= MAX_DEPTH {
        if i >= |a| { assert c[i] == b[i - |a|]; }
      }
    }
  }

  /** `_validate_document_depth`: the walk with an explicit stack ends, and accepts exactly the documents with no
      node below more than 64 enclosing containers. */
  method ValidateDocumentDepth(value: Node) returns (ok: bool)
    ensures ok <==> Depth(value) <= MAX_DEPTH
  {
    var stack := [Visit(value, 0)];
    while stack != []
      invariant Shallow(stack) <==> Depth(value) <= MAX_DEPTH
      decreases StackSize(stack)
    {
      var n := |stack| - 1;
      var current, depth := stack[n].node, stack[n].depth;
      assert stack == stack[..n] + [stack[n]];
      ShallowConcat(stack[..n], [stack[n]]);
      stack := stack[..n];
      if depth > MAX_DEPTH {
        return false;
      }
      if current.Container? {
        BelowShallow(current.children, depth);
        ShallowConcat(stack, Below(current.children, depth));
        StackSizeConcat(stack, Below(current.children, depth));
        BelowSize(current.children, depth);
        stack := stack + Below(current.children, depth);
      }
    }
    ok := true;
  }

  // ----- acceptance -----

  /** What is handed in: a document, by the tree of its containers, whether canonical JSON can be made of it, and the
      proof it holds. */
  datatype Submission = Submission(shape: Node, canonical: bool, proof: Proof)

  /** `_snapshot_proof`: why no snapshot can be taken. */
  function SnapshotProblem(doc: Submission): Option<string> {
    if Depth(doc.shape) > MAX_DEPTH then Some("PROOF_DOCUMENT_DEPTH_EXCEEDED")
    else if !doc.canonical then Some("INVALID_PROOF_DOCUMENT")
    else None
  }

  /** `trusted` is None when trust was not evaluated. */
  datatype Assessment = Assessment(integrityValid: bool, trusted: Option<bool>, accepted: bool,
                                   integrityReasons: seq<string>, trustReasons: seq<string>, sdkReasons: seq<string>)

  /** `_invalid_assessment` */
  function Invalid(code: string): Assessment { Assessment(false, None, false, [], [], [code]) }

  /** `_preflight_proof_shape` */
  predicate NestedFinal(p: Proof) { p.phase == "FINAL" && p.preProof.Some? && p.preProof.value.phase == "FINAL" }

  /** `assess_proof`, with the clock at `now`; no registry means trust is not evaluated. */
  function Assess(h: Hash, doc: Submission, registry: Option<Registry>, now: Stamp): Assessment {
    var problem, p := SnapshotProblem(doc), doc.proof;
    if problem.Some? then Invalid(problem.value)
    else if NestedFinal(p) then Invalid("NESTED_FINAL_PRE_PROOF_FORBIDDEN")
    else
      var integrity := VerifyReasons(h, p, now);
      match registry
      case None =>
        Assessment(integrity == {}, None, false, SortedUnique(integrity), [], ["TRUST_NOT_EVALUATED"])
      case Some(verifiers) =>
        var trust := TrustReasons(h, p, verifiers, Direct, now);
        Assessment(integrity == {}, Some(trust == {}), integrity == {} && p.decision == VERIFIED && trust == {},
                   SortedUnique(integrity), SortedUnique(trust), [])
  }

  /** `assess_proof`: the snapshot, the shape, the verifier and the trust gate, one after the other. */
  method AssessProof(h: Hash, doc: Submission, registry: ProviderTrustRegistry?, stages: ContextVariable, now: Stamp)
    returns (a: Assessment)
    modifies stages
    ensures a == Assess(h, doc, if registry == null then None else Some(registry.verifiers), now)
    ensures stages.current == old(stages.current)
  {
    hide VerifyReasons, TrustReasons, SortedUnique;
    var shallow := ValidateDocumentDepth(doc.shape);
    if !shallow {
      return Invalid("PROOF_DOCUMENT_DEPTH_EXCEEDED");
    }
    if !doc.canonical {
      return Invalid("INVALID_PROOF_DOCUMENT");
    }
    if NestedFinal(doc.proof) {
      return Invalid("NESTED_FINAL_PRE_PROOF_FORBIDDEN");
    }
    var valid, codes := VerifyProof(h, doc.proof, now);
    if registry == null {
      return Assessment(valid, None, false, codes, [], ["TRUST_NOT_EVALUATED"]);
    }
    var trusted, trustCodes, looks := registry.VerifyProofTrust(h, doc.proof, stages, Direct, now);
    a := Assessment(valid, Some(trusted), valid && doc.proof.decision == VERIFIED && trusted, codes, trustCodes, []);
  }

  /** All items pass, are unexpired, and belong to the operation; and each was accepted by its registered verifier, told
      that it comes from a proof of this phase, operation and digests, and its place in it. */
  predicate ItemsAccepted(ev: seq<Evidence>, phase: string, operationId: string, proofDigest: string,
                          preProofDigest: Option<string>, registry: Registry, stage: Stage, now: Stamp) {
    forall i | 0 <= i < |ev| ::
      && ev[i].verdict == "PASS" && !IsExpired(ev[i], now) && ev[i].operationId == operationId
      && VerifierAccepts(registry, ev[i], Context(phase, phase, operationId, proofDigest, preProofDigest, i), stage)
  }

  predicate OneSubject(p: Proof, digest: Option<string>) {
    digest.Some? && forall i | 0 <= i < |p.evidence| :: p.evidence[i].subjectDigest == digest.value
  }

  predicate OneItemPerLayer(ev: seq<Evidence>, layers: set<string>) {
    && |ev| == |layers|
    && (forall i | 0 <= i < |ev| :: ev[i].layer in layers)
    && (forall l | l in layers :: exists i :: 0 <= i < |ev| && ev[i].layer == l)
    && (forall i, j | 0 <= i < j < |ev| :: ev[i].layer != ev[j].layer)
  }

  lemma {:induction false} DistinctLayersCount(ev: seq<Evidence>)
    requires forall i, j | 0 <= i < j < |ev| :: ev[i].layer != ev[j].layer
    ensures |(set i | 0 <= i < |ev| :: ev[i].layer)| == |ev|
  {
    if ev == [] {
    } else {
      var n := |ev| - 1;
      DistinctLayersCount(ev[..n]);
      var before := set i | 0 <= i < n :: ev[..n][i].layer;
      assert (set i | 0 <= i < |ev| :: ev[i].layer) == before + {ev[n].layer};
      assert ev[n].layer !in before;
    }
  }

  /** A clean set whose required and allowed layers agree has exactly one item per layer. */
  lemma CleanSetLayers(ev: seq<Evidence>, rules: Rules, now: Stamp)
    requires "" !in rules.required && SetReasons(ev, rules, now) == {} && rules.allowed == Some(rules.required)
    ensures OneItemPerLayer(ev, rules.required)
  {
    hide SetReasons, EnvelopeOk, ValidDigest;
    SetClean(ev, rules, now);
    DistinctLayersCount(ev);
    assert (set i | 0 <= i < |ev| :: ev[i].layer) == rules.required;
  }

  lemma CleanItemsAccepted(p: Proof, rules: Rules, proofDigest: string, preProofDigest: Option<string>,
                           registry: Registry, stage: Stage, now: Stamp)
    requires "" !in rules.required && SetReasons(p.evidence, rules, now) == {} && rules.operationId == p.operationId
    requires forall i | 0 <= i < |p.evidence| ::
               VerifierAccepts(registry, p.evidence[i],
                               Context(p.phase, p.phase, p.operationId, proofDigest, preProofDigest, i), stage)
    ensures ItemsAccepted(p.evidence, p.phase, p.operationId, proofDigest, preProofDigest, registry, stage, now)
    ensures rules.subject.Some? ==> OneSubject(p, rules.subject)
  {
    hide SetReasons, Parse, Compare, ValidDigest, VerifierAccepts;
    SetClean(p.evidence, rules, now);
  }

  /** An accepted FINAL proof: exactly eight evidence items, one per layer, all passing, unexpired and of one operation
      (and one subject in v2); seven accepted at the embedded stage under the PRE proof's digest, and the execution
      item at the direct stage under the FINAL proof's own, bound to that PRE proof. */
  lemma AcceptedFinal(h: Hash, doc: Submission, registry: Registry, now: Stamp)
    requires Assess(h, doc, Some(registry), now).accepted && doc.proof.phase == "FINAL"
    ensures doc.proof.preProof.Some? && doc.proof.proofDigest.Some? && doc.proof.preProofDigest.Some?
    ensures var p := doc.proof;
            var pre := p.preProof.value;
            && pre.phase == "PRE" && pre.operationId == p.operationId && pre.proofDigest == p.preProofDigest
            && OneItemPerLayer(p.evidence, {EXECUTION_LAYER}) && OneItemPerLayer(pre.evidence, PRE_LAYERS)
            && |p.evidence| + |pre.evidence| == 8
            && ItemsAccepted(p.evidence, "FINAL", p.operationId, p.proofDigest.value, p.preProofDigest, registry,
                             Direct, now)
            && ItemsAccepted(pre.evidence, "PRE", p.operationId, p.preProofDigest.value, None, registry,
                             EmbeddedPreOfFinal, now)
            && (p.schema == PROOF_V2 ==> OneSubject(p, p.subjectDigest) && OneSubject(pre, p.subjectDigest))
  {
    hide SetReasons, ItemsAccepted, VerifyReasons, DocumentReasons, EmbeddedReasons, OneSubject, OneItemPerLayer,
         TrustReasons, BoundSubject, Assess;
    var p := doc.proof;
    AcceptedParts(h, doc, registry, now);
    TrustedMeans(h, p, registry, Direct, now);
    VerifiedMeans(h, p, now);
    var pre := p.preProof.value;
    TrustedMeans(h, pre, registry, EmbeddedPreOfFinal, now);
    VerifiedMeans(h, pre, now);
    CleanSetLayers(p.evidence, FinalRules(p.operationId, BoundSubject(p)), now);
    CleanSetLayers(pre.evidence, PreRules(pre.operationId, BoundSubject(pre)), now);
    CleanItemsAccepted(p, FinalRules(p.operationId, BoundSubject(p)), p.proofDigest.value, p.preProofDigest, registry,
                       Direct, now);
    CleanItemsAccepted(pre, PreRules(pre.operationId, BoundSubject(pre)), pre.proofDigest.value, None, registry,
                       EmbeddedPreOfFinal, now);
    if p.schema == PROOF_V2 { FinalSubjects(h, p, now); }
    LayerSizes(p, pre);
  }

  /** An accepted PRE proof: exactly seven items, one per layer, all passing, unexpired, of one operation (and one
      subject in v2), and each accepted by its registered verifier at the direct stage. */
  lemma AcceptedPre(h: Hash, doc: Submission, registry: Registry, now: Stamp)
    requires Assess(h, doc, Some(registry), now).accepted && doc.proof.phase == "PRE"
    ensures doc.proof.proofDigest.Some?
    ensures var p := doc.proof;
            && OneItemPerLayer(p.evidence, PRE_LAYERS)
            && ItemsAccepted(p.evidence, "PRE", p.operationId, p.proofDigest.value, None, registry, Direct, now)
            && (p.schema == PROOF_V2 ==> OneSubject(p, p.subjectDigest))
  {
    hide SetReasons, ItemsAccepted, VerifyReasons, DocumentReasons, EmbeddedReasons, OneSubject, OneItemPerLayer,
         TrustReasons, BoundSubject, Assess, DocumentOk, ValidDigest;
    var p := doc.proof;
    AcceptedParts(h, doc, registry, now);
    TrustedMeans(h, p, registry, Direct, now);
    VerifiedMeans(h, p, now);
    ValidMeans(h, p, now);
    DocumentClean(h, p);
    CleanSetLayers(p.evidence, PreRules(p.operationId, BoundSubject(p)), now);
    CleanItemsAccepted(p, PreRules(p.operationId, BoundSubject(p)), p.proofDigest.value, None, registry, Direct, now);
    if p.schema == PROOF_V2 { SubjectGiven(h, p); }
  }

  lemma SubjectGiven(h: Hash, p: Proof)
    requires DocumentOk(h, p) && p.schema == PROOF_V2
    ensures p.subjectDigest.Some?
  {
  }

  lemma AcceptedParts(h: Hash, doc: Submission, registry: Registry, now: Stamp)
    requires Assess(h, doc, Some(registry), now).accepted
    ensures ValidAt(h, doc.proof, now) && doc.proof.decision == VERIFIED
    ensures TrustReasons(h, doc.proof, registry, Direct, now) == {}
  {
    hide VerifyReasons, TrustReasons, SortedUnique;
  }

  lemma LayerSizes(p: Proof, pre: Proof)
    requires OneItemPerLayer(p.evidence, {EXECUTION_LAYER}) && OneItemPerLayer(pre.evidence, PRE_LAYERS)
    ensures |p.evidence| + |pre.evidence| == 8
  {
    hide PRE_LAYERS;
    PreLayersCount();
  }

  lemma PreLayersCount()
    ensures |PRE_LAYERS| == 7
  {
  }

  /** A v2 FINAL proof and the PRE proof it embeds are bound to one subject. */
  lemma FinalSubjects(h: Hash, p: Proof, now: Stamp)
    requires ValidAt(h, p, now) && p.phase == "FINAL" && p.preProof.Some? && p.schema == PROOF_V2
    requires ValidAt(h, p.preProof.value, now)
    ensures BoundSubject(p) == p.subjectDigest == BoundSubject(p.preProof.value) && p.subjectDigest.Some?
    ensures p.preProof.value.subjectDigest == p.subjectDigest
  {
    hide SetReasons, EmbeddedReasons, VerifyReasons, DocumentReasons, ValidSubject, ValidDigest, BoundSubject;
    ValidMeans(h, p, now);
    ValidMeans(h, p.preProof.value, now);
    DocumentClean(h, p);
    DocumentClean(h, p.preProof.value);
  }

  /** Acceptance, exactly: a document that is shallow and canonical, with a registry to judge it, that is trusted. A
      FINAL proof in a FINAL one never is. */
  lemma AcceptanceIsFailClosed(h: Hash, doc: Submission, registry: Option<Registry>, now: Stamp)
    ensures Assess(h, doc, registry, now).accepted <==>
            && Depth(doc.shape) <= MAX_DEPTH && doc.canonical && registry.Some?
            && TrustReasons(h, doc.proof, registry.value, Direct, now) == {}
  {
    hide VerifyReasons, SortedUnique, TrustReasons, SetReasons, DocumentReasons, EmbeddedReasons, ValidDigest;
    if registry.Some? && TrustReasons(h, doc.proof, registry.value, Direct, now) == {} {
      TrustedMeans(h, doc.proof, registry.value, Direct, now);
      VerifiedMeans(h, doc.proof, now);
    }
  }

  /** The rest of the assessment. A refused document has no codes but the reason of the refusal; an assessed one is
      valid exactly when the proof verifies, with no code otherwise, and trusted exactly when a registry trusts it. */
  lemma AssessmentTells(h: Hash, doc: Submission, registry: Option<Registry>, now: Stamp)
    ensures var a, p := Assess(h, doc, registry, now), doc.proof;
            if Depth(doc.shape) > MAX_DEPTH || !doc.canonical
               || (p.phase == "FINAL" && p.preProof.Some? && p.preProof.value.phase == "FINAL") then
              && !a.integrityValid && a.trusted == None && !a.accepted && a.integrityReasons == a.trustReasons == []
              && a.sdkReasons == [if Depth(doc.shape) > MAX_DEPTH then "PROOF_DOCUMENT_DEPTH_EXCEEDED"
                                  else if !doc.canonical then "INVALID_PROOF_DOCUMENT"
                                  else "NESTED_FINAL_PRE_PROOF_FORBIDDEN"]
            else
              && (a.integrityValid <==> ValidAt(h, p, now))
              && (forall c :: c in a.integrityReasons <==> c in VerifyReasons(h, p, now))
              && (a.trusted.Some? <==> registry.Some?)
              && (a.trusted == Some(true) <==> registry.Some? && TrustReasons(h, p, registry.value, Direct, now) == {})
              && (forall c :: c in a.trustReasons <==>
                    registry.Some? && c in TrustReasons(h, p, registry.value, Direct, now))
              && a.sdkReasons == (if registry.None? then ["TRUST_NOT_EVALUATED"] else [])
              && (a.accepted <==> a.integrityValid && a.trusted == Some(true) && p.decision == VERIFIED)
  {
    hide VerifyReasons, TrustReasons, SortedUnique;
    SortedUniqueElements(VerifyReasons(h, doc.proof, now));
    if registry.Some? { SortedUniqueElements(TrustReasons(h, doc.proof, registry.value, Direct, now)); }
  }
}
