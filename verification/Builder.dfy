/** Building PRE and FINAL proofs, and their agreement with the verifier. */
module Builder {
  import opened PyString
  import opened TimestampOrder
  import opened Rfc3339
  import opened Evidences
  import opened Verifier

  datatype Verdict = Pass | Fail | Unknown

  function VerdictName(v: Verdict): string {
    match v
    case Pass => "PASS"
    case Fail => "FAIL"
    case Unknown => "UNKNOWN"
  }

  /** A typed evidence envelope. */
  datatype Envelope = Envelope(schema: string, layer: Layer, provider: string, operationId: string, decision: string,
                               verdict: Verdict, subjectDigest: string, evidenceDigest: string, issuedAt: string,
                               expiresAt: Option<string>, metadata: Metadata)

  /** `EvidenceEnvelope.to_dict` */
  function ToDict(e: Envelope): Evidence {
    Evidence(e.schema, LayerName(e.layer), e.provider, e.operationId, e.decision, VerdictName(e.verdict),
             e.subjectDigest, e.evidenceDigest, e.issuedAt, e.expiresAt, Some(e.metadata), {})
  }

  function ToDicts(es: seq<Envelope>): (r: seq<Evidence>)
    ensures |r| == |es| && forall i | 0 <= i < |r| :: r[i] == ToDict(es[i])
  {
    seq(|es|, i requires 0 <= i < |es| => ToDict(es[i]))
  }

  /** Stable insertion of `e` into evidence sorted by layer, after its equals. */
  function Insert(e: Evidence, sorted: seq<Evidence>): seq<Evidence> {
    if sorted == [] then [e]
    else if Less(e.layer, sorted[|sorted| - 1].layer)
    then Insert(e, sorted[..|sorted| - 1]) + [sorted[|sorted| - 1]]
    else sorted + [e]
  }

  /** `sorted(evidence, key=layer)` */
  function SortByLayer(ev: seq<Evidence>): seq<Evidence> {
    if ev == [] then [] else Insert(ev[|ev| - 1], SortByLayer(ev[..|ev| - 1]))
  }

  lemma {:induction false} InsertPermutes(e: Evidence, sorted: seq<Evidence>)
    ensures multiset(Insert(e, sorted)) == multiset(sorted) + multiset{e}
  {
    if sorted == [] {
    } else {
      var n := |sorted| - 1;
      assert sorted == sorted[..n] + [sorted[n]];
      if Less(e.layer, sorted[n].layer) { InsertPermutes(e, sorted[..n]); }
    }
  }

  lemma {:induction false} SortPermutes(ev: seq<Evidence>)
    ensures multiset(SortByLayer(ev)) == multiset(ev)
  {
    if ev == [] {
    } else {
      var n := |ev| - 1;
      assert ev == ev[..n] + [ev[n]];
      SortPermutes(ev[..n]);
      InsertPermutes(ev[n], SortByLayer(ev[..n]));
    }
  }

  predicate SortedByLayer(ev: seq<Evidence>) {
    forall i, j | 0 <= i < j < |ev| :: !Less(ev[j].layer, ev[i].layer)
  }

  predicate NoneAfter(ev: seq<Evidence>, layer: string) { forall i | 0 <= i < |ev| :: !Less(layer, ev[i].layer) }

  lemma {:induction false} InsertSorts(e: Evidence, sorted: seq<Evidence>)
    requires SortedByLayer(sorted)
    ensures SortedByLayer(Insert(e, sorted))
  {
    hide Less;
    if sorted == [] {
    } else {
      var n := |sorted| - 1;
      if Less(e.layer, sorted[n].layer) {
        InsertSorts(e, sorted[..n]);
        LessIsAsymmetric(e.layer, sorted[n].layer);
        InsertedBefore(e, sorted[..n], sorted[n].layer);
      } else {
        LastIsAfter(e.layer, sorted);
      }
    }
  }

  lemma InsertedBefore(e: Evidence, sorted: seq<Evidence>, layer: string)
    requires NoneAfter(sorted, layer) && !Less(layer, e.layer)
    ensures NoneAfter(Insert(e, sorted), layer)
  {
    hide Less, Insert;
    InsertPermutes(e, sorted);
    var r := Insert(e, sorted);
    forall i | 0 <= i < |r| ensures !Less(layer, r[i].layer) {
      assert r[i] in multiset(r);
      assert r[i] in multiset(sorted) || r[i] == e;
    }
  }

  lemma LastIsAfter(layer: string, sorted: seq<Evidence>)
    requires SortedByLayer(sorted) && sorted != [] && !Less(layer, sorted[|sorted| - 1].layer)
    ensures NoneAfter(sorted, layer)
  {
    hide Less;
    var last := sorted[|sorted| - 1].layer;
    forall i | 0 <= i < |sorted| ensures !Less(layer, sorted[i].layer) {
      if Less(layer, sorted[i].layer) {
        LessIsTotal(sorted[i].layer, last);
        if Less(sorted[i].layer, last) { LessIsTransitive(layer, sorted[i].layer, last); }
      }
    }
  }

  lemma {:induction false} SortSorts(ev: seq<Evidence>)
    ensures SortedByLayer(SortByLayer(ev))
  {
    if ev == [] {
    } else {
      SortSorts(ev[..|ev| - 1]);
      InsertSorts(ev[|ev| - 1], SortByLayer(ev[..|ev| - 1]));
    }
  }

  /** The evidence of one layer, in order. */
  function OfLayer(ev: seq<Evidence>, layer: string): seq<Evidence> {
    if ev == [] then []
    else OfLayer(ev[..|ev| - 1], layer) + (if ev[|ev| - 1].layer == layer then [ev[|ev| - 1]] else [])
  }

  lemma {:induction false} InsertIsStable(e: Evidence, sorted: seq<Evidence>, layer: string)
    ensures OfLayer(Insert(e, sorted), layer) == OfLayer(sorted, layer) + (if e.layer == layer then [e] else [])
  {
    hide Less;
    if sorted == [] {
    } else {
      var n := |sorted| - 1;
      var last := sorted[n];
      if Less(e.layer, last.layer) {
        InsertIsStable(e, sorted[..n], layer);
        LessIsAsymmetric(e.layer, last.layer);
        OfLayerLast(Insert(e, sorted[..n]), last, layer);
      } else {
        OfLayerLast(sorted, e, layer);
      }
    }
  }

  lemma OfLayerLast(ev: seq<Evidence>, e: Evidence, layer: string)
    ensures OfLayer(ev + [e], layer) == OfLayer(ev, layer) + (if e.layer == layer then [e] else [])
  {
    assert (ev + [e])[..|ev|] == ev;
  }

  /** The sort is stable: items of one layer keep their order. With the two results before, it is `sorted` exactly. */
  lemma {:induction false} SortIsStable(ev: seq<Evidence>, layer: string)
    ensures OfLayer(SortByLayer(ev), layer) == OfLayer(ev, layer)
  {
    if ev == [] {
    } else {
      var n := |ev| - 1;
      SortIsStable(ev[..n], layer);
      InsertIsStable(ev[n], SortByLayer(ev[..n]), layer);
    }
  }

  /** `_finalize` */
  function Finalize(h: Hash, p: Proof): Proof { p.(proofDigest := Some(h.ofProof(Payload(p)))) }

  datatype BuildError = SubjectOperationIdMismatch

  /** `build_pre_proof` */
  function BuildPre(h: Hash, operationId: string, es: seq<Envelope>, subject: Option<Subject>, now: Stamp)
    : Result<Proof, BuildError>
  {
    if subject.Some? && subject.value.operationId != operationId then Err(SubjectOperationIdMismatch)
    else
      var envelopes := ToDicts(es);
      var digest: Option<string> := if subject.Some? then Some(h.ofSubject(subject.value)) else None;
      var reasons := PreReasons(operationId, envelopes, digest, now);
      Ok(Finalize(h, Proof(if subject.Some? then PROOF_V2 else PROOF_V1, "PRE", operationId, DecisionFor(reasons),
                           SortedUnique(reasons), subject, digest, None, None, SortByLayer(envelopes), None, {})))
  }

  /** `build_final_proof` */
  function BuildFinal(h: Hash, pre: Proof, execution: Envelope, now: Stamp): Proof {
    var evidence := [ToDict(execution)];
    var digest := if pre.schema == PROOF_V2 then pre.subjectDigest else None;
    var reasons := FinalReasons(pre.operationId, Some(pre), pre.proofDigest, ValidAt(h, pre, now), evidence, digest,
                                now);
    Finalize(h, Proof(if pre.schema == "" then PROOF_V1 else pre.schema, "FINAL", pre.operationId,
                      DecisionFor(reasons), SortedUnique(reasons),
                      if pre.schema == PROOF_V2 then pre.subject else None, digest,
                      pre.proofDigest, Some(pre), evidence, None, {}))
  }

  // ----- agreement -----

  lemma TypedEvidence(es: seq<Envelope>)
    ensures var ev := SortByLayer(ToDicts(es));
            AllLayered(ev) && multiset(ev) == multiset(ToDicts(es)) && forall i | 0 <= i < |ev| :: ev[i].extra == {}
  {
    var given := ToDicts(es);
    var ev := SortByLayer(given);
    SortPermutes(given);
    forall i | 0 <= i < |ev| ensures ev[i].layer != "" && ev[i].extra == {} {
      assert ev[i] in multiset(ev);
      assert ev[i] in given;
      var k :| 0 <= k < |given| && given[k] == ev[i];
    }
  }

  lemma PreDocument(h: Hash, operationId: string, es: seq<Envelope>, subject: Option<Subject>, now: Stamp)
    requires BuildPre(h, operationId, es, subject, now).Ok?
    requires subject.Some? ==> ValidSubject(subject.value)
    ensures DocumentOk(h, BuildPre(h, operationId, es, subject, now).value) <==> operationId != ""
  {
    hide SetReasons, PreReasons, SortByLayer, ValidDigest, SortedUnique;
    TypedEvidence(es);
    var p := BuildPre(h, operationId, es, subject, now).value;
    assert Payload(p) == Payload(p.(proofDigest := None));
  }

  /** A built PRE proof verifies at the instant it was built, whatever its evidence, if it names an operation. */
  lemma BuiltPreVerifies(h: Hash, operationId: string, es: seq<Envelope>, subject: Option<Subject>, now: Stamp)
    requires BuildPre(h, operationId, es, subject, now).Ok?
    requires subject.Some? ==> ValidSubject(subject.value)
    ensures ValidAt(h, BuildPre(h, operationId, es, subject, now).value, now) <==> operationId != ""
  {
    hide SetReasons, SortByLayer, SortedUnique, DocumentReasons, DocumentOk, BoundSubject;
    var p := BuildPre(h, operationId, es, subject, now).value;
    var given := ToDicts(es);
    TypedEvidence(es);
    PreDocument(h, operationId, es, subject, now);
    DocumentClean(h, p);
    forall i | 0 <= i < |given| ensures given[i].layer != "" {}
    PermutationInvariance(given, p.evidence, PreRules(operationId, p.subjectDigest), now);
    ValidMeans(h, p, now);
  }

  /** A built FINAL proof verifies exactly when the PRE proof it embeds does. */
  lemma BuiltFinalVerifies(h: Hash, pre: Proof, execution: Envelope, now: Stamp)
    ensures ValidAt(h, BuildFinal(h, pre, execution, now), now) <==> ValidAt(h, pre, now)
  {
    hide SetReasons, EmbeddedReasons, SortedUnique, DocumentReasons, DocumentOk, BoundSubject, ValidAt;
    var p := BuildFinal(h, pre, execution, now);
    ValidMeans(h, p, now);
    if ValidAt(h, pre, now) {
      ValidMeans(h, pre, now);
      DocumentClean(h, pre);
      DocumentClean(h, p);
      FinalDocument(h, pre, execution, now);
    }
  }

  lemma FinalDocument(h: Hash, pre: Proof, execution: Envelope, now: Stamp)
    requires DocumentOk(h, pre)
    ensures DocumentOk(h, BuildFinal(h, pre, execution, now))
  {
    hide FinalReasons, SortedUnique, ValidDigest, ValidSubject, ValidAt;
    var p := BuildFinal(h, pre, execution, now);
    assert Payload(p) == Payload(p.(proofDigest := None));
  }

  // ----- what is built -----

  /** A typed envelope that passes at `now` for an operation and, if one is given, a subject. */
  predicate Passes(e: Envelope, operationId: string, subject: Option<string>, now: Stamp) {
    && e.schema == EVIDENCE_SCHEMA && e.operationId == operationId && operationId != ""
    && e.provider != "" && e.decision != "" && e.verdict == Pass
    && ValidDigest(e.subjectDigest) && ValidDigest(e.evidenceDigest)
       && (subject.Some? ==> e.subjectDigest == subject.value)
    && Parse(e.issuedAt).Some?
    && (e.expiresAt.Some? ==>
          && Parse(e.expiresAt.value).Some?
          && Compare(Parsed(e.expiresAt.value), now) > 0
          && Compare(Parsed(e.expiresAt.value), Parsed(e.issuedAt)) > 0)
  }

  predicate HasLayer(es: seq<Envelope>, l: Layer) { exists i :: 0 <= i < |es| && es[i].layer == l }

  predicate OncePerLayer(es: seq<Envelope>) { forall i, j | 0 <= i < j < |es| :: es[i].layer != es[j].layer }

  /** One envelope for each of the seven layers before execution, and no other. */
  predicate SevenLayers(es: seq<Envelope>) {
    && (forall i | 0 <= i < |es| :: es[i].layer != Execution)
    && OncePerLayer(es)
    && (forall l: Layer | l != Execution :: HasLayer(es, l))
  }

  /** Layers and their names correspond. */
  lemma LayerNames()
    ensures forall a, b :: LayerName(a) == LayerName(b) <==> a == b
    ensures forall l :: LayerName(l) in PRE_LAYERS <==> l != Execution
    ensures forall l :: LayerName(l) == EXECUTION_LAYER <==> l == Execution
    ensures forall l :: LayerName(l) != ""
    ensures forall n | n in PRE_LAYERS :: exists l :: LayerName(l) == n
  {
    assert LayerName(Identity) == "identity" && LayerName(Authorization) == "authorization"
      && LayerName(Intent) == "intent";
    assert LayerName(Continuity) == "continuity" && LayerName(ToolSafety) == "tool_safety";
    assert LayerName(DataFlow) == "data_flow" && LayerName(Resource) == "resource";
  }

  lemma PassingDocument(e: Envelope, rules: Rules, now: Stamp)
    requires rules.operationId != ""
    ensures EnvelopeOk(ToDict(e), now) && PlacedOk(ToDict(e), rules) <==>
            && Passes(e, rules.operationId, rules.subject, now)
            && LayerName(e.layer) !in rules.forbidden
            && (rules.allowed.Some? ==> LayerName(e.layer) in rules.allowed.value)
  {
    hide ValidDigest, Parse, Compare;
    LayerNames();
    assert VerdictName(e.verdict) in VERDICTS;
  }

  /** What the rules ask of the documents, asked of the typed envelopes. */
  lemma PreRulesTyped(es: seq<Envelope>, operationId: string, subject: Option<string>, now: Stamp)
    requires operationId != "" && (subject.Some? ==> ValidDigest(subject.value))
    ensures SetOk(ToDicts(es), PreRules(operationId, subject), now) <==>
            SevenLayers(es) && forall i | 0 <= i < |es| :: Passes(es[i], operationId, subject, now)
  {
    hide EnvelopeOk, PlacedOk, Passes, ValidDigest, LayerName, ToDict, HasLayer, OncePerLayer, DistinctLayers, Covers,
         PRE_LAYERS;
    var rules, ev := PreRules(operationId, subject), ToDicts(es);
    forall i | 0 <= i < |es|
      ensures EnvelopeOk(ev[i], now) && PlacedOk(ev[i], rules) <==>
              Passes(es[i], operationId, subject, now) && es[i].layer != Execution
    {
      PrePassing(es[i], operationId, subject, now);
    }
    NoneRequired();
    OnceTyped(es);
    CoversTyped(es);
  }

  lemma NoneRequired()
    ensures "" !in PRE_LAYERS
  {
  }

  lemma PrePassing(e: Envelope, operationId: string, subject: Option<string>, now: Stamp)
    requires operationId != ""
    ensures EnvelopeOk(ToDict(e), now) && PlacedOk(ToDict(e), PreRules(operationId, subject)) <==>
            Passes(e, operationId, subject, now) && e.layer != Execution
  {
    hide EnvelopeOk, PlacedOk, Passes;
    PassingDocument(e, PreRules(operationId, subject), now);
  }

  lemma OnceTyped(es: seq<Envelope>)
    ensures DistinctLayers(ToDicts(es)) <==> OncePerLayer(es)
  {
    hide LayerName, PRE_LAYERS;
    LayerNames();
    var ev := ToDicts(es);
    forall i, j | 0 <= i < j < |es| ensures ev[i].layer == ev[j].layer <==> es[i].layer == es[j].layer { }
  }

  lemma CoversTyped(es: seq<Envelope>)
    ensures Covers(ToDicts(es), PRE_LAYERS) <==> forall l: Layer | l != Execution :: HasLayer(es, l)
  {
    hide LayerName, PRE_LAYERS, HasLayer;
    LayerNames();
    var ev := ToDicts(es);
    if Covers(ev, PRE_LAYERS) {
      forall l: Layer | l != Execution ensures HasLayer(es, l) {
        assert LayerName(l) in PRE_LAYERS;
        LayerTyped(es, l);
      }
    }
    if forall l: Layer | l != Execution :: HasLayer(es, l) {
      forall n | n in PRE_LAYERS ensures exists i :: 0 <= i < |ev| && ev[i].layer == n {
        var l :| LayerName(l) == n;
        assert HasLayer(es, l);
        LayerTyped(es, l);
      }
    }
  }

  lemma LayerTyped(es: seq<Envelope>, l: Layer)
    ensures HasLayer(es, l) <==> exists i :: 0 <= i < |ToDicts(es)| && ToDicts(es)[i].layer == LayerName(l)
  {
    hide LayerName, PRE_LAYERS;
    LayerNames();
    var ev := ToDicts(es);
    if HasLayer(es, l) {
      var i :| 0 <= i < |es| && es[i].layer == l;
      assert ev[i].layer == LayerName(l);
    }
  }

  /** A built PRE proof holds exactly the evidence given, in layer order, under the operation and subject given; and
      it is VERIFIED exactly for one passing envelope per layer. */
  lemma BuiltPreMeans(h: Hash, operationId: string, es: seq<Envelope>, subject: Option<Subject>, now: Stamp)
    requires operationId != ""
    ensures BuildPre(h, operationId, es, subject, now).Ok? <==>
            (subject.Some? ==> subject.value.operationId == operationId)
    ensures BuildPre(h, operationId, es, subject, now).Ok? ==>
              var p := BuildPre(h, operationId, es, subject, now).value;
              && multiset(p.evidence) == multiset(ToDicts(es)) && SortedByLayer(p.evidence)
              && (forall l :: OfLayer(p.evidence, l) == OfLayer(ToDicts(es), l))
              && p.phase == "PRE" && p.operationId == operationId && p.preProof == None && p.preProofDigest == None
              && p.schema == (if subject.Some? then PROOF_V2 else PROOF_V1) && p.subject == subject
              && p.subjectDigest == (if subject.Some? then Some(h.ofSubject(subject.value)) else None)
              && p.proofDigest == Some(h.ofProof(p.(proofDigest := None)))
              && (p.decision == VERIFIED <==>
                  SevenLayers(es) && forall i | 0 <= i < |es| :: Passes(es[i], operationId, p.subjectDigest, now))
              && (p.decision == VERIFIED || p.decision == REJECTED)
  {
    hide SetReasons, SetOk, SortedUnique, SortByLayer, SortedByLayer, Passes, SevenLayers, ValidDigest;
    var ev := ToDicts(es);
    SortPermutes(ev);
    SortSorts(ev);
    forall l ensures OfLayer(SortByLayer(ev), l) == OfLayer(ev, l) { SortIsStable(ev, l); }
    var digest: Option<string> := if subject.Some? then Some(h.ofSubject(subject.value)) else None;
    SetClean(ev, PreRules(operationId, digest), now);
    PreRulesTyped(es, operationId, digest, now);
  }

  /** A built FINAL proof holds the one execution envelope given and embeds the PRE proof given, whose operation,
      version and subject it takes over; and it is VERIFIED exactly when that one verifies, is VERIFIED and PRE, and
      the execution envelope passes. */
  lemma BuiltFinalMeans(h: Hash, pre: Proof, execution: Envelope, now: Stamp)
    ensures var p := BuildFinal(h, pre, execution, now);
            && p.evidence == [ToDict(execution)] && p.preProof == Some(pre) && p.preProofDigest == pre.proofDigest
            && p.phase == "FINAL" && p.operationId == pre.operationId
            && p.proofDigest == Some(h.ofProof(p.(proofDigest := None)))
            && (pre.schema == PROOF_V1 || pre.schema == PROOF_V2 ==> p.schema == pre.schema)
            && (pre.schema == PROOF_V2 ==> p.subject == pre.subject && p.subjectDigest == pre.subjectDigest)
            && (pre.schema != PROOF_V2 ==> p.subject == None && p.subjectDigest == None)
            && (p.decision == VERIFIED <==>
                && ValidAt(h, pre, now) && pre.decision == VERIFIED && pre.phase == "PRE"
                && execution.layer == Execution && Passes(execution, pre.operationId, p.subjectDigest, now))
            && (p.decision == VERIFIED || p.decision == REJECTED)
  {
    hide SetReasons, SetOk, EmbeddedReasons, SortedUnique, Passes, ValidDigest, VerifyReasons, DocumentReasons,
         SubjectOk, EmbeddingOk;
    var p := BuildFinal(h, pre, execution, now);
    var rules := FinalRules(pre.operationId, p.subjectDigest);
    SetClean(p.evidence, rules, now);
    EmbeddedClean(pre.operationId, Some(pre), pre.proofDigest, ValidAt(h, pre, now), p.subjectDigest);
    var e, f := EmbeddedReasons(pre.operationId, Some(pre), pre.proofDigest, ValidAt(h, pre, now), p.subjectDigest),
                SetReasons(p.evidence, rules, now);
    assert e <= e + f && f <= e + f;
    ValidMeans(h, pre, now);
    DocumentClean(h, pre);
    if ValidAt(h, pre, now) {
      SubjectDigests(h, pre);
      FinalRulesTyped(execution, pre.operationId, p.subjectDigest, now);
    }
  }

  lemma SubjectDigests(h: Hash, p: Proof)
    requires DocumentOk(h, p)
    ensures p.operationId != "" && ValidOptionalDigest(p.proofDigest)
    ensures p.schema == PROOF_V2 ==> ValidOptionalDigest(p.subjectDigest)
  {
    hide EmbeddingOk, ValidSubject, ValidDigest;
  }

  lemma FinalRulesTyped(e: Envelope, operationId: string, subject: Option<string>, now: Stamp)
    requires operationId != "" && (subject.Some? ==> ValidDigest(subject.value))
    ensures SetOk([ToDict(e)], FinalRules(operationId, subject), now) <==>
            e.layer == Execution && Passes(e, operationId, subject, now)
  {
    hide EnvelopeOk, PlacedOk, Passes, ValidDigest, LayerName;
    var ev := [ToDict(e)];
    LayerNames();
    PassingDocument(e, FinalRules(operationId, subject), now);
    assert ev[0].layer == LayerName(e.layer);
    if e.layer == Execution { assert Covers(ev, {EXECUTION_LAYER}); }
  }
}
