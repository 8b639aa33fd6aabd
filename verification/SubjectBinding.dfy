/** Binding provider evidence to a canonical subject, and the trust wrapper that undoes it. */
module SubjectBinding {
  import opened PyString
  import opened TimestampOrder
  import opened Rfc3339
  import opened Evidences
  import opened Verifier
  import opened Builder
  import opened TrustStage
  import opened Trust

  const BINDING_SCHEMA := "operationproof.subject-binding.v1"
  const METADATA_KEY := "operationproof_subject_binding"

  datatype Binding = Binding(schema: string, operationId: string, layer: string, provider: string,
                             nativeEnvelopeDigest: string, nativeSubjectDigest: string, canonicalSubjectDigest: string,
                             issuedAt: string, expiresAt: string, bindingDigest: string)

  /** `sha256_digest` on envelopes and on binding payloads. */
  datatype BindingHash = BindingHash(ofEnvelope: Evidence -> Digest, ofBinding: Binding -> Digest)

  type BindingVerifier = Binding -> Answer
  type BindingResolver = string -> Option<Binding>
  type NativeVerifier = (Evidence, Context) -> Answer

  function BindingPayload(b: Binding): Binding { b.(bindingDigest := "") }

  /** The binding names this envelope and this canonical subject, and its own digest is right. */
  function CoverageProblem(h: BindingHash, b: Binding, native: Evidence, canonical: string): Option<string> {
    if b.schema != BINDING_SCHEMA then Some("INVALID_SUBJECT_BINDING_SCHEMA")
    else if !ValidDigest(native.subjectDigest) then Some("INVALID_NATIVE_SUBJECT_DIGEST")
    else if b.operationId != native.operationId then Some("SUBJECT_BINDING_MISMATCH:operation_id")
    else if b.layer != native.layer then Some("SUBJECT_BINDING_MISMATCH:layer")
    else if b.provider != native.provider then Some("SUBJECT_BINDING_MISMATCH:provider")
    else if b.nativeEnvelopeDigest != h.ofEnvelope(native) then Some("SUBJECT_BINDING_MISMATCH:native_envelope_digest")
    else if b.nativeSubjectDigest != native.subjectDigest then Some("SUBJECT_BINDING_MISMATCH:native_subject_digest")
    else if b.canonicalSubjectDigest != canonical then Some("SUBJECT_BINDING_MISMATCH:canonical_subject_digest")
    else if !ValidDigest(b.bindingDigest) then Some("INVALID_SUBJECT_BINDING_DIGEST")
    else if h.ofBinding(BindingPayload(b)) != b.bindingDigest then Some("SUBJECT_BINDING_DIGEST_MISMATCH")
    else None
  }

  /** The part of the time checks that is about the binding alone. */
  function DatingProblem(b: Binding, native: Evidence): Option<string> {
    if Parse(native.issuedAt).None? || Parse(b.issuedAt).None? || Parse(b.expiresAt).None? then
      Some("INVALID_SUBJECT_BINDING_TIME")
    else if Compare(Parsed(b.issuedAt), Parsed(native.issuedAt)) < 0
      then Some("SUBJECT_BINDING_PREDATES_NATIVE_EVIDENCE")
    else if Compare(Parsed(b.expiresAt), Parsed(b.issuedAt)) <= 0 then Some("INVALID_SUBJECT_BINDING_TIME_WINDOW")
    else None
  }

  /** `_validate_binding`: None is success. */
  function BindingProblem(h: BindingHash, b: Binding, native: Evidence, canonical: string, now: Stamp): Option<string> {
    var coverage, dating := CoverageProblem(h, b, native, canonical), DatingProblem(b, native);
    if coverage.Some? then coverage
    else if dating.Some? then dating
    else if Compare(Parsed(b.issuedAt), now) > 0 then Some("SUBJECT_BINDING_NOT_YET_VALID")
    else if Compare(Parsed(b.expiresAt), now) <= 0 then Some("EXPIRED_SUBJECT_BINDING")
    else None
  }

  /** From its issue time to just before its expiry. */
  predicate InWindow(b: Binding, now: Stamp) {
    && Parse(b.issuedAt).Some? && Parse(b.expiresAt).Some?
    && Compare(Parsed(b.issuedAt), now) <= 0 && Compare(now, Parsed(b.expiresAt)) < 0
  }

  /** The binding is about this very document and this subject, item by item, and carries its own digest. */
  predicate Correlates(h: BindingHash, b: Binding, native: Evidence, canonical: string) {
    && b.schema == BINDING_SCHEMA
    && b.operationId == native.operationId && b.layer == native.layer && b.provider == native.provider
    && b.nativeEnvelopeDigest == h.ofEnvelope(native)
    && b.nativeSubjectDigest == native.subjectDigest && ValidDigest(native.subjectDigest)
    && b.canonicalSubjectDigest == canonical
    && b.bindingDigest == h.ofBinding(b.(bindingDigest := ""))
  }

  /** The binding is no older than the evidence, and expires after it was issued. */
  predicate Dated(b: Binding, native: Evidence) {
    && Parse(native.issuedAt).Some? && Parse(b.issuedAt).Some? && Parse(b.expiresAt).Some?
    && Compare(Parsed(native.issuedAt), Parsed(b.issuedAt)) <= 0
    && Compare(Parsed(b.issuedAt), Parsed(b.expiresAt)) < 0
  }

  /** A binding is usable exactly when it correlates this document with this subject, is dated soundly, and `now` is in
      its window. */
  lemma BindingUsable(h: BindingHash, b: Binding, native: Evidence, canonical: string, now: Stamp)
    ensures BindingProblem(h, b, native, canonical, now).None? <==>
            Correlates(h, b, native, canonical) && Dated(b, native) && InWindow(b, now)
  {
    hide ValidDigest, Compare, Parse;
    DigestIsValid(h.ofBinding(BindingPayload(b)));
    if Parse(native.issuedAt).Some? && Parse(b.issuedAt).Some? && Parse(b.expiresAt).Some? {
      CompareIsPreorder(Parsed(b.issuedAt), Parsed(native.issuedAt), now);
      CompareIsPreorder(Parsed(b.expiresAt), Parsed(b.issuedAt), now);
      CompareIsPreorder(Parsed(b.expiresAt), now, now);
    }
  }

  lemma DigestIsValid(d: Digest)
    ensures ValidDigest(d)
  {
  }

  /** The part of `bind_evidence_to_subject` on documents: bind `native` to the subject with digest `canonical`. */
  function BindDocument(h: BindingHash, native: Evidence, canonical: string, b: Binding, verifier: BindingVerifier,
                        now: Stamp)
    : (r: Result<Evidence, string>)
    ensures r.Ok? ==> r.value.metadata.Some?
  {
    var problem := BindingProblem(h, b, native, canonical, now);
    if problem.Some? then Err(problem.value)
    else if verifier(b).Raised? then Err("SUBJECT_BINDING_VERIFICATION_ERROR")
    else if !verifier(b).True? then Err("UNTRUSTED_SUBJECT_BINDING")
    else if native.metadata.None? then Err("INVALID_NATIVE_EVIDENCE_METADATA")
    else if METADATA_KEY in native.metadata.value then Err("SUBJECT_BINDING_ALREADY_PRESENT")
    else
      var marker := Marker(BINDING_SCHEMA, b.bindingDigest, h.ofEnvelope(native), native.subjectDigest);
      Ok(native.(subjectDigest := canonical, metadata := Some(native.metadata.value[METADATA_KEY := marker])))
  }

  /** `bind_evidence_to_subject` */
  function Bind(hs: Hash, h: BindingHash, e: Envelope, subject: Subject, b: Binding, verifier: BindingVerifier,
                now: Stamp)
    : Result<Envelope, string>
  {
    hide BindDocument;
    if e.operationId != subject.operationId then Err("SUBJECT_OPERATION_ID_MISMATCH")
    else
      match BindDocument(h, ToDict(e), hs.ofSubject(subject), b, verifier, now)
      case Err(code) => Err(code)
      case Ok(bound) => Ok(e.(subjectDigest := bound.subjectDigest, metadata := bound.metadata.value))
  }

  /** Binding a typed envelope is binding its document, for a subject of the same operation. */
  lemma BindIsBindDocument(hs: Hash, h: BindingHash, e: Envelope, subject: Subject, b: Binding,
                           verifier: BindingVerifier, now: Stamp)
    ensures var r := Bind(hs, h, e, subject, b, verifier, now);
            var d := BindDocument(h, ToDict(e), hs.ofSubject(subject), b, verifier, now);
            && (r.Ok? <==> e.operationId == subject.operationId && d.Ok?)
            && (r.Ok? ==> d == Ok(ToDict(r.value)))
  {
    hide BindingProblem;
  }

  /** The marker a bound document carries, if it is usable. */
  function MarkerOf(bound: Evidence): (r: Option<Entry>)
    ensures r.Some? ==> r.value.Marker? && bound.metadata.Some?
  {
    if bound.metadata.None? || METADATA_KEY !in bound.metadata.value then None
    else
      var m := bound.metadata.value[METADATA_KEY];
      if !m.Marker? || m.protocol != BINDING_SCHEMA then None
      else if !ValidDigest(bound.subjectDigest) || !ValidDigest(m.nativeSubjectDigest) || !ValidDigest(m.bindingDigest)
        then None
      else Some(m)
  }

  /** The native envelope a bound document claims to come from. */
  function Native(bound: Evidence, m: Entry): Evidence
    requires bound.metadata.Some? && m.Marker?
  {
    bound.(subjectDigest := m.nativeSubjectDigest, metadata := Some(bound.metadata.value - {METADATA_KEY}))
  }

  /** The first half of the wrapper: rebuild the native envelope, or give up. */
  function Unbind(h: BindingHash, bound: Evidence): (r: Option<Evidence>) {
    var m := MarkerOf(bound);
    if m.None? then None
    else
      var native := Native(bound, m.value);
      if m.value.nativeEnvelopeDigest != h.ofEnvelope(native) then None else Some(native)
  }

  /** The verifier `make_subject_bound_trust_verifier` makes. */
  predicate Accepts(h: BindingHash, bound: Evidence, c: Context, nativeVerifier: NativeVerifier,
                    resolver: BindingResolver, verifier: BindingVerifier, now: Stamp) {
    var native := Unbind(h, bound);
    && native.Some? && nativeVerifier(native.value, c) == True
    && var m := MarkerOf(bound).value;
       var resolved := resolver(m.bindingDigest);
       && resolved.Some?
       && BindingProblem(h, resolved.value, native.value, bound.subjectDigest, now).None?
       && resolved.value.bindingDigest == m.bindingDigest
       && verifier(resolved.value) == True
  }

  /** Unbinding rebuilds exactly the document that was bound. */
  lemma UnbindBind(h: BindingHash, native: Evidence, canonical: string, b: Binding, verifier: BindingVerifier,
                   now: Stamp)
    requires ValidDigest(canonical) && BindDocument(h, native, canonical, b, verifier, now).Ok?
    ensures var bound := BindDocument(h, native, canonical, b, verifier, now).value;
            && Unbind(h, bound) == Some(native) && MarkerOf(bound).Some?
            && MarkerOf(bound).value.bindingDigest == b.bindingDigest && bound.subjectDigest == canonical
  {
    hide ValidDigest, DatingProblem, Compare, Parse;
    var bound := BindDocument(h, native, canonical, b, verifier, now).value;
    assert bound.metadata.value - {METADATA_KEY} == native.metadata.value;
    assert Native(bound, MarkerOf(bound).value) == native;
  }

  /** A binding that was usable once is usable exactly in its window. */
  lemma UsableInWindow(h: BindingHash, b: Binding, native: Evidence, canonical: string, t0: Stamp, t: Stamp)
    requires BindingProblem(h, b, native, canonical, t0).None?
    ensures BindingProblem(h, b, native, canonical, t).None? <==> InWindow(b, t)
  {
    hide CoverageProblem, Compare, Parse;
    if Parse(b.expiresAt).Some? { CompareIsPreorder(Parsed(b.expiresAt), t, t); }
  }

  /** With the binding resolved, the wrapper accepts a bound envelope exactly when the native verifier accepts the
      native one and the binding is in its window. */
  lemma BoundEnvelopeAcceptance(hs: Hash, h: BindingHash, e: Envelope, subject: Subject, b: Binding, c: Context,
                                nativeVerifier: NativeVerifier, resolver: BindingResolver, verifier: BindingVerifier,
                                t0: Stamp, now: Stamp)
    requires Bind(hs, h, e, subject, b, verifier, t0).Ok? && resolver(b.bindingDigest) == Some(b)
    ensures Accepts(h, ToDict(Bind(hs, h, e, subject, b, verifier, t0).value), c, nativeVerifier, resolver, verifier,
                    now)
            <==> nativeVerifier(ToDict(e), c) == True && InWindow(b, now)
  {
    hide BindingProblem, Unbind, MarkerOf, InWindow, ValidDigest, Bind;
    BindIsBindDocument(hs, h, e, subject, b, verifier, t0);
    UnbindBind(h, ToDict(e), hs.ofSubject(subject), b, verifier, t0);
    UsableInWindow(h, b, ToDict(e), hs.ofSubject(subject), t0, now);
  }

  /** Whatever document the wrapper accepts is what binding yields from a native document its verifier accepts and an
      authenticated binding in its window. */
  lemma AcceptedIsBound(h: BindingHash, bound: Evidence, c: Context, nativeVerifier: NativeVerifier,
                        resolver: BindingResolver, verifier: BindingVerifier, now: Stamp)
    requires Accepts(h, bound, c, nativeVerifier, resolver, verifier, now)
    ensures MarkerOf(bound).Some? && Unbind(h, bound) == Some(Native(bound, MarkerOf(bound).value))
    ensures var native := Unbind(h, bound).value;
            var b := resolver(MarkerOf(bound).value.bindingDigest);
            && nativeVerifier(native, c) == True && b.Some? && verifier(b.value) == True && InWindow(b.value, now)
            && Correlates(h, b.value, native, bound.subjectDigest) && Dated(b.value, native)
            && BindDocument(h, native, bound.subjectDigest, b.value, verifier, now) == Ok(bound)
  {
    hide ValidDigest, Compare, Parse, BindingProblem, Correlates, Dated;
    var m := MarkerOf(bound).value;
    var native := Unbind(h, bound).value;
    var b := resolver(m.bindingDigest).value;
    assert m == Marker(BINDING_SCHEMA, b.bindingDigest, h.ofEnvelope(native), native.subjectDigest);
    Rebuild(bound, m);
    BindingUsable(h, b, native, bound.subjectDigest, now);
    BindingNames(h, b, native, bound.subjectDigest);
  }

  lemma BindingNames(h: BindingHash, b: Binding, native: Evidence, canonical: string)
    requires Correlates(h, b, native, canonical)
    ensures b.nativeEnvelopeDigest == h.ofEnvelope(native) && b.nativeSubjectDigest == native.subjectDigest
    ensures b.canonicalSubjectDigest == canonical && b.operationId == native.operationId
    ensures b.layer == native.layer && b.provider == native.provider
  {
  }

  /** The wrapper accepts exactly the documents that binding yields: from a native document its verifier accepts, to the
      subject the document names, by an authenticated binding it can resolve. */
  lemma AcceptedExactly(h: BindingHash, bound: Evidence, c: Context, nativeVerifier: NativeVerifier,
                        resolver: BindingResolver, verifier: BindingVerifier, now: Stamp)
    ensures Accepts(h, bound, c, nativeVerifier, resolver, verifier, now) <==>
            && ValidDigest(bound.subjectDigest)
            && exists native, b: Binding ::
                 && BindDocument(h, native, bound.subjectDigest, b, verifier, now) == Ok(bound)
                 && nativeVerifier(native, c) == True && resolver(b.bindingDigest) == Some(b)
  {
    hide BindDocument, Unbind, BindingProblem, Native, MarkerOf, ValidDigest, InWindow, Correlates, Dated;
    if Accepts(h, bound, c, nativeVerifier, resolver, verifier, now) {
      AcceptedIsBound(h, bound, c, nativeVerifier, resolver, verifier, now);
      MarkedDigest(bound);
      var native, b := Unbind(h, bound).value, resolver(MarkerOf(bound).value.bindingDigest).value;
      assert BindDocument(h, native, bound.subjectDigest, b, verifier, now) == Ok(bound)
        && nativeVerifier(native, c) == True && resolver(b.bindingDigest) == Some(b);
    } else if ValidDigest(bound.subjectDigest) {
      forall native, b: Binding | BindDocument(h, native, bound.subjectDigest, b, verifier, now) == Ok(bound)
        && nativeVerifier(native, c) == True && resolver(b.bindingDigest) == Some(b)
        ensures false
      {
        UnbindBind(h, native, bound.subjectDigest, b, verifier, now);
        BoundBinding(h, native, bound.subjectDigest, b, verifier, now);
      }
    }
  }

  lemma MarkedDigest(bound: Evidence)
    requires MarkerOf(bound).Some?
    ensures ValidDigest(bound.subjectDigest)
  {
  }

  /** Binding succeeds exactly with a usable binding that the external verifier authenticates, on a document with
      metadata that carries no marker yet. */
  lemma BoundBinding(h: BindingHash, native: Evidence, canonical: string, b: Binding, verifier: BindingVerifier,
                     now: Stamp)
    ensures BindDocument(h, native, canonical, b, verifier, now).Ok? <==>
            && BindingProblem(h, b, native, canonical, now).None? && verifier(b) == True
            && native.metadata.Some? && METADATA_KEY !in native.metadata.value
  {
    hide BindingProblem;
  }

  /** `bind_evidence_to_subject`, exactly: the envelope and the binding are about one operation, layer and provider, the
      binding names the envelope's own subject digest and the canonical one, is dated soundly, in its window and
      authenticated, and the envelope is not bound yet. The result differs in its subject and its marker only. */
  lemma BindGranted(hs: Hash, h: BindingHash, e: Envelope, subject: Subject, b: Binding, verifier: BindingVerifier,
                    now: Stamp)
    ensures Bind(hs, h, e, subject, b, verifier, now).Ok? <==>
            && e.operationId == subject.operationId == b.operationId
            && b.schema == BINDING_SCHEMA && b.layer == LayerName(e.layer) && b.provider == e.provider
            && b.nativeEnvelopeDigest == h.ofEnvelope(ToDict(e))
            && b.nativeSubjectDigest == e.subjectDigest && ValidDigest(e.subjectDigest)
            && b.canonicalSubjectDigest == hs.ofSubject(subject)
            && b.bindingDigest == h.ofBinding(b.(bindingDigest := ""))
            && Dated(b, ToDict(e)) && InWindow(b, now) && verifier(b) == True && METADATA_KEY !in e.metadata
    ensures Bind(hs, h, e, subject, b, verifier, now).Ok? ==>
              var marker := Marker(BINDING_SCHEMA, b.bindingDigest, b.nativeEnvelopeDigest, e.subjectDigest);
              Bind(hs, h, e, subject, b, verifier, now).value
              == e.(subjectDigest := hs.ofSubject(subject), metadata := e.metadata[METADATA_KEY := marker])
  {
    hide BindingProblem, Dated, InWindow, ValidDigest;
    BindingUsable(h, b, ToDict(e), hs.ofSubject(subject), now);
    BoundBinding(h, ToDict(e), hs.ofSubject(subject), b, verifier, now);
  }

  /** A binding's digest covers all of it: two bindings that carry their digest, and the same one, are equal or
      collide. */
  lemma BindingDigestCommits(h: BindingHash, a: Binding, b: Binding)
    requires a.bindingDigest == h.ofBinding(BindingPayload(a)) && b.bindingDigest == h.ofBinding(BindingPayload(b))
    requires a.bindingDigest == b.bindingDigest
    ensures a == b || (BindingPayload(a) != BindingPayload(b)
                       && h.ofBinding(BindingPayload(a)) == h.ofBinding(BindingPayload(b)))
  {
    assert a == BindingPayload(a).(bindingDigest := a.bindingDigest);
    assert b == BindingPayload(b).(bindingDigest := b.bindingDigest);
  }

  /** The typed native envelope of a typed bound one. */
  function NativeEnvelope(bound: Envelope): Envelope
    requires MarkerOf(ToDict(bound)).Some?
  {
    bound.(subjectDigest := MarkerOf(ToDict(bound)).value.nativeSubjectDigest,
           metadata := bound.metadata - {METADATA_KEY})
  }

  /** An accepted document that is a typed envelope about a given subject is bound by `bind_evidence_to_subject`
      itself. */
  lemma AcceptedEnvelopeIsBound(hs: Hash, h: BindingHash, bound: Envelope, subject: Subject, c: Context,
                                nativeVerifier: NativeVerifier, resolver: BindingResolver, verifier: BindingVerifier,
                                now: Stamp)
    requires Accepts(h, ToDict(bound), c, nativeVerifier, resolver, verifier, now)
    requires hs.ofSubject(subject) == bound.subjectDigest && subject.operationId == bound.operationId
    ensures var e := NativeEnvelope(bound);
            var b := resolver(MarkerOf(ToDict(bound)).value.bindingDigest);
            b.Some? && Bind(hs, h, e, subject, b.value, verifier, now) == Ok(bound)
  {
    hide BindDocument, InWindow, MarkerOf, Accepts;
    AcceptedIsBound(h, ToDict(bound), c, nativeVerifier, resolver, verifier, now);
    var e := NativeEnvelope(bound);
    assert ToDict(e) == Unbind(h, ToDict(bound)).value;
  }

  /** One binding admits one document: two accepted documents that name the same binding are equal, unless their
      native envelopes collide under the digest. */
  lemma OneBindingOneEnvelope(h: BindingHash, x: Evidence, y: Evidence, c: Context, d: Context,
                              nativeVerifier: NativeVerifier, resolver: BindingResolver, verifier: BindingVerifier,
                              s: Stamp, t: Stamp)
    requires Accepts(h, x, c, nativeVerifier, resolver, verifier, s)
    requires Accepts(h, y, d, nativeVerifier, resolver, verifier, t)
    requires MarkerOf(x).value.bindingDigest == MarkerOf(y).value.bindingDigest
    ensures var nx, ny := Unbind(h, x).value, Unbind(h, y).value;
            x == y || (nx != ny && h.ofEnvelope(nx) == h.ofEnvelope(ny))
  {
    hide ValidDigest, DatingProblem, Compare, Parse;
    var mx, my := MarkerOf(x).value, MarkerOf(y).value;
    var nx, ny := Unbind(h, x).value, Unbind(h, y).value;
    if nx == ny {
      Rebuild(x, mx);
      Rebuild(y, my);
      assert mx == my;
    }
  }

  /** A bound document is its native envelope with the subject and the marker put back. */
  lemma Rebuild(bound: Evidence, m: Entry)
    requires MarkerOf(bound) == Some(m)
    ensures bound == Native(bound, m).(subjectDigest := bound.subjectDigest,
                                       metadata := Some(Native(bound, m).metadata.value[METADATA_KEY := m]))
  {
    hide ValidDigest;
    assert bound.metadata.value == (bound.metadata.value - {METADATA_KEY})[METADATA_KEY := m];
  }
}
