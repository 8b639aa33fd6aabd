/** The admission store with provenance recording around it. */
module AttestedStore {
  import opened PyString
  import opened Rfc3339
  import opened GatewayExpiry
  import opened GatewayStore
  import opened Attestations
  import opened AttestationStore
  import opened Provenance

  // ----- the events of an admission -----

  function EventRequest(kind: string, r: AdmissionRecord, artifact: string, telemetry: Telemetry): Request {
    Request(kind, r.operationId, r.subjectDigest, r.proofDigest, artifact, telemetry)
  }

  function Transition(from: string, to: string, reasonCodes: seq<string>): Telemetry {
    Telemetry(Some(from), Some(to), reasonCodes)
  }

  function AssessedRequest(r: AdmissionRecord): Request {
    EventRequest("proof_assessed", r, r.proofDigest,
                 Transition("PRE_PROOF_RECEIVED", "TRUSTED_PRE_ASSESSED", ["R10_GATEWAY_ACCEPTED_PRE"]))
  }

  function CreatedRequest(r: AdmissionRecord): Request {
    EventRequest("admission_created", r, r.targetDigest, Transition("TRUSTED_PRE_ASSESSED", "ADMISSION_CREATED", []))
  }

  function ConsumedRequest(r: AdmissionRecord): Request {
    EventRequest("admission_consumed", r, r.targetDigest, Transition("ADMISSION_CREATED", "ADMISSION_CONSUMED", []))
  }

  /** The events of an admission are acceptable exactly when its operation and digests are: their states and codes never
      stand in the way. */
  lemma RequestsAreEvents(r: AdmissionRecord)
    ensures EventOk(AssessedRequest(r)) <==>
            AttestationText(r.operationId) && ValidDigest(r.subjectDigest) && ValidDigest(r.proofDigest)
    ensures EventOk(CreatedRequest(r)) <==>
            && AttestationText(r.operationId) && ValidDigest(r.subjectDigest) && ValidDigest(r.proofDigest)
            && ValidDigest(r.targetDigest)
    ensures EventOk(ConsumedRequest(r)) <==> EventOk(CreatedRequest(r))
  {
    hide AttestationText, ValidDigest;
  }

  // ----- recording them -----

  /** What the outside gives one recorder call: a clock reading, a fresh identifier, the telemetry event's digest. */
  datatype Inputs = Inputs(now: DateTime, id: string, payloadDigest: string)

  /** `after` is `before` with exactly one more entry, which answers the request. */
  ghost predicate OneMore(before: StoreState, after: StoreState, r: Request) {
    exists s: Signed :: Answers(s.attestation, r) && after == Filed(before, s)
  }

  /** The same, the event written out: `after` is `before` with one more entry, of this kind and artifact, about the
      operation, subject and proof of the admission. */
  ghost predicate Adds(before: StoreState, after: StoreState, kind: string, r: AdmissionRecord, artifact: string) {
    exists s: Signed ::
      && after == Filed(before, s)
      && s.attestation.artifactType == kind && s.attestation.artifactDigest == artifact
      && s.attestation.operationId == r.operationId && s.attestation.subjectDigest == r.subjectDigest
      && s.attestation.proofDigest == r.proofDigest
  }

  /** What each of the three requests adds to the log. */
  lemma RequestsAdd(before: StoreState, after: StoreState, r: AdmissionRecord)
    ensures OneMore(before, after, AssessedRequest(r)) <==> Adds(before, after, "proof_assessed", r, r.proofDigest)
    ensures OneMore(before, after, CreatedRequest(r)) <==> Adds(before, after, "admission_created", r, r.targetDigest)
    ensures OneMore(before, after, ConsumedRequest(r)) <==> Adds(before, after, "admission_consumed", r, r.targetDigest)
  {
    hide Filed;
    RequestAdds(before, after, AssessedRequest(r), r);
    RequestAdds(before, after, CreatedRequest(r), r);
    RequestAdds(before, after, ConsumedRequest(r), r);
  }

  lemma RequestAdds(before: StoreState, after: StoreState, want: Request, r: AdmissionRecord)
    requires want.operationId == r.operationId && want.subjectDigest == r.subjectDigest
             && want.proofDigest == r.proofDigest
    ensures OneMore(before, after, want) <==> Adds(before, after, want.eventType, r, want.artifactDigest)
  {
    hide Filed;
    if s: Signed :| after == Filed(before, s) && Answers(s.attestation, want) {
      assert Adds(before, after, want.eventType, r, want.artifactDigest);
    }
    if Adds(before, after, want.eventType, r, want.artifactDigest) {
      var s: Signed :| after == Filed(before, s)
        && s.attestation.artifactType == want.eventType && s.attestation.artifactDigest == want.artifactDigest
        && s.attestation.operationId == r.operationId && s.attestation.subjectDigest == r.subjectDigest
        && s.attestation.proofDigest == r.proofDigest;
      assert Answers(s.attestation, want);
    }
  }

  /** The provenance log after one event is recorded, or how the recorder failed. */
  ghost function LogWith(h: AttestationHash, verifiers: Verifiers, recorder: Recorder, log: StoreState, r: Request,
                         inputs: Inputs): Result<StoreState, RecordFailure>
    requires recorder.key in verifiers
  {
    match Recording(h, verifiers, recorder, log, r, inputs.now, inputs.id, inputs.payloadDigest)
    case Err(failure) => Err(failure)
    case Ok(s) => Ok(Filed(log, s))
  }

  /** A recorded event is one more entry, and answers the request. */
  lemma RecordedAnswers(h: AttestationHash, verifiers: Verifiers, recorder: Recorder, log: StoreState, r: Request,
                        inputs: Inputs)
    requires recorder.key in verifiers && LogWith(h, verifiers, recorder, log, r, inputs).Ok?
    ensures OneMore(log, LogWith(h, verifiers, recorder, log, r, inputs).value, r)
    ensures LogWith(h, verifiers, recorder, log, r, inputs).value != log
  {
    hide Recording, Answers;
    RecordingAnswers(h, verifiers, recorder, log, r, inputs.now, inputs.id, inputs.payloadDigest);
    Grew(log, LogWith(h, verifiers, recorder, log, r, inputs).value, r);
  }

  /** Filing an entry always changes the store. */
  lemma Grew(before: StoreState, after: StoreState, r: Request)
    requires OneMore(before, after, r)
    ensures after != before
  {
    var s: Signed :| Answers(s.attestation, r) && after == Filed(before, s);
    var op := s.attestation.operationId;
    assert |Records(after, op)| == |Records(before, op)| + 1;
  }

  /** How a call of the wrapped store fails: by an admission store error, or by an error that escapes it. */
  datatype StoreFailure = StoreError(code: string) | Escaped(code: string)

  /** Only the recorder's own errors are turned into store errors. */
  function FailureOf(f: RecordFailure): StoreFailure {
    match f
    case RecorderError(_) => StoreError("PROVENANCE_PERSISTENCE_FAILED")
    case OtherError(code) => Escaped(code)
  }

  /** The admission store, the provenance log and the answer after a call. */
  datatype Effect<T> = Effect(store: AdmissionState, log: StoreState, answer: Result<T, StoreFailure>)

  class AttestedGatewayAdmissionStore {
    const store: MemoryGatewayAdmissionStore
    const provenance: MemoryAttestationStore
    const verifiers: Verifiers
    const recorder: Recorder

    ghost predicate Valid()
      reads provenance
    {
      provenance.Valid() && recorder.key in verifiers
    }

    constructor (store: MemoryGatewayAdmissionStore, provenance: MemoryAttestationStore, verifiers: Verifiers,
                 recorder: Recorder)
      requires provenance.Valid() && recorder.key in verifiers
      ensures Valid() && this.store == store && this.provenance == provenance
    {
      this.store, this.provenance, this.verifiers, this.recorder := store, provenance, verifiers, recorder;
    }

    ghost function After(log: StoreState, r: Request, inputs: Inputs): Result<StoreState, RecordFailure>
      requires recorder.key in verifiers
    {
      LogWith(provenance.hash, verifiers, recorder, log, r, inputs)
    }

    /** Record one event; on failure nothing is recorded. */
    method Record(r: Request, inputs: Inputs) returns (failure: Option<RecordFailure>)
      requires Valid()
      modifies provenance
      ensures Valid()
      ensures match After(old(provenance.State()), r, inputs)
              case Err(f) => failure == Some(f) && provenance.State() == old(provenance.State())
              case Ok(after) => failure == None && provenance.State() == after
    {
      hide StoreInv, SignatureReasons, Prepare, Append;
      var result := RecordEvent(provenance, verifiers, recorder, r, inputs.now, inputs.id, inputs.payloadDigest);
      failure := if result.Ok? then None else Some(result.error);
    }

    /** `reserve`, by its cases: a token is only handed out with both events recorded. */
    ghost function Reserving(st: AdmissionState, log: StoreState, record: AdmissionRecord, draws: seq<string>,
                             assessed: Inputs, created: Inputs): Effect<string>
      requires recorder.key in verifiers
    {
      match After(log, AssessedRequest(record), assessed)
      case Err(failure) => Effect(st, log, Err(FailureOf(failure)))
      case Ok(mid) =>
        match Reserve(st, record, draws, store.tokenDigest)
        case Err(code) => Effect(st, mid, Err(StoreError(code)))
        case Ok(done) =>
          if !UsableToken(done.token) then
            Effect(done.state, mid, Err(StoreError("INVALID_ADMISSION_TOKEN_FROM_STORE")))
          else
            match After(mid, CreatedRequest(record), created)
            case Err(failure) => Effect(done.state, mid, Err(FailureOf(failure)))
            case Ok(after) => Effect(done.state, after, Ok(done.token))
    }

    /** `reserve` */
    method ReserveAttested(record: AdmissionRecord, draws: seq<string>, assessed: Inputs, created: Inputs)
      returns (r: Result<string, StoreFailure>)
      requires Valid() && |draws| == ATTEMPTS
      modifies store, provenance
      ensures Valid()
      ensures Effect(store.State(), provenance.State(), r)
              == Reserving(old(store.State()), old(provenance.State()), record, draws, assessed, created)
    {
      hide StoreInv, Reserve, LogWith, AssessedRequest, CreatedRequest;
      var failure := Record(AssessedRequest(record), assessed);
      if failure.Some? {
        return Err(FailureOf(failure.value));
      }
      var token := store.ReserveRecord(record, draws);
      if token.Err? {
        return Err(StoreError(token.error));
      }
      if !UsableToken(token.value) {
        return Err(StoreError("INVALID_ADMISSION_TOKEN_FROM_STORE"));
      }
      failure := Record(CreatedRequest(record), created);
      if failure.Some? {
        return Err(FailureOf(failure.value));
      }
      r := Ok(token.value);
    }

    /** A token in hand means exactly the two events, in order; no token, at most the first, and the slot is taken only
        if the store had granted it. */
    lemma ReservingTells(st: AdmissionState, log: StoreState, record: AdmissionRecord, draws: seq<string>,
                         assessed: Inputs, created: Inputs)
      requires recorder.key in verifiers
      ensures var o := Reserving(st, log, record, draws, assessed, created);
              if o.answer.Ok? then
                && Reserve(st, record, draws, store.tokenDigest) == Ok(Reservation(o.store, o.answer.value))
                && exists mid ::
                     && Adds(log, mid, "proof_assessed", record, record.proofDigest)
                     && Adds(mid, o.log, "admission_created", record, record.targetDigest)
              else
                && (o.log == log || Adds(log, o.log, "proof_assessed", record, record.proofDigest))
                && (o.store == st || (o.log != log && Reserve(st, record, draws, store.tokenDigest).Ok?))
                && (o.answer.error.Escaped? ==>
                      || After(log, AssessedRequest(record), assessed) == Err(OtherError(o.answer.error.code))
                      || (exists mid ::
                            After(mid, CreatedRequest(record), created) == Err(OtherError(o.answer.error.code))))
                && (After(log, AssessedRequest(record), assessed).Err? ==>
                      o.answer.error == match After(log, AssessedRequest(record), assessed).error
                                        case RecorderError(_) => StoreError("PROVENANCE_PERSISTENCE_FAILED")
                                        case OtherError(code) => Escaped(code))
    {
      hide OneMore, Adds, Reserve, LogWith, AssessedRequest, CreatedRequest, ConsumedRequest;
      var first := After(log, AssessedRequest(record), assessed);
      if first.Ok? {
        RecordedAnswers(provenance.hash, verifiers, recorder, log, AssessedRequest(record), assessed);
        RequestsAdd(log, first.value, record);
        if After(first.value, CreatedRequest(record), created).Ok? {
          RecordedAnswers(provenance.hash, verifiers, recorder, first.value, CreatedRequest(record), created);
          RequestsAdd(first.value, After(first.value, CreatedRequest(record), created).value, record);
        }
      }
    }

    /** `consume`. The token is burned first and stays burned: the record is only returned with its event recorded. */
    method ConsumeAttested(token: string, inputs: Inputs) returns (r: Result<Option<AdmissionRecord>, StoreFailure>)
      requires Valid()
      modifies store, provenance
      ensures Valid()
      ensures store.State() == Consume(old(store.State()), token, store.tokenDigest).0
      ensures match Consume(old(store.State()), token, store.tokenDigest).1
              case None => r == Ok(None) && provenance.State() == old(provenance.State())
              case Some(record) =>
                match After(old(provenance.State()), ConsumedRequest(record), inputs)
                case Err(failure) => r == Err(FailureOf(failure)) && provenance.State() == old(provenance.State())
                case Ok(after) =>
                  && r == Ok(Some(record)) && provenance.State() == after
                  && Adds(old(provenance.State()), after, "admission_consumed", record, record.targetDigest)
    {
      hide StoreInv, OneMore, Adds, Consume, LogWith, ConsumedRequest;
      var taken := store.ConsumeToken(token);
      if taken.None? {
        return Ok(None);
      }
      ghost var log := provenance.State();
      var failure := Record(ConsumedRequest(taken.value), inputs);
      if failure.Some? {
        return Err(FailureOf(failure.value));
      }
      RecordedAnswers(provenance.hash, verifiers, recorder, log, ConsumedRequest(taken.value), inputs);
      RequestsAdd(log, provenance.State(), taken.value);
      r := Ok(taken);
    }
  }
}
