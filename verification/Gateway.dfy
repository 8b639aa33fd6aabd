/** The admission and proxy handlers as atomic steps of many interleaved requests. */
module Gateway {
  import opened PyString
  import opened TimestampOrder
  import opened Rfc3339
  import opened Verifier
  import opened Trust
  import opened Sdk
  import opened GatewayExpiry
  import opened GatewayStore
  import opened Attestations
  import opened AttestationStore
  import opened Provenance
  import opened AttestedStore

  datatype HttpRequest = HttpRequest(verb: string, path: string, query: string, headers: map<string, string>,
                                     body: string)

  /** The fixed deployment: digests, the time to live, the provider trust registry, the canonical target of a request
      (None when the request is refused at the boundary), and the digests of the lifecycle artifacts.
      `attested` says whether the provenance wrapper is installed. */
  datatype Env = Env(hash: Hash, attestationHash: AttestationHash, tokenDigest: TokenDigest, ttlSeconds: int,
                     registry: Registry, target: HttpRequest -> Option<string>, requestDigest: HttpRequest -> string,
                     completionDigest: (string, int) -> string, failureDigest: (string, string) -> string,
                     attested: bool)

  /** Where a handler is. */
  datatype Phase =
    | Free
    // POST /v1/admissions
    | Assessed(admission: Admission)                                   // before proof_assessed
    | Reserving(admission: Admission)                                  // before the store's reserve
    | Reserved(record: AdmissionRecord, token: string)                 // before admission_created
    // /v1/proxy
    | Taken(record: AdmissionRecord)                                   // token burned, before admission_consumed
    | Consumed(record: AdmissionRecord)                                // before the first expiry check
    | Fresh(record: AdmissionRecord)                                   // before the request is read and matched
    | Matched(record: AdmissionRecord, request: HttpRequest)           // before the second expiry check
    | Cleared(record: AdmissionRecord, request: HttpRequest)           // before the pre-dispatch hook
    | Prepared(record: AdmissionRecord, request: HttpRequest)          // before the last expiry check
    | Ready(record: AdmissionRecord, request: HttpRequest, last: Stamp) // before the upstream stream is opened
    | Opening(record: AdmissionRecord, request: HttpRequest)           // stream opened, before upstream_dispatched
    | Streaming(record: AdmissionRecord, request: HttpRequest)         // response being read
    | Failing(record: AdmissionRecord, request: HttpRequest, dispatchedRecorded: bool) // before upstream_failed

  /** A proof that passed the assessment, with the readings used and the record made of it. */
  datatype Admission = Admission(doc: Submission, assessedAt: Stamp, now: DateTime, record: AdmissionRecord)

  datatype Dispatch = Dispatch(record: AdmissionRecord, request: HttpRequest, last: Stamp)

  /** `answered` holds the digests of outstanding tokens that have been given to a client; `admitted` remembers,
      for every reserved operation, the admission it was reserved for. */
  datatype State = State(store: AdmissionState, log: StoreState, threads: map<nat, Phase>, answered: set<string>,
                         admitted: map<string, Admission>, dispatches: seq<Dispatch>)

  /** One try at recording an event: refused before the append (by an error of the recorder's own kind or another),
      or handed to the provenance store, with the success reported or lost. */
  datatype Attempt =
    | Refused(otherError: bool)
    | Handed(draft: Draft, reported: bool)

  datatype Outcome = Done | FailedByRecorder | FailedOtherwise

  /** Whether the attempt puts an entry for `want` into the log. */
  ghost predicate Files(env: Env, log: StoreState, want: Request, attempt: Attempt) {
    && env.attested && attempt.Handed? && Answers(attempt.draft.signed.attestation, want)
    && Append(env.attestationHash, log, attempt.draft.signed, attempt.draft.sequence, attempt.draft.previous).Ok?
  }

  ghost function LogAfter(env: Env, log: StoreState, want: Request, attempt: Attempt): StoreState {
    if Files(env, log, want, attempt) then Filed(log, attempt.draft.signed) else log
  }

  ghost function OutcomeOf(env: Env, log: StoreState, want: Request, attempt: Attempt): Outcome {
    if !env.attested then Done
    else if attempt.Refused? then (if attempt.otherError then FailedOtherwise else FailedByRecorder)
    else if Files(env, log, want, attempt) && attempt.reported then Done
    else FailedByRecorder
  }

  datatype Action =
    | AssessAndAdmit(thread: nat, doc: Submission, assessedAt: Stamp, now: DateTime)
    | RecordAssessed(thread: nat, attempt: Attempt)
    | ReserveSlot(thread: nat, draws: seq<string>)
    | RecordCreated(thread: nat, attempt: Attempt)
    | Present(thread: nat, token: string)
    | RecordConsumed(thread: nat, attempt: Attempt)
    | CheckFirst(thread: nat, now: DateTime)
    | ReadRequest(thread: nat, request: HttpRequest)
    | CheckSecond(thread: nat, now: DateTime)
    | RecordPrepared(thread: nat, attempt: Attempt)
    | CheckLast(thread: nat, now: DateTime)
    | OpenStream(thread: nat)
    | StreamEntered(thread: nat, attempt: Attempt)
    | StreamRefused(thread: nat)
    | ResponseRead(thread: nat, status: int, attempt: Attempt)
    | ResponseFailed(thread: nat, attempt: Attempt)
    | RecordFailed(thread: nat, attempt: Attempt)
    | Abandon(thread: nat)                 // a handler may stop anywhere
    | OtherEvent(thread: nat, attempt: Attempt) // another user of the provenance store

  function PhaseOf(g: State, t: nat): Phase { if t in g.threads then g.threads[t] else Free }

  function DispatchRequest(env: Env, kind: string, r: AdmissionRecord, q: HttpRequest, from: string,
                           to: string): Request {
    EventRequest(kind, r, env.requestDigest(q), Transition(from, to, []))
  }

  function CompletedRequest(env: Env, r: AdmissionRecord, q: HttpRequest, status: int): Request {
    EventRequest("upstream_completed", r, env.completionDigest(env.requestDigest(q), status),
                 Transition("UPSTREAM_DISPATCHED", "UPSTREAM_COMPLETED", []))
  }

  function FailedRequest(env: Env, r: AdmissionRecord, q: HttpRequest, failure: string, from: string,
                         code: string): Request {
    EventRequest("upstream_failed", r, env.failureDigest(env.requestDigest(q), failure),
                 Transition(from, "UPSTREAM_FAILED", [code]))
  }

  /** The event a handler asks the recorder for at this step, if this is such a step. */
  function Wanted(env: Env, p: Phase, a: Action): Option<Request> {
    match a
    case RecordAssessed(_, _) => if p.Assessed? then Some(AssessedRequest(p.admission.record)) else None
    case RecordCreated(_, _) => if p.Reserved? then Some(CreatedRequest(p.record)) else None
    case RecordConsumed(_, _) => if p.Taken? then Some(ConsumedRequest(p.record)) else None
    case RecordPrepared(_, _) =>
      if p.Cleared?
      then Some(DispatchRequest(env, "upstream_dispatch_prepared", p.record, p.request,
                                "ADMISSION_CONSUMED", "UPSTREAM_DISPATCH_PREPARED"))
      else None
    case StreamEntered(_, _) =>
      if p.Opening?
      then Some(DispatchRequest(env, "upstream_dispatched", p.record, p.request,
                                "UPSTREAM_DISPATCH_PREPARED", "UPSTREAM_DISPATCHED"))
      else None
    case ResponseRead(_, status, _) =>
      if p.Streaming? then Some(CompletedRequest(env, p.record, p.request, status)) else None
    case ResponseFailed(_, _) =>
      if p.Streaming?
      then Some(FailedRequest(env, p.record, p.request, "response_processing", "UPSTREAM_DISPATCHED",
                              "UPSTREAM_RESPONSE_PROCESSING_FAILED"))
      else None
    case RecordFailed(_, _) =>
      if p.Failing?
      then Some(FailedRequest(env, p.record, p.request, "upstream_transport",
                              if p.dispatchedRecorded then "UPSTREAM_DISPATCHED" else "UPSTREAM_DISPATCH_PREPARED",
                              "UPSTREAM_TRANSPORT_FAILED"))
      else None
    case _ => None
  }

  /** Where the handler goes with the recorder's answer. */
  function AfterRecord(p: Phase, a: Action, o: Outcome): Phase {
    match a
    case RecordAssessed(_, _) => if p.Assessed? && o.Done? then Reserving(p.admission) else Free
    case RecordConsumed(_, _) => if p.Taken? && o.Done? then Consumed(p.record) else Free
    case RecordPrepared(_, _) => if p.Cleared? && o.Done? then Prepared(p.record, p.request) else Free
    case StreamEntered(_, _) =>
      if !p.Opening? || o.FailedByRecorder? then Free
      else if o.Done? then Streaming(p.record, p.request) else Failing(p.record, p.request, false)
    case ResponseRead(_, _, _) =>
      if p.Streaming? && o.FailedOtherwise? then Failing(p.record, p.request, true) else Free
    case ResponseFailed(_, _) =>
      if p.Streaming? && o.FailedOtherwise? then Failing(p.record, p.request, true) else Free
    case _ => Free
  }

  /** The steps that touch nothing shared. */
  function LocalNext(env: Env, p: Phase, a: Action): Phase {
    match a
    case CheckFirst(_, now) =>
      if !p.Consumed? then p else if RecordIsExpired(p.record, FromDateTime(now)) then Free else Fresh(p.record)
    case ReadRequest(_, request) =>
      if !p.Fresh? then p
      else if env.target(request) == Some(p.record.targetDigest) then Matched(p.record, request) else Free
    case CheckSecond(_, now) =>
      if !p.Matched? then p
      else if RecordIsExpired(p.record, FromDateTime(now)) then Free else Cleared(p.record, p.request)
    case CheckLast(_, now) =>
      if !p.Prepared? then p
      else if RecordIsExpired(p.record, FromDateTime(now)) then Free else Ready(p.record, p.request, FromDateTime(now))
    case StreamRefused(_) => if p.Opening? then Failing(p.record, p.request, false) else p
    case Abandon(_) => Free
    case _ => p
  }

  /** `assess_proof` with the gateway's registry accepts. */
  predicate Accepted(env: Env, doc: Submission, now: Stamp) { Assess(env.hash, doc, Some(env.registry), now).accepted }

  function AssessNext(env: Env, p: Phase, a: Action): Phase
    requires a.AssessAndAdmit?
  {
    if !p.Free? || !Accepted(env, a.doc, a.assessedAt) then p
    else
      match Admit(a.doc.proof, a.now, env.ttlSeconds)
      case Err(_) => Free
      case Ok(record) => Assessed(Admission(a.doc, a.assessedAt, a.now, record))
  }

  /** A token that cannot be handed out is lost. */
  function AfterReserve(record: AdmissionRecord, token: string): Phase {
    if UsableToken(token) then Reserved(record, token) else Free
  }

  function ReserveStep(env: Env, g: State, t: nat, draws: seq<string>): State {
    var p := PhaseOf(g, t);
    if !p.Reserving? then g
    else
      match Reserve(g.store, p.admission.record, draws, env.tokenDigest)
      case Err(_) => g.(threads := g.threads[t := Free])
      case Ok(done) =>
        g.(store := done.state,
           threads := g.threads[t := AfterReserve(p.admission.record, done.token)],
           admitted := g.admitted[p.admission.record.operationId := p.admission])
  }

  /** A client presents a token. With provenance installed, a reservation's token is not known to anyone
      before it has been answered. */
  function PresentStep(env: Env, g: State, t: nat, token: string): State {
    var d := env.tokenDigest(token);
    if !PhaseOf(g, t).Free? || (env.attested && d !in g.answered) then g
    else
      var (store, record) := Consume(g.store, token, env.tokenDigest);
      if record.None? then g
      else g.(store := store, threads := g.threads[t := Taken(record.value)], answered := g.answered - {d})
  }

  function OpenStep(g: State, t: nat): State {
    var p := PhaseOf(g, t);
    if !p.Ready? then g
    else g.(threads := g.threads[t := Opening(p.record, p.request)],
            dispatches := g.dispatches + [Dispatch(p.record, p.request, p.last)])
  }

  /** `admission_created`: only its success gives the token to the client. */
  ghost function CreatedStep(env: Env, g: State, t: nat, attempt: Attempt): State {
    var p := PhaseOf(g, t);
    if !p.Reserved? then g
    else
      var want := CreatedRequest(p.record);
      g.(log := LogAfter(env, g.log, want, attempt), threads := g.threads[t := Free],
         answered := if OutcomeOf(env, g.log, want, attempt).Done? then g.answered + {env.tokenDigest(p.token)}
           else g.answered)
  }

  ghost function RecordStep(env: Env, g: State, a: Action, attempt: Attempt): State {
    var p := PhaseOf(g, a.thread);
    match Wanted(env, p, a)
    case None => g
    case Some(want) =>
      g.(log := LogAfter(env, g.log, want, attempt),
         threads := g.threads[a.thread := AfterRecord(p, a, OutcomeOf(env, g.log, want, attempt))])
  }

  /** The event types whose order the gateway governs. */
  const LIFECYCLE_TYPES: set<string> := {
    "admission_created", "admission_consumed", "upstream_dispatch_prepared", "upstream_dispatched",
    "upstream_completed", "upstream_failed"
  }

  /** Another recorder files an entry of a type the gateway does not govern. */
  ghost function OtherStep(env: Env, g: State, attempt: Attempt): State {
    if attempt.Handed? && attempt.draft.signed.attestation.artifactType !in LIFECYCLE_TYPES
       && Append(env.attestationHash, g.log, attempt.draft.signed, attempt.draft.sequence, attempt.draft.previous).Ok?
    then g.(log := Filed(g.log, attempt.draft.signed)) else g
  }

  predicate IsRecording(a: Action) {
    a.RecordAssessed? || a.RecordConsumed? || a.RecordPrepared? || a.StreamEntered? || a.ResponseRead?
      || a.ResponseFailed?
    || a.RecordFailed?
  }

  ghost function Step(env: Env, g: State, a: Action): State {
    if a.ReserveSlot? then ReserveStep(env, g, a.thread, a.draws)
    else if a.Present? then PresentStep(env, g, a.thread, a.token)
    else if a.OpenStream? then OpenStep(g, a.thread)
    else if a.RecordCreated? then CreatedStep(env, g, a.thread, a.attempt)
    else if IsRecording(a) then RecordStep(env, g, a, a.attempt)
    else if a.OtherEvent? then OtherStep(env, g, a.attempt)
    else if a.AssessAndAdmit? then g.(threads := g.threads[a.thread := AssessNext(env, PhaseOf(g, a.thread), a)])
    else g.(threads := g.threads[a.thread := LocalNext(env, PhaseOf(g, a.thread), a)])
  }

  ghost function Run(env: Env, g: State, actions: seq<Action>): State {
    if actions == [] then g else Step(env, Run(env, g, actions[..|actions| - 1]), actions[|actions| - 1])
  }

  function Start(admissions: nat, attestations: nat): State {
    State(AdmissionState({}, {}, map[], admissions), StoreState(map[], map[], {}, {}, attestations), map[], {}, map[],
          [])
  }
}
