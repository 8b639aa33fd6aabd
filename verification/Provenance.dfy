/** Recording provenance events: one recorder call, and any interleaving of many. */
module Provenance {
  import opened PyString
  import opened TimestampOrder
  import opened Rfc3339
  import opened Attestations
  import opened AttestationStore

  const EVENT_TYPES: set<string> := {
    "proof_assessed", "admission_created", "admission_consumed", "upstream_dispatch_prepared", "upstream_dispatched",
    "upstream_completed", "upstream_failed", "execution_receipt_verified", "final_proof_composed"
  }

  /** What an event tells about states and reasons; it goes into the telemetry event only. */
  datatype Telemetry = Telemetry(stateFrom: Option<string>, stateTo: Option<string>, reasonCodes: seq<string>)

  datatype Request = Request(eventType: string, operationId: string, subjectDigest: string, proofDigest: string,
                             artifactDigest: string, telemetry: Telemetry)

  /** How a recorder call fails: by an error of the recorder's own kind, or by another one that escapes it. */
  datatype RecordFailure = RecorderError(code: string) | OtherError(code: string)

  /** A recorder signs with its signer and checks with the verifier registered under `key`. */
  datatype Recorder = Recorder(signer: Signer, key: SignerKey)

  /** Every verifier is registered under its own identity. */
  predicate RegistryOk(verifiers: Verifiers) {
    forall k | k in verifiers :: SignerKey(verifiers[k].issuerId, verifiers[k].algorithm, verifiers[k].keyId) == k
  }

  /** What a recorder call brings to the store: the entry, the position it expects, and its clock reading. */
  datatype Draft = Draft(signed: Signed, sequence: int, previous: string, now: DateTime, key: SignerKey)

  predicate TelemetryOk(t: Telemetry) {
    && (t.stateFrom.Some? ==> CanonicalText(t.stateFrom.value) && |t.stateFrom.value| <= 128)
    && (t.stateTo.Some? ==> CanonicalText(t.stateTo.value) && |t.stateTo.value| <= 128)
    && forall i | 0 <= i < |t.reasonCodes| :: CanonicalText(t.reasonCodes[i]) && |t.reasonCodes[i]| <= 256
  }

  /** The attestation records what was asked for. */
  predicate Answers(a: Attestation, r: Request) {
    && a.operationId == r.operationId && a.subjectDigest == r.subjectDigest && a.proofDigest == r.proofDigest
    && a.artifactType == r.eventType && a.artifactDigest == r.artifactDigest
  }

  /** What `build_observability_event` accepts. */
  predicate EventOk(r: Request) {
    && AttestationText(r.operationId) && r.eventType in EVENT_TYPES
    && ValidDigest(r.subjectDigest) && ValidDigest(r.proofDigest) && ValidDigest(r.artifactDigest)
    && TelemetryOk(r.telemetry)
  }

  /** `build_attestation` for a request at a chain position. */
  function Build(h: AttestationHash, r: Request, id: string, issuer: string, issuedAt: string, sequence: int,
                 previous: string, payloadDigest: string): Attestation {
    var a := Attestation(ATTESTATION_CONTRACT, id, r.operationId, r.subjectDigest, r.proofDigest, r.eventType,
                         r.artifactDigest, issuer, issuedAt, sequence, previous, payloadDigest, "");
    a.(attestationDigest := h(a))
  }

  /** `record_event` up to the append: validate the head read, build, sign, verify. `id` and `payloadDigest`
      are the fresh identifier and the digest of the telemetry event. */
  function Prepare(h: AttestationHash, verifiers: Verifiers, recorder: Recorder, r: Request, head: Option<Head>,
                   now: DateTime, id: string, payloadDigest: string): Result<Draft, RecordFailure>
    requires recorder.key in verifiers
  {
    var sequence := if head.None? then 0 else head.value.sequence + 1;
    var previous := if head.None? then GENESIS else head.value.attestationDigest;
    // Reading the head refuses the empty identifier.
    if r.operationId == "" then Err(RecorderError("ATTESTATION_STORE_HEAD_FAILED"))
    else if head.Some?
       && HeadProblem(head.value, r.operationId, r.subjectDigest, r.proofDigest, head.value.sequence, None).Some? then
      Err(RecorderError("INVALID_ATTESTATION_STORE_HEAD"))
    else if !EventOk(r) then Err(OtherError("INVALID_OBSERVABILITY_EVENT"))
    else
      var a := Build(h, r, id, recorder.signer.issuerId, IsoMillis(now), sequence, previous, payloadDigest);
      if IntegrityReasons(h, a, None) != {} then Err(OtherError("INVALID_ATTESTATION"))
      else
        var signed := Sign(h, a, recorder.signer);
        if signed.Err? then Err(RecorderError(signed.error))
        else if SignatureReasons(h, signed.value, verifiers[recorder.key], FromDateTime(now)) != {} then
          Err(RecorderError("ATTESTATION_SIGNATURE_REJECTED"))
        else Ok(Draft(signed.value, sequence, previous, now, recorder.key))
  }

  /** What a prepared draft satisfies. */
  ghost predicate DraftOk(h: AttestationHash, verifiers: Verifiers, d: Draft) {
    && d.key in verifiers
    && SignatureReasons(h, d.signed, verifiers[d.key], FromDateTime(d.now)) == {}
    && IntegrityReasons(h, d.signed.attestation, None) == {}
    && d.signed.attestation.sequence == d.sequence && d.signed.attestation.previous == d.previous
  }

  /** A prepared draft carries exactly what was asked for, at the position after the head read. */
  lemma PreparedDraft(h: AttestationHash, verifiers: Verifiers, recorder: Recorder, r: Request, head: Option<Head>,
                      now: DateTime, id: string, payloadDigest: string)
    requires recorder.key in verifiers
    requires Prepare(h, verifiers, recorder, r, head, now, id, payloadDigest).Ok?
    ensures var d := Prepare(h, verifiers, recorder, r, head, now, id, payloadDigest).value;
            var a := d.signed.attestation;
            && DraftOk(h, verifiers, d) && d.now == now && d.key == recorder.key
            && a.operationId == r.operationId && a.subjectDigest == r.subjectDigest && a.proofDigest == r.proofDigest
            && a.artifactType == r.eventType && a.artifactDigest == r.artifactDigest && a.attestationId == id
            && a.sequence == (if head.None? then 0 else head.value.sequence + 1)
            && a.previous == (if head.None? then GENESIS else head.value.attestationDigest)
            && a.issuedAt == IsoMillis(now) && a.issuerId == recorder.signer.issuerId
               && a.payloadDigest == payloadDigest
  {
    hide IntegrityReasons, SignatureReasons, IsoMillis, FromDateTime, HeadProblem, EventOk;
  }

  /** The check of a head, exactly: well-formed, and what is expected, identifiers included when they are given. */
  lemma HeadAccepted(v: Head, operationId: string, subjectDigest: string, proofDigest: string, sequence: int,
                     ids: Option<(string, string)>)
    ensures HeadProblem(v, operationId, subjectDigest, proofDigest, sequence, ids).None? <==>
            && CanonicalText(v.operationId) && CanonicalText(v.attestationId) && ValidDigest(v.attestationDigest)
            && ValidDigest(v.subjectDigest) && ValidDigest(v.proofDigest) && v.sequence >= 0
            && v.operationId == operationId && v.subjectDigest == subjectDigest && v.proofDigest == proofDigest
            && v.sequence == sequence && (ids.Some? ==> (v.attestationId, v.attestationDigest) == ids.value)
  {
    hide CanonicalText, ValidDigest;
  }

  /** The head an append returns always passes the recorder's check of it. */
  lemma AppendOutputOk(h: AttestationHash, a: Attestation)
    requires IntegrityReasons(h, a, None) == {}
    ensures HeadProblem(HeadOf(a), a.operationId, a.subjectDigest, a.proofDigest, a.sequence,
                        Some((a.attestationId, a.attestationDigest))).None?
  {
    hide ValidDigest, IntegrityReasons, Parse, CanonicalText;
    IntegrityMeans(h, a, None);
  }

  // ----- many recorders at once -----

  /** Where a thread is in `record_event`. */
  datatype RecorderPhase =
    | Unstarted
    | Drafted(draft: Draft)
    | Appended(draft: Draft)
    | Recorded(draft: Draft)
    | Failed(failure: RecordFailure)

  datatype System = System(store: StoreState, threads: map<nat, RecorderPhase>)

  /** The atomic steps: reading the head (and the thread-local work up to the append), appending, reading back. */
  datatype Move =
    | ReadHead(thread: nat, recorder: Recorder, request: Request, now: DateTime, id: string, payloadDigest: string)
    | AppendDraft(thread: nat)
    | ReadBack(thread: nat)

  function RecorderPhaseOf(sys: System, t: nat): RecorderPhase {
    if t in sys.threads then sys.threads[t] else Unstarted
  }

  ghost function ReadHeadStep(h: AttestationHash, verifiers: Verifiers, store: StoreState, m: Move): RecorderPhase
    requires m.ReadHead?
  {
    if m.recorder.key !in verifiers then Failed(RecorderError("ATTESTATION_VERIFIER_REQUIRED"))
    else
      var op := m.request.operationId;
      var head := if op in store.heads then Some(store.heads[op]) else None;
      match Prepare(h, verifiers, m.recorder, m.request, head, m.now, m.id, m.payloadDigest)
      case Err(failure) => Failed(failure)
      case Ok(draft) => Drafted(draft)
  }

  /** The store and the phase after a drafted entry is handed to `append`. */
  ghost function AppendStep(h: AttestationHash, store: StoreState, d: Draft): (StoreState, RecorderPhase) {
    match Append(h, store, d.signed, d.sequence, d.previous)
    case Err(_) => (store, Failed(RecorderError("ATTESTATION_STORE_APPEND_FAILED")))
    case Ok(after) =>
      var a := d.signed.attestation;
      if HeadProblem(HeadOf(a), a.operationId, a.subjectDigest, a.proofDigest, d.sequence,
                     Some((a.attestationId, a.attestationDigest))).Some?
      then (after, Failed(RecorderError("ATTESTATION_STORE_APPEND_FAILED")))
      else (after, Appended(d))
  }

  /** The phase after reading back what was appended. */
  ghost function ReadBackStep(h: AttestationHash, verifiers: Verifiers, store: StoreState, d: Draft): RecorderPhase {
    var chain := Records(store, d.signed.attestation.operationId);
    if 0 <= d.sequence < |chain| && d.key in verifiers
       && SignatureReasons(h, chain[d.sequence], verifiers[d.key], FromDateTime(d.now)) == {}
       && chain[d.sequence] == d.signed
    then Recorded(d) else Failed(RecorderError("ATTESTATION_STORE_APPEND_FAILED"))
  }

  ghost function StepMove(h: AttestationHash, verifiers: Verifiers, sys: System, m: Move): System {
    var phase := RecorderPhaseOf(sys, m.thread);
    match m
    case ReadHead(t, _, _, _, _, _) =>
      if phase.Drafted? || phase.Appended? then sys
      else sys.(threads := sys.threads[t := ReadHeadStep(h, verifiers, sys.store, m)])
    case AppendDraft(t) =>
      if !phase.Drafted? then sys
      else
        var (store, next) := AppendStep(h, sys.store, phase.draft);
        System(store, sys.threads[t := next])
    case ReadBack(t) =>
      if !phase.Appended? then sys
      else sys.(threads := sys.threads[t := ReadBackStep(h, verifiers, sys.store, phase.draft)])
  }

  ghost function RunMoves(h: AttestationHash, verifiers: Verifiers, sys: System, moves: seq<Move>): System {
    if moves == [] then sys
    else StepMove(h, verifiers, RunMoves(h, verifiers, sys, moves[..|moves| - 1]), moves[|moves| - 1])
  }

  /** An empty store, and no recorder at work. */
  function Idle(capacity: nat): System { System(StoreState(map[], map[], {}, {}, capacity), map[]) }

  // ----- what every interleaving keeps -----

  /** Clock readings are not after `bound`. */
  predicate InTime(moves: seq<Move>, bound: DateTime) {
    forall i | 0 <= i < |moves| && moves[i].ReadHead? :: moves[i].now <= bound
  }

  ghost predicate EntriesTrusted(h: AttestationHash, verifiers: Verifiers, st: StoreState, bound: DateTime) {
    forall op, i | Held(st, op, i) :: Trusted(h, st.records[op][i], verifiers, FromDateTime(bound))
  }

  ghost predicate Present(st: StoreState, d: Draft) {
    var chain := Records(st, d.signed.attestation.operationId);
    0 <= d.sequence < |chain| && chain[d.sequence] == d.signed
  }

  ghost predicate PhaseOk(h: AttestationHash, verifiers: Verifiers, st: StoreState, bound: DateTime, p: RecorderPhase) {
    match p
    case Unstarted => true
    case Failed(_) => true
    case Drafted(d) => DraftOk(h, verifiers, d) && d.now <= bound
    case Appended(d) => DraftOk(h, verifiers, d) && Present(st, d)
    case Recorded(d) => DraftOk(h, verifiers, d) && Present(st, d)
  }

  ghost predicate SystemInv(h: AttestationHash, verifiers: Verifiers, sys: System, bound: DateTime) {
    && StoreInv(h, sys.store)
    && EntriesTrusted(h, verifiers, sys.store, bound)
    && forall t | t in sys.threads :: PhaseOk(h, verifiers, sys.store, bound, sys.threads[t])
  }

  /** A draft that was verified at its own reading is trusted by any chain verification from then on. */
  lemma DraftTrusted(h: AttestationHash, verifiers: Verifiers, d: Draft, bound: DateTime)
    requires RegistryOk(verifiers) && DraftOk(h, verifiers, d)
    requires d.now <= bound
    ensures Trusted(h, d.signed, verifiers, FromDateTime(bound))
  {
    hide IntegrityReasons, SignatureReasons, Intact, IssuedAfter, Compare, FromDateTime;
    var v := verifiers[d.key];
    SignatureMeans(h, d.signed, v, FromDateTime(d.now));
    assert KeyOf(d.signed) == d.key;
    FromDateTimeKeepsOrder(d.now, bound);
    TrustLasts(h, d.signed, v, FromDateTime(d.now), FromDateTime(bound));
  }

  /** The append step: refused, and nothing changed; or granted, and the store is extended by the entry. */
  lemma AppendStepEffect(h: AttestationHash, verifiers: Verifiers, store: StoreState, d: Draft)
    requires StoreInv(h, store) && DraftOk(h, verifiers, d)
    ensures var (after, next) := AppendStep(h, store, d);
            if Append(h, store, d.signed, d.sequence, d.previous).Err? then after == store && next.Failed?
            else after == Filed(store, d.signed) && next == Appended(d) && StoreInv(h, after) && Extends(store, after)
                 && Present(after, d)
  {
    hide IntegrityReasons, SignatureReasons, StoreInv, HeadProblem, FromDateTime, Total, AppendConflict;
    if Append(h, store, d.signed, d.sequence, d.previous).Ok? {
      AppendOutputOk(h, d.signed.attestation);
      AppendKeepsInv(h, store, d.signed, d.sequence, d.previous);
      ReadBackHolds(h, store, d.signed, Filed(store, d.signed), Filed(store, d.signed), d.sequence, d.previous)
        by { assert Extends(Filed(store, d.signed), Filed(store, d.signed)); }
    }
  }

  lemma PresentLasts(s: StoreState, t: StoreState, d: Draft)
    requires Extends(s, t) && Present(s, d)
    ensures Present(t, d)
  {
  }

  lemma PhaseOkLasts(h: AttestationHash, verifiers: Verifiers, s: StoreState, t: StoreState, bound: DateTime,
                     p: RecorderPhase)
    requires Extends(s, t) && PhaseOk(h, verifiers, s, bound, p)
    ensures PhaseOk(h, verifiers, t, bound, p)
  {
    hide DraftOk, Present, Extends, Compare, FromDateTime;
    if p.Appended? || p.Recorded? { PresentLasts(s, t, p.draft); }
  }

  lemma FiledTrusted(h: AttestationHash, verifiers: Verifiers, st: StoreState, s: Signed, bound: DateTime)
    requires EntriesTrusted(h, verifiers, st, bound) && Trusted(h, s, verifiers, FromDateTime(bound))
    ensures EntriesTrusted(h, verifiers, Filed(st, s), bound)
  {
    hide Trusted, FromDateTime;
    var t, op := Filed(st, s), s.attestation.operationId;
    forall o, i | Held(t, o, i) ensures Trusted(h, t.records[o][i], verifiers, FromDateTime(bound)) {
      if o != op || i < |Records(st, op)| { assert Held(st, o, i); }
    }
  }

  lemma AppendMoveKeeps(h: AttestationHash, verifiers: Verifiers, sys: System, t: nat, bound: DateTime)
    requires RegistryOk(verifiers) && SystemInv(h, verifiers, sys, bound)
    ensures SystemInv(h, verifiers, StepMove(h, verifiers, sys, AppendDraft(t)), bound)
    ensures Extends(sys.store, StepMove(h, verifiers, sys, AppendDraft(t)).store)
  {
    hide StoreInv, EntriesTrusted, PhaseOk, AppendStep, Append, Extends, Present, DraftOk;
    Reflexive(sys.store);
    var phase := RecorderPhaseOf(sys, t);
    if phase.Drafted? {
      DraftedOk(h, verifiers, sys.store, bound, phase);
      AppendStepEffect(h, verifiers, sys.store, phase.draft);
      var next := StepMove(h, verifiers, sys, AppendDraft(t));
      if Append(h, sys.store, phase.draft.signed, phase.draft.sequence, phase.draft.previous).Ok? {
        DraftTrusted(h, verifiers, phase.draft, bound);
        FiledTrusted(h, verifiers, sys.store, phase.draft.signed, bound);
        AppendedOk(h, verifiers, next.store, bound, phase.draft);
      } else {
        FailedOk(h, verifiers, next.store, bound, next.threads[t]);
      }
      OthersLast(h, verifiers, sys, next, t, bound);
    }
  }

  lemma OthersLast(h: AttestationHash, verifiers: Verifiers, sys: System, next: System, t: nat, bound: DateTime)
    requires SystemInv(h, verifiers, sys, bound) && Extends(sys.store, next.store)
    requires t in next.threads && next.threads == sys.threads[t := next.threads[t]]
    requires PhaseOk(h, verifiers, next.store, bound, next.threads[t])
    ensures forall o | o in next.threads :: PhaseOk(h, verifiers, next.store, bound, next.threads[o])
  {
    hide StoreInv, EntriesTrusted, PhaseOk, Extends;
    forall o | o in next.threads ensures PhaseOk(h, verifiers, next.store, bound, next.threads[o]) {
      if o != t { PhaseOkLasts(h, verifiers, sys.store, next.store, bound, sys.threads[o]); }
    }
  }

  lemma Reflexive(s: StoreState)
    ensures Extends(s, s)
  {
  }

  lemma DraftedOk(h: AttestationHash, verifiers: Verifiers, st: StoreState, bound: DateTime, p: RecorderPhase)
    requires p.Drafted? && PhaseOk(h, verifiers, st, bound, p)
    ensures DraftOk(h, verifiers, p.draft) && p.draft.now <= bound
  {
    hide DraftOk, Compare, FromDateTime;
  }

  lemma AppendedOk(h: AttestationHash, verifiers: Verifiers, st: StoreState, bound: DateTime, d: Draft)
    requires DraftOk(h, verifiers, d) && Present(st, d)
    ensures PhaseOk(h, verifiers, st, bound, Appended(d)) && PhaseOk(h, verifiers, st, bound, Recorded(d))
  {
    hide DraftOk, Present, Compare, FromDateTime;
  }

  lemma FailedOk(h: AttestationHash, verifiers: Verifiers, st: StoreState, bound: DateTime, p: RecorderPhase)
    requires p.Failed?
    ensures PhaseOk(h, verifiers, st, bound, p)
  {
  }

  /** Reading back always finds the entry appended, whatever others appended since. */
  lemma ReadBackSucceeds(h: AttestationHash, verifiers: Verifiers, sys: System, t: nat, bound: DateTime)
    requires SystemInv(h, verifiers, sys, bound) && RecorderPhaseOf(sys, t).Appended?
    ensures StepMove(h, verifiers, sys, ReadBack(t))
            == sys.(threads := sys.threads[t := Recorded(RecorderPhaseOf(sys, t).draft)])
  {
    hide StoreInv, EntriesTrusted, SignatureReasons, IntegrityReasons, Compare, FromDateTime;
    assert PhaseOk(h, verifiers, sys.store, bound, sys.threads[t]);
  }

  lemma ReadBackMoveKeeps(h: AttestationHash, verifiers: Verifiers, sys: System, t: nat, bound: DateTime)
    requires SystemInv(h, verifiers, sys, bound)
    ensures SystemInv(h, verifiers, StepMove(h, verifiers, sys, ReadBack(t)), bound)
  {
    hide StoreInv, EntriesTrusted, ReadBackStep, DraftOk, Present, Compare, FromDateTime;
    if RecorderPhaseOf(sys, t).Appended? {
      ReadBackSucceeds(h, verifiers, sys, t, bound);
      AppendedOk(h, verifiers, sys.store, bound, RecorderPhaseOf(sys, t).draft);
    }
  }

  lemma ReadHeadMoveKeeps(h: AttestationHash, verifiers: Verifiers, sys: System, m: Move, bound: DateTime)
    requires SystemInv(h, verifiers, sys, bound) && m.ReadHead?
    requires m.now <= bound
    ensures SystemInv(h, verifiers, StepMove(h, verifiers, sys, m), bound)
  {
    hide StoreInv, EntriesTrusted, DraftOk, Present, Compare, FromDateTime, Prepare;
    var phase := ReadHeadStep(h, verifiers, sys.store, m);
    if phase.Drafted? {
      var op := m.request.operationId;
      var head := if op in sys.store.heads then Some(sys.store.heads[op]) else None;
      PreparedDraft(h, verifiers, m.recorder, m.request, head, m.now, m.id, m.payloadDigest);
    }
    assert PhaseOk(h, verifiers, sys.store, bound, phase);
  }

  /** Every step keeps the invariant and extends the store. */
  lemma StepKeepsInv(h: AttestationHash, verifiers: Verifiers, sys: System, m: Move, bound: DateTime)
    requires RegistryOk(verifiers) && SystemInv(h, verifiers, sys, bound)
    requires m.ReadHead? ==> m.now <= bound
    ensures SystemInv(h, verifiers, StepMove(h, verifiers, sys, m), bound)
    ensures Extends(sys.store, StepMove(h, verifiers, sys, m).store)
  {
    hide SystemInv, Compare, FromDateTime, AppendStep, ReadBackStep, ReadHeadStep, Extends;
    Reflexive(sys.store);
    match m {
      case ReadHead(_, _, _, _, _, _) => ReadHeadMoveKeeps(h, verifiers, sys, m, bound);
      case AppendDraft(t) => AppendMoveKeeps(h, verifiers, sys, t, bound);
      case ReadBack(t) => ReadBackMoveKeeps(h, verifiers, sys, t, bound);
    }
  }

  lemma ExtendsTransitive(a: StoreState, b: StoreState, c: StoreState)
    requires Extends(a, b) && Extends(b, c)
    ensures Extends(a, c)
  {
  }

  lemma {:induction false} RunKeepsInv(h: AttestationHash, verifiers: Verifiers, sys: System, moves: seq<Move>,
                                       bound: DateTime)
    requires RegistryOk(verifiers) && SystemInv(h, verifiers, sys, bound) && InTime(moves, bound)
    ensures SystemInv(h, verifiers, RunMoves(h, verifiers, sys, moves), bound)
    ensures Extends(sys.store, RunMoves(h, verifiers, sys, moves).store)
  {
    hide SystemInv, Compare, FromDateTime, StepMove, Extends, RegistryOk;
    if moves == [] {
      Reflexive(sys.store);
    } else {
      var n := |moves| - 1;
      assert InTime(moves[..n], bound) by { assert forall i | 0 <= i < n :: moves[..n][i] == moves[i]; }
      RunKeepsInv(h, verifiers, sys, moves[..n], bound);
      var before := RunMoves(h, verifiers, sys, moves[..n]);
      StepKeepsInv(h, verifiers, before, moves[n], bound);
      ExtendsTransitive(sys.store, before.store, StepMove(h, verifiers, before, moves[n]).store);
    }
  }

  /** What the store holds for an operation is a valid chain, under the operation's own name. */
  lemma HeldChainIsValid(h: AttestationHash, verifiers: Verifiers, st: StoreState, bound: DateTime, op: string)
    requires StoreInv(h, st) && EntriesTrusted(h, verifiers, st, bound) && op in st.records
    ensures ChainValid(h, st.records[op], verifiers, Expected(Some(op), None, None), FromDateTime(bound))
  {
    hide StoreInv, IntegrityReasons, Trusted, FromDateTime, Distinct;
    HeldChain(h, st, op);
    forall i | 0 <= i < |st.records[op]| ensures Trusted(h, st.records[op][i], verifiers, FromDateTime(bound)) {
      assert Held(st, op, i);
    }
  }

  /** After any interleaving of recorder steps over any operations, with any failures, every chain in the store
      verifies at every instant not before the clock readings used. */
  lemma EveryRunLeavesValidChains(h: AttestationHash, verifiers: Verifiers, capacity: nat, moves: seq<Move>,
                                  bound: DateTime, op: string)
    requires RegistryOk(verifiers) && InTime(moves, bound)
    requires op in RunMoves(h, verifiers, Idle(capacity), moves).store.records
    ensures ChainValid(h, RunMoves(h, verifiers, Idle(capacity), moves).store.records[op], verifiers,
                       Expected(Some(op), None, None), FromDateTime(bound))
  {
    var start := Idle(capacity);
    assert SystemInv(h, verifiers, start, bound) by { EmptyStore(h, capacity); }
    hide RegistryOk, InTime, ChainValid, EntriesTrusted, StoreInv, RunMoves;
    RunKeepsInv(h, verifiers, start, moves, bound);
    HeldChainIsValid(h, verifiers, RunMoves(h, verifiers, start, moves).store, bound, op);
  }

  /** Of the threads that read the same head, at most one appends: once one has, the others are refused,
      whatever happens in between. */
  lemma RaceHasOneWinner(h: AttestationHash, verifiers: Verifiers, sys: System, winner: nat, loser: nat,
                         moves: seq<Move>, bound: DateTime)
    requires RegistryOk(verifiers) && SystemInv(h, verifiers, sys, bound) && InTime(moves, bound)
    requires RecorderPhaseOf(sys, winner).Drafted? && RecorderPhaseOf(sys, loser).Drafted?
    requires var d, e := RecorderPhaseOf(sys, winner).draft, RecorderPhaseOf(sys, loser).draft;
             d.sequence == e.sequence && d.signed.attestation.operationId == e.signed.attestation.operationId
    requires StepMove(h, verifiers, sys, AppendDraft(winner)).threads[winner].Appended?
    requires RecorderPhaseOf(RunMoves(h, verifiers, StepMove(h, verifiers, sys, AppendDraft(winner)), moves), loser)
             == RecorderPhaseOf(sys, loser)
    ensures var late := RunMoves(h, verifiers, StepMove(h, verifiers, sys, AppendDraft(winner)), moves);
            var end := StepMove(h, verifiers, late, AppendDraft(loser));
            end.threads[loser].Failed? && end.store == late.store
  {
    hide InTime, Compare, FromDateTime, RunMoves, StoreInv, EntriesTrusted, Extends, RegistryOk, Append;
    var d, e := RecorderPhaseOf(sys, winner).draft, RecorderPhaseOf(sys, loser).draft;
    DraftedOk(h, verifiers, sys.store, bound, RecorderPhaseOf(sys, winner));
    DraftedOk(h, verifiers, sys.store, bound, RecorderPhaseOf(sys, loser));
    AppendStepEffect(h, verifiers, sys.store, d);
    var mid := StepMove(h, verifiers, sys, AppendDraft(winner));
    AppendMoveKeeps(h, verifiers, sys, winner, bound);
    RunKeepsInv(h, verifiers, mid, moves, bound);
    var late := RunMoves(h, verifiers, mid, moves);
    AppendGrants(h, sys.store, d);
    PositionGrantedOnce(h, sys.store, d.signed, mid.store, late.store, e.signed, d.sequence, d.previous, e.previous);
    AppendStepEffect(h, verifiers, late.store, e);
  }

  lemma AppendGrants(h: AttestationHash, st: StoreState, d: Draft)
    ensures Append(h, st, d.signed, d.sequence, d.previous).Ok? ==>
            Append(h, st, d.signed, d.sequence, d.previous) == Ok(Filed(st, d.signed))
  {
    hide Total, AppendConflict, IntegrityReasons;
  }

  // ----- one recorder call on the store itself -----

  lemma NoHead(h: AttestationHash, verifiers: Verifiers, recorder: Recorder, r: Request, now: DateTime, id: string,
               payloadDigest: string)
    requires recorder.key in verifiers && r.operationId == ""
    ensures forall head :: Prepare(h, verifiers, recorder, r, head, now, id, payloadDigest)
                           == Err(RecorderError("ATTESTATION_STORE_HEAD_FAILED"))
  {
  }

  /** What one recorder call comes to on a store: the entry it files, or why there is none. */
  ghost function Recording(h: AttestationHash, verifiers: Verifiers, recorder: Recorder, st: StoreState, r: Request,
                           now: DateTime, id: string, payloadDigest: string): Result<Signed, RecordFailure>
    requires recorder.key in verifiers
  {
    var head := if r.operationId in st.heads then Some(st.heads[r.operationId]) else None;
    match Prepare(h, verifiers, recorder, r, head, now, id, payloadDigest)
    case Err(failure) => Err(failure)
    case Ok(d) =>
      if Append(h, st, d.signed, d.sequence, d.previous).Ok? then Ok(d.signed)
      else Err(RecorderError("ATTESTATION_STORE_APPEND_FAILED"))
  }

  /** What a recorder call files answers its request. */
  lemma RecordingAnswers(h: AttestationHash, verifiers: Verifiers, recorder: Recorder, st: StoreState, r: Request,
                         now: DateTime, id: string, payloadDigest: string)
    requires recorder.key in verifiers && Recording(h, verifiers, recorder, st, r, now, id, payloadDigest).Ok?
    ensures Answers(Recording(h, verifiers, recorder, st, r, now, id, payloadDigest).value.attestation, r)
  {
    hide Prepare, Append, DraftOk, IsoMillis;
    var head := if r.operationId in st.heads then Some(st.heads[r.operationId]) else None;
    PreparedDraft(h, verifiers, recorder, r, head, now, id, payloadDigest);
  }

  /** The attestation a lone recorder call makes: the next one of its operation. */
  ghost function NextEntry(h: AttestationHash, recorder: Recorder, st: StoreState, r: Request, now: DateTime,
                           id: string, payloadDigest: string): Attestation {
    var chain := Records(st, r.operationId);
    Build(h, r, id, recorder.signer.issuerId, IsoMillis(now), |chain|, PreviousDigest(chain, |chain|), payloadDigest)
  }

  /** The request is about the subject and proof the operation's records are about. */
  predicate Anchored(st: StoreState, r: Request) {
    var chain := Records(st, r.operationId);
    chain != [] ==>
      chain[0].attestation.subjectDigest == r.subjectDigest && chain[0].attestation.proofDigest == r.proofDigest
  }

  predicate SignedAndAccepted(signer: Signer, v: SignatureVerifier, a: Attestation) {
    && CanonicalIdentity(signer.algorithm, signer.issuerId, signer.keyId)
    && signer.sign(a).Some? && SignatureText(signer.sign(a).value) && v.check(a, signer.sign(a).value) == Some(true)
  }

  /** A lone recorder whose verifier has its signer's identity succeeds exactly when the request and its inputs are well
      formed and about the same subject and proof, the entry is new, there is room, and signer and verifier do their
      part: its own clock, position and digests never stand in the way. */
  lemma RecordingSucceeds(h: AttestationHash, verifiers: Verifiers, recorder: Recorder, st: StoreState, r: Request,
                          now: DateTime, id: string, payloadDigest: string)
    requires RegistryOk(verifiers) && recorder.key in verifiers && StoreInv(h, st)
    requires recorder.key == SignerKey(recorder.signer.issuerId, recorder.signer.algorithm, recorder.signer.keyId)
    ensures var a := NextEntry(h, recorder, st, r, now, id, payloadDigest);
            Recording(h, verifiers, recorder, st, r, now, id, payloadDigest).Ok? <==>
            && EventOk(r) && AttestationText(id) && AttestationText(recorder.signer.issuerId)
               && ValidDigest(payloadDigest)
            && Anchored(st, r) && Unheld(st, a) && Total(st.records) < st.capacity
            && SignedAndAccepted(recorder.signer, verifiers[recorder.key], a)
  {
    hide IntegrityReasons, SignatureReasons, Intact, IssuedAfter, IsoMillis, FromDateTime, StoreInv, EventOk, Append,
         Total, Unheld, AttestationText, ValidDigest, CanonicalIdentity, SignatureText, HeadProblem, Linked;
    var a := NextEntry(h, recorder, st, r, now, id, payloadDigest);
    var head := if r.operationId in st.heads then Some(st.heads[r.operationId]) else None;
    HeadRead(h, st, r);
    if EventOk(r) {
      NamedEvent(r);
      BuiltIntact(h, recorder, st, r, now, id, payloadDigest);
      IntegrityMeans(h, a, None);
      var signed := Sign(h, a, recorder.signer);
      if signed.Ok? {
        SignedVerifies(h, a, recorder.signer, verifiers[recorder.key], FromDateTime(now));
        AppendGranted(h, st, signed.value, a.sequence, a.previous);
        AnchoredLinks(st, r, signed.value);
      }
    }
  }

  /** An error escapes a lone recorder exactly when the head read is in order and the event or the attestation made of
      it is not: every other failure is the recorder's own. */
  lemma EscapesExactly(h: AttestationHash, verifiers: Verifiers, recorder: Recorder, st: StoreState, r: Request,
                       now: DateTime, id: string, payloadDigest: string)
    requires recorder.key in verifiers && StoreInv(h, st)
    ensures var result := Recording(h, verifiers, recorder, st, r, now, id, payloadDigest);
            result.Err? && result.error.OtherError? <==>
            && r.operationId != "" && Anchored(st, r)
            && !(EventOk(r) && AttestationText(id) && AttestationText(recorder.signer.issuerId)
                 && ValidDigest(payloadDigest))
  {
    hide IntegrityReasons, SignatureReasons, Intact, IssuedAfter, IsoMillis, FromDateTime, StoreInv, EventOk, Append;
    hide AttestationText, ValidDigest, Sign, HeadProblem, Anchored;
    var a := NextEntry(h, recorder, st, r, now, id, payloadDigest);
    HeadRead(h, st, r);
    if Records(st, r.operationId) == [] { NoRecords(st, r); }
    if EventOk(r) {
      NamedEvent(r);
      BuiltIntact(h, recorder, st, r, now, id, payloadDigest);
      IntegrityMeans(h, a, None);
    }
  }

  lemma NoRecords(st: StoreState, r: Request)
    requires Records(st, r.operationId) == []
    ensures Anchored(st, r)
  {
  }

  /** The head read is that of the last record, and passes the recorder's check exactly for an anchored request. */
  lemma HeadRead(h: AttestationHash, st: StoreState, r: Request)
    requires StoreInv(h, st)
    ensures var op := r.operationId;
            var chain := Records(st, op);
            && (op in st.heads <==> chain != [])
            && |chain| == NextSequence(st, op) && PreviousDigest(chain, |chain|) == NextPrevious(st, op)
            && (op in st.heads ==>
                  (HeadProblem(st.heads[op], op, r.subjectDigest, r.proofDigest, st.heads[op].sequence, None).None? <==>
                   Anchored(st, r)))
            && (chain != [] ==> ValidDigest(PreviousDigest(chain, |chain|)) && chain[0].attestation.operationId == op)
  {
    hide IntegrityReasons, NoReplay, AllSeen, SeenHeld, Total, ValidDigest, CanonicalText, Parse, Linked;
    var op := r.operationId;
    if op in st.records {
      assert ChainHeld(h, st, op);
      HeadSequence(h, st, op);
      FirstAnchors(h, st, op);
      IntegrityMeans(h, st.records[op][|st.records[op]| - 1].attestation, None);
      OperationOfLast(h, st, op);
    }
  }

  lemma OperationOfLast(h: AttestationHash, st: StoreState, op: string)
    requires op in st.records && ChainHeld(h, st, op)
    ensures st.heads[op].operationId == op
  {
    hide IntegrityReasons;
    assert Linked(st.records[op], |st.records[op]| - 1);
  }

  lemma AnchoredLinks(st: StoreState, r: Request, s: Signed)
    requires var chain := Records(st, r.operationId);
             var a := s.attestation;
             && a.operationId == r.operationId && a.subjectDigest == r.subjectDigest && a.proofDigest == r.proofDigest
             && a.sequence == |chain| && a.previous == PreviousDigest(chain, |chain|)
             && (chain != [] ==> chain[0].attestation.operationId == r.operationId)
    ensures Linked(Records(st, r.operationId) + [s], |Records(st, r.operationId)|) <==> Anchored(st, r)
  {
    var chain := Records(st, r.operationId);
    assert (chain + [s])[|chain|] == s;
  }

  /** What a recorder builds for a sound request is intact and never from its own future. */
  lemma BuiltIntact(h: AttestationHash, recorder: Recorder, st: StoreState, r: Request, now: DateTime, id: string,
                    payloadDigest: string)
    requires EventOk(r)
    requires var chain := Records(st, r.operationId); chain != [] ==> ValidDigest(PreviousDigest(chain, |chain|))
    ensures var a := NextEntry(h, recorder, st, r, now, id, payloadDigest);
            && (Intact(h, a) <==>
                AttestationText(id) && AttestationText(recorder.signer.issuerId) && ValidDigest(payloadDigest))
            && !IssuedAfter(a, Some(FromDateTime(now)))
  {
    hide IsoMillis, FromDateTime, Parse, Compare, ValidDigest, AttestationText;
    MillisNotLater(now);
    TypesAreText(r.eventType);
    var a := NextEntry(h, recorder, st, r, now, id, payloadDigest);
    assert Payload(a) == a.(attestationDigest := "");
  }

  lemma TypesAreText(kind: string)
    requires kind in EVENT_TYPES
    ensures AttestationText(kind)
  {
  }

  lemma NamedEvent(r: Request)
    requires EventOk(r)
    ensures r.operationId != ""
  {
  }

  /** A thread that runs alone through its three steps does what one recorder call does. */
  lemma LoneRunIsRecording(h: AttestationHash, verifiers: Verifiers, recorder: Recorder, sys: System, t: nat,
                           r: Request, now: DateTime, id: string, payloadDigest: string)
    requires recorder.key in verifiers && StoreInv(h, sys.store)
    requires !RecorderPhaseOf(sys, t).Drafted? && !RecorderPhaseOf(sys, t).Appended?
    ensures var one := StepMove(h, verifiers, sys, ReadHead(t, recorder, r, now, id, payloadDigest));
            var two := StepMove(h, verifiers, one, AppendDraft(t));
            var three := StepMove(h, verifiers, two, ReadBack(t));
            match Recording(h, verifiers, recorder, sys.store, r, now, id, payloadDigest)
            case Err(failure) => three.store == sys.store && RecorderPhaseOf(three, t) == Failed(failure)
            case Ok(s) =>
              && three.store == Filed(sys.store, s)
              && RecorderPhaseOf(three, t).Recorded? && RecorderPhaseOf(three, t).draft.signed == s
  {
    hide StoreInv, Prepare, Append, SignatureReasons, IntegrityReasons, HeadProblem, FromDateTime, Filed;
    hide Compare, EventOk, IsoMillis, Answers, HeadOf;
    var head := if r.operationId in sys.store.heads then Some(sys.store.heads[r.operationId]) else None;
    var prepared := Prepare(h, verifiers, recorder, r, head, now, id, payloadDigest);
    if prepared.Ok? {
      PreparedDraft(h, verifiers, recorder, r, head, now, id, payloadDigest);
      AppendStepEffect(h, verifiers, sys.store, prepared.value);
      AppendGrants(h, sys.store, prepared.value);
    }
  }

  /** `record_event`: head, build, sign, verify, append, read back. */
  method RecordEvent(store: MemoryAttestationStore, verifiers: Verifiers, recorder: Recorder, r: Request, now: DateTime,
                     id: string, payloadDigest: string) returns (result: Result<Signed, RecordFailure>)
    requires store.Valid() && recorder.key in verifiers
    modifies store
    ensures store.Valid()
    ensures result == Recording(store.hash, verifiers, recorder, old(store.State()), r, now, id, payloadDigest)
    ensures result.Err? ==> store.State() == old(store.State())
    ensures result.Ok? ==>
              var s, before := result.value, Records(old(store.State()), r.operationId);
              && store.State() == Filed(old(store.State()), s)
              && Records(store.State(), r.operationId) == before + [s]
              && s.attestation.operationId == r.operationId && s.attestation.artifactType == r.eventType
              && s.attestation.artifactDigest == r.artifactDigest && s.attestation.attestationId == id
              && SignatureReasons(store.hash, s, verifiers[recorder.key], FromDateTime(now)) == {}
  {
    hide IntegrityReasons, SignatureReasons, StoreInv, Prepare, FromDateTime, HeadProblem, Append;
    var h := store.hash;
    var head := store.GetHead(r.operationId);
    if head.Err? {
      NoHead(h, verifiers, recorder, r, now, id, payloadDigest);
      return Err(RecorderError("ATTESTATION_STORE_HEAD_FAILED"));
    }
    var prepared := Prepare(h, verifiers, recorder, r, head.value, now, id, payloadDigest);
    if prepared.Err? {
      return Err(prepared.error);
    }
    PreparedDraft(h, verifiers, recorder, r, head.value, now, id, payloadDigest);
    var d := prepared.value;
    AppendStepEffect(h, verifiers, store.State(), d);
    AppendGrants(h, store.State(), d);
    var output := store.AppendSigned(d.signed, d.sequence, d.previous);
    if output.Err? {
      return Err(RecorderError("ATTESTATION_STORE_APPEND_FAILED"));
    }
    // The recorder's checks of the head returned and of the entry read back cannot fail here.
    var a := d.signed.attestation;
    AppendOutputOk(h, a);
    assert HeadProblem(output.value, a.operationId, a.subjectDigest, a.proofDigest, d.sequence,
                       Some((a.attestationId, a.attestationDigest))).None?;
    var stored := store.Read(r.operationId, d.sequence);
    assert stored == Ok(Some(d.signed));
    result := Ok(d.signed);
  }
}
