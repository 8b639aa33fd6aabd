/** Safety of every interleaving of admissions and proxy requests. */
module GatewaySafety {
  import opened PyString
  import opened TimestampOrder
  import opened Rfc3339
  import opened Evidences
  import opened Verifier
  import opened TrustStage
  import opened Sdk
  import opened GatewayExpiry
  import opened GatewayStore
  import opened Gateway

  /** The record a proxy handler holds after burning its token. */
  function RecordOf(p: Phase): Option<AdmissionRecord> {
    if p.Taken? || p.Consumed? || p.Fresh? || p.Matched? || p.Cleared? || p.Prepared? || p.Ready? || p.Opening?
       || p.Streaming? || p.Failing?
    then Some(p.record) else None
  }

  predicate Undispatched(p: Phase) {
    p.Taken? || p.Consumed? || p.Fresh? || p.Matched? || p.Cleared? || p.Prepared? || p.Ready?
  }

  /** Two admissions that may not both exist. */
  predicate Clash(r: AdmissionRecord, s: AdmissionRecord) {
    r.operationId == s.operationId || r.proofDigest == s.proofDigest
  }

  predicate AdmissionOk(env: Env, a: Admission) {
    Admit(a.doc.proof, a.now, env.ttlSeconds) == Ok(a.record) && Accepted(env, a.doc, a.assessedAt)
  }

  /** A record that was reserved, for an accepted proof. */
  predicate Backed(env: Env, g: State, r: AdmissionRecord) {
    && r.operationId in g.store.operations && r.proofDigest in g.store.proofs
    && r.operationId in g.admitted && g.admitted[r.operationId].record == r
    && AdmissionOk(env, g.admitted[r.operationId])
  }

  /** What a handler has established by the time it is in a phase. */
  predicate PhaseFacts(env: Env, p: Phase) {
    && (p.Assessed? || p.Reserving? ==> AdmissionOk(env, p.admission))
    && (p.Matched? || p.Cleared? || p.Prepared? || p.Ready? ==> env.target(p.request) == Some(p.record.targetDigest))
    && (p.Ready? ==> !RecordIsExpired(p.record, p.last))
  }

  predicate DispatchOk(env: Env, d: Dispatch) {
    env.target(d.request) == Some(d.record.targetDigest) && !RecordIsExpired(d.record, d.last)
  }

  ghost predicate TokensOk(env: Env, g: State) {
    && g.admitted.Keys == g.store.operations
    && (forall d | d in g.store.tokens :: Backed(env, g, g.store.tokens[d]))
    && (forall d, e | d in g.store.tokens && e in g.store.tokens && d != e ::
          !Clash(g.store.tokens[d], g.store.tokens[e]))
  }

  ghost predicate Holds(g: State, t: nat) { t in g.threads && RecordOf(g.threads[t]).Some? }

  ghost function HeldBy(g: State, t: nat): AdmissionRecord
    requires Holds(g, t)
  {
    RecordOf(g.threads[t]).value
  }

  ghost predicate ThreadsOk(env: Env, g: State) {
    && (forall t | t in g.threads :: PhaseFacts(env, g.threads[t]))
    && (forall t | Holds(g, t) :: Backed(env, g, HeldBy(g, t)))
    && (forall t, d | Holds(g, t) && d in g.store.tokens :: !Clash(HeldBy(g, t), g.store.tokens[d]))
    && (forall t, u | Holds(g, t) && Holds(g, u) && t != u :: !Clash(HeldBy(g, t), HeldBy(g, u)))
  }

  ghost predicate DispatchesOk(env: Env, g: State) {
    && (forall i | 0 <= i < |g.dispatches| ::
          Backed(env, g, g.dispatches[i].record) && DispatchOk(env, g.dispatches[i]))
    && (forall i, d | 0 <= i < |g.dispatches| && d in g.store.tokens ::
          !Clash(g.dispatches[i].record, g.store.tokens[d]))
    && (forall i, j | 0 <= i < j < |g.dispatches| :: !Clash(g.dispatches[i].record, g.dispatches[j].record))
    && (forall i, t | 0 <= i < |g.dispatches| && Holds(g, t) && Undispatched(g.threads[t]) ::
          !Clash(g.dispatches[i].record, HeldBy(g, t)))
  }

  ghost predicate SafeInv(env: Env, g: State) { TokensOk(env, g) && ThreadsOk(env, g) && DispatchesOk(env, g) }

  // ----- steps of one handler -----

  /** `n` is `g` with thread `t` at `p`; the provenance log and the answered tokens do not matter here. */
  ghost predicate OnlyThread(g: State, n: State, t: nat, p: Phase) {
    n.store == g.store && n.admitted == g.admitted && n.dispatches == g.dispatches && n.threads == g.threads[t := p]
  }

  /** A handler may move on with the record it holds, or let go of it. */
  predicate MovesOn(before: Phase, after: Phase) {
    RecordOf(after).None? || (RecordOf(after) == RecordOf(before) && (Undispatched(after) ==> Undispatched(before)))
  }

  lemma ThreadMoveIsSafe(env: Env, g: State, n: State, t: nat, p: Phase)
    requires SafeInv(env, g) && OnlyThread(g, n, t, p) && PhaseFacts(env, p) && MovesOn(PhaseOf(g, t), p)
    ensures SafeInv(env, n)
  {
    hide AdmissionOk, Clash, DispatchOk, PhaseFacts;
    forall u | Holds(n, u) ensures Holds(g, u) && HeldBy(n, u) == HeldBy(g, u) { }
    forall u | Holds(n, u) && Undispatched(n.threads[u]) ensures Undispatched(g.threads[u]) { }
    SameBacking(env, g, n);
  }

  lemma SameBacking(env: Env, g: State, n: State)
    requires n.store == g.store && n.admitted == g.admitted
    ensures forall r :: Backed(env, g, r) <==> Backed(env, n, r)
  {
    hide AdmissionOk;
  }

  lemma LocalMovesOn(env: Env, p: Phase, a: Action)
    requires PhaseFacts(env, p)
    ensures PhaseFacts(env, LocalNext(env, p, a)) && MovesOn(p, LocalNext(env, p, a))
  {
    hide AdmissionOk, RecordIsExpired;
  }

  lemma RecordMovesOn(env: Env, p: Phase, a: Action, o: Outcome)
    requires PhaseFacts(env, p)
    ensures PhaseFacts(env, AfterRecord(p, a, o)) && MovesOn(p, AfterRecord(p, a, o))
  {
    hide AdmissionOk, RecordIsExpired;
  }

  lemma AssessMovesOn(env: Env, p: Phase, a: Action)
    requires PhaseFacts(env, p) && a.AssessAndAdmit?
    ensures PhaseFacts(env, AssessNext(env, p, a)) && MovesOn(p, AssessNext(env, p, a))
  {
    hide Accepted, RecordIsExpired;
  }

  // ----- reserving, presenting, dispatching -----

  lemma ReserveBacking(env: Env, g: State, t: nat, draws: seq<string>)
    requires SafeInv(env, g) && PhaseOf(g, t).Reserving?
    requires Reserve(g.store, PhaseOf(g, t).admission.record, draws, env.tokenDigest).Ok?
    ensures var n := ReserveStep(env, g, t, draws); var r := PhaseOf(g, t).admission.record;
            && Backed(env, n, r) && (forall s | Backed(env, g, s) :: Backed(env, n, s) && !Clash(r, s))
            && n.admitted.Keys == n.store.operations
            && (exists d :: d !in g.store.tokens && n.store.tokens == g.store.tokens[d := r])
  {
    hide Accepted, FirstFresh, ThreadsOk, DispatchesOk, UsableToken;
    var n, p := ReserveStep(env, g, t, draws), PhaseOf(g, t);
    assert AdmissionOk(env, p.admission) by { ReservingOk(env, g, t); }
    assert p.admission.record.operationId !in g.store.operations && p.admission.record.proofDigest !in g.store.proofs;
    var token := FirstFresh(draws, g.store.tokens, env.tokenDigest).value;
    assert env.tokenDigest(token) !in g.store.tokens;
    hide Admit;
    assert n.store.tokens == g.store.tokens[env.tokenDigest(token) := p.admission.record];
  }

  lemma ReservingOk(env: Env, g: State, t: nat)
    requires ThreadsOk(env, g) && PhaseOf(g, t).Reserving?
    ensures AdmissionOk(env, PhaseOf(g, t).admission)
  {
    hide AdmissionOk, Backed;
  }

  lemma ReserveIsSafe(env: Env, g: State, t: nat, draws: seq<string>)
    requires SafeInv(env, g)
    ensures SafeInv(env, ReserveStep(env, g, t, draws))
  {
    hide AdmissionOk, DispatchOk, Backed, Reserve, UsableToken;
    var n, p := ReserveStep(env, g, t, draws), PhaseOf(g, t);
    if p.Reserving? {
      if Reserve(g.store, p.admission.record, draws, env.tokenDigest).Ok? {
        ReserveBacking(env, g, t, draws);
        ReserveInv(env, g, n, t, p.admission.record);
      } else {
        assert OnlyThread(g, n, t, Free);
        ThreadMoveIsSafe(env, g, n, t, Free);
      }
    }
  }

  lemma ReserveInv(env: Env, g: State, n: State, t: nat, r: AdmissionRecord)
    requires SafeInv(env, g)
    requires t in n.threads && (n.threads[t].Reserved? || n.threads[t].Free?)
             && n.threads == g.threads[t := n.threads[t]]
    requires n.dispatches == g.dispatches && n.admitted.Keys == n.store.operations
    requires Backed(env, n, r) && forall s | Backed(env, g, s) :: Backed(env, n, s) && !Clash(r, s)
    requires exists d :: d !in g.store.tokens && n.store.tokens == g.store.tokens[d := r]
    ensures SafeInv(env, n)
  {
    hide AdmissionOk, DispatchOk, Backed, TokensOk, ThreadsOk, DispatchesOk;
    ReserveTokens(env, g, n, r);
    ReserveThreads(env, g, n, t, r);
    ReserveDispatches(env, g, n, t, r);
  }

  lemma ReserveTokens(env: Env, g: State, n: State, r: AdmissionRecord)
    requires TokensOk(env, g) && n.admitted.Keys == n.store.operations
    requires Backed(env, n, r) && forall s | Backed(env, g, s) :: Backed(env, n, s) && !Clash(r, s)
    requires exists d :: d !in g.store.tokens && n.store.tokens == g.store.tokens[d := r]
    ensures TokensOk(env, n)
  {
    hide Backed;
  }

  lemma ReserveThreads(env: Env, g: State, n: State, t: nat, r: AdmissionRecord)
    requires ThreadsOk(env, g)
    requires t in n.threads && (n.threads[t].Reserved? || n.threads[t].Free?)
             && n.threads == g.threads[t := n.threads[t]]
    requires forall s | Backed(env, g, s) :: Backed(env, n, s) && !Clash(r, s)
    requires exists d :: d !in g.store.tokens && n.store.tokens == g.store.tokens[d := r]
    ensures ThreadsOk(env, n)
  {
    hide Backed, AdmissionOk;
    assert PhaseFacts(env, n.threads[t]);
    hide PhaseFacts, Clash;
    ClashSymmetric();
    forall u | Holds(n, u) ensures Holds(g, u) && HeldBy(n, u) == HeldBy(g, u) { }
  }

  lemma ReserveDispatches(env: Env, g: State, n: State, t: nat, r: AdmissionRecord)
    requires DispatchesOk(env, g)
    requires t in n.threads && (n.threads[t].Reserved? || n.threads[t].Free?)
             && n.threads == g.threads[t := n.threads[t]]
    requires n.dispatches == g.dispatches
    requires forall s | Backed(env, g, s) :: Backed(env, n, s) && !Clash(r, s)
    requires exists d :: d !in g.store.tokens && n.store.tokens == g.store.tokens[d := r]
    ensures DispatchesOk(env, n)
  {
    hide Backed, DispatchOk, Clash;
    ClashSymmetric();
    forall u | Holds(n, u) ensures Holds(g, u) && HeldBy(n, u) == HeldBy(g, u) { }
  }

  lemma PresentIsSafe(env: Env, g: State, t: nat, token: string)
    requires SafeInv(env, g)
    ensures SafeInv(env, PresentStep(env, g, t, token))
  {
    hide AdmissionOk, DispatchOk, CanonicalText;
    var n := PresentStep(env, g, t, token);
    var d := env.tokenDigest(token);
    if n != g {
      var r := g.store.tokens[d];
      assert n.store == g.store.(tokens := g.store.tokens - {d}) && n.threads == g.threads[t := Taken(r)];
      PresentInv(env, g, n, t, d);
    }
  }

  lemma PresentInv(env: Env, g: State, n: State, t: nat, d: string)
    requires SafeInv(env, g) && d in g.store.tokens && PhaseOf(g, t).Free?
    requires n.store == g.store.(tokens := g.store.tokens - {d})
             && n.threads == g.threads[t := Taken(g.store.tokens[d])]
    requires n.admitted == g.admitted && n.dispatches == g.dispatches
    ensures SafeInv(env, n)
  {
    hide AdmissionOk, DispatchOk, Clash, PhaseFacts;
    assert forall r :: Backed(env, g, r) <==> Backed(env, n, r);
    hide Backed;
    var r := g.store.tokens[d];
    assert PhaseFacts(env, Taken(r)) by { TakenFacts(env, r); }
    ClashSymmetric();
    forall u | Holds(n, u) && u != t ensures Holds(g, u) && HeldBy(n, u) == HeldBy(g, u) { }
    assert Holds(n, t) && HeldBy(n, t) == r;
    assert TokensOk(env, n);
    assert ThreadsOk(env, n) by { hide DispatchesOk; }
    assert DispatchesOk(env, n) by { hide ThreadsOk; }
  }

  lemma TakenFacts(env: Env, r: AdmissionRecord)
    ensures PhaseFacts(env, Taken(r))
  {
  }

  lemma ClashSymmetric()
    ensures forall r, s :: Clash(r, s) <==> Clash(s, r)
  {
  }

  lemma OpenIsSafe(env: Env, g: State, t: nat)
    requires SafeInv(env, g)
    ensures SafeInv(env, OpenStep(g, t))
  {
    hide AdmissionOk, RecordIsExpired;
    var n, p := OpenStep(g, t), PhaseOf(g, t);
    if p.Ready? {
      assert PhaseFacts(env, p);
      assert Holds(g, t);
      OpenInv(env, g, n, t);
    }
  }

  lemma OpenInv(env: Env, g: State, n: State, t: nat)
    requires SafeInv(env, g) && t in g.threads && g.threads[t].Ready?
    requires n == OpenStep(g, t)
    requires DispatchOk(env, Dispatch(g.threads[t].record, g.threads[t].request, g.threads[t].last))
    ensures SafeInv(env, n)
  {
    hide TokensOk, DispatchOk, Clash, Backed, ThreadsOk, DispatchesOk;
    OpenHolders(g, n, t);
    SameBacking(env, g, n);
    OpenDispatches(env, g, n, t);
    OpenThreads(env, g, n, t);
    assert TokensOk(env, n) by { SameTokens(env, g, n); }
  }

  lemma SameTokens(env: Env, g: State, n: State)
    requires TokensOk(env, g) && n.store == g.store && n.admitted == g.admitted
    ensures TokensOk(env, n)
  {
    hide AdmissionOk, Clash;
  }

  lemma OpenHolders(g: State, n: State, t: nat)
    requires t in g.threads && g.threads[t].Ready? && n == OpenStep(g, t)
    ensures Holds(g, t) && HeldBy(g, t) == g.threads[t].record && Undispatched(g.threads[t])
    ensures forall u :: Holds(n, u) <==> Holds(g, u)
    ensures forall u | Holds(n, u) :: HeldBy(n, u) == HeldBy(g, u)
    ensures forall u | Holds(n, u) && Undispatched(n.threads[u]) :: u != t && Undispatched(g.threads[u])
  {
  }

  lemma OpenThreads(env: Env, g: State, n: State, t: nat)
    requires ThreadsOk(env, g) && t in g.threads && g.threads[t].Ready? && n == OpenStep(g, t)
    requires forall r :: Backed(env, g, r) <==> Backed(env, n, r)
    ensures ThreadsOk(env, n)
  {
    hide Clash, Backed, AdmissionOk;
    assert PhaseFacts(env, n.threads[t]);
    hide PhaseFacts;
    OpenHolders(g, n, t);
  }

  lemma OpenDispatches(env: Env, g: State, n: State, t: nat)
    requires ThreadsOk(env, g) && DispatchesOk(env, g) && t in g.threads && g.threads[t].Ready? && n == OpenStep(g, t)
    requires DispatchOk(env, Dispatch(g.threads[t].record, g.threads[t].request, g.threads[t].last))
    requires forall r :: Backed(env, g, r) <==> Backed(env, n, r)
    ensures DispatchesOk(env, n)
  {
    hide Clash, Backed, DispatchOk, PhaseFacts;
    OpenHolders(g, n, t);
    hide OpenStep;
    ClashSymmetric();
    var k, r := |g.dispatches|, g.threads[t].record;
    assert n.dispatches == g.dispatches + [Dispatch(r, g.threads[t].request, g.threads[t].last)] && n.store == g.store
      by { OpenEffect(g, n, t); }
    forall i | 0 <= i < k ensures n.dispatches[i] == g.dispatches[i] && !Clash(g.dispatches[i].record, r) { }
    forall u | Holds(n, u) && Undispatched(n.threads[u]) ensures !Clash(r, HeldBy(n, u)) { }
  }

  lemma OpenEffect(g: State, n: State, t: nat)
    requires t in g.threads && g.threads[t].Ready? && n == OpenStep(g, t)
    ensures n.dispatches == g.dispatches + [Dispatch(g.threads[t].record, g.threads[t].request, g.threads[t].last)]
    ensures n.store == g.store
  {
  }

  // ----- every run -----

  lemma StepIsSafe(env: Env, g: State, a: Action)
    requires SafeInv(env, g)
    ensures SafeInv(env, Step(env, g, a))
  {
    hide SafeInv, PhaseFacts, MovesOn, ReserveStep, PresentStep, OpenStep, LocalNext, AssessNext, AfterRecord, Wanted,
         LogAfter, OutcomeOf;
    var p, n := PhaseOf(g, a.thread), Step(env, g, a);
    if a.ReserveSlot? { ReserveIsSafe(env, g, a.thread, a.draws); }
    else if a.Present? { PresentIsSafe(env, g, a.thread, a.token); }
    else if a.OpenStream? { OpenIsSafe(env, g, a.thread); }
    else { OtherStepIsSafe(env, g, a); }
  }

  lemma FactsOf(env: Env, g: State, t: nat)
    requires SafeInv(env, g)
    ensures PhaseFacts(env, PhaseOf(g, t)) && PhaseFacts(env, Free) && MovesOn(PhaseOf(g, t), Free)
  {
    hide AdmissionOk, Clash, DispatchOk, Backed, RecordIsExpired;
  }

  lemma OtherStepIsSafe(env: Env, g: State, a: Action)
    requires SafeInv(env, g) && !a.ReserveSlot? && !a.Present? && !a.OpenStream?
    ensures SafeInv(env, Step(env, g, a))
  {
    hide SafeInv, PhaseFacts, MovesOn, LocalNext, AssessNext, AfterRecord, Wanted, LogAfter, OutcomeOf;
    var p, n := PhaseOf(g, a.thread), Step(env, g, a);
    FactsOf(env, g, a.thread);
    if a.RecordCreated? {
      if p.Reserved? { ThreadMoveIsSafe(env, g, n, a.thread, Free); }
    } else if IsRecording(a) {
      var want := Wanted(env, p, a);
      if want.Some? {
        var o := OutcomeOf(env, g.log, want.value, a.attempt);
        RecordMovesOn(env, p, a, o);
        ThreadMoveIsSafe(env, g, n, a.thread, AfterRecord(p, a, o));
      }
    } else if a.OtherEvent? {
      LogDoesNotMatter(env, g, n);
    } else if a.AssessAndAdmit? {
      AssessMovesOn(env, p, a);
      ThreadMoveIsSafe(env, g, n, a.thread, AssessNext(env, p, a));
    } else {
      LocalMovesOn(env, p, a);
      ThreadMoveIsSafe(env, g, n, a.thread, LocalNext(env, p, a));
    }
  }

  lemma LogDoesNotMatter(env: Env, g: State, n: State)
    requires SafeInv(env, g) && n.store == g.store && n.admitted == g.admitted && n.dispatches == g.dispatches
    requires n.threads == g.threads
    ensures SafeInv(env, n)
  {
    hide Backed, Clash, DispatchOk, PhaseFacts;
    SameBacking(env, g, n);
    forall u ensures Holds(n, u) <==> Holds(g, u) { }
    assert forall u | Holds(n, u) :: HeldBy(n, u) == HeldBy(g, u);
  }

  lemma {:induction false} RunIsSafe(env: Env, admissions: nat, attestations: nat, actions: seq<Action>)
    ensures SafeInv(env, Run(env, Start(admissions, attestations), actions))
  {
    hide Step;
    if actions == [] {
      hide Backed, Clash, PhaseFacts, DispatchOk;
    } else {
      hide SafeInv;
      RunIsSafe(env, admissions, attestations, actions[..|actions| - 1]);
      StepIsSafe(env, Run(env, Start(admissions, attestations), actions[..|actions| - 1]), actions[|actions| - 1]);
    }
  }

  /** In every interleaving, with any clock and any tokens: an operation and a proof reach the upstream at most once, by
      the dispatched records and by the admitted proofs themselves. */
  lemma DispatchedAtMostOnce(env: Env, admissions: nat, attestations: nat, actions: seq<Action>, i: nat, j: nat)
    requires i < j < |Run(env, Start(admissions, attestations), actions).dispatches|
    ensures var ds := Run(env, Start(admissions, attestations), actions).dispatches;
            && ds[i].record.operationId != ds[j].record.operationId
            && ds[i].record.proofDigest != ds[j].record.proofDigest
    ensures var g := Run(env, Start(admissions, attestations), actions);
            var a, b := g.dispatches[i].record.operationId, g.dispatches[j].record.operationId;
            && a in g.admitted && b in g.admitted
            && g.admitted[a].doc.proof.operationId != g.admitted[b].doc.proof.operationId
            && g.admitted[a].doc.proof.proofDigest != g.admitted[b].doc.proof.proofDigest
  {
    hide Run, SafeInv, Admit, Accepted;
    RunIsSafe(env, admissions, attestations, actions);
    var g := Run(env, Start(admissions, attestations), actions);
    DispatchesDiffer(env, g, i, j);
    AdmittedDigests(env, g, i);
    AdmittedDigests(env, g, j);
  }

  lemma DispatchesDiffer(env: Env, g: State, i: nat, j: nat)
    requires SafeInv(env, g) && i < j < |g.dispatches|
    ensures g.dispatches[i].record.operationId != g.dispatches[j].record.operationId
    ensures g.dispatches[i].record.proofDigest != g.dispatches[j].record.proofDigest
  {
    hide TokensOk, ThreadsOk, Backed, DispatchOk;
  }

  /** A dispatched record names the operation and carries the digest of the proof it was admitted for. */
  lemma AdmittedDigests(env: Env, g: State, i: nat)
    requires SafeInv(env, g) && i < |g.dispatches|
    ensures var r := g.dispatches[i].record;
            && r.operationId in g.admitted
            && g.admitted[r.operationId].doc.proof.operationId == r.operationId
            && g.admitted[r.operationId].doc.proof.proofDigest == Some(r.proofDigest)
  {
    hide TokensOk, ThreadsOk, DispatchOk, Clash, Admit, Accepted;
    var r := g.dispatches[i].record;
    assert Backed(env, g, r);
    var a := g.admitted[r.operationId];
    AdmitMeans(a.doc.proof, a.now, env.ttlSeconds);
  }

  /** Each dispatch goes to the target that was admitted, its last clock reading is before the admission's expiry,
      and at that reading the admitted proof still verifies. That proof has one evidence item per layer, all of one
      operation and subject, each accepted by its registered verifier when the proof was assessed. */
  lemma DispatchIsCovered(env: Env, admissions: nat, attestations: nat, actions: seq<Action>, i: nat)
    requires i < |Run(env, Start(admissions, attestations), actions).dispatches|
    ensures var g := Run(env, Start(admissions, attestations), actions);
            var d := g.dispatches[i];
            && env.target(d.request) == Some(d.record.targetDigest)
            && Parse(d.record.expiresAt).Some? && Compare(d.last, Parsed(d.record.expiresAt)) < 0
            && d.record.operationId in g.admitted
            && (var a := g.admitted[d.record.operationId];
                var p := a.doc.proof;
                && Admit(p, a.now, env.ttlSeconds) == Ok(d.record)
                && ValidAt(env.hash, p, d.last)
                && OneItemPerLayer(p.evidence, PRE_LAYERS) && OneSubject(p, p.subjectDigest)
                && p.subject.Some? && p.proofDigest.Some? && p.subjectDigest.Some?
                && env.target(d.request) == Some(p.subject.value.targetDigest)
                && d.record.operationId == p.operationId && d.record.proofDigest == p.proofDigest.value
                && d.record.subjectDigest == p.subjectDigest.value
                   && d.record.targetDigest == p.subject.value.targetDigest
                && AddSeconds(a.now, env.ttlSeconds).Some?
                && Compare(d.last, FromDateTime(AddSeconds(a.now, env.ttlSeconds).value)) < 0
                && ItemsAccepted(p.evidence, "PRE", p.operationId, p.proofDigest.value, None, env.registry, Direct,
                                 a.assessedAt))
  {
    hide Run, Clash, PhaseFacts, ValidAt, Admit, ProofExpiry, Compare, Parse, Assess, OneItemPerLayer, OneSubject;
    hide ItemsAccepted, FromDateTime, AddSeconds, CanonicalText, ValidDigest;
    RunIsSafe(env, admissions, attestations, actions);
    var g := Run(env, Start(admissions, attestations), actions);
    var d := g.dispatches[i];
    assert Backed(env, g, d.record) && DispatchOk(env, d);
    var a := g.admitted[d.record.operationId];
    CompareIsPreorder(d.last, Parsed(d.record.expiresAt), d.last);
    AcceptedParts(env.hash, a.doc, env.registry, a.assessedAt);
    FreshRecordMeansValidProof(env.hash, a.doc.proof, a.assessedAt, a.now, env.ttlSeconds, d.last);
    AdmitMeans(a.doc.proof, a.now, env.ttlSeconds);
    GrantedExpiry(a.doc.proof.evidence, a.now, env.ttlSeconds);
    CompareIsPreorder(d.last, Parsed(d.record.expiresAt), FromDateTime(AddSeconds(a.now, env.ttlSeconds).value));
    AcceptedPre(env.hash, a.doc, env.registry, a.assessedAt);
  }
}
