/** The order of lifecycle events in every run of the gateway with provenance installed. */
module AttestedGateway {
  import opened PyString
  import opened GatewayExpiry
  import opened GatewayStore
  import opened Attestations
  import opened AttestationStore
  import opened Provenance
  import opened AttestedStore
  import opened Gateway
  import opened GatewaySafety

  datatype Event = Event(kind: string, artifact: string)

  /** The governed events of a chain, in order; `proof_assessed` and foreign entries are skipped. */
  function Tracked(chain: seq<Signed>): seq<Event> {
    if chain == [] then []
    else
      var a := chain[|chain| - 1].attestation;
      Tracked(chain[..|chain| - 1])
      + (if a.artifactType in LIFECYCLE_TYPES then [Event(a.artifactType, a.artifactDigest)] else [])
  }

  function EventsIn(log: StoreState, op: string): seq<Event> { Tracked(Records(log, op)) }

  function Kinds(ev: seq<Event>): seq<string> { seq(|ev|, i requires 0 <= i < |ev| => ev[i].kind) }

  const UNSENT: seq<string> :=
    ["admission_created", "admission_consumed", "upstream_dispatch_prepared", "upstream_failed"]
  const COMPLETED: seq<string> :=
    ["admission_created", "admission_consumed", "upstream_dispatch_prepared", "upstream_dispatched",
     "upstream_completed"]
  const BROKEN: seq<string> :=
    ["admission_created", "admission_consumed", "upstream_dispatch_prepared", "upstream_dispatched", "upstream_failed"]

  /** A prefix of one of the three lives of an admission. */
  predicate Lifecycle(kinds: seq<string>) { kinds <= UNSENT || kinds <= COMPLETED || kinds <= BROKEN }

  /** The same, event by event. */
  ghost predicate InOrder(env: Env, ev: seq<Event>) {
    Ordered(ev) && OfOneRequest(env, ev)
  }

  predicate Ordered(ev: seq<Event>) {
    && |ev| <= 5
    && (|ev| > 0 ==> ev[0].kind == "admission_created")
    && (|ev| > 1 ==> ev[1].kind == "admission_consumed")
    && (|ev| > 2 ==> ev[2].kind == "upstream_dispatch_prepared")
    && (|ev| > 3 ==> ev[3].kind == "upstream_dispatched" || ev[3].kind == "upstream_failed")
    && (|ev| > 4 ==>
          && ev[3].kind == "upstream_dispatched"
          && (ev[4].kind == "upstream_completed" || ev[4].kind == "upstream_failed"))
  }

  /** What the events after the preparation say is about the request that was prepared: that very request was
      dispatched, its response was completed with some status, or it failed on the way or in the processing of the
      response. */
  ghost predicate OfOneRequest(env: Env, ev: seq<Event>) {
    && (|ev| > 3 ==>
          ev[3].artifact == (if ev[3].kind == "upstream_dispatched" then ev[2].artifact
                             else env.failureDigest(ev[2].artifact, "upstream_transport")))
    && (|ev| > 4 ==>
          if ev[4].kind == "upstream_completed" then
            exists status: int :: ev[4].artifact == env.completionDigest(ev[2].artifact, status)
          else
            || ev[4].artifact == env.failureDigest(ev[2].artifact, "response_processing")
            || ev[4].artifact == env.failureDigest(ev[2].artifact, "upstream_transport"))
  }

  lemma InOrderIsLifecycle(ev: seq<Event>)
    requires Ordered(ev)
    ensures Lifecycle(Kinds(ev))
  {
  }

  // ----- what the chain holds while a handler is in a phase -----

  function Created(r: AdmissionRecord): Event { Event("admission_created", r.targetDigest) }
  function ConsumedEvent(r: AdmissionRecord): Event { Event("admission_consumed", r.targetDigest) }
  function PreparedEvent(env: Env, q: HttpRequest): Event { Event("upstream_dispatch_prepared", env.requestDigest(q)) }
  function DispatchedEvent(env: Env, q: HttpRequest): Event { Event("upstream_dispatched", env.requestDigest(q)) }

  predicate Traced(p: Phase) { p.Reserved? || RecordOf(p).Some? }

  function TracedRecord(p: Phase): AdmissionRecord
    requires Traced(p)
  {
    p.record
  }

  /** The governed events of the handler's operation, exactly. */
  function Trace(env: Env, p: Phase): seq<Event>
    requires Traced(p)
  {
    if p.Reserved? then []
    else if p.Taken? then [Created(p.record)]
    else if p.Consumed? || p.Fresh? || p.Matched? || p.Cleared? then [Created(p.record), ConsumedEvent(p.record)]
    else
      [Created(p.record), ConsumedEvent(p.record), PreparedEvent(env, p.request)]
      + if p.Streaming? || (p.Failing? && p.dispatchedRecorded) then [DispatchedEvent(env, p.request)] else []
  }

  ghost predicate IsTraced(g: State, t: nat) { t in g.threads && Traced(g.threads[t]) }

  ghost function OpAt(g: State, t: nat): string
    requires IsTraced(g, t)
  {
    TracedRecord(g.threads[t]).operationId
  }

  /** A reservation whose token is not yet answered is still in the store, and nobody else's. */
  ghost predicate PendingOk(env: Env, g: State) {
    && (forall d | d in g.answered :: d in g.store.tokens)
    && (forall t | t in g.threads && g.threads[t].Reserved? ::
          var d := env.tokenDigest(g.threads[t].token);
          d in g.store.tokens && g.store.tokens[d] == g.threads[t].record && d !in g.answered)
    && (forall t, u | t in g.threads && u in g.threads && g.threads[t].Reserved? && g.threads[u].Reserved? && t != u ::
          env.tokenDigest(g.threads[t].token) != env.tokenDigest(g.threads[u].token))
  }

  ghost predicate EventsOk(env: Env, g: State) {
    && (forall op :: InOrder(env, EventsIn(g.log, op)))
    && (forall op | op !in g.store.operations :: EventsIn(g.log, op) == [])
    && (forall d | d in g.answered && d in g.store.tokens ::
          EventsIn(g.log, g.store.tokens[d].operationId) == [Created(g.store.tokens[d])])
    && (forall t | IsTraced(g, t) :: EventsIn(g.log, OpAt(g, t)) == Trace(env, g.threads[t]))
  }

  /** The consumed entry and the prepared entry for this very request are in the chain. */
  ghost predicate Announced(env: Env, g: State, d: Dispatch) {
    [Created(d.record), ConsumedEvent(d.record), PreparedEvent(env, d.request)] <= EventsIn(g.log, d.record.operationId)
  }

  ghost predicate LifeInv(env: Env, g: State) {
    && PendingOk(env, g) && EventsOk(env, g)
    && forall i | 0 <= i < |g.dispatches| :: Announced(env, g, g.dispatches[i])
  }

  // ----- recording -----

  /** An entry filed changes the events of its own operation only, by at most its own. */
  lemma FiledEvents(log: StoreState, s: Signed, op: string)
    ensures var a := s.attestation;
            EventsIn(Filed(log, s), op) ==
            if op == a.operationId && a.artifactType in LIFECYCLE_TYPES
            then EventsIn(log, op) + [Event(a.artifactType, a.artifactDigest)] else EventsIn(log, op)
  {
  }

  lemma LogEvents(env: Env, log: StoreState, want: Request, attempt: Attempt, op: string)
    ensures EventsIn(LogAfter(env, log, want, attempt), op) ==
            if op == want.operationId && want.eventType in LIFECYCLE_TYPES && Files(env, log, want, attempt)
            then EventsIn(log, op) + [Event(want.eventType, want.artifactDigest)] else EventsIn(log, op)
  {
    hide Append, EventsIn;
    if attempt.Handed? { FiledEvents(log, attempt.draft.signed, op); }
  }

  /** Whatever the recorder answers, the handler goes where its chain says. */
  lemma RecordKeepsTrace(env: Env, p: Phase, a: Action, log: StoreState, attempt: Attempt)
    requires env.attested && Wanted(env, p, a).Some? && IsRecording(a) && Traced(p)
    requires EventsIn(log, TracedRecord(p).operationId) == Trace(env, p)
    ensures var want := Wanted(env, p, a).value;
            var after := EventsIn(LogAfter(env, log, want, attempt), TracedRecord(p).operationId);
            var q := AfterRecord(p, a, OutcomeOf(env, log, want, attempt));
            && InOrder(env, after) && !q.Reserved? && want.operationId == TracedRecord(p).operationId
            && (Traced(q) ==> TracedRecord(q) == TracedRecord(p) && after == Trace(env, q))
  {
    hide EventsIn, LogAfter, Append, Answers;
    var want := Wanted(env, p, a).value;
    LogEvents(env, log, want, attempt, TracedRecord(p).operationId);
  }

  lemma CreatedKeepsTrace(env: Env, p: Phase, log: StoreState, attempt: Attempt)
    requires env.attested && p.Reserved? && EventsIn(log, p.record.operationId) == []
    ensures var want := CreatedRequest(p.record);
            var after := EventsIn(LogAfter(env, log, want, attempt), p.record.operationId);
            && InOrder(env, after)
            && (OutcomeOf(env, log, want, attempt).Done? ==> after == [Created(p.record)])
  {
    hide EventsIn, LogAfter, Append, Answers;
    LogEvents(env, log, CreatedRequest(p.record), attempt, p.record.operationId);
  }

  // ----- who owns an operation -----

  /** No two handlers, and no handler and answered token, are at one operation. */
  ghost predicate Owned(g: State) {
    && (forall t | IsTraced(g, t) :: OpAt(g, t) in g.store.operations)
    && (forall t, u | IsTraced(g, t) && IsTraced(g, u) && t != u :: OpAt(g, t) != OpAt(g, u))
    && (forall t, d | IsTraced(g, t) && d in g.answered && d in g.store.tokens ::
          g.store.tokens[d].operationId != OpAt(g, t))
  }

  lemma OpsAreOwned(env: Env, g: State)
    requires SafeInv(env, g) && PendingOk(env, g)
    ensures Owned(g)
  {
    hide AdmissionOk, DispatchOk, PhaseFacts, DispatchesOk;
    forall t | IsTraced(g, t) ensures OpAt(g, t) in g.store.operations {
      if !g.threads[t].Reserved? { assert Holds(g, t) && HeldBy(g, t) == TracedRecord(g.threads[t]); }
    }
    forall t, u | IsTraced(g, t) && IsTraced(g, u) && t != u ensures OpAt(g, t) != OpAt(g, u) {
      if !g.threads[t].Reserved? { assert Holds(g, t) && HeldBy(g, t) == TracedRecord(g.threads[t]); }
      if !g.threads[u].Reserved? { assert Holds(g, u) && HeldBy(g, u) == TracedRecord(g.threads[u]); }
    }
    forall t, d | IsTraced(g, t) && d in g.answered && d in g.store.tokens
      ensures g.store.tokens[d].operationId != OpAt(g, t)
    {
      if !g.threads[t].Reserved? { assert Holds(g, t) && HeldBy(g, t) == TracedRecord(g.threads[t]); }
    }
  }

  // ----- steps -----

  /** A step that touches the chain of one handler's operation at most, and that handler's phase. */
  ghost predicate OneChain(g: State, n: State, t: nat, op: string, q: Phase) {
    && n.store == g.store && n.dispatches == g.dispatches && n.threads == g.threads[t := q]
    && (forall o | o != op :: EventsIn(n.log, o) == EventsIn(g.log, o))
    && EventsIn(g.log, op) <= EventsIn(n.log, op)
  }

  lemma OneChainKeepsEvents(env: Env, g: State, n: State, t: nat, q: Phase)
    requires Owned(g) && EventsOk(env, g) && IsTraced(g, t) && n.answered == g.answered
    requires OneChain(g, n, t, OpAt(g, t), q)
    requires InOrder(env, EventsIn(n.log, OpAt(g, t)))
    requires Traced(q) ==> TracedRecord(q).operationId == OpAt(g, t) && EventsIn(n.log, OpAt(g, t)) == Trace(env, q)
    ensures EventsOk(env, n)
  {
  }

  lemma OneChainKeepsDispatches(env: Env, g: State, n: State, t: nat, op: string, q: Phase)
    requires OneChain(g, n, t, op, q) && forall i | 0 <= i < |g.dispatches| :: Announced(env, g, g.dispatches[i])
    ensures forall i | 0 <= i < |n.dispatches| :: Announced(env, n, n.dispatches[i])
  {
  }

  lemma PhaseKeepsPending(env: Env, g: State, n: State, t: nat, q: Phase)
    requires PendingOk(env, g) && n.store == g.store && n.answered == g.answered && n.threads == g.threads[t := q]
    requires !q.Reserved?
    ensures PendingOk(env, n)
  {
  }

  lemma LogIsOneChain(env: Env, g: State, n: State, t: nat, want: Request, attempt: Attempt, q: Phase)
    requires n.store == g.store && n.dispatches == g.dispatches && n.threads == g.threads[t := q]
    requires n.log == LogAfter(env, g.log, want, attempt)
    ensures OneChain(g, n, t, want.operationId, q)
  {
    hide EventsIn, LogAfter, Files;
    forall o ensures EventsIn(g.log, o) <= EventsIn(n.log, o)
      && (o != want.operationId ==> EventsIn(n.log, o) == EventsIn(g.log, o)) {
      LogEvents(env, g.log, want, attempt, o);
    }
  }

  lemma RecordStepLife(env: Env, g: State, a: Action)
    requires env.attested && SafeInv(env, g) && LifeInv(env, g) && IsRecording(a)
    ensures LifeInv(env, RecordStep(env, g, a, a.attempt))
  {
    hide SafeInv, InOrder, EventsIn, Trace, LogAfter, OutcomeOf, Announced, PendingOk, Owned;
    var p, n := PhaseOf(g, a.thread), RecordStep(env, g, a, a.attempt);
    if Wanted(env, p, a).Some? {
      var want := Wanted(env, p, a).value;
      var q := AfterRecord(p, a, OutcomeOf(env, g.log, want, a.attempt));
      OpsAreOwned(env, g);
      LogIsOneChain(env, g, n, a.thread, want, a.attempt, q);
      OneChainKeepsDispatches(env, g, n, a.thread, want.operationId, q);
      if a.RecordAssessed? {
        AssessedEvents(env, g, n, a);
      } else {
        assert IsTraced(g, a.thread);
        RecordKeepsTrace(env, p, a, g.log, a.attempt);
        PhaseKeepsPending(env, g, n, a.thread, q);
        OneChainKeepsEvents(env, g, n, a.thread, q);
      }
    }
  }

  lemma AssessedEvents(env: Env, g: State, n: State, a: Action)
    requires env.attested && LifeInv(env, g) && a.RecordAssessed? && n == RecordStep(env, g, a, a.attempt)
    ensures PendingOk(env, n) && EventsOk(env, n)
  {
    hide InOrder, EventsIn, Trace, LogAfter, OutcomeOf, Announced, Wanted, AfterRecord, PendingOk, EventsOk, Traced;
    var p := PhaseOf(g, a.thread);
    AssessedWants(env, p, a);
    if Wanted(env, p, a).Some? {
      var want := Wanted(env, p, a).value;
      AssessedNext(p, a, OutcomeOf(env, g.log, want, a.attempt));
      forall o ensures EventsIn(n.log, o) == EventsIn(g.log, o) { LogEvents(env, g.log, want, a.attempt, o); }
      UntracedLife(env, g, n, a.thread, n.threads[a.thread]);
    }
  }

  lemma AssessedWants(env: Env, p: Phase, a: Action)
    requires a.RecordAssessed?
    ensures Wanted(env, p, a).Some? ==> Wanted(env, p, a).value.eventType !in LIFECYCLE_TYPES
  {
  }

  lemma AssessedNext(p: Phase, a: Action, o: Outcome)
    requires a.RecordAssessed?
    ensures !Traced(AfterRecord(p, a, o))
  {
  }

  /** A handler that is not at an operation's chain can move about freely. */
  lemma UntracedLife(env: Env, g: State, n: State, t: nat, q: Phase)
    requires PendingOk(env, g) && EventsOk(env, g) && !Traced(q)
    requires n.store == g.store && n.answered == g.answered && n.threads == g.threads[t := q]
    requires forall o :: EventsIn(n.log, o) == EventsIn(g.log, o)
    ensures PendingOk(env, n) && EventsOk(env, n)
  {
    hide InOrder, EventsIn, Trace;
    forall u | IsTraced(n, u) ensures IsTraced(g, u) && OpAt(n, u) == OpAt(g, u) && n.threads[u] == g.threads[u] { }
  }

  lemma CreatedStepLife(env: Env, g: State, t: nat, attempt: Attempt)
    requires env.attested && SafeInv(env, g) && LifeInv(env, g)
    ensures LifeInv(env, CreatedStep(env, g, t, attempt))
  {
    hide SafeInv, InOrder, EventsIn, Trace, LogAfter, OutcomeOf, Announced, PendingOk, Owned;
    var p, n := PhaseOf(g, t), CreatedStep(env, g, t, attempt);
    if p.Reserved? {
      var want := CreatedRequest(p.record);
      OpsAreOwned(env, g);
      LogIsOneChain(env, g, n, t, want, attempt, Free);
      OneChainKeepsDispatches(env, g, n, t, want.operationId, Free);
      assert IsTraced(g, t) && EventsIn(g.log, OpAt(g, t)) == [] by { ReservedTrace(env, g, t); }
      CreatedKeepsTrace(env, p, g.log, attempt);
      var m := n.(answered := g.answered);
      PhaseKeepsPending(env, g, m, t, Free);
      OneChainKeepsEvents(env, g, m, t, Free);
      if n.answered != g.answered { AnswerLife(env, g, m, n, t); }
    }
  }

  lemma ReservedTrace(env: Env, g: State, t: nat)
    requires EventsOk(env, g) && t in g.threads && g.threads[t].Reserved?
    ensures IsTraced(g, t) && OpAt(g, t) == g.threads[t].record.operationId && EventsIn(g.log, OpAt(g, t)) == []
  {
  }

  lemma AnswerLife(env: Env, g: State, m: State, n: State, t: nat)
    requires PendingOk(env, g) && PendingOk(env, m) && EventsOk(env, m)
    requires t in g.threads && g.threads[t].Reserved? && m.store == g.store && m.threads == g.threads[t := Free]
    requires m.answered == g.answered
    requires n == m.(answered := m.answered + {env.tokenDigest(g.threads[t].token)})
    requires EventsIn(n.log, g.threads[t].record.operationId) == [Created(g.threads[t].record)]
    ensures PendingOk(env, n) && EventsOk(env, n)
  {
    hide EventsIn, InOrder, Trace;
    forall u | IsTraced(n, u) ensures IsTraced(m, u) && OpAt(n, u) == OpAt(m, u) { }
  }

  lemma ReserveStepLife(env: Env, g: State, t: nat, draws: seq<string>)
    requires env.attested && SafeInv(env, g) && LifeInv(env, g)
    ensures LifeInv(env, ReserveStep(env, g, t, draws))
  {
    hide SafeInv, InOrder, EventsIn, PendingOk, EventsOk, Announced, Reserve;
    var n, p := ReserveStep(env, g, t, draws), PhaseOf(g, t);
    if p.Reserving? {
      if Reserve(g.store, p.admission.record, draws, env.tokenDigest).Ok? {
        ReserveEvents(env, g, n, t, draws);
      } else {
        UntracedLife(env, g, n, t, Free);
      }
      DispatchesStay(env, g, n);
    }
  }

  lemma DispatchesStay(env: Env, g: State, n: State)
    requires n.log == g.log && n.dispatches == g.dispatches
    requires forall i | 0 <= i < |g.dispatches| :: Announced(env, g, g.dispatches[i])
    ensures forall i | 0 <= i < |n.dispatches| :: Announced(env, n, n.dispatches[i])
  {
  }

  lemma ReserveEvents(env: Env, g: State, n: State, t: nat, draws: seq<string>)
    requires PendingOk(env, g) && EventsOk(env, g)
    requires n == ReserveStep(env, g, t, draws) && PhaseOf(g, t).Reserving?
    requires Reserve(g.store, PhaseOf(g, t).admission.record, draws, env.tokenDigest).Ok?
    ensures PendingOk(env, n) && EventsOk(env, n)
  {
    hide InOrder, EventsIn, FirstFresh, UsableToken;
    var r := PhaseOf(g, t).admission.record;
    var token := Reserve(g.store, r, draws, env.tokenDigest).value.token;
    var d := env.tokenDigest(token);
    assert n.threads == g.threads[t := if UsableToken(token) then Reserved(r, token) else Free];
    assert d !in g.store.tokens && n.store.tokens == g.store.tokens[d := r];
    assert r.operationId !in g.store.operations && g.store.operations <= n.store.operations;
    hide ReserveStep, Reserve;
    ReservePending(env, g, n, t, r, d);
    forall u | IsTraced(n, u) && u != t ensures IsTraced(g, u) && OpAt(n, u) == OpAt(g, u) { }
    assert IsTraced(n, t) ==> OpAt(n, t) == r.operationId && n.threads[t].Reserved?;
  }

  lemma ReservePending(env: Env, g: State, n: State, t: nat, r: AdmissionRecord, d: string)
    requires PendingOk(env, g) && d !in g.store.tokens && n.store.tokens == g.store.tokens[d := r]
    requires n.answered == g.answered && t in n.threads && n.threads == g.threads[t := n.threads[t]]
    requires n.threads[t].Reserved? ==> n.threads[t].record == r && env.tokenDigest(n.threads[t].token) == d
    ensures PendingOk(env, n)
  {
  }

  lemma PresentStepLife(env: Env, g: State, t: nat, token: string)
    requires env.attested && SafeInv(env, g) && LifeInv(env, g)
    ensures LifeInv(env, PresentStep(env, g, t, token))
  {
    hide SafeInv, InOrder, EventsIn, PendingOk, EventsOk, Announced, CanonicalText;
    var n := PresentStep(env, g, t, token);
    if n != g {
      PresentEvents(env, g, n, t, env.tokenDigest(token));
      DispatchesStay(env, g, n);
    }
  }

  lemma PresentEvents(env: Env, g: State, n: State, t: nat, d: string)
    requires SafeInv(env, g) && PendingOk(env, g) && EventsOk(env, g)
    requires d in g.answered && d in g.store.tokens && PhaseOf(g, t).Free?
    requires n.store == g.store.(tokens := g.store.tokens - {d})
             && n.threads == g.threads[t := Taken(g.store.tokens[d])]
    requires n.answered == g.answered - {d} && n.log == g.log
    ensures PendingOk(env, n) && EventsOk(env, n)
  {
    hide SafeInv, InOrder, EventsIn;
    forall u | IsTraced(n, u) && u != t
      ensures IsTraced(g, u) && OpAt(n, u) == OpAt(g, u) && n.threads[u] == g.threads[u] { }
    assert IsTraced(n, t) && OpAt(n, t) == g.store.tokens[d].operationId;
    assert Trace(env, n.threads[t]) == [Created(g.store.tokens[d])];
    hide Trace;
  }

  lemma OpenStepLife(env: Env, g: State, t: nat)
    requires SafeInv(env, g) && LifeInv(env, g)
    ensures LifeInv(env, OpenStep(g, t))
  {
    hide SafeInv, InOrder, EventsIn, PendingOk, EventsOk;
    var n, p := OpenStep(g, t), PhaseOf(g, t);
    if p.Ready? {
      var q := Opening(p.record, p.request);
      SameTraceLife(env, g, n, t, q);
      ReadyTrace(env, g, t);
      forall i | 0 <= i < |n.dispatches| ensures Announced(env, n, n.dispatches[i]) {
        if i < |g.dispatches| { assert Announced(env, g, g.dispatches[i]) && n.dispatches[i] == g.dispatches[i]; }
      }
    }
  }

  lemma ReadyTrace(env: Env, g: State, t: nat)
    requires EventsOk(env, g) && t in g.threads && g.threads[t].Ready?
    ensures var p := g.threads[t];
            EventsIn(g.log, p.record.operationId) ==
            [Created(p.record), ConsumedEvent(p.record), PreparedEvent(env, p.request)]
  {
  }

  /** A handler that moves on at the same point of its chain. */
  predicate SameTrace(env: Env, p: Phase, q: Phase) {
    && !q.Reserved?
    && (Traced(q) ==>
          Traced(p) && !p.Reserved? && TracedRecord(q) == TracedRecord(p) && Trace(env, q) == Trace(env, p))
  }

  lemma SameTraceLife(env: Env, g: State, n: State, t: nat, q: Phase)
    requires PendingOk(env, g) && EventsOk(env, g) && SameTrace(env, PhaseOf(g, t), q)
    requires n.store == g.store && n.answered == g.answered && n.threads == g.threads[t := q] && n.log == g.log
    ensures PendingOk(env, n) && EventsOk(env, n)
  {
    hide InOrder, EventsIn, Trace;
    PhaseKeepsPending(env, g, n, t, q);
    forall u | IsTraced(n, u)
      ensures IsTraced(g, u) && OpAt(n, u) == OpAt(g, u) && Trace(env, n.threads[u]) == Trace(env, g.threads[u]) { }
  }

  lemma LocalKeepsTrace(env: Env, p: Phase, a: Action)
    requires !p.Reserved?
    ensures SameTrace(env, p, LocalNext(env, p, a))
  {
    hide RecordIsExpired;
  }

  /** The steps of a handler that leave the chain alone. */
  lemma QuietStepLife(env: Env, g: State, n: State, t: nat, q: Phase)
    requires LifeInv(env, g) && n == g.(threads := g.threads[t := q])
    requires SameTrace(env, PhaseOf(g, t), q) || q == PhaseOf(g, t)
    ensures LifeInv(env, n)
  {
    hide EventsOk, PendingOk, Announced, SameTrace;
    var p := PhaseOf(g, t);
    if t in g.threads && q == g.threads[t] {
      assert n.threads == g.threads;
    } else {
      assert SameTrace(env, p, q) by { FreeTrace(env); }
      SameTraceLife(env, g, n, t, q);
      DispatchesStay(env, g, n);
    }
  }

  lemma FreeTrace(env: Env)
    ensures SameTrace(env, Free, Free)
  {
  }

  lemma OtherStepLife(env: Env, g: State, attempt: Attempt)
    requires LifeInv(env, g)
    ensures LifeInv(env, OtherStep(env, g, attempt))
  {
    hide InOrder, EventsIn, Trace, Append;
    var n := OtherStep(env, g, attempt);
    if n.log != g.log {
      forall o ensures EventsIn(n.log, o) == EventsIn(g.log, o) { FiledEvents(g.log, attempt.draft.signed, o); }
      hide OtherStep;
      SameEvents(env, g, n);
      forall i | 0 <= i < |n.dispatches| ensures Announced(env, n, n.dispatches[i]) {
        assert Announced(env, g, g.dispatches[i]);
      }
    }
  }

  lemma SameEvents(env: Env, g: State, n: State)
    requires PendingOk(env, g) && EventsOk(env, g) && n.store == g.store && n.answered == g.answered
             && n.threads == g.threads
    requires forall o :: EventsIn(n.log, o) == EventsIn(g.log, o)
    ensures PendingOk(env, n) && EventsOk(env, n)
  {
  }

  lemma AssessKeepsTrace(env: Env, p: Phase, a: Action)
    requires a.AssessAndAdmit?
    ensures var q := AssessNext(env, p, a); SameTrace(env, p, q) || q == p
  {
    hide Accepted, Admit;
  }

  lemma StepKeepsLife(env: Env, g: State, a: Action)
    requires env.attested && SafeInv(env, g) && LifeInv(env, g)
    ensures LifeInv(env, Step(env, g, a))
  {
    hide SafeInv, LifeInv, SameTrace, ReserveStep, PresentStep, OpenStep, CreatedStep, RecordStep, OtherStep,
         AssessNext;
    var p, t := PhaseOf(g, a.thread), a.thread;
    if a.ReserveSlot? { ReserveStepLife(env, g, t, a.draws); }
    else if a.Present? { PresentStepLife(env, g, t, a.token); }
    else if a.OpenStream? { OpenStepLife(env, g, t); }
    else if a.RecordCreated? { CreatedStepLife(env, g, t, a.attempt); }
    else if IsRecording(a) { RecordStepLife(env, g, a); }
    else if a.OtherEvent? { OtherStepLife(env, g, a.attempt); }
    else if a.AssessAndAdmit? {
      AssessKeepsTrace(env, p, a);
      QuietStepLife(env, g, Step(env, g, a), t, AssessNext(env, p, a));
    } else {
      LocalStepTrace(env, p, a);
      QuietStepLife(env, g, Step(env, g, a), t, LocalNext(env, p, a));
    }
  }

  lemma LocalStepTrace(env: Env, p: Phase, a: Action)
    ensures SameTrace(env, p, LocalNext(env, p, a)) || LocalNext(env, p, a) == p
  {
    if p.Reserved? {
      hide RecordIsExpired;
    } else {
      LocalKeepsTrace(env, p, a);
    }
  }

  lemma {:induction false} RunKeepsLife(env: Env, admissions: nat, attestations: nat, actions: seq<Action>)
    requires env.attested
    ensures LifeInv(env, Run(env, Start(admissions, attestations), actions))
  {
    hide Step;
    if actions == [] {
      assert forall op :: EventsIn(Start(admissions, attestations).log, op) == [];
    } else {
      hide LifeInv, SafeInv;
      var n := |actions| - 1;
      RunKeepsLife(env, admissions, attestations, actions[..n]);
      RunIsSafe(env, admissions, attestations, actions[..n]);
      StepKeepsLife(env, Run(env, Start(admissions, attestations), actions[..n]), actions[n]);
    }
  }

  /** In every attested run the governed events of every operation are a prefix of created, consumed, prepared and
      then failed, or dispatched followed by completed or failed. */
  lemma EventsAreALifecycle(env: Env, admissions: nat, attestations: nat, actions: seq<Action>, op: string)
    requires env.attested
    ensures Lifecycle(Kinds(EventsIn(Run(env, Start(admissions, attestations), actions).log, op)))
  {
    hide Run, Ordered, OfOneRequest, Lifecycle, Kinds;
    RunKeepsLife(env, admissions, attestations, actions);
    assert InOrder(env, EventsIn(Run(env, Start(admissions, attestations), actions).log, op));
    InOrderIsLifecycle(EventsIn(Run(env, Start(admissions, attestations), actions).log, op));
  }

  /** And from the preparation on they are about one request. */
  lemma EventsTellTheRequest(env: Env, admissions: nat, attestations: nat, actions: seq<Action>, op: string)
    requires env.attested
    ensures OfOneRequest(env, EventsIn(Run(env, Start(admissions, attestations), actions).log, op))
  {
    hide Run, Ordered, OfOneRequest;
    RunKeepsLife(env, admissions, attestations, actions);
    assert InOrder(env, EventsIn(Run(env, Start(admissions, attestations), actions).log, op));
  }

  /** Every dispatch has its consumed entry, and a prepared entry with the digest of this very request, in the chain. */
  lemma DispatchIsAnnounced(env: Env, admissions: nat, attestations: nat, actions: seq<Action>, i: nat)
    requires env.attested && i < |Run(env, Start(admissions, attestations), actions).dispatches|
    ensures var g := Run(env, Start(admissions, attestations), actions);
            var d := g.dispatches[i];
            [Created(d.record), ConsumedEvent(d.record), PreparedEvent(env, d.request)]
            <= EventsIn(g.log, d.record.operationId)
  {
    hide Run, InOrder;
    RunKeepsLife(env, admissions, attestations, actions);
    var g := Run(env, Start(admissions, attestations), actions);
    assert Announced(env, g, g.dispatches[i]);
  }
}
