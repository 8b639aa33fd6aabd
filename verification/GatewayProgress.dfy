/** What the handlers get done: exactly when a token is handed out, and exactly when a request is dispatched. */
module GatewayProgress {
  import opened PyString
  import opened TimestampOrder
  import opened Rfc3339
  import opened Sdk
  import opened GatewayExpiry
  import opened GatewayStore
  import opened AttestationStore
  import opened Provenance
  import opened AttestedStore
  import opened Gateway

  // ----- one proxy request -----

  /** What a client sends with a token, the clock readings its handler makes, and how its two events fare. */
  datatype ProxyCall = ProxyCall(token: string, request: HttpRequest, first: DateTime, second: DateTime, last: DateTime,
                                 consumed: Attempt, prepared: Attempt)

  /** The steps of the proxy handler up to the dispatch. */
  function ProxySteps(t: nat, c: ProxyCall): seq<Action> {
    [Present(t, c.token), RecordConsumed(t, c.consumed), CheckFirst(t, c.first), ReadRequest(t, c.request),
     CheckSecond(t, c.second), RecordPrepared(t, c.prepared), CheckLast(t, c.last), OpenStream(t)]
  }

  predicate Unexpired(r: AdmissionRecord, now: DateTime) {
    Parse(r.expiresAt).Some? && Compare(FromDateTime(now), Parsed(r.expiresAt)) < 0
  }

  function PreparedRequest(env: Env, r: AdmissionRecord, q: HttpRequest): Request {
    DispatchRequest(env, "upstream_dispatch_prepared", r, q, "ADMISSION_CONSUMED", "UPSTREAM_DISPATCH_PREPARED")
  }

  /** Both events are recorded. Without provenance installed there is nothing to record. */
  ghost predicate EventsRecorded(env: Env, log: StoreState, r: AdmissionRecord, c: ProxyCall) {
    && OutcomeOf(env, log, ConsumedRequest(r), c.consumed).Done?
    && OutcomeOf(env, LogAfter(env, log, ConsumedRequest(r), c.consumed), PreparedRequest(env, r, c.request),
                 c.prepared).Done?
  }

  /** The token is canonical, outstanding and, with provenance installed, given to a client; its record is for this
      request and before its expiry at all three readings; and the events are recorded. */
  ghost predicate Dispatchable(env: Env, g: State, c: ProxyCall) {
    var d := env.tokenDigest(c.token);
    && CanonicalText(c.token) && d in g.store.tokens && (env.attested ==> d in g.answered)
    && (var r := g.store.tokens[d];
        && env.target(c.request) == Some(r.targetDigest)
        && Unexpired(r, c.first) && Unexpired(r, c.second) && Unexpired(r, c.last)
        && EventsRecorded(env, g.log, r, c))
  }

  lemma ExpiryOf(r: AdmissionRecord, now: DateTime)
    ensures RecordIsExpired(r, FromDateTime(now)) <==> !Unexpired(r, now)
  {
    hide Parse, Compare, FromDateTime;
    if Parse(r.expiresAt).Some? { CompareIsPreorder(FromDateTime(now), Parsed(r.expiresAt), FromDateTime(now)); }
  }

  /** A run step by step. */
  ghost function After(env: Env, g: State, steps: seq<Action>): State
    decreases |steps|
  {
    if steps == [] then g else After(env, Step(env, g, steps[0]), steps[1..])
  }

  lemma {:induction false} AfterIsRun(env: Env, g: State, steps: seq<Action>)
    ensures After(env, g, steps) == Run(env, g, steps)
    decreases |steps|
  {
    hide Step;
    if steps == [] {
    } else if |steps| == 1 {
      assert steps[..0] == [] && steps[1..] == [];
    } else {
      var n := |steps| - 1;
      assert steps[1..][..n - 1] == steps[..n][1..];
      AfterIsRun(env, Step(env, g, steps[0]), steps[1..]);
      AfterIsRun(env, g, steps[..n]);
      AfterIsRun(env, Step(env, g, steps[0]), steps[..n][1..]);
    }
  }

  /** The steps of one handler that has let go do nothing. */
  predicate Idles(a: Action, t: nat) { a.thread == t && !a.Present? && !a.AssessAndAdmit? && !a.OtherEvent? }

  lemma IdleStep(env: Env, g: State, a: Action, t: nat)
    requires PhaseOf(g, t).Free? && Idles(a, t)
    ensures var n := Step(env, g, a);
            && PhaseOf(n, t).Free? && n.dispatches == g.dispatches && n.store == g.store && n.answered == g.answered
  {
    hide LogAfter, OutcomeOf, RecordIsExpired;
  }

  lemma {:induction false} IdleSteps(env: Env, g: State, steps: seq<Action>, t: nat)
    requires PhaseOf(g, t).Free? && forall i | 0 <= i < |steps| :: Idles(steps[i], t)
    ensures var n := After(env, g, steps);
            n.dispatches == g.dispatches && n.store == g.store && n.answered == g.answered
    decreases |steps|
  {
    hide Step, PhaseOf, Idles;
    if steps == [] {
    } else {
      IdleStep(env, g, steps[0], t);
      assert forall i | 0 <= i < |steps| - 1 :: steps[1..][i] == steps[i + 1];
      IdleSteps(env, Step(env, g, steps[0]), steps[1..], t);
    }
  }

  /** What the rest of a proxy handler comes to: this dispatch, or none. */
  ghost predicate Ends(env: Env, g: State, steps: seq<Action>, d: Option<Dispatch>) {
    After(env, g, steps).dispatches == g.dispatches + (if d.Some? then [d.value] else [])
  }

  lemma OpenEnds(env: Env, g: State, t: nat, r: AdmissionRecord, q: HttpRequest, last: Stamp)
    requires PhaseOf(g, t) == Ready(r, q, last)
    ensures Ends(env, g, [OpenStream(t)], Some(Dispatch(r, q, last)))
  {
    var steps := [OpenStream(t)];
    assert steps[1..] == [];
    assert After(env, g, steps) == After(env, Step(env, g, steps[0]), []);
  }

  /** A step that leaves the dispatches alone does not change what the rest comes to. */
  lemma StepEnds(env: Env, g: State, steps: seq<Action>, d: Option<Dispatch>)
    requires steps != [] && Step(env, g, steps[0]).dispatches == g.dispatches
    requires Ends(env, Step(env, g, steps[0]), steps[1..], d)
    ensures Ends(env, g, steps, d)
  {
    hide Step;
  }

  lemma IdleEnds(env: Env, g: State, steps: seq<Action>, t: nat)
    requires PhaseOf(g, t).Free? && forall i | 0 <= i < |steps| :: Idles(steps[i], t)
    ensures Ends(env, g, steps, None)
  {
    hide After, PhaseOf, Idles;
    IdleSteps(env, g, steps, t);
  }

  lemma LastCheckEnds(env: Env, g: State, t: nat, c: ProxyCall, r: AdmissionRecord)
    requires PhaseOf(g, t) == Prepared(r, c.request)
    ensures Ends(env, g, ProxySteps(t, c)[6..],
                 if Unexpired(r, c.last) then Some(Dispatch(r, c.request, FromDateTime(c.last))) else None)
  {
    hide Ends, FromDateTime, Unexpired, RecordIsExpired;
    ExpiryOf(r, c.last);
    var steps := ProxySteps(t, c)[6..];
    var n := Step(env, g, steps[0]);
    assert steps[0] == CheckLast(t, c.last) && steps[1..] == [OpenStream(t)];
    if Unexpired(r, c.last) {
      OpenEnds(env, n, t, r, c.request, FromDateTime(c.last));
      StepEnds(env, g, steps, Some(Dispatch(r, c.request, FromDateTime(c.last))));
    } else {
      IdleEnds(env, n, steps[1..], t);
      StepEnds(env, g, steps, None);
    }
  }

  lemma PreparedEnds(env: Env, g: State, t: nat, c: ProxyCall, r: AdmissionRecord)
    requires PhaseOf(g, t) == Cleared(r, c.request)
    ensures Ends(env, g, ProxySteps(t, c)[5..],
                 if OutcomeOf(env, g.log, PreparedRequest(env, r, c.request), c.prepared).Done? && Unexpired(r, c.last)
                 then Some(Dispatch(r, c.request, FromDateTime(c.last))) else None)
  {
    hide Ends, FromDateTime, Unexpired, RecordIsExpired, OutcomeOf, LogAfter, DispatchRequest;
    var steps := ProxySteps(t, c)[5..];
    var n := Step(env, g, steps[0]);
    assert steps[0] == RecordPrepared(t, c.prepared) && steps[1..] == ProxySteps(t, c)[6..];
    if OutcomeOf(env, g.log, PreparedRequest(env, r, c.request), c.prepared).Done? {
      LastCheckEnds(env, n, t, c, r);
      StepEnds(env, g, steps,
               if Unexpired(r, c.last) then Some(Dispatch(r, c.request, FromDateTime(c.last))) else None);
    } else {
      IdleEnds(env, n, steps[1..], t);
      StepEnds(env, g, steps, None);
    }
  }

  lemma MatchedEnds(env: Env, g: State, t: nat, c: ProxyCall, r: AdmissionRecord)
    requires PhaseOf(g, t) == Fresh(r)
    ensures Ends(env, g, ProxySteps(t, c)[3..],
                 if env.target(c.request) == Some(r.targetDigest) && Unexpired(r, c.second)
                    && OutcomeOf(env, g.log, PreparedRequest(env, r, c.request), c.prepared).Done?
                       && Unexpired(r, c.last)
                 then Some(Dispatch(r, c.request, FromDateTime(c.last))) else None)
  {
    hide Ends, FromDateTime, Unexpired, RecordIsExpired, OutcomeOf, DispatchRequest;
    ExpiryOf(r, c.second);
    var steps := ProxySteps(t, c)[3..];
    var one := Step(env, g, steps[0]);
    assert steps[0] == ReadRequest(t, c.request) && steps[1..] == ProxySteps(t, c)[4..];
    if env.target(c.request) == Some(r.targetDigest) {
      var two := Step(env, one, CheckSecond(t, c.second));
      assert steps[1..][0] == CheckSecond(t, c.second) && steps[1..][1..] == ProxySteps(t, c)[5..];
      if Unexpired(r, c.second) {
        PreparedEnds(env, two, t, c, r);
        var d := if OutcomeOf(env, g.log, PreparedRequest(env, r, c.request), c.prepared).Done? && Unexpired(r, c.last)
                 then Some(Dispatch(r, c.request, FromDateTime(c.last))) else None;
        StepEnds(env, one, steps[1..], d);
        StepEnds(env, g, steps, d);
      } else {
        IdleEnds(env, two, steps[1..][1..], t);
        StepEnds(env, one, steps[1..], None);
        StepEnds(env, g, steps, None);
      }
    } else {
      IdleEnds(env, one, steps[1..], t);
      StepEnds(env, g, steps, None);
    }
  }

  lemma TakenEnds(env: Env, g: State, t: nat, c: ProxyCall, r: AdmissionRecord)
    requires PhaseOf(g, t) == Taken(r)
    ensures Ends(env, g, ProxySteps(t, c)[1..],
                 if env.target(c.request) == Some(r.targetDigest)
                    && Unexpired(r, c.first) && Unexpired(r, c.second) && Unexpired(r, c.last)
                    && EventsRecorded(env, g.log, r, c)
                 then Some(Dispatch(r, c.request, FromDateTime(c.last))) else None)
  {
    hide Ends, FromDateTime, Unexpired, RecordIsExpired, OutcomeOf, LogAfter, DispatchRequest, ConsumedRequest;
    ExpiryOf(r, c.first);
    var steps := ProxySteps(t, c)[1..];
    var one := Step(env, g, steps[0]);
    assert steps[0] == RecordConsumed(t, c.consumed) && steps[1..] == ProxySteps(t, c)[2..];
    if OutcomeOf(env, g.log, ConsumedRequest(r), c.consumed).Done? {
      var two := Step(env, one, CheckFirst(t, c.first));
      assert steps[1..][0] == CheckFirst(t, c.first) && steps[1..][1..] == ProxySteps(t, c)[3..];
      if Unexpired(r, c.first) {
        MatchedEnds(env, two, t, c, r);
        var d := if env.target(c.request) == Some(r.targetDigest) && Unexpired(r, c.second) && Unexpired(r, c.last)
                    && EventsRecorded(env, g.log, r, c)
                 then Some(Dispatch(r, c.request, FromDateTime(c.last))) else None;
        StepEnds(env, one, steps[1..], d);
        StepEnds(env, g, steps, d);
      } else {
        IdleEnds(env, two, steps[1..][1..], t);
        StepEnds(env, one, steps[1..], None);
        StepEnds(env, g, steps, None);
      }
    } else {
      IdleEnds(env, one, steps[1..], t);
      StepEnds(env, g, steps, None);
    }
  }

  /** From any state, a free handler that runs through its steps dispatches the request, with the record of the token
      and its last reading, exactly when the token is good, the request is the one admitted, no reading is too late
      and the events are recorded. Otherwise it dispatches nothing. */
  lemma ProxyDispatches(env: Env, g: State, t: nat, c: ProxyCall)
    requires PhaseOf(g, t).Free?
    ensures Run(env, g, ProxySteps(t, c)).dispatches
            == g.dispatches
               + (if Dispatchable(env, g, c)
                  then [Dispatch(g.store.tokens[env.tokenDigest(c.token)], c.request, FromDateTime(c.last))] else [])
  {
    hide FromDateTime, Unexpired, EventsRecorded, CanonicalText, Run;
    var steps := ProxySteps(t, c);
    var one := Step(env, g, steps[0]);
    AfterIsRun(env, g, steps);
    var d := env.tokenDigest(c.token);
    assert steps[0] == Present(t, c.token);
    if CanonicalText(c.token) && d in g.store.tokens && (env.attested ==> d in g.answered) {
      var r := g.store.tokens[d];
      TakenEnds(env, one, t, c, r);
      StepEnds(env, g, steps,
               if Dispatchable(env, g, c) then Some(Dispatch(r, c.request, FromDateTime(c.last))) else None);
    } else {
      IdleEnds(env, one, steps[1..], t);
      StepEnds(env, g, steps, None);
    }
  }

  // ----- one admission -----

  /** A document handed in, the readings its handler makes, the draws of the token source, and how its events fare. */
  datatype AdmissionCall = AdmissionCall(doc: Submission, assessedAt: Stamp, now: DateTime, draws: seq<string>,
                                         assessed: Attempt, created: Attempt)

  function AdmissionSteps(t: nat, c: AdmissionCall): seq<Action> {
    [AssessAndAdmit(t, c.doc, c.assessedAt, c.now), RecordAssessed(t, c.assessed), ReserveSlot(t, c.draws),
     RecordCreated(t, c.created)]
  }

  /** The document is accepted and admitted, its first event is recorded, and the store grants a token. */
  ghost predicate Grantable(env: Env, g: State, c: AdmissionCall) {
    && Assess(env.hash, c.doc, Some(env.registry), c.assessedAt).accepted
    && Admit(c.doc.proof, c.now, env.ttlSeconds).Ok?
    && (var r := Admit(c.doc.proof, c.now, env.ttlSeconds).value;
        && OutcomeOf(env, g.log, AssessedRequest(r), c.assessed).Done?
        && Reserve(g.store, r, c.draws, env.tokenDigest).Ok?)
  }

  /** The token of a granted admission can be handed out, and its second event is recorded. */
  ghost predicate Answerable(env: Env, g: State, c: AdmissionCall)
    requires Grantable(env, g, c)
  {
    var r := Admit(c.doc.proof, c.now, env.ttlSeconds).value;
    && UsableToken(Reserve(g.store, r, c.draws, env.tokenDigest).value.token)
    && OutcomeOf(env, LogAfter(env, g.log, AssessedRequest(r), c.assessed), CreatedRequest(r), c.created).Done?
  }

  /** From any state, a free handler that runs through its steps takes a slot exactly when the document is accepted and
      admitted, its event recorded, and the store grants it; and hands the token out exactly when it is usable and its
      creation recorded. Otherwise it changes neither the store nor who has a token. */
  lemma AdmissionAnswers(env: Env, g: State, t: nat, c: AdmissionCall)
    requires PhaseOf(g, t).Free?
    ensures var n := Run(env, g, AdmissionSteps(t, c));
            if !Grantable(env, g, c) then n.store == g.store && n.answered == g.answered
            else
              var done := Reserve(g.store, Admit(c.doc.proof, c.now, env.ttlSeconds).value, c.draws,
                                  env.tokenDigest).value;
              && n.store == done.state && PhaseOf(n, t).Free?
              && n.answered == g.answered + (if Answerable(env, g, c) then {env.tokenDigest(done.token)} else {})
  {
    hide Assess, Admit, Reserve, UsableToken, OutcomeOf, LogAfter, AssessedRequest, CreatedRequest;
    var steps := AdmissionSteps(t, c);
    AfterIsRun(env, g, steps);
    var one := Step(env, g, steps[0]);
    var two := Step(env, one, steps[1]);
    var three := Step(env, two, steps[2]);
    AfterFour(env, g, steps);
    if Assess(env.hash, c.doc, Some(env.registry), c.assessedAt).accepted
      && Admit(c.doc.proof, c.now, env.ttlSeconds).Ok? {
      var r := Admit(c.doc.proof, c.now, env.ttlSeconds).value;
      var a := Admission(c.doc, c.assessedAt, c.now, r);
      assert PhaseOf(one, t) == Assessed(a) && one.store == g.store && one.answered == g.answered && one.log == g.log;
      if OutcomeOf(env, g.log, AssessedRequest(r), c.assessed).Done? {
        assert PhaseOf(two, t) == Reserving(a) && two.store == g.store && two.answered == g.answered;
        assert two.log == LogAfter(env, g.log, AssessedRequest(r), c.assessed);
        ReserveEnds(env, two, t, a, c);
      } else {
        FreeEnds(env, two, t, c);
      }
    } else {
      IdleStep(env, one, steps[1], t);
      FreeEnds(env, two, t, c);
    }
  }

  lemma AfterFour(env: Env, g: State, s: seq<Action>)
    requires |s| == 4
    ensures After(env, g, s) == Step(env, Step(env, Step(env, Step(env, g, s[0]), s[1]), s[2]), s[3])
  {
    hide Step;
    var one := Step(env, g, s[0]);
    var two := Step(env, one, s[1]);
    var three := Step(env, two, s[2]);
    assert s[1..][0] == s[1] && s[1..][1..] == s[2..] && s[2..][0] == s[2] && s[2..][1..] == s[3..]
      && s[3..][1..] == [];
    assert After(env, g, s) == After(env, one, s[1..]) == After(env, two, s[2..]) == After(env, three, s[3..]);
    assert After(env, three, s[3..]) == After(env, Step(env, three, s[3]), []);
  }

  lemma FreeEnds(env: Env, g: State, t: nat, c: AdmissionCall)
    requires PhaseOf(g, t).Free?
    ensures var n := Step(env, Step(env, g, ReserveSlot(t, c.draws)), RecordCreated(t, c.created));
            n.store == g.store && n.answered == g.answered
  {
    IdleStep(env, g, ReserveSlot(t, c.draws), t);
    IdleStep(env, Step(env, g, ReserveSlot(t, c.draws)), RecordCreated(t, c.created), t);
  }

  lemma ReserveEnds(env: Env, g: State, t: nat, a: Admission, c: AdmissionCall)
    requires PhaseOf(g, t) == Reserving(a)
    ensures var n := Step(env, Step(env, g, ReserveSlot(t, c.draws)), RecordCreated(t, c.created));
            match Reserve(g.store, a.record, c.draws, env.tokenDigest)
            case Err(_) => n.store == g.store && n.answered == g.answered
            case Ok(done) =>
              && n.store == done.state && PhaseOf(n, t).Free?
              && n.answered
                 == g.answered + (if UsableToken(done.token)
                                     && OutcomeOf(env, g.log, CreatedRequest(a.record), c.created).Done?
                                  then {env.tokenDigest(done.token)} else {})
  {
    hide Reserve, UsableToken, OutcomeOf, LogAfter, CreatedRequest;
    assert g.answered + {} == g.answered;
  }

  // ----- from admission to dispatch -----

  /** End to end, without provenance: an accepted document that is admitted and granted a usable token gets its request
      dispatched, with the record made of it, when the token is presented for the admitted target in time. */
  lemma AdmittedRequestIsDispatched(env: Env, g: State, t: nat, a: AdmissionCall, c: ProxyCall)
    requires !env.attested && PhaseOf(g, t).Free? && Grantable(env, g, a)
    requires var done := Reserve(g.store, Admit(a.doc.proof, a.now, env.ttlSeconds).value, a.draws,
                                 env.tokenDigest).value;
             c.token == done.token && CanonicalText(done.token)
    requires a.doc.proof.subject.Some? && env.target(c.request) == Some(a.doc.proof.subject.value.targetDigest)
    requires var r := Admit(a.doc.proof, a.now, env.ttlSeconds).value;
             Unexpired(r, c.first) && Unexpired(r, c.second) && Unexpired(r, c.last)
    ensures var r := Admit(a.doc.proof, a.now, env.ttlSeconds).value;
            var admitted := Run(env, g, AdmissionSteps(t, a));
            Run(env, admitted, ProxySteps(t, c)).dispatches
            == admitted.dispatches + [Dispatch(r, c.request, FromDateTime(c.last))]
  {
    hide Assess, Admit, Reserve, UsableToken, Run, Unexpired, FromDateTime, CanonicalText;
    var r := Admit(a.doc.proof, a.now, env.ttlSeconds).value;
    var admitted := Run(env, g, AdmissionSteps(t, a));
    AdmissionAnswers(env, g, t, a);
    AdmitMeans(a.doc.proof, a.now, env.ttlSeconds);
    ReserveGranted(g.store, r, a.draws, env.tokenDigest);
    ProxyDispatches(env, admitted, t, c);
  }
}
