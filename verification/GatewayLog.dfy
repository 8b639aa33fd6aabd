/** The provenance log of a gateway run is made of verifiable chains. */
module GatewayLog {
  import opened PyString
  import opened Rfc3339
  import opened Attestations
  import opened AttestationStore
  import opened Provenance
  import opened Gateway

  function AttemptOf(a: Action): Option<Attempt> {
    if IsRecording(a) || a.RecordCreated? || a.OtherEvent? then Some(a.attempt) else None
  }

  /** What is handed to the provenance store has passed the recorder's own checks, at a reading not after `bound`. */
  ghost predicate Genuine(h: AttestationHash, verifiers: Verifiers, a: Action, bound: DateTime) {
    AttemptOf(a).Some? && AttemptOf(a).value.Handed? ==>
      DraftOk(h, verifiers, AttemptOf(a).value.draft) && AttemptOf(a).value.draft.now <= bound
  }

  ghost predicate AllGenuine(h: AttestationHash, verifiers: Verifiers, actions: seq<Action>, bound: DateTime) {
    forall i | 0 <= i < |actions| :: Genuine(h, verifiers, actions[i], bound)
  }

  ghost predicate LogInv(h: AttestationHash, verifiers: Verifiers, log: StoreState, bound: DateTime) {
    StoreInv(h, log) && EntriesTrusted(h, verifiers, log, bound)
  }

  lemma FiledKeepsLog(h: AttestationHash, verifiers: Verifiers, log: StoreState, d: Draft, bound: DateTime)
    requires RegistryOk(verifiers) && LogInv(h, verifiers, log, bound)
    requires DraftOk(h, verifiers, d) && d.now <= bound
    requires Append(h, log, d.signed, d.sequence, d.previous).Ok?
    ensures LogInv(h, verifiers, Filed(log, d.signed), bound)
  {
    hide StoreInv, EntriesTrusted, DraftOk, Append, RegistryOk, Filed, FromDateTime;
    AppendGrants(h, log, d);
    AppendKeepsInv(h, log, d.signed, d.sequence, d.previous);
    DraftTrusted(h, verifiers, d, bound);
    FiledTrusted(h, verifiers, log, d.signed, bound);
  }

  /** A step leaves the log as it was, or files one entry that was handed over and granted. */
  lemma LogStep(env: Env, g: State, a: Action)
    ensures var log := Step(env, g, a).log;
            || log == g.log
            || (&& AttemptOf(a).Some? && AttemptOf(a).value.Handed?
                && var d := AttemptOf(a).value.draft;
                   && Append(env.attestationHash, g.log, d.signed, d.sequence, d.previous).Ok?
                      && log == Filed(g.log, d.signed))
  {
    hide Append, Filed, Wanted, AfterRecord, LocalNext, AssessNext, OutcomeOf, Answers;
  }

  lemma StepKeepsLog(env: Env, verifiers: Verifiers, g: State, a: Action, bound: DateTime)
    requires RegistryOk(verifiers) && LogInv(env.attestationHash, verifiers, g.log, bound)
    requires Genuine(env.attestationHash, verifiers, a, bound)
    ensures LogInv(env.attestationHash, verifiers, Step(env, g, a).log, bound)
  {
    hide Step, Append, Filed, LogInv, DraftOk, RegistryOk;
    LogStep(env, g, a);
    if Step(env, g, a).log != g.log {
      FiledKeepsLog(env.attestationHash, verifiers, g.log, AttemptOf(a).value.draft, bound);
    }
  }

  lemma {:induction false} RunKeepsLog(env: Env, verifiers: Verifiers, admissions: nat, attestations: nat,
                                       actions: seq<Action>, bound: DateTime)
    requires RegistryOk(verifiers) && AllGenuine(env.attestationHash, verifiers, actions, bound)
    ensures LogInv(env.attestationHash, verifiers, Run(env, Start(admissions, attestations), actions).log, bound)
  {
    hide Step, Genuine, RegistryOk;
    if actions == [] {
      EmptyStore(env.attestationHash, attestations);
    } else {
      hide LogInv;
      var n := |actions| - 1;
      assert forall i | 0 <= i < n :: actions[..n][i] == actions[i];
      RunKeepsLog(env, verifiers, admissions, attestations, actions[..n], bound);
      StepKeepsLog(env, verifiers, Run(env, Start(admissions, attestations), actions[..n]), actions[n], bound);
    }
  }

  /** After every run in which only checked entries reach the provenance store, every chain in the log is valid for the
      independent chain verifier, at every instant not before the recorders' readings. */
  lemma GatewayChainsAreValid(env: Env, verifiers: Verifiers, admissions: nat, attestations: nat, actions: seq<Action>,
                              bound: DateTime, op: string)
    requires RegistryOk(verifiers) && AllGenuine(env.attestationHash, verifiers, actions, bound)
    requires op in Run(env, Start(admissions, attestations), actions).log.records
    ensures var chain := Run(env, Start(admissions, attestations), actions).log.records[op];
            ChainValid(env.attestationHash, chain, verifiers, Expected(Some(op), None, None), FromDateTime(bound))
  {
    hide Run, AllGenuine, RegistryOk, StoreInv, EntriesTrusted, ChainValid;
    RunKeepsLog(env, verifiers, admissions, attestations, actions, bound);
    HeldChainIsValid(env.attestationHash, verifiers, Run(env, Start(admissions, attestations), actions).log, bound, op);
  }
}
